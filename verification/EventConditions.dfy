/** When the races happen: for every execution, the exact condition in terms of what
    was committed between two steps of a call. */
module EventConditions {
  import opened Common
  import opened EventTable
  import opened EventJournal
  import opened EventStore
  import opened EventProtocol
  import opened EventGuarantees
  import opened EventRaces

  // --- what every step keeps -----------------------------------------------------------

  /** A step is one statement, if only one that does nothing. */
  function StatementOf(s: System, l: Label): Statement {
    match l
    case Start(_) => Read
    case Elapse(elapsed) => Tick(elapsed)
    case Retain(keepDays) => Prune(keepDays)
    case Advance(c) => if c < |s.calls| then NextStatement(s.calls[c]) else Read
  }

  lemma StepIsStatement(s: System, l: Label)
    ensures Step(s, l).journal == Do(s.journal, StatementOf(s, l))
  {
    assert s.journal.archive + [] == s.journal.archive && s.journal.log + [] == s.journal.log;
  }

  /** Later states have all that was logged, and their clock is not behind. */
  lemma {:induction false} LogsExtend(s: System, ls: seq<Label>)
    requires Sound(s)
    ensures var u := RunFrom(s, ls);
            Sound(u) && s.journal.log <= u.journal.log && s.journal.table.now <= u.journal.table.now
  {
    if ls != [] {
      var before := RunFrom(s, ls[..|ls| - 1]);
      LogsExtend(s, ls[..|ls| - 1]);
      StepKeepsSound(before, ls[|ls| - 1]);
      StepIsStatement(before, ls[|ls| - 1]);
      ExecKeepsOk(before.journal.table, StatementOf(before, ls[|ls| - 1]));
    }
  }

  /** A call that was not stepped is where it was; one that was is not there any more. */
  lemma {:induction false} CallStays(s: System, ls: seq<Label>, c: nat)
    requires c < |s.calls| && (Asks(s.calls[c]) || Inserts(s.calls[c]))
    ensures var u := RunFrom(s, ls); c < |u.calls| && (u.calls[c] == s.calls[c] || HasMovedOn(s.calls[c], u.calls[c]))
  {
    if ls != [] {
      CallStays(s, ls[..|ls| - 1], c);
      StepMovesOn(RunFrom(s, ls[..|ls| - 1]), ls[|ls| - 1], s.calls[c], c);
    }
  }

  predicate Asks(call: Call) {
    call.Closing? && |call.todo| == 1
  }

  predicate Inserts(call: Call) {
    call.Raising? && call.point.AtInsert?
  }

  /** Where a resolve of one signature, or a raise past its insert, can be. */
  predicate HasMovedOn(call: Call, next: Call) {
    if call.Closing? then
      || next.CloseDone? || (next.Closing? && next.todo == [])
      || (next.Telling? && next.rest.Closing? && next.rest.todo == [])
    else next.Announcing? || next.RaiseDone? || (next.Raising? && next.point.AtBumpAgain?)
  }

  lemma StepMovesOn(s: System, l: Label, call: Call, c: nat)
    requires c < |s.calls| && (Asks(call) || Inserts(call)) && (s.calls[c] == call || HasMovedOn(call, s.calls[c]))
    ensures c < |Step(s, l).calls| && (Step(s, l).calls[c] == call || HasMovedOn(call, Step(s, l).calls[c]))
  {
  }

  // --- resolve_id ---------------------------------------------------------------------------

  /** Another episode of the signature was raised. */
  predicate IsOtherEpisode(e: Entry, sig: Signature, id: nat) {
    e.Raised? && e.row.sig == sig && e.row.id != id
  }

  ghost predicate OtherEpisodeSince(log: seq<Entry>, sig: Signature, id: nat, mark: nat) {
    exists k :: mark <= k < |log| && IsOtherEpisode(log[k], sig, id)
  }

  /** Since the mark the newest row of the signature is the one with the id, until
      another episode is raised; then it is a later one. */
  ghost predicate EpisodeIs(j: Journal, sig: Signature, id: nat, mark: nat) {
    var n := LastIndex(j.table.rows, AnyOf(sig));
    && mark <= |j.log| && id < j.table.nextId
    && (n >= 0 ==>
          if OtherEpisodeSince(j.log, sig, id, mark) then j.table.rows[n].id > id else j.table.rows[n].id == id)
  }

  lemma OtherEpisodeOneMore(log: seq<Entry>, e: Entry, sig: Signature, id: nat, mark: nat)
    requires mark <= |log|
    ensures OtherEpisodeSince(log + [e], sig, id, mark) <==>
            OtherEpisodeSince(log, sig, id, mark) || IsOtherEpisode(e, sig, id)
  {
    if OtherEpisodeSince(log, sig, id, mark) {
      var k :| mark <= k < |log| && IsOtherEpisode(log[k], sig, id);
      assert (log + [e])[k] == log[k];
    }
    assert (log + [e])[|log|] == e;
  }

  lemma EpisodeIsStable(j: Journal, st: Statement, sig: Signature, id: nat, mark: nat)
    requires Ok(j.table) && EpisodeIs(j, sig, id, mark)
    ensures EpisodeIs(Do(j, st), sig, id, mark)
  {
    if st.Prune? {
      assert Do(j, st).log == j.log;
      NewestAfterPrune(j.table, Cutoff(j.table, st.keepDays), sig);
    } else if Exec(j.table, st).row.Some? {
      CommittedEpisodeIs(j, st, sig, id, mark);
    } else {
      assert Do(j, st).log == j.log && Do(j, st).table.rows == j.table.rows;
    }
  }

  lemma CommittedEpisodeIs(j: Journal, st: Statement, sig: Signature, id: nat, mark: nat)
    requires Ok(j.table) && EpisodeIs(j, sig, id, mark) && Exec(j.table, st).row.Some?
    ensures EpisodeIs(Do(j, st), sig, id, mark)
  {
    var e := Noted(st, Exec(j.table, st).row)[0];
    CommitShape(j, st);
    StatementEffect(j.table, st);
    NewestAfterCommit(j.table, st, sig);
    OtherEpisodeOneMore(j.log, e, sig, id, mark);
  }

  lemma {:induction false} EpisodeIsKept(s: System, ls: seq<Label>, sig: Signature, id: nat, mark: nat)
    requires Sound(s) && EpisodeIs(s.journal, sig, id, mark)
    ensures EpisodeIs(RunFrom(s, ls).journal, sig, id, mark)
  {
    if ls != [] {
      var front, l := ls[..|ls| - 1], ls[|ls| - 1];
      EpisodeIsKept(s, front, sig, id, mark);
      LogsExtend(s, front);
      StepIsStatement(RunFrom(s, front), l);
      EpisodeIsStable(RunFrom(s, front).journal, StatementOf(RunFrom(s, front), l), sig, id, mark);
    }
  }

  /** What selecting an id finds: the one row, if it is open. */
  lemma IdIsSelected(t: Table, id: nat, r: Row)
    requires Ok(t) && r in t.rows && r.id == id && r.Open()
    ensures Selected(t.rows, t.now, ById(id)) == [r.sig] && LatestFor(t, r.sig) == Some(r)
  {
    var k :| 0 <= k < |t.rows| && t.rows[k] == r;
    OpenIsUnique(t, r.sig, k);
    OpenIsNewest(t, r.sig);
    SelectedHasPicked(t.rows, t.now, ById(id), k);
    ByIdSelectsOne(t, id);
  }

  lemma {:induction false} SelectedHasPicked(rows: seq<Row>, now: Time, s: Selection, k: nat)
    requires k < |rows| && Picks(s, rows[k], now)
    ensures rows[k].sig in Selected(rows, now, s)
  {
    if k < |rows| - 1 {
      SelectedHasPicked(rows[..|rows| - 1], now, s, k);
    }
  }

  /** In every execution: between the read and the resolve of resolve_id, if the
      signature is open then, its open row is a later one than the one asked for
      exactly when another episode of it was raised since the read.  That row is the
      one the resolve closes. */
  lemma ResolveIdClosesALaterEpisodeIff(now: Time, before: seq<Label>, after: seq<Label>, c: nat, id: nat, r: Row)
    requires var s := Execution(now, before);
             && c < |s.calls| && s.calls[c].Selecting? && s.calls[c].pick == ById(id)
             && r in s.journal.table.rows && r.id == id && r.Open()
    requires IsOpen(Execution(now, before + [Advance(c)] + after).journal.table, r.sig)
    ensures var s, u := Execution(now, before), Execution(now, before + [Advance(c)] + after);
            var o := OpenFor(u.journal.table, r.sig).value;
            && (o.id != id <==> OtherEpisodeSince(u.journal.log, r.sig, id, |s.journal.log|))
            && c < |u.calls|
            && (u.calls[c].Closing? && u.calls[c].todo != [] ==>
                  Advanced(u, c).journal.log ==
                  u.journal.log + [Resolved(Closed(o, u.journal.table.now, s.calls[c].actor, s.calls[c].note))])
  {
    var s := Execution(now, before);
    EveryExecutionIsSound(now, before);
    TwoParts(now, before, c, after);
    AdvanceKeepsSound(s, c);
    IdIsRead(s, c, id, r);
    EpisodeIsKept(Advanced(s, c), after, r.sig, id, |s.journal.log|);
    LogsExtend(Advanced(s, c), after);
    OpenEpisodeIs(RunFrom(Advanced(s, c), after).journal, r.sig, id, |s.journal.log|);
    CallStays(Advanced(s, c), after, c);
    if RunFrom(Advanced(s, c), after).calls[c] == Advanced(s, c).calls[c] {
      NextIsResolved(RunFrom(Advanced(s, c), after), c, r.sig);
    }
  }

  lemma IdIsRead(s: System, c: nat, id: nat, r: Row)
    requires Sound(s) && c < |s.calls| && s.calls[c].Selecting? && s.calls[c].pick == ById(id)
    requires r in s.journal.table.rows && r.id == id && r.Open()
    ensures var call := s.calls[c];
            Advanced(s, c).calls[c] == Closing([r.sig], call.actor, call.note, 0, Unguarded, Unwatched)
    ensures Advanced(s, c).journal == s.journal && EpisodeIs(s.journal, r.sig, id, |s.journal.log|)
  {
    ReadChangesNothing(s.journal);
    IdIsSelected(s.journal.table, id, r);
    NothingYet(s.journal.log, r.sig, id);
  }

  lemma ReadChangesNothing(j: Journal)
    ensures Do(j, Read) == j
  {
    assert j.archive + [] == j.archive && j.log + [] == j.log;
  }

  lemma NothingYet(log: seq<Entry>, sig: Signature, id: nat)
    ensures !OtherEpisodeSince(log, sig, id, |log|)
  {
  }

  lemma OpenEpisodeIs(j: Journal, sig: Signature, id: nat, mark: nat)
    requires Ok(j.table) && EpisodeIs(j, sig, id, mark) && IsOpen(j.table, sig)
    ensures OpenFor(j.table, sig).value.id != id <==> OtherEpisodeSince(j.log, sig, id, mark)
  {
    OpenIsNewest(j.table, sig);
  }

  lemma NextIsResolved(s: System, c: nat, sig: Signature)
    requires c < |s.calls| && s.calls[c].Closing? && s.calls[c].todo == [sig] && IsOpen(s.journal.table, sig)
    ensures Advanced(s, c).journal.log ==
            s.journal.log + [Resolved(Closed(OpenFor(s.journal.table, sig).value, s.journal.table.now,
                                             s.calls[c].actor, s.calls[c].note))]
  {
  }

  lemma TwoParts(now: Time, before: seq<Label>, c: nat, after: seq<Label>)
    requires c < |Execution(now, before).calls|
    ensures Execution(now, before + [Advance(c)] + after) == RunFrom(Advanced(Execution(now, before), c), after)
  {
    RunInTwoParts(Initial(now), before + [Advance(c)], after);
    assert (before + [Advance(c)])[..|before|] == before;
  }

  // --- episodes closer than the window ----------------------------------------------------------

  predicate IsYoungResolve(e: Entry, sig: Signature, cutoff: Time) {
    e.Resolved? && e.row.sig == sig && At(e) > cutoff
  }

  /** Since the mark the signature was resolved, less than a window ago. */
  ghost predicate ResolvedWithin(log: seq<Entry>, sig: Signature, mark: nat, cutoff: Time) {
    exists k :: mark <= k < |log| && IsYoungResolve(log[k], sig, cutoff)
  }

  /** A signature without a row gets one only by news. */
  lemma {:induction false} NoRowWithoutNews(s: System, ls: seq<Label>, sig: Signature, mark: nat)
    requires Sound(s) && mark <= |s.journal.log| && LatestFor(s.journal.table, sig) == None
    ensures NewsSince(RunFrom(s, ls).journal.log, sig, mark) || LatestFor(RunFrom(s, ls).journal.table, sig) == None
  {
    if ls != [] {
      var front, l := ls[..|ls| - 1], ls[|ls| - 1];
      var j, st := RunFrom(s, front).journal, StatementOf(RunFrom(s, front), l);
      NoRowWithoutNews(s, front, sig, mark);
      LogsExtend(s, front);
      StepIsStatement(RunFrom(s, front), l);
      LatestIsStable(j, st, sig, mark);
      if NewsSince(j.log, sig, mark) {
        NewsIsStable(j, st, sig, mark);
      }
    }
  }

  ghost predicate IsYoungIffResolved(j: Journal, sig: Signature, mark: nat, cutoff: Time) {
    var latest := LatestFor(j.table, sig);
    latest.Some? ==> (latest.value.Since() > cutoff <==> ResolvedWithin(j.log, sig, mark, cutoff))
  }

  /** Where the re-open found nothing to take, the newest row of a closed signature is
      younger than the window exactly when it was resolved since. */
  lemma YoungIffResolvedSince(s: System, ls: seq<Label>, report: Report, window: int)
    requires Sound(s) && Exec(s.journal.table, Reopen(report, window)).row == None
    requires !IsOpen(RunFrom(s, ls).journal.table, report.Sig())
    ensures var j := RunFrom(s, ls).journal;
            IsYoungIffResolved(j, report.Sig(), |s.journal.log|, j.table.now - window * SECOND)
  {
    var j, sig := RunFrom(s, ls).journal, report.Sig();
    LogsExtend(s, ls);
    if LatestFor(j.table, sig).Some? {
      if LatestFor(j.table, sig).value.Since() > j.table.now - window * SECOND {
        YoungIsResolved(s, ls, report, window);
      } else {
        OldIsNotResolved(j, sig, |s.journal.log|, j.table.now - window * SECOND);
      }
    }
  }

  lemma OldIsNotResolved(j: Journal, sig: Signature, mark: nat, cutoff: Time)
    requires Good(j) && LatestFor(j.table, sig).Some? && !IsOpen(j.table, sig)
    requires LatestFor(j.table, sig).value.Since() <= cutoff
    ensures !ResolvedWithin(j.log, sig, mark, cutoff)
  {
    if ResolvedWithin(j.log, sig, mark, cutoff) {
      ResolvedIsYoung(j, sig, mark, cutoff);
    }
  }

  lemma ResolvedIsYoung(j: Journal, sig: Signature, mark: nat, cutoff: Time)
    requires Good(j) && LatestFor(j.table, sig).Some? && !IsOpen(j.table, sig)
    requires ResolvedWithin(j.log, sig, mark, cutoff)
    ensures LatestFor(j.table, sig).value.Since() > cutoff
  {
    var k :| mark <= k < |j.log| && IsYoungResolve(j.log[k], sig, cutoff);
    assert IsNewsOf(j.log[k], sig);
    var i := LastNewsAt(j.log, sig, k);
    assert Linked(j, sig) && At(j.log[k]) <= At(j.log[i]);
  }

  lemma YoungIsResolved(s: System, ls: seq<Label>, report: Report, window: int)
    requires Sound(s) && Exec(s.journal.table, Reopen(report, window)).row == None
    requires var j, sig := RunFrom(s, ls).journal, report.Sig();
             && Good(j) && s.journal.log <= j.log && s.journal.table.now <= j.table.now
             && !IsOpen(j.table, sig) && LatestFor(j.table, sig).Some?
             && LatestFor(j.table, sig).value.Since() > j.table.now - window * SECOND
    ensures var j := RunFrom(s, ls).journal;
            ResolvedWithin(j.log, report.Sig(), |s.journal.log|, j.table.now - window * SECOND)
  {
    var j, sig, mark := RunFrom(s, ls).journal, report.Sig(), |s.journal.log|;
    LatestNewsIsResolve(j, sig);
    if NewsSince(j.log, sig, mark) {
      var k := LastNewsAt(j.log, sig, mark);
      assert IsYoungResolve(j.log[k], sig, j.table.now - window * SECOND);
    } else {
      LastNewsSince(j.log, sig, mark);
      assert j.log[..mark] == s.journal.log;
      if LatestFor(s.journal.table, sig) == None {
        NoRowWithoutNews(s, ls, sig, mark);
      } else {
        LatestIsLogged(s.journal, sig);
        OldRowIsOld(s.journal.table, report, window);
      }
    }
  }

  lemma LatestIsLogged(j: Journal, sig: Signature)
    requires Good(j) && LatestFor(j.table, sig).Some?
    ensures LastNews(j.log, sig).Some? && SameEpisode(LastNews(j.log, sig).value, LatestFor(j.table, sig).value)
  {
    assert Linked(j, sig);
  }

  /** The newest row of a closed signature carries the time of the last resolve. */
  lemma LatestNewsIsResolve(j: Journal, sig: Signature)
    requires Good(j) && LatestFor(j.table, sig).Some? && !IsOpen(j.table, sig)
    ensures LastNews(j.log, sig).Some? && LastNews(j.log, sig).value.Resolved?
    ensures At(LastNews(j.log, sig).value) == LatestFor(j.table, sig).value.Since()
  {
    LatestIsLogged(j, sig);
    OpenIsNewest(j.table, sig);
  }

  lemma OldRowIsOld(t: Table, report: Report, window: int)
    requires Ok(t) && Exec(t, Reopen(report, window)).row == None
    ensures var latest := LatestFor(t, report.Sig());
            latest.Some? && !latest.value.Open() ==> latest.value.Since() <= t.now - window * SECOND
  {
    ReopenPicksNewest(t, report.Sig(), window);
  }

  /** The call is about to insert, nobody holds the signature open, and so far episodes
      are a window apart. */
  ghost predicate IsAccepted(u: System, c: nat, sig: Signature, window: int) {
    && c < |u.calls| && Inserts(u.calls[c])
    && !IsOpen(u.journal.table, sig) && Spaced(u.journal.table.rows, window)
  }

  /** The insert appends its row; the spacing breaks exactly when the signature still
      has a row and was resolved, less than a window ago, after the mark. */
  ghost predicate BreaksIffResolvedWithin(u: System, c: nat, report: Report, window: int, mark: nat)
    requires c < |u.calls|
  {
    var t, next := u.journal.table, Advanced(u, c).journal.table;
    && next.rows == t.rows + [Fresh(t.nextId, t.now, report)]
    && (!Spaced(next.rows, window) <==>
          LatestFor(t, report.Sig()).Some? &&
          ResolvedWithin(u.journal.log, report.Sig(), mark, t.now - window * SECOND))
  }

  /** In every execution: an insert that is accepted after the call's re-open found
      nothing breaks the spacing of episodes exactly when the signature still has a row
      and was resolved, less than a window ago, after that re-open. */
  lemma InsertBreaksSpacingIff(now: Time, before: seq<Label>, after: seq<Label>, c: nat, report: Report, window: int,
                               guard: Guard)
    requires var s := Execution(now, before);
             && c < |s.calls| && s.calls[c] == Raising(AtReopen, report, window, guard)
             && Exec(s.journal.table, Reopen(report, window)).row == None
    requires IsAccepted(Execution(now, before + [Advance(c)] + after), c, report.Sig(), window)
    ensures BreaksIffResolvedWithin(Execution(now, before + [Advance(c)] + after), c, report, window,
                                    |Execution(now, before).journal.log|)
  {
    EveryExecutionIsSound(now, before);
    TwoParts(now, before, c, after);
    InsertAfterReopen(Execution(now, before), after, c, report, window, guard);
  }

  /** The same from any sound state. */
  lemma InsertAfterReopen(s: System, after: seq<Label>, c: nat, report: Report, window: int, guard: Guard)
    requires Sound(s) && c < |s.calls| && s.calls[c] == Raising(AtReopen, report, window, guard)
    requires Exec(s.journal.table, Reopen(report, window)).row == None
    requires IsAccepted(RunFrom(Advanced(s, c), after), c, report.Sig(), window)
    ensures BreaksIffResolvedWithin(RunFrom(Advanced(s, c), after), c, report, window, |s.journal.log|)
  {
    AdvanceKeepsSound(s, c);
    NothingToReopen(s, c, report, window, guard);
    InsertAfter(Advanced(s, c), after, c, report, window, guard);
  }

  lemma InsertAfter(s: System, after: seq<Label>, c: nat, report: Report, window: int, guard: Guard)
    requires Sound(s) && c < |s.calls| && s.calls[c] == Raising(AtInsert, report, window, guard)
    requires Exec(s.journal.table, Reopen(report, window)).row == None
    requires IsAccepted(RunFrom(s, after), c, report.Sig(), window)
    ensures BreaksIffResolvedWithin(RunFrom(s, after), c, report, window, |s.journal.log|)
  {
    StillClosed(RunFrom(s, after), c, report.Sig(), window);
    StillInserts(s, after, c);
    LaterIsGood(s, after);
    YoungIffResolvedSince(s, after, report, window);
    InsertBreaks(RunFrom(s, after), c, report, window, |s.journal.log|);
  }

  lemma LaterIsGood(s: System, ls: seq<Label>)
    requires Sound(s)
    ensures Good(RunFrom(s, ls).journal)
  {
    LogsExtend(s, ls);
  }

  lemma StillInserts(s: System, after: seq<Label>, c: nat)
    requires c < |s.calls| && Inserts(s.calls[c])
    requires c < |RunFrom(s, after).calls| && Inserts(RunFrom(s, after).calls[c])
    ensures RunFrom(s, after).calls[c] == s.calls[c]
  {
    CallStays(s, after, c);
  }

  lemma StillClosed(u: System, c: nat, sig: Signature, window: int)
    requires IsAccepted(u, c, sig, window)
    ensures c < |u.calls| && Inserts(u.calls[c]) && !IsOpen(u.journal.table, sig)
  {
  }

  lemma InsertBreaks(u: System, c: nat, report: Report, window: int, mark: nat)
    requires Good(u.journal) && IsAccepted(u, c, report.Sig(), window) && u.calls[c].report == report
    requires IsYoungIffResolved(u.journal, report.Sig(), mark, u.journal.table.now - window * SECOND)
    ensures BreaksIffResolvedWithin(u, c, report, window, mark)
  {
    InsertAppends(u, c, report, window);
  }

  lemma NothingToReopen(s: System, c: nat, report: Report, window: int, guard: Guard)
    requires c < |s.calls| && s.calls[c] == Raising(AtReopen, report, window, guard)
    requires Exec(s.journal.table, Reopen(report, window)).row == None
    ensures Advanced(s, c).journal == s.journal
    ensures Advanced(s, c).calls[c] == Raising(AtInsert, report, window, guard)
  {
    assert s.journal.archive + [] == s.journal.archive && s.journal.log + [] == s.journal.log;
  }

  lemma InsertAppends(s: System, c: nat, report: Report, window: int)
    requires Good(s.journal) && c < |s.calls| && s.calls[c].Raising? && s.calls[c].point.AtInsert?
    requires s.calls[c].report == report && !IsOpen(s.journal.table, report.Sig())
    requires Spaced(s.journal.table.rows, window)
    ensures var t := s.journal.table; var latest := LatestFor(t, report.Sig());
            && Advanced(s, c).journal.table.rows == t.rows + [Fresh(t.nextId, t.now, report)]
            && (!Spaced(Advanced(s, c).journal.table.rows, window) <==>
                  latest.Some? && latest.value.Since() > t.now - window * SECOND)
  {
    AppendKeepsSpacedIff(s.journal.table, report, window);
    OpenIsNewest(s.journal.table, report.Sig());
  }
}
