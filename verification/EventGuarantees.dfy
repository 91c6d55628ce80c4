/** What the event store promises over whole executions, and the races in which
    a promise made for single calls does not survive interleaving. */
module EventGuarantees {
  import opened Common
  import opened EventTable
  import opened EventJournal
  import opened EventStore
  import opened EventProtocol

  // --- exactly once ---------------------------------------------------------------

  /** No hook is outstanding. */
  ghost predicate Quiet(calls: seq<Call>) {
    forall c :: 0 <= c < |calls| ==> !calls[c].Announcing? && !calls[c].Telling?
  }

  lemma {:induction false} QuietOwesNothing(calls: seq<Call>, p: Probe)
    requires Quiet(calls)
    ensures Owed(calls, p) == 0
  {
    if calls != [] {
      QuietOwesNothing(calls[..|calls| - 1], p);
    }
  }

  /** Once no hook is outstanding, every raise and resolve has run its hook
      exactly once, on_raised ran once per episode and per return to it, and
      on_resolved ran for all but the open ones. */
  lemma HooksRunExactlyOnce(now: Time, ls: seq<Label>, sig: Signature)
    requires Quiet(Execution(now, ls).calls)
    ensures var s := Execution(now, ls);
            && (forall e: Entry :: !e.Repeated? ==> Times(s.fired, Exactly(e)) == Times(s.journal.log, Exactly(e)))
            && Raises(s.fired, sig) == Total(Episodes, sig, s.journal.table.rows) + Total(Episodes, sig,
                s.journal.archive)
            && Resolves(s.fired, sig) == Raises(s.fired, sig) - Total(Openings, sig, s.journal.table.rows)
  {
    var s := Execution(now, ls);
    EveryExecutionIsSound(now, ls);
    assert Balanced(s.journal, sig);
    forall p
      ensures Owed(s.calls, p) == 0
    {
      QuietOwesNothing(s.calls, p);
    }
    assert IsNewsProbe(RaisesOf(sig)) && IsNewsProbe(ResolvesOf(sig));
    forall e: Entry | !e.Repeated?
      ensures Times(s.fired, Exactly(e)) == Times(s.journal.log, Exactly(e))
    {
      assert IsNewsProbe(Exactly(e));
    }
  }

  /** In every reachable state the counts on the rows, deleted ones included, add
      up to the raise_event calls that found, re-opened or made a row; raises and
      resolves alternate; and one signature has at most one open row, its newest. */
  lemma EveryReportIsCountedOnce(now: Time, ls: seq<Label>, sig: Signature)
    ensures var s := Execution(now, ls); var rows := s.journal.table.rows;
            && Total(Reports, sig, rows) + Total(Reports, sig, s.journal.archive) == Landed(s.calls, sig)
            && Alternates(s.journal.log)
            && Total(Openings, sig, rows) == (if IsOpen(s.journal.table, sig) then 1 else 0)
            && (IsOpen(s.journal.table, sig) ==> OpenFor(s.journal.table, sig) == LatestFor(s.journal.table, sig))
            && (forall i, j :: 0 <= i < j < |rows| && rows[i].sig == rows[j].sig ==>
                  rows[i].resolvedAt.Some? && rows[i].resolvedAt.value <= rows[j].raisedAt)
  {
    var s := Execution(now, ls);
    var rows := s.journal.table.rows;
    EveryExecutionIsSound(now, ls);
    assert Balanced(s.journal, sig);
    OpenIsNewest(s.journal.table, sig);
    OpeningsAreZeroOrOne(rows, sig);
    assert Ordered(rows);
    forall i, j | 0 <= i < j < |rows| && rows[i].sig == rows[j].sig
      ensures rows[i].resolvedAt.Some? && rows[i].resolvedAt.value <= rows[j].raisedAt
    {
      assert InOrder(rows[i], rows[j]);
    }
  }

  lemma {:induction false} OpeningsAreZeroOrOne(rows: seq<Row>, sig: Signature)
    requires Ordered(rows)
    ensures Total(Openings, sig, rows) == if LastIndex(rows, OpenOf(sig)) >= 0 then 1 else 0
  {
    if rows != [] {
      var front, last := rows[..|rows| - 1], rows[|rows| - 1];
      OpeningsAreZeroOrOne(front, sig);
      var k := LastIndex(front, OpenOf(sig));
      assert k >= 0 ==> InOrder(rows[k], rows[|rows| - 1]);
    }
  }

  // --- polls -------------------------------------------------------------------------

  function GuardOf(call: Call): Guard {
    match call
    case Raising(_, _, _, g) => g
    case Closing(_, _, _, _, g, _) => g
    case _ => Unguarded
  }

  /** When a guarded call of the reconciler changes a signature, and the signature did
      not change since the call's own check, it last changed no later than the
      poll's stamp.  For a poll older than the check, newer news is reversed exactly
      when it was made after the check. */
  lemma PollNeverReversesNewerNews(now: Time, ls: seq<Label>, c: nat, e: Entry)
    requires var s := Execution(now, ls);
             c < |s.calls| && GuardOf(s.calls[c]).Guarded? && !e.Repeated?
             && Advanced(s, c).journal.log == s.journal.log + [e]
    ensures var s := Execution(now, ls);
            var g := GuardOf(s.calls[c]);
            var latest := LatestFor(s.journal.table, e.row.sig);
            latest.Some? ==>
              && (!NewsSince(s.journal.log, e.row.sig, g.mark) ==> latest.value.Since() <= g.stamp)
              && (g.stamp < g.taken ==>
                  (latest.value.Since() > g.stamp <==> NewsSince(s.journal.log, e.row.sig, g.mark)))
  {
    var s := Execution(now, ls);
    EveryExecutionIsSound(now, ls);
    GuardHoldsAtNews(s.journal, s.calls[c], e);
    if NewsSince(s.journal.log, e.row.sig, GuardOf(s.calls[c]).mark) {
      NewsAfterMarkIsNew(s.journal, e.row.sig, GuardOf(s.calls[c]));
    }
  }

  /** The guard still holds when the call is about to make news. */
  lemma GuardHoldsAtNews(j: Journal, call: Call, e: Entry)
    requires Good(j) && CallGuarded(j, call) && GuardOf(call).Guarded? && !e.Repeated?
    requires Do(j, NextStatement(call)).log == j.log + [e]
    ensures GuardHolds(j, e.row.sig, GuardOf(call))
  {
    var st := NextStatement(call);
    NotedIs(j, st, e);
    StatementEffect(j.table, st);
    assert Linked(j, e.row.sig);
    if call.Raising? {
      assert e.row.sig == call.report.Sig();
    }
  }

  lemma NotedIs(j: Journal, st: Statement, e: Entry)
    requires Do(j, st).log == j.log + [e]
    ensures Noted(st, Exec(j.table, st).row) == [e]
  {
    var noted := Noted(st, Exec(j.table, st).row);
    CommitShape(j, st);
    assert |noted| == 1;
    assert noted[0] == (j.log + noted)[|j.log|] && e == (j.log + [e])[|j.log|];
  }

  /** What changed since the check is newer than a stamp older than the check. */
  lemma NewsAfterMarkIsNew(j: Journal, sig: Signature, g: Guard)
    requires Good(j) && g.Guarded? && IsPast(j, g.mark, g.taken) && NewsSince(j.log, sig, g.mark)
    ensures LatestFor(j.table, sig).Some? ==> LatestFor(j.table, sig).value.Since() >= g.taken
  {
    var k := LastNewsAt(j.log, sig, g.mark);
    assert Linked(j, sig);
  }

  lemma {:induction false} LastNewsAt(log: seq<Entry>, sig: Signature, mark: nat) returns (k: nat)
    requires NewsSince(log, sig, mark)
    ensures mark <= k < |log| && LastNews(log, sig) == Some(log[k]) && IsNewsOf(log[k], sig)
  {
    var n := |log| - 1;
    if IsNewsOf(log[n], sig) {
      k := n;
    } else {
      var i :| mark <= i < |log| && IsNewsOf(log[i], sig);
      assert IsNewsOf(log[..n][i], sig);
      k := LastNewsAt(log[..n], sig, mark);
    }
  }

  // --- expire --------------------------------------------------------------------------

  /** A report of the signature, committed after the mark, that is younger than the
      time to live. */
  ghost predicate FreshReportSince(log: seq<Entry>, sig: Signature, mark: nat, oldest: Time) {
    exists k :: mark <= k < |log| && IsReportOf(log[k], sig) && At(log[k]) >= oldest
  }

  /** expire closes an event that is not stale exactly when the event was reported,
      within its time to live, after expire took its list. */
  lemma ExpireClosesFreshIffReported(now: Time, ls: seq<Label>, c: nat)
    requires var s := Execution(now, ls);
             c < |s.calls| && s.calls[c].Closing? && s.calls[c].watch.Watched? && s.calls[c].todo != []
             && IsOpen(s.journal.table, s.calls[c].todo[0])
    ensures var s := Execution(now, ls); var w := s.calls[c].watch; var sig := s.calls[c].todo[0];
            var r := OpenFor(s.journal.table, sig).value; var oldest := s.journal.table.now - w.ttl * SECOND;
            && (r.lastSeenAt >= oldest <==> FreshReportSince(s.journal.log, sig, w.mark, oldest))
            && Advanced(s, c).journal.log == s.journal.log + [Resolved(Closed(r, s.journal.table.now, s.calls[c].actor,
                s.calls[c].note))]
  {
    var s := Execution(now, ls);
    var call := s.calls[c];
    EveryExecutionIsSound(now, ls);
    assert CallWatched(s.journal, call);
    assert call.todo[0] in call.todo;
    LastSeenIsLastReport(s.journal, call.todo[0], call.watch, s.journal.table.now - call.watch.ttl * SECOND);
  }

  lemma LastSeenIsLastReport(j: Journal, sig: Signature, w: Watch, oldest: Time)
    requires Good(j) && w.Watched? && StaleOrTouched(j, sig, w) && IsOpen(j.table, sig) &&
             oldest == j.table.now - w.ttl * SECOND
    ensures OpenFor(j.table, sig).value.lastSeenAt >= oldest <==> FreshReportSince(j.log, sig, w.mark, oldest)
  {
    OpenIsNewest(j.table, sig);
    assert Seen(j, sig);
    if ReportSince(j.log, sig, w.mark) {
      var k := LastReportAt(j.log, sig, w.mark);
      assert OpenFor(j.table, sig).value.lastSeenAt == At(j.log[k]);
      if i :| w.mark <= i < |j.log| && IsReportOf(j.log[i], sig) && At(j.log[i]) >= oldest {
        assert At(j.log[i]) <= At(j.log[k]);
      }
    }
  }

  lemma {:induction false} LastReportAt(log: seq<Entry>, sig: Signature, mark: nat) returns (k: nat)
    requires ReportSince(log, sig, mark)
    ensures mark <= k < |log| && LastReport(log, sig) == Some(log[k]) && IsReportOf(log[k], sig)
    ensures forall i :: mark <= i < |log| && IsReportOf(log[i], sig) ==> i <= k
  {
    var n := |log| - 1;
    if IsReportOf(log[n], sig) {
      k := n;
    } else {
      var i :| mark <= i < |log| && IsReportOf(log[i], sig);
      assert IsReportOf(log[..n][i], sig);
      k := LastReportAt(log[..n], sig, mark);
      assert forall i :: mark <= i < |log| && IsReportOf(log[i], sig) ==> i < n && IsReportOf(log[..n][i], sig);
    }
  }

  // --- raises that return nothing -------------------------------------------------------

  /** The latest news of the signature since the mark is a resolve. */
  ghost predicate ResolvedSince(log: seq<Entry>, sig: Signature, mark: nat) {
    NewsSince(log, sig, mark) && LastNews(log, sig).Some? && LastNews(log, sig).value.Resolved?
  }

  /** A call whose insert was refused returns nothing exactly when the latest news of
      its signature since that refusal is a resolve; otherwise it returns the row it bumps. */
  lemma EmptyReturnIffResolvedSince(now: Time, ls: seq<Label>, c: nat)
    requires var s := Execution(now, ls); c < |s.calls| && s.calls[c].Raising? && s.calls[c].point.AtBumpAgain?
    ensures var s := Execution(now, ls); var call := s.calls[c]; var next := Advanced(s, c).calls[c];
            && next.RaiseDone? && next.report == call.report && !next.news
            && (next.result == None <==> ResolvedSince(s.journal.log, call.report.Sig(), call.point.refused))
  {
    var s := Execution(now, ls);
    EveryExecutionIsSound(now, ls);
    BumpAgainFindsNothingIff(s.journal, s.calls[c]);
    OnlyTheLastBumpIsEmpty(s.calls[c], s.journal.table, |s.journal.log|);
  }

  lemma BumpAgainFindsNothingIff(j: Journal, call: Call)
    requires Good(j) && CallRefused(j, call) && call.Raising? && call.point.AtBumpAgain?
    ensures Exec(j.table, NextStatement(call)).row == None <==>
              ResolvedSince(j.log, call.report.Sig(), call.point.refused)
  {
    OpenIffLogged(j, call.report.Sig());
    OpenUnlessResolvedSince(j.log, call.report.Sig(), call.point.refused);
    BumpFindsOpen(j.table, call);
  }

  lemma BumpFindsOpen(t: Table, call: Call)
    requires call.Raising? && call.point.AtBumpAgain?
    ensures Exec(t, NextStatement(call)).row.Some? <==> IsOpen(t, call.report.Sig())
  {
  }

  lemma OpenUnlessResolvedSince(log: seq<Entry>, sig: Signature, mark: nat)
    requires mark <= |log| && OpenAfter(log[..mark], sig)
    ensures OpenAfter(log, sig) <==> !ResolvedSince(log, sig, mark)
  {
    LastNewsSince(log, sig, mark);
  }

  lemma OpenIffLogged(j: Journal, sig: Signature)
    requires Good(j)
    ensures IsOpen(j.table, sig) <==> OpenAfter(j.log, sig)
  {
    assert Linked(j, sig);
    OpenIsNewest(j.table, sig);
  }

  lemma OnlyTheLastBumpIsEmpty(call: Call, t: Table, mark: nat)
    requires !call.RaiseDone? && (call.Telling? ==> call.rest.Closing?)
    ensures var row := Exec(t, NextStatement(call)).row; var next := After(call, t, mark, row);
            next.RaiseDone? ==> (next.result == None <==> call.Raising? && call.point.AtBumpAgain? && row == None)
    ensures call.Raising? && call.point.AtBumpAgain? ==>
              After(call, t, mark, Exec(t, NextStatement(call)).row) == RaiseDone(call.report,
                  Exec(t, NextStatement(call)).row, false)
  {
  }

  /** The latest news is the one at the mark, or was made since. */
  lemma {:induction false} LastNewsSince(log: seq<Entry>, sig: Signature, mark: nat)
    requires mark <= |log|
    ensures NewsSince(log, sig, mark) || LastNews(log, sig) == LastNews(log[..mark], sig)
    ensures NewsSince(log, sig, mark) ==> LastNews(log, sig).Some?
  {
    if NewsSince(log, sig, mark) {
      var k := LastNewsAt(log, sig, mark);
    } else if mark < |log| {
      var n := |log| - 1;
      assert forall i :: mark <= i < |log| ==> !IsNewsOf(log[i], sig);
      assert forall i :: mark <= i < n ==> log[..n][i] == log[i];
      LastNewsSince(log[..n], sig, mark);
      assert log[..n][..mark] == log[..mark];
    } else {
      assert log[..mark] == log;
    }
  }

  /** The call lost the race for its insert, and then found the winner resolved. */
  ghost predicate EndedEmpty(now: Time, ls: seq<Label>, c: nat) {
    exists k :: 0 <= k < |ls| && FoundNothing(now, ls[..k], ls[k], c)
  }

  ghost predicate FoundNothing(now: Time, before: seq<Label>, l: Label, c: nat) {
    var s := Execution(now, before);
    l == Advance(c) && c < |s.calls| && s.calls[c].Raising? && s.calls[c].point.AtBumpAgain?
    && ResolvedSince(s.journal.log, s.calls[c].report.Sig(), s.calls[c].point.refused)
  }

  /** In every execution a finished raise_event came back with nothing exactly when
      that happened to it. */
  lemma {:induction false} NothingIsReturnedIff(now: Time, ls: seq<Label>, c: nat)
    requires c < |Execution(now, ls).calls| && Execution(now, ls).calls[c].RaiseDone?
    ensures Execution(now, ls).calls[c].result == None <==> EndedEmpty(now, ls, c)
  {
    var n := |ls| - 1;
    var s := Execution(now, ls[..n]);
    assert Execution(now, ls) == Step(s, ls[n]);
    assert c < |s.calls|;
    if s.calls[c].RaiseDone? {
      NothingIsReturnedIff(now, ls[..n], c);
      assert !FoundNothing(now, ls[..n], ls[n], c);
    } else {
      NothingBeforeTheEnd(now, ls[..n], c);
      assert ls[n] == Advance(c);
      assert Execution(now, ls).calls[c] == Advanced(s, c).calls[c];
      EveryExecutionIsSound(now, ls[..n]);
      OnlyTheLastBumpIsEmpty(s.calls[c], s.journal.table, |s.journal.log|);
      if s.calls[c].Raising? && s.calls[c].point.AtBumpAgain? {
        EmptyReturnIffResolvedSince(now, ls[..n], c);
      }
    }
    EndedInLastStep(now, ls, c);
  }

  lemma EndedInLastStep(now: Time, ls: seq<Label>, c: nat)
    requires ls != []
    ensures var n := |ls| - 1; EndedEmpty(now, ls, c) <==>
              EndedEmpty(now, ls[..n], c) || FoundNothing(now, ls[..n], ls[n], c)
  {
    var n := |ls| - 1;
    forall k | 0 <= k < n
      ensures ls[..n][..k] == ls[..k] && ls[..n][k] == ls[k]
    {
    }
  }

  /** A call that is not done has not found nothing. */
  lemma {:induction false} NothingBeforeTheEnd(now: Time, ls: seq<Label>, c: nat)
    requires c < |Execution(now, ls).calls| && !Execution(now, ls).calls[c].RaiseDone?
    ensures !EndedEmpty(now, ls, c)
  {
    if ls != [] {
      var n := |ls| - 1;
      var s := Execution(now, ls[..n]);
      assert Execution(now, ls) == Step(s, ls[n]);
      EndedInLastStep(now, ls, c);
      if c < |s.calls| {
        if FoundNothing(now, ls[..n], ls[n], c) {
          EmptyReturnIffResolvedSince(now, ls[..n], c);
        }
        NothingBeforeTheEnd(now, ls[..n], c);
      } else {
        NotStartedYet(now, ls[..n], c);
      }
    }
  }

  lemma {:induction false} NotStartedYet(now: Time, ls: seq<Label>, c: nat)
    requires c >= |Execution(now, ls).calls|
    ensures !EndedEmpty(now, ls, c)
  {
    if ls != [] {
      var n := |ls| - 1;
      assert Execution(now, ls) == Step(Execution(now, ls[..n]), ls[n]);
      NotStartedYet(now, ls[..n], c);
      EndedInLastStep(now, ls, c);
    }
  }

  // --- a report is never about something that was not open ------------------------------

  ghost predicate Moment(now: Time, ls: seq<Label>, c: nat, sig: Signature) {
    var s := Execution(now, ls);
    c < |s.calls| && (s.calls[c].Raising? || s.calls[c].Announcing?) && IsOpen(s.journal.table, sig)
  }

  ghost predicate HadMoment(now: Time, ls: seq<Label>, c: nat, sig: Signature) {
    exists k :: 0 <= k <= |ls| && Moment(now, ls[..k], c, sig)
  }

  predicate PastInsert(call: Call) {
    (call.Raising? && call.point.AtBumpAgain?) || call.Announcing? || call.RaiseDone?
  }

  lemma EarlierMoment(now: Time, ls: seq<Label>, k: int, c: nat, sig: Signature)
    requires 0 <= k <= |ls| && HadMoment(now, ls[..k], c, sig)
    ensures HadMoment(now, ls, c, sig)
  {
    var i :| 0 <= i <= k && Moment(now, ls[..k][..i], c, sig);
    assert ls[..k][..i] == ls[..i];
  }

  /** The moment just before the last step, or just after it. */
  lemma MomentAround(now: Time, ls: seq<Label>, c: nat, sig: Signature)
    requires ls != []
    requires Moment(now, ls[..|ls| - 1], c, sig) || Moment(now, ls, c, sig)
    ensures HadMoment(now, ls, c, sig)
  {
    if Moment(now, ls[..|ls| - 1], c, sig) {
      MomentNow(now, ls[..|ls| - 1], c, sig);
      EarlierMoment(now, ls, |ls| - 1, c, sig);
    } else {
      MomentNow(now, ls, c, sig);
    }
  }

  lemma MomentNow(now: Time, ls: seq<Label>, c: nat, sig: Signature)
    requires Moment(now, ls, c, sig)
    ensures HadMoment(now, ls, c, sig)
  {
    assert ls[..|ls|] == ls;
  }

  /** The statement by which a call leaves its insert, or bumps, shows the
      signature open before or after. */
  lemma StatementShowsOpen(t: Table, call: Call, mark: nat)
    requires Ok(t) && call.Raising?
    ensures var done := Exec(t, NextStatement(call));
            var next := After(call, t, mark, done.row);
            var sig := call.report.Sig();
            && (next.RaiseDone? && !call.point.AtBumpAgain? ==> IsOpen(t, sig))
            && (next.Raising? && next.point.AtBumpAgain? ==> IsOpen(t, sig))
            && (next.Announcing? ==> IsOpen(done.table, sig))
            && (PastInsert(next) ==> next.report == call.report)
  {
    var sig := call.report.Sig();
    var done := Exec(t, NextStatement(call));
    if done.row.Some? && (call.point.AtReopen? || call.point.AtInsert?) {
      var k := if call.point.AtReopen? then ReopenIndex(t, sig, call.window) else |t.rows|;
      assert Matches(OpenOf(sig), done.table.rows[k]);
    }
  }

  /** Every completed raise_event, interleaved with anything, had a moment inside
      the call when its signature was open. */
  lemma {:induction false} EveryReportSawItOpen(now: Time, ls: seq<Label>, c: nat)
    requires c < |Execution(now, ls).calls| && PastInsert(Execution(now, ls).calls[c])
    ensures HadMoment(now, ls, c, Execution(now, ls).calls[c].report.Sig())
  {
    var n := |ls| - 1;
    var s := Execution(now, ls[..n]);
    assert Execution(now, ls) == Step(s, ls[n]);
    assert c < |s.calls|;
    if PastInsert(s.calls[c]) {
      EveryReportSawItOpen(now, ls[..n], c);
      ReportIsKept(s, ls[n], c);
      EarlierMoment(now, ls, n, c, Execution(now, ls).calls[c].report.Sig());
    } else {
      LastStepSawItOpen(now, ls, c);
    }
  }

  lemma ReportIsKept(s: System, l: Label, c: nat)
    requires c < |s.calls| && PastInsert(s.calls[c])
    ensures PastInsert(Step(s, l).calls[c]) && Step(s, l).calls[c].report == s.calls[c].report
  {
  }

  lemma LastStepSawItOpen(now: Time, ls: seq<Label>, c: nat)
    requires ls != [] && c < |Execution(now, ls[..|ls| - 1]).calls| && c < |Execution(now, ls).calls|
    requires Execution(now, ls) == Step(Execution(now, ls[..|ls| - 1]), ls[|ls| - 1])
    requires !PastInsert(Execution(now, ls[..|ls| - 1]).calls[c]) && PastInsert(Execution(now, ls).calls[c])
    ensures HadMoment(now, ls, c, Execution(now, ls).calls[c].report.Sig())
  {
    var s := Execution(now, ls[..|ls| - 1]);
    EveryExecutionIsSound(now, ls[..|ls| - 1]);
    assert ls[|ls| - 1] == Advance(c) && s.calls[c].Raising?;
    StatementShowsOpen(s.journal.table, s.calls[c], |s.journal.log|);
    MomentAround(now, ls, c, Execution(now, ls).calls[c].report.Sig());
  }
}
