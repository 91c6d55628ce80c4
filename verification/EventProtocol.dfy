/** Concurrent calls of the event store.  Each call is a little program whose
    steps are single statements; a step of one call may fall between any two
    steps of another (common/db.py locks per statement). */
module EventProtocol {
  import opened Common
  import opened EventTable
  import opened EventJournal
  import opened EventStore

  /** Where raise_event is; `refused` is the length of the log when its insert
      found the signature open. */
  datatype Point = AtBump | AtReopen | AtInsert | AtBumpAgain(refused: nat)

  /** The snapshot a poll compares against, and the length of the log and the time
      when it did. */
  datatype Guard = Unguarded | Guarded(stamp: Time, mark: nat, taken: Time)

  /** When expire took its list, for which time to live, and the length of the log then. */
  datatype Watch = Unwatched | Watched(taken: Time, ttl: int, mark: nat)

  datatype Call =
    | Checking(report: Report, stamp: Option<Time>)              // reconciler: about to read latest_for
    | Raising(point: Point, report: Report, window: int, guard: Guard)
    | Announcing(report: Report, row: Row)                       // on_raised still to run
    | RaiseDone(report: Report, result: Option<Row>, news: bool)
    | Looking(sig: Signature, stamp: Option<Time>, actor: string, note: Option<string>)  // about to read open_kind
    | Selecting(pick: Selection, actor: string, note: Option<string>)
    | Closing(todo: seq<Signature>, actor: string, note: Option<string>, n: nat, guard: Guard, watch: Watch)
    | Telling(closed: Row, rest: Call)                           // on_resolved still to run
    | CloseDone(n: nat)
    | Superseded

  datatype System = System(journal: Journal, calls: seq<Call>, fired: seq<Entry>)

  datatype Label = Start(call: Call) | Advance(c: nat) | Elapse(elapsed: nat) | Retain(keepDays: int)

  predicate IsStart(call: Call) {
    match call
    case Checking(report, _) => report.severity in SEVERITIES
    case Raising(point, report, _, guard) => point == AtBump && guard == Unguarded && report.severity in SEVERITIES
    case Looking(_, _, _, _) => true
    case Selecting(pick, _, _) => pick.StaleFor? ==> pick.ttlSeconds > 0
    case Closing(todo, _, _, n, guard, watch) => |todo| == 1 && n == 0 && guard == Unguarded && watch == Unwatched
    case _ => false
  }

  function NextStatement(call: Call): Statement {
    match call
    case Raising(AtBump, report, _, _) => Bump(report.Sig(), report.detail)
    case Raising(AtReopen, report, window, _) => Reopen(report, window)
    case Raising(AtInsert, report, _, _) => Insert(report)
    case Raising(AtBumpAgain(_), report, _, _) => Bump(report.Sig(), report.detail)
    case Closing(todo, actor, note, _, _, _) => if todo == [] then Read else Resolve(todo[0], actor, note)
    case _ => Read
  }

  function GuardFrom(stamp: Option<Time>, mark: nat, taken: Time): Guard {
    if stamp.Some? then Guarded(stamp.value, mark, taken) else Unguarded
  }

  /** _superseded */
  predicate IsSuperseded(latest: Option<Row>, stamp: Option<Time>) {
    stamp.Some? && latest.Some? && latest.value.resolvedAt.Some? && latest.value.resolvedAt.value > stamp.value
  }

  /** The test of _resolve_if_stale_safe: the poll is newer than the open episode. */
  predicate MayClose(open: Option<Row>, stamp: Option<Time>) {
    open.Some? && (stamp.Some? ==> stamp.value > open.value.Since())
  }

  /** Where a call goes from its statement's result. `t` is the table the
      statement saw and `mark` the length of the log then. */
  function After(call: Call, t: Table, mark: nat, row: Option<Row>): Call {
    match call
    case Checking(report, stamp) =>
      if IsSuperseded(LatestFor(t, report.Sig()), stamp) then Superseded
      else Raising(AtBump, report, REOPEN_WITHIN_SECONDS, GuardFrom(stamp, mark, t.now))
    case Raising(point, report, window, guard) =>
      if row.Some? then
        if point.AtBump? || point.AtBumpAgain? then RaiseDone(report, row, false) else Announcing(report, row.value)
      else (match point
        case AtBump => Raising(if window > 0 then AtReopen else AtInsert, report, window, guard)
        case AtReopen => Raising(AtInsert, report, window, guard)
        case AtInsert => Raising(AtBumpAgain(mark), report, window, guard)
        case AtBumpAgain(_) => RaiseDone(report, None, false))
    case Announcing(report, announced) => RaiseDone(report, Some(announced), true)
    case Looking(sig, stamp, actor, note) =>
      if MayClose(OpenFor(t, sig), stamp) then Closing([sig], actor, note, 0, GuardFrom(stamp, mark, t.now), Unwatched)
      else CloseDone(0)
    case Selecting(pick, actor, note) =>
      Closing(Selected(t.rows, t.now, pick), actor, note, 0, Unguarded,
              if pick.StaleFor? then Watched(t.now, pick.ttlSeconds, mark) else Unwatched)
    case Closing(todo, actor, note, n, guard, watch) =>
      if todo == [] then CloseDone(n)
      else if row.Some? then Telling(row.value, Closing(todo[1..], actor, note, n + 1, guard, watch))
      else Closing(todo[1..], actor, note, n, guard, watch)
    case Telling(_, rest) => rest
    case _ => call
  }

  /** The hook a step runs. */
  function Fires(call: Call): seq<Entry> {
    match call
    case Announcing(_, row) => [Raised(row)]
    case Telling(row, _) => [Resolved(row)]
    case _ => []
  }

  function Step(s: System, l: Label): System {
    match l
    case Start(call) => if IsStart(call) then s.(calls := s.calls + [call]) else s
    case Elapse(elapsed) => s.(journal := Do(s.journal, Tick(elapsed)))
    case Retain(keepDays) => s.(journal := Do(s.journal, Prune(keepDays)))
    case Advance(c) => if c < |s.calls| then Advanced(s, c) else s
  }

  function Advanced(s: System, c: nat): System
    requires c < |s.calls|
  {
    var t := s.journal.table;
    var statement := NextStatement(s.calls[c]);
    System(Do(s.journal, statement),
           s.calls[c := After(s.calls[c], t, |s.journal.log|, Exec(t, statement).row)],
           s.fired + Fires(s.calls[c]))
  }

  function RunFrom(s: System, ls: seq<Label>): System {
    if ls == [] then s else Step(RunFrom(s, ls[..|ls| - 1]), ls[|ls| - 1])
  }

  function Execution(now: Time, ls: seq<Label>): System {
    RunFrom(System(Empty(now), [], []), ls)
  }

  // --- hooks and counts ---------------------------------------------------------

  /** Hooks that committed transitions still owe. */
  function Owed(calls: seq<Call>, p: Probe): nat {
    if calls == [] then 0 else Owed(calls[..|calls| - 1], p) + Times(Fires(calls[|calls| - 1]), p)
  }

  /** Reports whose call found, re-opened or made a row of this signature. */
  predicate HasLanded(call: Call, sig: Signature) {
    || (call.Announcing? && call.row.sig == sig)
    || (call.RaiseDone? && call.result.Some? && call.result.value.sig == sig)
  }

  function Landed(calls: seq<Call>, sig: Signature): nat {
    if calls == [] then 0
    else Landed(calls[..|calls| - 1], sig) + if HasLanded(calls[|calls| - 1], sig) then 1 else 0
  }

  lemma {:induction false} OwedAfterUpdate(calls: seq<Call>, c: nat, call: Call, p: Probe)
    requires c < |calls|
    ensures Owed(calls[c := call], p) + Times(Fires(calls[c]), p) == Owed(calls, p) + Times(Fires(call), p)
  {
    var n := |calls| - 1;
    if c == n {
      assert calls[c := call][..n] == calls[..n];
    } else {
      OwedAfterUpdate(calls[..n], c, call, p);
      assert calls[c := call][..n] == calls[..n][c := call];
    }
  }

  lemma {:induction false} LandedAfterUpdate(calls: seq<Call>, c: nat, call: Call, sig: Signature)
    requires c < |calls|
    ensures Landed(calls[c := call], sig) + (if HasLanded(calls[c], sig) then 1 else 0) ==
            Landed(calls, sig) + if HasLanded(call, sig) then 1 else 0
  {
    var n := |calls| - 1;
    if c == n {
      assert calls[c := call][..n] == calls[..n];
    } else {
      LandedAfterUpdate(calls[..n], c, call, sig);
      assert calls[c := call][..n] == calls[..n][c := call];
    }
  }

  /** Every raise and resolve in the log has run its hook or still owes it,
      exactly once: entry by entry, and so signature by signature. */
  ghost predicate HooksAddUp(s: System) {
    forall p :: IsNewsProbe(p) ==> Times(s.fired, p) + Owed(s.calls, p) == Times(s.journal.log, p)
  }

  predicate IsNewsProbe(p: Probe) {
    !p.RepeatsOf? && (p.Exactly? ==> !p.entry.Repeated?)
  }

  ghost predicate ReportsAddUp(s: System) {
    forall sig :: Landed(s.calls, sig) == Raises(s.journal.log, sig) + Repeats(s.journal.log, sig)
  }

  /** What a call owes after a step is exactly the news its statement committed. */
  lemma StepOwesItsNews(call: Call, t: Table, mark: nat)
    requires call.Telling? ==> call.rest.Closing?
    ensures var statement := NextStatement(call); var row := Exec(t, statement).row;
            Fires(After(call, t, mark, row)) ==
            (if Noted(statement, row) != [] && Noted(statement, row)[0].Repeated? then [] else Noted(statement, row))
  {
    var statement := NextStatement(call);
    var row := Exec(t, statement).row;
    if call.Raising? {
      match call.point
      case AtBump =>
      case AtReopen =>
      case AtInsert =>
      case AtBumpAgain(_) =>
    }
  }

  lemma StepLandsItsReport(call: Call, t: Table, mark: nat, sig: Signature)
    requires Ok(t)
    requires call.Telling? ==> call.rest.Closing?
    ensures var statement := NextStatement(call); var row := Exec(t, statement).row; var noted := Noted(statement, row);
            (if HasLanded(After(call, t, mark, row), sig) then 1 else 0) ==
            (if HasLanded(call, sig) then 1 else 0) + Raises(noted, sig) + Repeats(noted, sig)
  {
    var statement := NextStatement(call);
    var noted := Noted(statement, Exec(t, statement).row);
    TimesGrows([], noted, RaisesOf(sig));
    TimesGrows([], noted, RepeatsOf(sig));
    if call.Raising? {
      RaiseLandsItsReport(call, t, mark, sig);
    }
  }

  lemma RaiseLandsItsReport(call: Call, t: Table, mark: nat, sig: Signature)
    requires Ok(t) && call.Raising?
    ensures var statement := NextStatement(call); var row := Exec(t, statement).row; var noted := Noted(statement, row);
            && |noted| <= 1
            && (HasLanded(After(call, t, mark, row), sig) <==>
                  noted != [] && noted[0].row.sig == sig && !noted[0].Resolved?)
  {
    match call.point
    case AtBump =>
    case AtReopen =>
    case AtInsert =>
    case AtBumpAgain(_) =>
  }

  /** Only a finished hook resumes the close loop. */
  ghost predicate WellFormed(calls: seq<Call>) {
    forall c :: 0 <= c < |calls| && calls[c].Telling? ==> calls[c].rest.Closing?
  }

  lemma AdvanceKeepsHooks(s: System, c: nat)
    requires c < |s.calls| && WellFormed(s.calls) && HooksAddUp(s)
    ensures HooksAddUp(Advanced(s, c))
  {
    var u := Advanced(s, c);
    forall p | IsNewsProbe(p)
      ensures Times(u.fired, p) + Owed(u.calls, p) == Times(u.journal.log, p)
    {
      AdvanceKeepsHooksFor(s, c, p);
    }
  }

  lemma AdvanceKeepsHooksFor(s: System, c: nat, p: Probe)
    requires c < |s.calls| && WellFormed(s.calls) && HooksAddUp(s) && IsNewsProbe(p)
    ensures var u := Advanced(s, c); Times(u.fired, p) + Owed(u.calls, p) == Times(u.journal.log, p)
  {
    var call := s.calls[c];
    var statement := NextStatement(call);
    var row := Exec(s.journal.table, statement).row;
    var next := After(call, s.journal.table, |s.journal.log|, row);
    StepOwesItsNews(call, s.journal.table, |s.journal.log|);
    HooksStillAddUp(s.fired, s.journal.log, Noted(statement, row), s.calls, c, next, p);
  }

  lemma HooksStillAddUp(fired: seq<Entry>, log: seq<Entry>, noted: seq<Entry>, calls: seq<Call>, c: nat, next: Call,
                        p: Probe)
    requires c < |calls| && |noted| <= 1 && IsNewsProbe(p)
    requires Fires(next) == if noted != [] && noted[0].Repeated? then [] else noted
    requires Times(fired, p) + Owed(calls, p) == Times(log, p)
    ensures Times(fired + Fires(calls[c]), p) + Owed(calls[c := next], p) == Times(log + noted, p)
  {
    OwedAfterUpdate(calls, c, next, p);
    TimesGrows(log, noted, p);
    TimesGrows(fired, Fires(calls[c]), p);
    TimesGrows([], Fires(next), p);
  }

  lemma AdvanceKeepsReports(s: System, c: nat)
    requires c < |s.calls| && WellFormed(s.calls) && ReportsAddUp(s) && Ok(s.journal.table)
    ensures ReportsAddUp(Advanced(s, c))
  {
    var call := s.calls[c];
    var statement := NextStatement(call);
    var row := Exec(s.journal.table, statement).row;
    var noted := Noted(statement, row);
    var log := s.journal.log;
    forall sig
      ensures Landed(Advanced(s, c).calls, sig) == Raises(log + noted, sig) + Repeats(log + noted, sig)
    {
      StepLandsItsReport(call, s.journal.table, |log|, sig);
      LandedAfterUpdate(s.calls, c, After(call, s.journal.table, |log|, row), sig);
      TimesGrows(log, noted, RaisesOf(sig));
      TimesGrows(log, noted, RepeatsOf(sig));
    }
  }

  // --- polls against newer facts --------------------------------------------------

  predicate IsNewsOf(e: Entry, sig: Signature) {
    e.row.sig == sig && !e.Repeated?
  }

  ghost predicate NewsSince(log: seq<Entry>, sig: Signature, mark: nat) {
    exists k :: mark <= k < |log| && IsNewsOf(log[k], sig)
  }

  /** If retention left the signature a row at all, it last changed no later than the stamp. */
  ghost predicate NotNewerThan(t: Table, sig: Signature, stamp: Time) {
    LatestFor(t, sig).Some? ==> LatestFor(t, sig).value.Since() <= stamp
  }

  /** `mark` and `taken` are the length of the log and the clock of one earlier moment. */
  ghost predicate IsPast(j: Journal, mark: nat, taken: Time) {
    mark <= |j.log| && taken <= j.table.now && forall k :: mark <= k < |j.log| ==> At(j.log[k]) >= taken
  }

  ghost predicate GuardHolds(j: Journal, sig: Signature, g: Guard) {
    g.Guarded? ==>
      IsPast(j, g.mark, g.taken) && (NewsSince(j.log, sig, g.mark) || NotNewerThan(j.table, sig, g.stamp))
  }

  ghost predicate CallGuarded(j: Journal, call: Call) {
    match call
    case Raising(_, report, _, g) => GuardHolds(j, report.Sig(), g) || OpenSinceMark(j, report.Sig(), g)
    case Closing(todo, _, _, _, g, _) => g.Guarded? ==> |todo| <= 1 && (|todo| == 1 ==> GuardHolds(j, todo[0], g))
    case Telling(_, rest) => rest.Closing? && (rest.guard.Guarded? ==> rest.todo == [])
    case _ => true
  }

  /** A raise that found the signature open can only bump it. */
  ghost predicate OpenSinceMark(j: Journal, sig: Signature, g: Guard) {
    g.Guarded? && IsPast(j, g.mark, g.taken) && OpenAfter(j.log, sig)
  }

  lemma PastIsStable(j: Journal, st: Statement, mark: nat, taken: Time)
    requires Ok(j.table) && IsPast(j, mark, taken)
    ensures IsPast(Do(j, st), mark, taken)
  {
    ExecKeepsOk(j.table, st);
    if Exec(j.table, st).row.Some? {
      CommitIsNow(j.table, st);
    }
  }

  lemma NewsIsStable(j: Journal, st: Statement, sig: Signature, mark: nat)
    requires NewsSince(j.log, sig, mark)
    ensures NewsSince(Do(j, st).log, sig, mark)
  {
    var k :| mark <= k < |j.log| && IsNewsOf(j.log[k], sig);
    assert IsNewsOf(Do(j, st).log[k], sig);
  }

  /** A statement that makes no news of a signature leaves its newest row as old as
      it was, or retention deletes it. */
  lemma LatestIsStable(j: Journal, st: Statement, sig: Signature, mark: nat)
    requires Ok(j.table) && mark <= |j.log|
    ensures var u := Do(j, st);
            || NewsSince(u.log, sig, mark) || LatestFor(u.table, sig) == None
            || (LatestFor(j.table, sig).Some? &&
                LatestFor(u.table, sig).value.Since() == LatestFor(j.table, sig).value.Since())
  {
    if st.Prune? {
      NewestAfterPrune(j.table, Cutoff(j.table, st.keepDays), sig);
    } else if Exec(j.table, st).row.Some? {
      var e := Noted(st, Exec(j.table, st).row)[0];
      CommitShape(j, st);
      LatestAfterCommit(j.table, st, sig);
      assert Do(j, st).log[|j.log|] == e;
      assert IsNewsOf(e, sig) ==> NewsSince(Do(j, st).log, sig, mark);
    }
  }

  lemma LatestAfterCommit(t: Table, st: Statement, sig: Signature)
    requires Ok(t) && Exec(t, st).row.Some?
    ensures var u := Exec(t, st).table; var noted := Noted(st, Exec(t, st).row);
            || (noted != [] && IsNewsOf(noted[0], sig)) || LatestFor(u, sig) == None
            || (LatestFor(t, sig).Some? && LatestFor(u, sig).value.Since() == LatestFor(t, sig).value.Since())
  {
    StatementEffect(t, st);
    NewestAfterCommit(t, st, sig);
  }

  lemma GuardIsStable(j: Journal, st: Statement, sig: Signature, g: Guard)
    requires Ok(j.table)
    ensures GuardHolds(j, sig, g) ==> GuardHolds(Do(j, st), sig, g)
  {
    if g.Guarded? && GuardHolds(j, sig, g) {
      PastIsStable(j, st, g.mark, g.taken);
      LatestIsStable(j, st, sig, g.mark);
      if NewsSince(j.log, sig, g.mark) {
        NewsIsStable(j, st, sig, g.mark);
      }
    }
  }

  lemma OpenIsStable(j: Journal, st: Statement, sig: Signature, g: Guard)
    requires Ok(j.table) && OpenSinceMark(j, sig, g)
    ensures OpenSinceMark(Do(j, st), sig, g) || GuardHolds(Do(j, st), sig, g)
  {
    PastIsStable(j, st, g.mark, g.taken);
    var row := Exec(j.table, st).row;
    if Noted(st, row) == [] {
      assert Do(j, st).log == j.log;
    } else {
      var e := Noted(st, row)[0];
      assert Do(j, st).log == j.log + [e];
      LogGrows(j.log, e, sig);
      assert Do(j, st).log[|j.log|] == e;
      assert IsNewsOf(e, sig) ==> NewsSince(Do(j, st).log, sig, g.mark);
    }
  }

  /** What the guard read at its own moment. */
  lemma GuardIsTaken(j: Journal, call: Call)
    requires Good(j) && (call.Checking? || call.Looking?)
    ensures CallGuarded(j, After(call, j.table, |j.log|, None))
  {
    var sig := if call.Checking? then call.report.Sig() else call.sig;
    OpenIsNewest(j.table, sig);
    assert Linked(j, sig);
  }

  ghost predicate Guarding(s: System) {
    forall c :: 0 <= c < |s.calls| ==> CallGuarded(s.journal, s.calls[c])
  }

  lemma CallGuardIsStable(j: Journal, st: Statement, call: Call)
    requires Ok(j.table) && CallGuarded(j, call)
    ensures CallGuarded(Do(j, st), call)
  {
    match call
    case Raising(_, report, _, g) =>
      GuardIsStable(j, st, report.Sig(), g);
      if OpenSinceMark(j, report.Sig(), g) {
        OpenIsStable(j, st, report.Sig(), g);
      }
    case Closing(todo, _, _, _, g, _) =>
      if |todo| == 1 {
        GuardIsStable(j, st, todo[0], g);
      }
    case _ =>
  }

  lemma StepKeepsCallGuarded(j: Journal, call: Call)
    requires Good(j) && CallGuarded(j, call)
    ensures var st := NextStatement(call);
            CallGuarded(Do(j, st), After(call, j.table, |j.log|, Exec(j.table, st).row))
  {
    var st := NextStatement(call);
    if call.Checking? || call.Looking? {
      GuardIsTaken(j, call);
      CallGuardIsStable(j, st, After(call, j.table, |j.log|, None));
    } else if call.Raising? {
      CallGuardIsStable(j, st, call);
    }
  }

  // --- inserts that lose a race ------------------------------------------------------

  /** When its insert was refused, the signature was open. */
  ghost predicate CallRefused(j: Journal, call: Call) {
    call.Raising? && call.point.AtBumpAgain? ==>
      call.point.refused <= |j.log| && OpenAfter(j.log[..call.point.refused], call.report.Sig())
  }

  ghost predicate Refusing(s: System) {
    forall c :: 0 <= c < |s.calls| ==> CallRefused(s.journal, s.calls[c])
  }

  lemma RefusedIsStable(j: Journal, st: Statement, call: Call)
    requires CallRefused(j, call)
    ensures CallRefused(Do(j, st), call)
  {
    if call.Raising? && call.point.AtBumpAgain? {
      assert Do(j, st).log[..call.point.refused] == j.log[..call.point.refused];
    }
  }

  lemma StepKeepsCallRefused(j: Journal, call: Call)
    requires Good(j) && CallRefused(j, call) && (call.Telling? ==> call.rest.Closing?)
    ensures var st := NextStatement(call);
            CallRefused(Do(j, st), After(call, j.table, |j.log|, Exec(j.table, st).row))
  {
    if call.Raising? && call.point.AtInsert? {
      var st := NextStatement(call);
      assert Linked(j, call.report.Sig());
      OpenIsNewest(j.table, call.report.Sig());
      assert Do(j, st).log[..|j.log|] == j.log;
    }
  }

  // --- expire against fresh reports --------------------------------------------------

  predicate IsReportOf(e: Entry, sig: Signature) {
    e.row.sig == sig && !e.Resolved?
  }

  ghost predicate ReportSince(log: seq<Entry>, sig: Signature, mark: nat) {
    exists k :: mark <= k < |log| && IsReportOf(log[k], sig)
  }

  /** Since expire took its list, an open event on it is still stale or has been
      reported again. */
  ghost predicate StaleOrTouched(j: Journal, sig: Signature, w: Watch) {
    w.Watched? ==>
      && IsPast(j, w.mark, w.taken)
      && (ReportSince(j.log, sig, w.mark)
          || (OpenFor(j.table, sig).Some? ==> OpenFor(j.table, sig).value.lastSeenAt < w.taken - w.ttl * SECOND))
  }

  ghost predicate CallWatched(j: Journal, call: Call) {
    match call
    case Closing(todo, _, _, _, _, w) => forall sig :: sig in todo ==> StaleOrTouched(j, sig, w)
    case Telling(_, rest) => rest.Closing? && forall sig :: sig in rest.todo ==> StaleOrTouched(j, sig, rest.watch)
    case _ => true
  }

  ghost predicate Watching(s: System) {
    forall c :: 0 <= c < |s.calls| ==> CallWatched(s.journal, s.calls[c])
  }

  /** The open row of a signature is one that was open before, or was just reported. */
  lemma OpenRowAfter(t: Table, st: Statement, sig: Signature)
    requires Ok(t)
    ensures var o := OpenFor(Exec(t, st).table, sig); var noted := Noted(st, Exec(t, st).row);
            o.Some? ==> o == OpenFor(t, sig) || (noted != [] && IsReportOf(noted[0], sig))
  {
    var u := Exec(t, st).table;
    var k := LastIndex(u.rows, OpenOf(sig));
    if k >= 0 {
      var r := u.rows[k];
      if st.Prune? {
        assert r in u.rows;
        var i :| 0 <= i < |t.rows| && t.rows[i] == r;
        OpenIsUnique(t, sig, i);
      } else if k < |t.rows| && r == t.rows[k] {
        OpenIsUnique(t, sig, k);
      }
    }
  }

  lemma OpenIsUnique(t: Table, sig: Signature, i: int)
    requires Ok(t) && 0 <= i < |t.rows| && t.rows[i].sig == sig && t.rows[i].Open()
    ensures OpenFor(t, sig) == Some(t.rows[i])
  {
    OpenIsNewest(t, sig);
    assert Matches(OpenOf(sig), t.rows[i]);
  }

  lemma StaleIsStable(j: Journal, st: Statement, sig: Signature, w: Watch)
    requires Ok(j.table) && StaleOrTouched(j, sig, w)
    ensures StaleOrTouched(Do(j, st), sig, w)
  {
    if w.Watched? {
      PastIsStable(j, st, w.mark, w.taken);
      OpenRowAfter(j.table, st, sig);
      var u, noted := Do(j, st), Noted(st, Exec(j.table, st).row);
      if ReportSince(j.log, sig, w.mark) {
        var k :| w.mark <= k < |j.log| && IsReportOf(j.log[k], sig);
        assert IsReportOf(u.log[k], sig);
      } else if noted != [] && IsReportOf(noted[0], sig) {
        assert u.log[|j.log|] == noted[0];
      }
    }
  }

  lemma WatchIsStable(j: Journal, st: Statement, call: Call)
    requires Ok(j.table) && CallWatched(j, call)
    ensures CallWatched(Do(j, st), call)
  {
    match call
    case Closing(todo, _, _, _, _, w) =>
      forall sig | sig in todo
        ensures StaleOrTouched(Do(j, st), sig, w)
      {
        StaleIsStable(j, st, sig, w);
      }
    case Telling(_, rest) =>
      forall sig | sig in rest.todo
        ensures StaleOrTouched(Do(j, st), sig, rest.watch)
      {
        StaleIsStable(j, st, sig, rest.watch);
      }
    case _ =>
  }

  lemma WatchIsTaken(j: Journal, pick: Selection, sig: Signature)
    requires Ok(j.table) && pick.StaleFor? && sig in Selected(j.table.rows, j.table.now, pick)
    ensures StaleOrTouched(j, sig, Watched(j.table.now, pick.ttlSeconds, |j.log|))
  {
    var t := j.table;
    var i :| 0 <= i < |t.rows| && t.rows[i].sig == sig && Picks(pick, t.rows[i], t.now);
    OpenIsUnique(t, sig, i);
  }

  lemma StepKeepsCallWatched(j: Journal, call: Call)
    requires Ok(j.table) && CallWatched(j, call)
    ensures var st := NextStatement(call); CallWatched(Do(j, st), After(call, j.table, |j.log|, Exec(j.table, st).row))
  {
    var st := NextStatement(call);
    WatchIsStable(j, st, call);
    if call.Selecting? && call.pick.StaleFor? {
      var next := After(call, j.table, |j.log|, Exec(j.table, st).row);
      forall sig | sig in next.todo
        ensures StaleOrTouched(j, sig, next.watch)
      {
        WatchIsTaken(j, call.pick, sig);
      }
      WatchIsStable(j, st, next);
    }
  }

  // --- every reachable state -------------------------------------------------------------

  ghost predicate Sound(s: System) {
    && Good(s.journal)
    && WellFormed(s.calls)
    && HooksAddUp(s)
    && ReportsAddUp(s)
    && Guarding(s)
    && Refusing(s)
    && Watching(s)
  }

  lemma AdvanceKeepsSound(s: System, c: nat)
    requires Sound(s) && c < |s.calls|
    ensures Sound(Advanced(s, c))
  {
    var st := NextStatement(s.calls[c]);
    var s' := Advanced(s, c);
    DoKeepsGood(s.journal, st);
    AdvanceKeepsHooks(s, c);
    AdvanceKeepsReports(s, c);
    forall d | 0 <= d < |s'.calls|
      ensures CallGuarded(s'.journal, s'.calls[d]) && CallRefused(s'.journal, s'.calls[d]) &&
              CallWatched(s'.journal, s'.calls[d])
    {
      if d == c {
        StepKeepsCallGuarded(s.journal, s.calls[c]);
        StepKeepsCallRefused(s.journal, s.calls[c]);
        StepKeepsCallWatched(s.journal, s.calls[c]);
      } else {
        CallGuardIsStable(s.journal, st, s.calls[d]);
        RefusedIsStable(s.journal, st, s.calls[d]);
        WatchIsStable(s.journal, st, s.calls[d]);
      }
    }
  }

  lemma AmbientKeepsSound(s: System, st: Statement)
    requires Sound(s) && (st.Tick? || st.Prune?)
    ensures Sound(s.(journal := Do(s.journal, st)))
  {
    var s' := s.(journal := Do(s.journal, st));
    DoKeepsGood(s.journal, st);
    assert s'.journal.log == s.journal.log;
    forall d | 0 <= d < |s'.calls|
      ensures CallGuarded(s'.journal, s'.calls[d]) && CallRefused(s'.journal, s'.calls[d]) &&
              CallWatched(s'.journal, s'.calls[d])
    {
      CallGuardIsStable(s.journal, st, s.calls[d]);
      RefusedIsStable(s.journal, st, s.calls[d]);
      WatchIsStable(s.journal, st, s.calls[d]);
    }
  }

  lemma StartKeepsSound(s: System, call: Call)
    requires Sound(s) && IsStart(call)
    ensures Sound(s.(calls := s.calls + [call]))
  {
    var calls := s.calls + [call];
    assert calls[..|calls| - 1] == s.calls;
  }

  lemma StepKeepsSound(s: System, l: Label)
    requires Sound(s)
    ensures Sound(Step(s, l))
  {
    match l
    case Start(call) =>
      if IsStart(call) {
        StartKeepsSound(s, call);
      }
    case Elapse(elapsed) => AmbientKeepsSound(s, Tick(elapsed));
    case Retain(keepDays) => AmbientKeepsSound(s, Prune(keepDays));
    case Advance(c) =>
      if c < |s.calls| {
        AdvanceKeepsSound(s, c);
      }
  }

  lemma {:induction false} EveryExecutionIsSound(now: Time, ls: seq<Label>)
    ensures Sound(Execution(now, ls))
  {
    if ls != [] {
      EveryExecutionIsSound(now, ls[..|ls| - 1]);
      StepKeepsSound(Execution(now, ls[..|ls| - 1]), ls[|ls| - 1]);
    }
  }
}
