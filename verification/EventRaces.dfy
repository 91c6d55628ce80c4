/** A call that runs alone behaves as documented; five races show which promises
    need that, and that the exceptions allowed in EventGuarantees do happen.
    EventConditions and EventGuarantees say exactly when. */
module EventRaces {
  import opened Common
  import opened EventTable
  import opened EventJournal
  import opened EventStore
  import opened EventProtocol
  import opened EventGuarantees

  ghost predicate Reaches(s: System, u: System) {
    exists ls :: RunFrom(s, ls) == u
  }

  function Initial(now: Time): System {
    System(Empty(now), [], [])
  }

  /** A state of some execution. */
  ghost predicate Possible(now: Time, u: System) {
    exists ls :: Execution(now, ls) == u
  }

  lemma ReachedIsPossible(now: Time, u: System)
    requires Reaches(Initial(now), u)
    ensures Possible(now, u)
  {
    var ls :| RunFrom(Initial(now), ls) == u;
    assert Execution(now, ls) == u;
  }

  lemma InitialIsSound(now: Time)
    ensures Sound(Initial(now)) && Reaches(Initial(now), Initial(now))
  {
    EveryExecutionIsSound(now, []);
    assert RunFrom(Initial(now), []) == Initial(now);
  }

  lemma {:induction false} RunInTwoParts(s: System, a: seq<Label>, b: seq<Label>)
    ensures RunFrom(s, a + b) == RunFrom(RunFrom(s, a), b)
  {
    if b == [] {
      assert a + b == a;
    } else {
      RunInTwoParts(s, a, b[..|b| - 1]);
      assert (a + b)[..|a + b| - 1] == a + b[..|b| - 1];
    }
  }

  lemma ReachesInTwoParts(s: System, u: System, v: System)
    requires Reaches(s, u) && Reaches(u, v)
    ensures Reaches(s, v)
  {
    var a :| RunFrom(s, a) == u;
    var b :| RunFrom(u, b) == v;
    RunInTwoParts(s, a, b);
  }

  lemma OneStep(s: System, l: Label) returns (u: System)
    requires Sound(s)
    ensures u == Step(s, l) && Reaches(s, u) && Sound(u)
  {
    u := Step(s, l);
    assert [l][..0] == [];
    assert RunFrom(s, [l]) == Step(RunFrom(s, []), l);
    StepKeepsSound(s, l);
  }

  /** One step of a call, with what it changes spelt out. */
  lemma Turn(s: System, u0: System, c: nat) returns (u: System)
    requires Sound(u0) && Reaches(s, u0) && c < |u0.calls|
    ensures Reaches(s, u) && Sound(u)
    ensures var t := u0.journal.table; var done := Exec(t, NextStatement(u0.calls[c]));
            u.journal.table == done.table && u.calls == u0.calls[c := After(u0.calls[c], t, |u0.journal.log|, done.row)]
  {
    u := OneStep(u0, Advance(c));
    ReachesInTwoParts(s, u0, u);
  }

  lemma Begin(s: System, call: Call) returns (u: System)
    requires Sound(s) && IsStart(call)
    ensures Reaches(s, u) && Sound(u) && u == s.(calls := s.calls + [call])
  {
    u := OneStep(s, Start(call));
  }

  /** The protocol, run without interference, is ReportOnce. */
  lemma SoloRaise(s: System, r: Report, window: int) returns (u: System)
    requires Sound(s) && r.severity in SEVERITIES
    ensures Reaches(s, u) && Sound(u)
    ensures var done := ReportOnce(s.journal.table, r, window);
            u.journal.table == done.table &&
                u.calls == s.calls + [RaiseDone(r, done.row, !IsOpen(s.journal.table, r.Sig()))]
  {
    var c := |s.calls|;
    AloneIsReportOnce(s.journal.table, r, window);
    var u0 := Begin(s, Raising(AtBump, r, window, Unguarded));
    var u1 := Turn(s, u0, c);
    if IsOpen(s.journal.table, r.Sig()) {
      u := u1;
    } else {
      u := SoloOpen(s, u1, r, window, if window > 0 then AtReopen else AtInsert);
    }
  }

  /** ... from the point where there was nothing to bump. */
  lemma SoloOpen(s: System, u1: System, r: Report, window: int, point: Point) returns (u: System)
    requires Sound(u1) && Reaches(s, u1) && u1.calls == s.calls + [Raising(point, r, window, Unguarded)]
    requires point == (if window > 0 then AtReopen else AtInsert)
    requires TriedToOpen(u1.journal.table, r, window)
    ensures Reaches(s, u) && Sound(u)
    ensures var done := ReportOnce(u1.journal.table, r, window);
            u.journal.table == done.table && u.calls == s.calls + [RaiseDone(r, done.row, true)]
  {
    var t := u1.journal.table;
    if window > 0 && Exec(t, Reopen(r, window)).row.Some? {
      u := Turn(s, u1, |s.calls|);
    } else {
      u := SoloInsert(s, u1, r, window, point);
    }
    u := Announce(s, u, r, ReportOnce(t, r, window).row.value);
  }

  /** The hook, and the call is over. */
  lemma Announce(s: System, u1: System, r: Report, row: Row) returns (u: System)
    requires Sound(u1) && Reaches(s, u1) && u1.calls == s.calls + [Announcing(r, row)]
    ensures Reaches(s, u) && Sound(u)
    ensures u.journal.table == u1.journal.table && u.calls == s.calls + [RaiseDone(r, Some(row), true)]
  {
    u := Turn(s, u1, |s.calls|);
  }

  /** ... or to re-open: the insert, up to the call's hook. */
  lemma SoloInsert(s: System, u1: System, r: Report, window: int, point: Point) returns (u: System)
    requires Sound(u1) && Reaches(s, u1) && u1.calls == s.calls + [Raising(point, r, window, Unguarded)]
    requires point == (if window > 0 then AtReopen else AtInsert)
    requires TriedToOpen(u1.journal.table, r, window)
    requires window > 0 ==> Exec(u1.journal.table, Reopen(r, window)).row == None
    ensures Reaches(s, u) && Sound(u)
    ensures var done := ReportOnce(u1.journal.table, r, window);
            u.journal.table == done.table && u.calls == s.calls + [Announcing(r, done.row.value)]
  {
    u := u1;
    if window > 0 {
      u := Turn(s, u, |s.calls|);
      assert u.journal.table == u1.journal.table;
    } else {
      assert Exec(u1.journal.table, Reopen(r, window)).row == None;
    }
    u := Turn(s, u, |s.calls|);
  }

  lemma SoloResolve(s: System, sig: Signature) returns (u: System)
    requires Sound(s)
    ensures Reaches(s, u) && Sound(u)
    ensures u.journal.table == Exec(s.journal.table, Resolve(sig, "syslog", None)).table
    ensures |u.calls| == |s.calls| + 1 && u.calls[..|s.calls|] == s.calls
  {
    var c := |s.calls|;
    u := Begin(s, Closing([sig], "syslog", None, 0, Unguarded, Unwatched));
    u := Turn(s, u, c);
  }

  // --- races ------------------------------------------------------------------------

  lemma OnlyRow(t: Table, f: Filter)
    requires |t.rows| == 1
    ensures LastIndex(t.rows, f) == if Matches(f, t.rows[0]) then 0 else -1
  {
  }

  /** A first episode of `r`, raised and closed at once. */
  lemma OneClosedEpisode(now: Time, r: Report, window: int) returns (u: System)
    requires r.severity in SEVERITIES
    ensures Reaches(Initial(now), u) && Sound(u)
    ensures u.journal.table == Table([Closed(Fresh(1, now, r), now, "syslog", None)], 2, now)
  {
    var s := Initial(now);
    InitialIsSound(now);
    var s1 := SoloRaise(s, r, window);
    FirstReport(now, r, window);
    u := SoloResolve(s1, r.Sig());
    ReachesInTwoParts(s, s1, u);
  }

  /** What a first report, and then its resolve, leave in an empty table. */
  lemma FirstReport(now: Time, r: Report, window: int)
    ensures ReportOnce(Table([], 1, now), r, window).table == Table([Fresh(1, now, r)], 2, now)
    ensures Exec(Table([Fresh(1, now, r)], 2, now), Resolve(r.Sig(), "syslog", None)).table ==
            Table([Closed(Fresh(1, now, r), now, "syslog", None)], 2, now)
  {
    OnlyRow(Table([Fresh(1, now, r)], 2, now), OpenOf(r.Sig()));
  }

  /** A caller that found nothing to bump, then was overtaken by another report. */
  lemma Overtaken(s: System, r: Report, window: int) returns (u: System)
    requires Sound(s) && r.severity in SEVERITIES && !IsOpen(s.journal.table, r.Sig())
    ensures Reaches(s, u) && Sound(u) && |u.calls| == |s.calls| + 2
    ensures u.calls[|s.calls|] == Raising(if window > 0 then AtReopen else AtInsert, r, window, Unguarded)
    ensures u.journal.table == ReportOnce(s.journal.table, r, window).table
  {
    var c := |s.calls|;
    AloneIsReportOnce(s.journal.table, r, window);
    var s1 := Begin(s, Raising(AtBump, r, window, Unguarded));
    var s2 := Turn(s, s1, c);
    u := SoloRaise(s2, r, window);
    ReachesInTwoParts(s, s2, u);
  }

  /** Two episodes of one fault at the same instant, whatever the window: a caller
      is skipped by the re-open because another holds the event open, which is
      then closed before the first caller inserts. */
  lemma EpisodesCanTouchUnderInterleaving(now: Time, r: Report, window: int)
    requires r.severity in SEVERITIES && window > 0
    ensures exists u :: Possible(now, u) && !Spaced(u.journal.table.rows, window)
  {
    var sig := r.Sig();
    var s := OneClosedEpisode(now, r, window);
    OnlyRow(s.journal.table, OpenOf(sig));
    OnlyRow(s.journal.table, AnyOf(sig));
    var s1 := Overtaken(s, r, window);
    var u := SkippedByReopen(s1, |s.calls|, r, window);
    var rows := u.journal.table.rows;
    assert |rows| == 2 && rows[0].sig == rows[1].sig && rows[0].resolvedAt == Some(now) && rows[1].raisedAt == now;
    ReachesInTwoParts(Initial(now), s, s1);
    ReachesInTwoParts(Initial(now), s1, u);
    ReachedIsPossible(now, u);
  }

  /** A call at its re-open, while another holds the one row open. */
  lemma SkippedByReopen(s: System, c: nat, r: Report, window: int) returns (u: System)
    requires Sound(s) && c < |s.calls| && s.calls[c] == Raising(AtReopen, r, window, Unguarded)
    requires var t := s.journal.table; |t.rows| == 1 && t.rows[0].Open() && t.rows[0].sig == r.Sig()
    ensures Reaches(s, u)
    ensures var t := s.journal.table;
            u.journal.table.rows == [Closed(t.rows[0], t.now, "syslog", None), Fresh(t.nextId, t.now, r)]
  {
    var t := s.journal.table;
    OnlyRow(t, OpenOf(r.Sig()));
    assert RunFrom(s, []) == s;
    var s2 := Turn(s, s, c);
    var s3 := SoloResolve(s2, r.Sig());
    ReachesInTwoParts(s, s2, s3);
    OnlyRow(s3.journal.table, OpenOf(r.Sig()));
    assert s3.calls[c] == s3.calls[..|s2.calls|][c] == Raising(AtInsert, r, window, Unguarded);
    u := Turn(s, s3, c);
  }

  /** raise_event can come back with nothing: the event that made its insert
      conflict is closed before its last bump. */
  lemma RaiseCanReturnNothing(now: Time, r: Report)
    requires r.severity in SEVERITIES
    ensures exists u :: Possible(now, u) && RaiseDone(r, None, false) in u.calls
  {
    var sig := r.Sig();
    var s := Initial(now);
    InitialIsSound(now);
    var s1 := Overtaken(s, r, 0);
    OnlyRow(s1.journal.table, OpenOf(sig));
    var s2 := Turn(s, s1, 0);
    var s3 := SoloResolve(s2, sig);
    ReachesInTwoParts(s, s2, s3);
    assert s3.calls[0] == s3.calls[..|s2.calls|][0] == Raising(AtBumpAgain(|s1.journal.log|), r, 0, Unguarded);
    OnlyRow(s3.journal.table, OpenOf(sig));
    var s4 := Turn(s, s3, 0);
    ReachedIsPossible(now, s4);
    assert s4.calls[0] == RaiseDone(r, None, false);
  }

  /** One open episode of `r`, some time ago. */
  lemma OneOpenEpisode(now: Time, r: Report, elapsed: nat) returns (u: System)
    requires r.severity in SEVERITIES
    ensures Reaches(Initial(now), u) && Sound(u) && |u.calls| == 1
    ensures u.journal.table == Table([Fresh(1, now, r)], 2, now + elapsed)
  {
    var s := Initial(now);
    InitialIsSound(now);
    var s1 := SoloRaise(s, r, 0);
    assert s1.journal.table == Table([Fresh(1, now, r)], 2, now);
    u := OneStep(s1, Elapse(elapsed));
    ReachesInTwoParts(s, s1, u);
  }

  /** expire closes an event reported a moment ago, after expire took its list. */
  lemma ExpireCanCloseAFreshReport(now: Time, r: Report, ttl: int)
    requires r.severity in SEVERITIES && ttl > 0
    ensures exists u :: Possible(now, u) && ClosesFresh(u, r.Sig())
  {
    var s := OneOpenEpisode(now, r, ttl * SECOND + 1);
    var s2 := ExpireTakesItsList(s, r, ttl);
    var s3 := ReportedAgain(s2, r);
    ReachesInTwoParts(s, s2, s3);
    ReachesInTwoParts(Initial(now), s, s3);
    ReachedIsPossible(now, s3);
    assert ClosesFresh(s3, r.Sig());
  }

  lemma ExpireTakesItsList(s: System, r: Report, ttl: int) returns (u: System)
    requires Sound(s) && ttl > 0 && |s.calls| == 1
    requires var t := s.journal.table;
             |t.rows| == 1 && t.rows[0].Open() && t.rows[0].sig == r.Sig() && t.rows[0].sig.kind == r.kind
             && t.rows[0].lastSeenAt < t.now - ttl * SECOND
    ensures Reaches(s, u) && Sound(u) && u.journal.table == s.journal.table && |u.calls| == 2
    ensures u.calls[1].Closing? && u.calls[1].watch.Watched? && u.calls[1].todo == [r.Sig()]
  {
    var t := s.journal.table;
    var pick := StaleFor(r.kind, ttl, None);
    assert t.rows[..0] == [];
    assert Selected(t.rows, t.now, pick) == [r.Sig()];
    var s1 := Begin(s, Selecting(pick, "timer", None));
    u := Turn(s, s1, 1);
  }

  lemma ReportedAgain(s: System, r: Report) returns (u: System)
    requires Sound(s) && r.severity in SEVERITIES
    requires var t := s.journal.table; |t.rows| == 1 && t.rows[0].Open() && t.rows[0].sig == r.Sig()
    ensures Reaches(s, u) && Sound(u) && |u.calls| == |s.calls| + 1 && u.calls[..|s.calls|] == s.calls
    ensures OpenFor(u.journal.table, r.Sig()).Some? &&
            OpenFor(u.journal.table, r.Sig()).value.lastSeenAt == u.journal.table.now
  {
    OnlyRow(s.journal.table, OpenOf(r.Sig()));
    u := SoloRaise(s, r, 0);
    OnlyRow(u.journal.table, OpenOf(r.Sig()));
  }

  /** The next step of an expire closes an event last reported right now. */
  ghost predicate ClosesFresh(s: System, sig: Signature) {
    && |s.calls| > 1 && s.calls[1].Closing? && s.calls[1].watch.Watched? && s.calls[1].todo == [sig]
    && OpenFor(s.journal.table, sig).Some? && OpenFor(s.journal.table, sig).value.lastSeenAt == s.journal.table.now
  }

  /** A poll closes an event that came back after its snapshot, when the return
      falls between the poll's check and its resolve. */
  lemma PollCanCloseANewerEventInARace(now: Time, r: Report)
    requires r.severity in SEVERITIES
    ensures exists u :: Possible(now, u) && ClosesNewer(u, r.Sig())
  {
    var s := OneOpenEpisode(now, r, 2);
    var s2 := PollTakesItsCheck(s, r, now + 1);
    var u := ComesBack(s2, r);
    ReachesInTwoParts(s, s2, u);
    ReachesInTwoParts(Initial(now), s, u);
    assert u.calls[1] == u.calls[..2][1];
    ReachedIsPossible(now, u);
    assert ClosesNewer(u, r.Sig());
  }

  lemma PollTakesItsCheck(s: System, r: Report, stamp: Time) returns (u: System)
    requires Sound(s) && |s.calls| == 1
    requires var t := s.journal.table;
             |t.rows| == 1 && t.rows[0].Open() && t.rows[0].sig == r.Sig() && t.rows[0].Since() < stamp
    ensures Reaches(s, u) && Sound(u) && u.journal.table == s.journal.table && |u.calls| == 2
    ensures u.calls[1].Closing? && u.calls[1].todo == [r.Sig()]
    ensures u.calls[1].guard.Guarded? && u.calls[1].guard.stamp == stamp
  {
    OnlyRow(s.journal.table, OpenOf(r.Sig()));
    var s1 := Begin(s, Looking(r.Sig(), Some(stamp), "ssh", None));
    u := Turn(s, s1, 1);
  }

  lemma ComesBack(s: System, r: Report) returns (u: System)
    requires Sound(s) && r.severity in SEVERITIES && |s.calls| == 2
    requires var t := s.journal.table; |t.rows| == 1 && t.rows[0].Open() && t.rows[0].sig == r.Sig()
    ensures Reaches(s, u) && Sound(u) && |u.calls| > 2 && u.calls[..2] == s.calls
    ensures OpenFor(u.journal.table, r.Sig()).Some? &&
            OpenFor(u.journal.table, r.Sig()).value.Since() == s.journal.table.now
  {
    OnlyRow(s.journal.table, OpenOf(r.Sig()));
    var s1 := SoloResolve(s, r.Sig());
    OnlyRow(s1.journal.table, AnyOf(r.Sig()));
    u := SoloRaise(s1, r, 1);
    OnlyRow(u.journal.table, OpenOf(r.Sig()));
    ReachesInTwoParts(s, s1, u);
    assert u.calls[..2] == u.calls[..3][..2] == s1.calls[..2];
  }

  /** The next step of a guarded resolve closes an event newer than its stamp. */
  ghost predicate ClosesNewer(s: System, sig: Signature) {
    && |s.calls| > 1 && s.calls[1].Closing? && s.calls[1].guard.Guarded? && s.calls[1].todo == [sig]
    && OpenFor(s.journal.table, sig).Some? && OpenFor(s.journal.table, sig).value.Since() > s.calls[1].guard.stamp
  }

  /** resolve_id closes a later episode than the one it was asked for: it reads the
      signature of the row, and then resolves by signature. */
  lemma ResolveIdCanCloseALaterEpisode(now: Time, r: Report)
    requires r.severity in SEVERITIES
    ensures exists s, u :: AsksForOne(now, s, r.Sig()) && Reaches(s, u) && ClosesAnotherId(u, r.Sig(), 1)
  {
    var s0 := OneOpenEpisode(now, r, 0);
    var s := Begin(s0, Selecting(ById(1), "admin", None));
    ReachesInTwoParts(Initial(now), s0, s);
    ReachedIsPossible(now, s);
    OnlyRow(s.journal.table, OpenOf(r.Sig()));
    assert RunFrom(s, []) == s;
    var s1 := ResolveIdTakesItsRow(s, r);
    var u := ReplacedByANewEpisode(s1, r);
    ReachesInTwoParts(s, s1, u);
    assert u.calls[1] == u.calls[..2][1];
    assert AsksForOne(now, s, r.Sig()) && ClosesAnotherId(u, r.Sig(), 1);
  }

  /** Someone is about to resolve the event with id 1, which is open. */
  ghost predicate AsksForOne(now: Time, s: System, sig: Signature) {
    && Possible(now, s) && |s.calls| == 2 && s.calls[1] == Selecting(ById(1), "admin", None)
    && OpenFor(s.journal.table, sig).Some? && OpenFor(s.journal.table, sig).value.id == 1
  }

  lemma ResolveIdTakesItsRow(s: System, r: Report) returns (u: System)
    requires Sound(s) && Reaches(s, s) && |s.calls| == 2 && s.calls[1] == Selecting(ById(1), "admin", None)
    requires var t := s.journal.table;
             |t.rows| == 1 && t.rows[0].Open() && t.rows[0].sig == r.Sig() && t.rows[0].id == 1
    ensures Reaches(s, u) && Sound(u) && u.journal.table == s.journal.table && |u.calls| == 2
    ensures u.calls[1] == Closing([r.Sig()], "admin", None, 0, Unguarded, Unwatched)
  {
    var t := s.journal.table;
    assert t.rows[..0] == [];
    assert Selected(t.rows, t.now, ById(1)) == [r.Sig()];
    u := Turn(s, s, 1);
  }

  lemma ReplacedByANewEpisode(s: System, r: Report) returns (u: System)
    requires Sound(s) && r.severity in SEVERITIES && |s.calls| == 2
    requires var t := s.journal.table; |t.rows| == 1 && t.rows[0].Open() && t.rows[0].sig == r.Sig() && t.nextId == 2
    ensures Reaches(s, u) && Sound(u) && |u.calls| > 2 && u.calls[..2] == s.calls
    ensures OpenFor(u.journal.table, r.Sig()).Some? && OpenFor(u.journal.table, r.Sig()).value.id == 2
  {
    OnlyRow(s.journal.table, OpenOf(r.Sig()));
    var s1 := SoloResolve(s, r.Sig());
    OnlyRow(s1.journal.table, OpenOf(r.Sig()));
    u := SoloRaise(s1, r, 0);
    ReachesInTwoParts(s, s1, u);
    assert u.journal.table.rows[1].sig == r.Sig() && Matches(OpenOf(r.Sig()), u.journal.table.rows[1]);
    assert u.calls[..2] == u.calls[..3][..2] == s1.calls[..2];
  }

  /** The next step of a resolve closes an event with another id. */
  ghost predicate ClosesAnotherId(s: System, sig: Signature, id: nat) {
    && |s.calls| > 1 && s.calls[1].Closing? && s.calls[1].todo == [sig]
    && OpenFor(s.journal.table, sig).Some? && OpenFor(s.journal.table, sig).value.id != id
  }
}
