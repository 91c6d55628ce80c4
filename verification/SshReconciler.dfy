/** webui/event_reconcile.py: the object that walks a poll, remembers what it
    saw, and calls the event store. */
module SshReconciler {
  import opened Common
  import opened EventTable
  import opened EventFields
  import opened EventStore
  import opened EventProtocol
  import opened SyslogDetector
  import opened ReconcilePolicy
  import opened ReconcileRuns

  /** The signature changed between open and closed only if it last did so no
      later than the stamp. */
  ghost predicate KeepsNewer(before: Table, after: Table, sig: Signature, stamp: Option<Time>) {
    stamp.Some? && IsOpen(before, sig) != IsOpen(after, sig) ==>
      LatestFor(before, sig).Some? ==> LatestFor(before, sig).value.Since() <= stamp.value
  }

  function RaiseSig(a: Action, deviceId: string, device: string): Signature {
    Signature(a.kind, if deviceId != "" then deviceId else device, a.subject)
  }

  function RaisedBy(a: Action, deviceId: string, device: string): Report
    requires a.RaiseUnlessSuperseded?
  {
    Report(a.kind, a.severity, deviceId, device, a.subject, a.kind, None, None, "ssh", None)
  }

  lemma CloseKeepsNewer(t: Table, sig: Signature, stamp: Option<Time>, actor: string, note: Option<string>)
    requires Ok(t) && MayClose(OpenFor(t, sig), stamp)
    ensures KeepsNewer(t, Exec(t, Resolve(sig, actor, note)).table, sig, stamp)
  {
    OpenIsNewest(t, sig);
  }

  lemma RaiseKeepsNewer(t: Table, r: Report, window: int, stamp: Option<Time>)
    requires Ok(t) && !IsSuperseded(LatestFor(t, r.Sig()), stamp)
    ensures KeepsNewer(t, ReportOnce(t, r, window).table, r.Sig(), stamp)
  {
    var n := LastIndex(t.rows, AnyOf(r.Sig()));
    OpenIsNewest(t, r.Sig());
    if n >= 0 && t.rows[n].Open() {
      assert Matches(OpenOf(r.Sig()), ReportOnce(t, r, window).table.rows[n]);
    }
  }

  /** What one request does to the table when nobody interferes. */
  function Applied(t: Table, q: Request): Table {
    var a := q.action;
    match a
    case RaiseUnlessSuperseded(_, _, severity, stamp) =>
      if severity == "ignore" || IsSuperseded(LatestFor(t, RaiseSig(a, q.deviceId, q.device)), stamp) then t
      else ReportOnce(t, Clipped(RaisedBy(a, q.deviceId, q.device)), REOPEN_WITHIN_SECONDS).table
    case CloseIfOlder(kind, subject, stamp) => ClosedIf(t, Signature(kind, q.deviceId, subject), stamp)
    case CloseNow(kind, subject) => ClosedIf(t, Signature(kind, q.deviceId, subject), None)
  }

  function ClosedIf(t: Table, sig: Signature, stamp: Option<Time>): Table {
    if MayClose(OpenFor(t, sig), stamp) then Exec(t, Resolve(sig, "ssh", None)).table else t
  }

  function AppliedAll(t: Table, qs: seq<Request>): Table {
    if qs == [] then t else Applied(AppliedAll(t, qs[..|qs| - 1]), qs[|qs| - 1])
  }

  lemma {:induction false} AppliedInTwoParts(t: Table, a: seq<Request>, b: seq<Request>)
    ensures AppliedAll(t, a + b) == AppliedAll(AppliedAll(t, a), b)
  {
    if b == [] {
      assert a + b == a;
    } else {
      AppliedInTwoParts(t, a, b[..|b| - 1]);
      LastOfBoth(a, b);
    }
  }

  lemma LastOfBoth(a: seq<Request>, b: seq<Request>)
    requires b != []
    ensures (a + b)[..|a + b| - 1] == a + b[..|b| - 1] && (a + b)[|a + b| - 1] == b[|b| - 1]
  {
  }

  /** The table, what has been asked, and how many statements others committed. */
  datatype Trail = Trail(table: Table, issued: seq<Request>, others: nat)

  /** Between two moments exactly these actions were asked for, and if nobody
      interfered the table is what they make of it. */
  ghost predicate Did(a: Trail, b: Trail, deviceId: string, device: string, acts: seq<Action>) {
    var qs := Requests(deviceId, device, acts);
    && b.issued == a.issued + qs && a.others <= b.others
    && (a.others == b.others ==> b.table == AppliedAll(a.table, qs))
  }

  lemma DidNothing(a: Trail, deviceId: string, device: string)
    ensures Did(a, a, deviceId, device, [])
  {
    assert Requests(deviceId, device, []) == [];
  }

  lemma DidTwice(a: Trail, b: Trail, c: Trail, deviceId: string, device: string, x: seq<Action>, y: seq<Action>)
    requires Did(a, b, deviceId, device, x) && Did(b, c, deviceId, device, y)
    ensures Did(a, c, deviceId, device, x + y)
  {
    RequestsInTwoParts(deviceId, device, x, y);
    AppliedInTwoParts(a.table, Requests(deviceId, device, x), Requests(deviceId, device, y));
    Reassociate(a.issued, Requests(deviceId, device, x), Requests(deviceId, device, y));
  }

  lemma DidOne(a: Trail, b: Trail, deviceId: string, device: string, act: Action)
    requires b.issued == a.issued + [Request(deviceId, device, act)] && a.others <= b.others
    requires a.others == b.others ==> b.table == Applied(a.table, Request(deviceId, device, act))
    ensures Did(a, b, deviceId, device, [act])
  {
    var q := Request(deviceId, device, act);
    assert Requests(deviceId, device, [act]) == [q];
    assert [q][..0] == [];
  }

  /** Others committed something, and then the signature was resolved. */
  ghost predicate ResolvedLater(t: Table, sig: Signature, earlier: seq<Statement>, later: seq<Statement>, u: Table) {
    exists ss :: later == earlier + ss && u == Exec(ExecAll(t, ss), Resolve(sig, "ssh", None)).table
  }

  /** Others committed something, and then the report was made, among more from others. */
  ghost predicate ReportedLater(t: Table, r: Report, earlier: seq<Statement>, later: seq<Statement>, u: Table) {
    exists ss, outcome ::
      RaisedAmong(ExecAll(t, ss), Clipped(r), REOPEN_WITHIN_SECONDS, earlier + ss, later, Ended(u, outcome))
  }

  lemma IsReportedLater(t: Table, r: Report, earlier: seq<Statement>, ss: seq<Statement>, later: seq<Statement>,
                        u: Table, outcome: Outcome)
    requires RaisedAmong(ExecAll(t, ss), Clipped(r), REOPEN_WITHIN_SECONDS, earlier + ss, later, Ended(u, outcome))
    ensures ReportedLater(t, r, earlier, later, u)
  {
  }

  lemma OneMoreSighting(c: map<PortKey, map<string, int>>, deviceId: string, xs: seq<Sighting>, i: nat)
    requires i < |xs|
    ensures var mid := CountersAfter(c, deviceId, xs[..i]);
            var previous := Previous(mid, (deviceId, xs[i].iface.port));
            && CountersAfter(c, deviceId, xs[..i + 1]) == Recorded(mid, deviceId, xs[i])
            && ErrorsActs(c, deviceId, xs[..i + 1]) ==
               ErrorsActs(c, deviceId, xs[..i]) + SightingActs(previous, deviceId, xs[i])
  {
    assert xs[..i + 1][..i] == xs[..i];
  }

  /** The report made of an action, column by column; its title and detail are not modelled. */
  predicate IsSshReport(r: Report, a: Action, deviceId: string, device: string)
    requires a.RaiseUnlessSuperseded?
  {
    && r.kind == a.kind && r.subject == a.subject && r.severity == a.severity
    && r.deviceId == deviceId && r.device == device && r.source == "ssh" && r.ruleId == None && r.signalAt == None
  }

  /** The newest row of the action's signature was resolved after its stamp. */
  ghost predicate IsSupersededNow(t: Table, a: Action, deviceId: string, device: string)
    requires a.RaiseUnlessSuperseded?
  {
    a.stamp.Some? &&
    exists k ::
      && IsNewestAt(t, k, Signature(a.kind, if deviceId == "" then device else deviceId, a.subject))
      && t.rows[k].resolvedAt.Some? && t.rows[k].resolvedAt.value > a.stamp.value
  }

  /** The event is open, and last opened before the stamp if there is one. */
  ghost predicate MayCloseNow(t: Table, sig: Signature, stamp: Option<Time>) {
    exists k :: IsOpenAt(t, k, sig) &&
                (stamp.Some? ==>
                   var row := t.rows[k];
                   stamp.value > if row.reopenedAt.Some? then row.reopenedAt.value else row.raisedAt)
  }

  lemma SupersededIsNow(t: Table, a: Action, deviceId: string, device: string)
    requires Ok(t) && a.RaiseUnlessSuperseded?
    ensures IsSuperseded(LatestFor(t, RaiseSig(a, deviceId, device)), a.stamp) <==>
            IsSupersededNow(t, a, deviceId, device)
  {
    var sig := Signature(a.kind, if deviceId == "" then device else deviceId, a.subject);
    assert RaiseSig(a, deviceId, device) == sig;
    NewestIsFound(t, sig);
  }

  lemma MayCloseIsNow(t: Table, sig: Signature, stamp: Option<Time>)
    requires Ok(t)
    ensures MayClose(OpenFor(t, sig), stamp) <==> MayCloseNow(t, sig, stamp)
  {
    OpenIsFound(t, sig);
    OpenIsNewest(t, sig);
    var n := LastIndex(t.rows, OpenOf(sig));
    if k :| IsOpenAt(t, k, sig) {
      assert Matches(OpenOf(sig), t.rows[k]);
      assert k < n ==> !t.rows[k].Open();
    }
  }

  class SshReconciler {
    const store: Store
    var seenPolledAt: map<string, string>
    var prevPort: map<PortKey, string>
    var counters: map<PortKey, map<string, int>>
    var failPasses: map<string, nat>
    var cpuPasses: map<string, nat>
    var memPasses: map<string, nat>
    var acted: nat
    // Every call made on the store, in order.
    ghost var issued: seq<Request>

    ghost predicate Valid()
      reads this, store
    {
      store.Valid()
    }

    ghost function View(): Memory
      reads this
    {
      Memory(seenPolledAt, prevPort, counters, failPasses, cpuPasses, memPasses)
    }

    ghost function Now(): Trail
      reads this, store
    {
      Trail(store.table, issued, |store.others|)
    }

    ghost function Transitions(): nat
      reads store
    {
      |store.raisedHooks| + |store.resolvedHooks|
    }

    constructor (store: Store)
      requires store.Valid()
      ensures Valid() && this.store == store && acted == 0 && issued == []
      ensures View() == Memory(map[], map[], map[], map[], map[], map[])
    {
      this.store := store;
      seenPolledAt, prevPort, counters, failPasses, cpuPasses, memPasses := map[], map[], map[], map[], map[], map[];
      acted, issued := 0, [];
    }

    /** _raise, guarded by _superseded; others may commit anything after the check. */
    method Raise(deviceId: string, device: string, a: Action) returns (n: nat)
      requires Valid() && a.RaiseUnlessSuperseded?
      modifies this`issued, store
      ensures Valid() && Did(old(Now()), Now(), deviceId, device, [a]) && Transitions() == old(Transitions()) + n
      ensures if a.severity == "ignore" ||
                 IsSuperseded(LatestFor(old(store.table), RaiseSig(a, deviceId, device)), a.stamp)
              then n == 0 && store.table == old(store.table)
              else ReportedLater(old(store.table), RaisedBy(a, deviceId, device), old(store.others), store.others,
                                 store.table)
      ensures |store.others| == |old(store.others)| ==>
                KeepsNewer(old(store.table), store.table, RaiseSig(a, deviceId, device), a.stamp)
      // In terms of the columns.
      ensures a.severity != "ignore" && !IsSupersededNow(old(store.table), a, deviceId, device) ==>
                exists r :: IsSshReport(r, a, deviceId, device) &&
                            ReportWasMade(r, old(store.table), store.table, n == 1,
                                          old(store.raisedHooks), store.raisedHooks,
                                          |store.others| == |old(store.others)|)
      ensures a.severity == "ignore" || IsSupersededNow(old(store.table), a, deviceId, device) ==>
                n == 0 && store.table == old(store.table) && store.raisedHooks == old(store.raisedHooks)
    {
      SupersededIsNow(store.table, a, deviceId, device);
      ghost var i0 := Now();
      issued := issued + [Request(deviceId, device, a)];
      n := 0;
      if a.severity != "ignore" && !IsSuperseded(LatestFor(store.table, RaiseSig(a, deviceId, device)), a.stamp) {
        n := Report(deviceId, device, a);
      }
      DidOne(i0, Now(), deviceId, device, a);
    }

    method Report(deviceId: string, device: string, a: Action) returns (n: nat)
      requires Valid() && a.RaiseUnlessSuperseded?
      requires !IsSuperseded(LatestFor(store.table, RaiseSig(a, deviceId, device)), a.stamp) && a.severity != "ignore"
      modifies store
      ensures Valid() && |store.others| >= |old(store.others)| && Transitions() == old(Transitions()) + n
      ensures ReportedLater(old(store.table), RaisedBy(a, deviceId, device), old(store.others), store.others,
                            store.table)
      ensures |store.others| == |old(store.others)| ==>
                && store.table ==
                   ReportOnce(old(store.table), Clipped(RaisedBy(a, deviceId, device)), REOPEN_WITHIN_SECONDS).table
                && KeepsNewer(old(store.table), store.table, RaiseSig(a, deviceId, device), a.stamp)
      ensures exists r :: IsSshReport(r, a, deviceId, device) &&
                          ReportWasMade(r, old(store.table), store.table, n == 1,
                                        old(store.raisedHooks), store.raisedHooks,
                                        |store.others| == |old(store.others)|)
    {
      var r := RaisedBy(a, deviceId, device);
      assert IsSshReport(r, a, deviceId, device);
      RaiseKeepsNewer(store.table, Clipped(r), REOPEN_WITHIN_SECONDS, a.stamp);
      ghost var t0, o0 := store.table, store.others;
      store.Interference();
      ghost var ss :| store.others == o0 + ss && store.table == ExecAll(t0, ss);
      var outcome := store.RaiseEvent(r, None);
      n := if outcome.news then 1 else 0;
      IsReportedLater(t0, r, o0, ss, store.others, store.table, outcome);
    }

    /** _resolve_if_stale_safe and _resolve_now; others may commit anything after the check. */
    method Close(deviceId: string, device: string, a: Action) returns (n: nat)
      requires Valid() && !a.RaiseUnlessSuperseded?
      modifies this`issued, store
      ensures Valid() && Did(old(Now()), Now(), deviceId, device, [a]) && Transitions() == old(Transitions()) + n
      ensures var sig := Signature(a.kind, deviceId, a.subject); var stamp := if a.CloseIfOlder? then a.stamp else None;
              && (if MayClose(OpenFor(old(store.table), sig), stamp)
                  then ResolvedLater(old(store.table), sig, old(store.others), store.others, store.table)
                  else store.table == old(store.table) && n == 0)
              && (|store.others| == |old(store.others)| ==> KeepsNewer(old(store.table), store.table, sig, stamp))
      // In terms of the columns.
      ensures var sig := Signature(a.kind, deviceId, a.subject); var stamp := if a.CloseIfOlder? then a.stamp else None;
              if MayCloseNow(old(store.table), sig, stamp) then
                && (n == 1 ==> |store.resolvedHooks| == |old(store.resolvedHooks)| + 1 &&
                               var told := store.resolvedHooks[|old(store.resolvedHooks)|];
                               told.sig == sig && ToldAsClosed(told, "ssh", None))
                && (|store.others| == |old(store.others)| ==>
                      n == 1 && exists row :: Closes(old(store.table), sig, "ssh", None, store.table, row))
              else n == 0 && store.table == old(store.table) && store.resolvedHooks == old(store.resolvedHooks)
    {
      MayCloseIsNow(store.table, Signature(a.kind, deviceId, a.subject), if a.CloseIfOlder? then a.stamp else None);
      ghost var i0 := Now();
      issued := issued + [Request(deviceId, device, a)];
      var stamp := if a.CloseIfOlder? then a.stamp else None;
      var open := OpenFor(store.table, Signature(a.kind, deviceId, a.subject));
      n := 0;
      if MayClose(open, stamp) {
        n := ResolveOpen(open.value.sig, stamp);
      }
      DidOne(i0, Now(), deviceId, device, a);
    }

    method ResolveOpen(sig: Signature, stamp: Option<Time>) returns (n: nat)
      requires Valid() && MayClose(OpenFor(store.table, sig), stamp)
      modifies store
      ensures Valid() && |store.others| >= |old(store.others)| && Transitions() == old(Transitions()) + n
      ensures ResolvedLater(old(store.table), sig, old(store.others), store.others, store.table)
      ensures |store.others| == |old(store.others)| ==>
                && store.table == Exec(old(store.table), Resolve(sig, "ssh", None)).table
                && KeepsNewer(old(store.table), store.table, sig, stamp)
      ensures n == 1 ==> |store.resolvedHooks| == |old(store.resolvedHooks)| + 1 &&
                         var told := store.resolvedHooks[|old(store.resolvedHooks)|];
                         told.sig == sig && ToldAsClosed(told, "ssh", None)
      ensures n == 0 ==> store.resolvedHooks == old(store.resolvedHooks)
      ensures |store.others| == |old(store.others)| ==>
                n == 1 && exists row :: Closes(old(store.table), sig, "ssh", None, store.table, row)
    {
      StatementWrites(store.table, Resolve(sig, "ssh", None));
      CloseKeepsNewer(store.table, sig, stamp, "ssh", None);
      ghost var o0 := store.others;
      ghost var ss;
      var row;
      row, ss := store.ResolveLater(sig, "ssh", None);
      n := if row.Some? then 1 else 0;
      assert |store.others| == |o0| ==> ss == [];
    }

    method Act(deviceId: string, device: string, a: Action) returns (n: nat)
      requires Valid()
      modifies this`issued, store
      ensures Valid() && Did(old(Now()), Now(), deviceId, device, [a]) && Transitions() == old(Transitions()) + n
    {
      if a.RaiseUnlessSuperseded? {
        n := Raise(deviceId, device, a);
      } else {
        n := Close(deviceId, device, a);
      }
    }

    method Perform(deviceId: string, device: string, acts: seq<Action>) returns (n: nat)
      requires Valid()
      modifies this`issued, store
      ensures Valid() && Did(old(Now()), Now(), deviceId, device, acts) && Transitions() == old(Transitions()) + n
    {
      n := 0;
      for i := 0 to |acts|
        invariant Valid() && Did(old(Now()), Now(), deviceId, device, acts[..i]) &&
                  Transitions() == old(Transitions()) + n
      {
        ghost var before := Now();
        var m := Act(deviceId, device, acts[i]);
        n := n + m;
        DidTwice(old(Now()), before, Now(), deviceId, device, acts[..i], [acts[i]]);
        assert acts[..i + 1] == acts[..i] + [acts[i]];
      }
      assert acts[..|acts|] == acts;
    }

    /** _ports for one interface. */
    method Port(deviceId: string, device: string, l: Look) returns (n: nat)
      requires Valid()
      modifies this`issued, this`prevPort, store
      ensures Valid() && Transitions() == old(Transitions()) + n
      ensures prevPort == if Shows(l) then old(prevPort)[(deviceId, l.port) := l.state.value] else old(prevPort)
      ensures Did(old(Now()), Now(), deviceId, device, PortActs(Get(old(prevPort), (deviceId, l.port)), l))
    {
      n := 0;
      if l.port == "" || l.state == None {
        return;
      }
      var prev := Get(prevPort, (deviceId, l.port));
      prevPort := prevPort[(deviceId, l.port) := l.state.value];
      if l.state.value == "down" {
        if l.severity != "ignore" && (prev == Some("up") || (prev == None && l.overridden)) {
          n := Raise(deviceId, device, RaiseUnlessSuperseded("port.link_down", l.port, l.severity, l.stamp));
        }
      } else if l.state.value == "up" {
        n := Close(deviceId, device, CloseIfOlder("port.link_down", l.port, l.stamp));
      }
    }

    /** _ports */
    method Ports(deviceId: string, device: string, interfaces: seq<Iface>, stamp: Option<Time>, s: Settings)
      returns (n: nat)
      requires Valid()
      modifies this`issued, this`prevPort, store
      ensures Valid() && Transitions() == old(Transitions()) + n
      ensures prevPort == PortsAfter(old(prevPort), deviceId, Looks(deviceId, interfaces, stamp, s))
      ensures Did(old(Now()), Now(), deviceId, device,
                  PortsActs(old(prevPort), deviceId, Looks(deviceId, interfaces, stamp, s)))
    {
      n := 0;
      ghost var looks := Looks(deviceId, interfaces, stamp, s);
      for i := 0 to |interfaces|
        invariant Valid() && Transitions() == old(Transitions()) + n
        invariant prevPort == PortsAfter(old(prevPort), deviceId, looks[..i])
        invariant Did(old(Now()), Now(), deviceId, device, PortsActs(old(prevPort), deviceId, looks[..i]))
      {
        var l := LookAt(deviceId, interfaces[i], stamp, s);
        assert looks[..i + 1][..i] == looks[..i] && looks[i] == l;
        ghost var acts, before := PortActs(Get(prevPort, (deviceId, l.port)), l), Now();
        var m := Port(deviceId, device, l);
        n := n + m;
        DidTwice(old(Now()), before, Now(), deviceId, device, PortsActs(old(prevPort), deviceId, looks[..i]), acts);
      }
      assert looks[..|looks|] == looks;
    }

    /** _errors for one interface: every counter against its previous value. */
    method InterfaceErrors(deviceId: string, device: string, x: Sighting) returns (n: nat)
      requires Valid() && Counted(deviceId, x)
      modifies this`issued, this`counters, store
      ensures Valid() && Transitions() == old(Transitions()) + n
      ensures var key := (deviceId, x.iface.port);
              var previous := Previous(old(counters), key);
              var current := Current(x.iface, |KINDS|);
              && counters == (if current != map[] then old(counters)[key := previous + current] else old(counters))
              && Did(old(Now()), Now(), deviceId, device, KindsActs(previous, x.iface, |KINDS|, x.stamp, x.settings))
    {
      n := 0;
      var previous := Previous(counters, (deviceId, x.iface.port));
      var current: map<string, int> := map[];
      for k := 0 to |KINDS|
        invariant Valid() && Transitions() == old(Transitions()) + n && counters == old(counters)
        invariant current == Current(x.iface, k)
        invariant Did(old(Now()), Now(), deviceId, device, KindsActs(previous, x.iface, k, x.stamp, x.settings))
      {
        var kind := KINDS[k];
        var total := TotalFor(x.iface, kind);
        if total == None {
          ghost var acts := KindsActs(previous, x.iface, k, x.stamp, x.settings);
          assert acts + [] == acts;
          continue;
        }
        current := current[kind := total.value];
        ghost var before := Now();
        var m := Perform(deviceId, device, KindActs(previous, x.iface, kind, x.stamp, x.settings));
        n := n + m;
        DidTwice(old(Now()), before, Now(), deviceId, device, KindsActs(previous, x.iface, k, x.stamp, x.settings),
                      KindActs(previous, x.iface, kind, x.stamp, x.settings));
      }
      if current != map[] {
        counters := counters[(deviceId, x.iface.port) := previous + current];
      }
    }

    /** _errors for one interface, which may be nameless or set to be ignored. */
    method CountedErrors(deviceId: string, device: string, x: Sighting) returns (n: nat)
      requires Valid()
      modifies this`issued, this`counters, store
      ensures Valid() && Transitions() == old(Transitions()) + n && counters == Recorded(old(counters), deviceId, x)
      ensures Did(old(Now()), Now(), deviceId, device,
                  SightingActs(Previous(old(counters), (deviceId, x.iface.port)), deviceId, x))
    {
      n := 0;
      DidNothing(Now(), deviceId, device);
      if Counted(deviceId, x) {
        n := InterfaceErrors(deviceId, device, x);
      }
    }

    /** _errors */
    method Errors(deviceId: string, device: string, interfaces: seq<Iface>, stamp: Option<Time>, s: Settings)
      returns (n: nat)
      requires Valid()
      modifies this`issued, this`counters, store
      ensures Valid() && Transitions() == old(Transitions()) + n
      ensures counters == CountersAfter(old(counters), deviceId, Sightings(interfaces, stamp, s))
      ensures Did(old(Now()), Now(), deviceId, device,
                  ErrorsActs(old(counters), deviceId, Sightings(interfaces, stamp, s)))
    {
      n := 0;
      ghost var xs := Sightings(interfaces, stamp, s);
      for i := 0 to |interfaces|
        invariant Valid() && Transitions() == old(Transitions()) + n
        invariant counters == CountersAfter(old(counters), deviceId, xs[..i])
        invariant Did(old(Now()), Now(), deviceId, device, ErrorsActs(old(counters), deviceId, xs[..i]))
      {
        var x := Sighting(interfaces[i], stamp, s);
        assert xs[i] == x;
        OneMoreSighting(old(counters), deviceId, xs, i);
        ghost var acts, before := SightingActs(Previous(counters, (deviceId, x.iface.port)), deviceId, x), Now();
        var m := CountedErrors(deviceId, device, x);
        n := n + m;
        DidTwice(old(Now()), before, Now(), deviceId, device, ErrorsActs(old(counters), deviceId, xs[..i]), acts);
      }
      assert xs[..|xs|] == xs;
    }

    /** The fan loop of _environment: guarded resolves at once, faults remembered. */
    method Fans(deviceId: string, device: string, fans: seq<Fan>, stamp: Option<Time>)
      returns (n: nat, faulted: seq<Fault>)
      requires Valid()
      modifies this`issued, store
      ensures Valid() && Transitions() == old(Transitions()) + n
      ensures faulted == FanFaults(fans) && Did(old(Now()), Now(), deviceId, device, FanCloses(fans, stamp))
    {
      n, faulted := 0, [];
      for i := 0 to |fans|
        invariant Valid() && Transitions() == old(Transitions()) + n
        invariant faulted == FanFaults(fans[..i]) &&
                  Did(old(Now()), Now(), deviceId, device, FanCloses(fans[..i], stamp))
      {
        var f := fans[i];
        assert fans[..i + 1][..i] == fans[..i];
        if FanFaulted(f) {
          faulted := WithFault(faulted, ("env.fan", FanSubject(f)));
          assert FanCloses(fans[..i], stamp) + [] == FanCloses(fans[..i], stamp);
        } else {
          ghost var before := Now();
          var m := Close(deviceId, device, CloseIfOlder("env.fan", FanSubject(f), stamp));
          n := n + m;
          DidTwice(old(Now()), before, Now(), deviceId, device, FanCloses(fans[..i], stamp),
                   [CloseIfOlder("env.fan", FanSubject(f), stamp)]);
        }
      }
      assert fans[..|fans|] == fans;
    }

    /** The power supply loop. */
    method Psus(deviceId: string, device: string, faults: seq<Fault>, psus: seq<Psu>, stamp: Option<Time>)
      returns (n: nat, faulted: seq<Fault>)
      requires Valid()
      modifies this`issued, store
      ensures Valid() && Transitions() == old(Transitions()) + n
      ensures faulted == PsuFaults(faults, psus) && Did(old(Now()), Now(), deviceId, device, PsuCloses(psus, stamp))
    {
      n, faulted := 0, faults;
      for i := 0 to |psus|
        invariant Valid() && Transitions() == old(Transitions()) + n
        invariant faulted == PsuFaults(faults, psus[..i]) &&
                  Did(old(Now()), Now(), deviceId, device, PsuCloses(psus[..i], stamp))
      {
        var p := psus[i];
        assert psus[..i + 1][..i] == psus[..i];
        if PsuFaulted(p) {
          faulted := WithFault(faulted, ("env.psu", PsuSubject(p)));
          assert PsuCloses(psus[..i], stamp) + [] == PsuCloses(psus[..i], stamp);
        } else {
          ghost var before := Now();
          var m := Close(deviceId, device, CloseIfOlder("env.psu", PsuSubject(p), stamp));
          n := n + m;
          DidTwice(old(Now()), before, Now(), deviceId, device, PsuCloses(psus[..i], stamp),
                   [CloseIfOlder("env.psu", PsuSubject(p), stamp)]);
        }
      }
      assert psus[..|psus|] == psus;
    }

    /** _environment: the raises come last. */
    method Environment(deviceId: string, device: string, env: Env, stamp: Option<Time>, s: Settings) returns (n: nat)
      requires Valid()
      modifies this`issued, store
      ensures Valid() && Transitions() == old(Transitions()) + n
      ensures Did(old(Now()), Now(), deviceId, device, EnvActs(env, stamp, s))
    {
      ghost var i0 := Now();
      var a, fanFaults := Fans(deviceId, device, env.fans, stamp);
      ghost var i1 := Now();
      var b, faulted := Psus(deviceId, device, fanFaults, env.psus, stamp);
      DidTwice(i0, i1, Now(), deviceId, device, FanCloses(env.fans, stamp), PsuCloses(env.psus, stamp));
      i1 := Now();
      var c := Perform(deviceId, device, FaultRaises(faulted, stamp, s));
      DidTwice(i0, i1, Now(), deviceId, device, FanCloses(env.fans, stamp) + PsuCloses(env.psus, stamp),
               FaultRaises(faulted, stamp, s));
      n := a + b + c;
    }

    /** _compute */
    method Compute(deviceId: string, device: string, status: Status, stamp: Option<Time>, s: Settings) returns (n: nat)
      requires Valid()
      modifies this`issued, this`cpuPasses, this`memPasses, store
      ensures Valid() && Transitions() == old(Transitions()) + n
      ensures cpuPasses == PassCounter(old(cpuPasses), deviceId, status.cpu, s.cpu)
      ensures memPasses == PassCounter(old(memPasses), deviceId, status.memory, s.memory)
      ensures Did(old(Now()), Now(), deviceId, device,
                  ComputeActs(Count(old(cpuPasses), deviceId), Count(old(memPasses), deviceId), status, stamp, s))
    {
      var cpu := LimitActs(Count(cpuPasses, deviceId), status.cpu, s.cpu, "compute.cpu_high", "cpu", stamp, s);
      var memory := LimitActs(Count(memPasses, deviceId), status.memory, s.memory, "compute.memory_high", "memory",
                              stamp, s);
      if status.cpu.Some? {
        cpuPasses := cpuPasses[deviceId := PassesAfter(Count(cpuPasses, deviceId), status.cpu, s.cpu)];
      }
      ghost var i0 := Now();
      n := Perform(deviceId, device, cpu);
      ghost var i1 := Now();
      if status.memory.Some? {
        memPasses := memPasses[deviceId := PassesAfter(Count(memPasses, deviceId), status.memory, s.memory)];
      }
      var m := Perform(deviceId, device, memory);
      DidTwice(i0, i1, Now(), deviceId, device, cpu, memory);
      n := n + m;
    }

    /** _reachability */
    method Reachability(deviceId: string, device: string, status: Status, s: Settings) returns (n: nat)
      requires Valid()
      modifies this`issued, this`failPasses, store
      ensures Valid() && Transitions() == old(Transitions()) + n
      ensures failPasses == FailingAfter(old(View()), deviceId, status)
      ensures Did(old(Now()), Now(), deviceId, device, ReachActs(old(View()), deviceId, status, s))
    {
      var acts := if Failing(status) && Count(failPasses, deviceId) + 1 >= Max(1, s.unreachablePolls)
                  then [RaiseUnlessSuperseded("device.unreachable", "ssh", s.SeverityFor("device.unreachable"), None)]
                  else if !Failing(status) && status.lastPolled.Some? && status.lastPolled.value.text != ""
                  then [CloseNow("device.unreachable", "ssh")] else [];
      failPasses := failPasses[deviceId := if Failing(status) then Count(failPasses, deviceId) + 1 else 0];
      n := Perform(deviceId, device, acts);
    }

    /** The checks of a poll not considered before. */
    method Consider(deviceId: string, device: string, status: Status, stamp: Option<Time>, s: Settings) returns (n: nat)
      requires Valid()
      modifies this`issued, this`prevPort, this`cpuPasses, this`memPasses, this`counters, store
      ensures Valid() && Transitions() == old(Transitions()) + n
      ensures View() == Learned(old(View()), deviceId, status, stamp, s)
      ensures Did(old(Now()), Now(), deviceId, device, PollActs(old(View()), deviceId, status, stamp, s))
    {
      ghost var m0, i0 := View(), Now();
      n := PortsAndBays(deviceId, device, status, stamp, s);
      ghost var i1 := Now();
      SameMemorySameActs(m0, View(), deviceId, status, stamp, s);
      var more := LimitsAndErrors(deviceId, device, status, stamp, s);
      n := n + more;
      DidTwice(i0, i1, Now(), deviceId, device, PortAndBayActs(m0, deviceId, status, stamp, s),
               LimitAndErrorActs(m0, deviceId, status, stamp, s));
    }

    method PortsAndBays(deviceId: string, device: string, status: Status, stamp: Option<Time>, s: Settings)
      returns (n: nat)
      requires Valid()
      modifies this`issued, this`prevPort, store
      ensures Valid() && Transitions() == old(Transitions()) + n
      ensures prevPort == PortsAfter(old(prevPort), deviceId, Looks(deviceId, status.interfaces, stamp, s))
      ensures Did(old(Now()), Now(), deviceId, device, PortAndBayActs(old(View()), deviceId, status, stamp, s))
    {
      ghost var m0, i0 := View(), Now();
      n := Ports(deviceId, device, status.interfaces, stamp, s);
      ghost var i1 := Now();
      var more := Environment(deviceId, device, status.env, stamp, s);
      n := n + more;
      DidTwice(i0, i1, Now(), deviceId, device,
               PortsActs(m0.ports, deviceId, Looks(deviceId, status.interfaces, stamp, s)),
               EnvActs(status.env, stamp, s));
    }

    method LimitsAndErrors(deviceId: string, device: string, status: Status, stamp: Option<Time>, s: Settings)
      returns (n: nat)
      requires Valid()
      modifies this`issued, this`cpuPasses, this`memPasses, this`counters, store
      ensures Valid() && Transitions() == old(Transitions()) + n
      ensures counters == CountersAfter(old(counters), deviceId, Sightings(status.interfaces, stamp, s))
      ensures cpuPasses == PassCounter(old(cpuPasses), deviceId, status.cpu, s.cpu)
      ensures memPasses == PassCounter(old(memPasses), deviceId, status.memory, s.memory)
      ensures Did(old(Now()), Now(), deviceId, device, LimitAndErrorActs(old(View()), deviceId, status, stamp, s))
    {
      ghost var m0, i0 := View(), Now();
      n := Compute(deviceId, device, status, stamp, s);
      ghost var i1 := Now();
      var more := Errors(deviceId, device, status.interfaces, stamp, s);
      n := n + more;
      DidTwice(i0, i1, Now(), deviceId, device,
               ComputeActs(Count(m0.cpu, deviceId), Count(m0.memory, deviceId), status, stamp, s),
               ErrorsActs(m0.counters, deviceId, Sightings(status.interfaces, stamp, s)));
    }

    /** A stamp not seen before is considered, once. */
    method ConsiderIfNew(deviceId: string, device: string, status: Status, s: Settings) returns (n: nat)
      requires Valid()
      modifies this`seenPolledAt, this`issued, this`prevPort, this`cpuPasses, this`memPasses, this`counters, store
      ensures Valid() && Transitions() == old(Transitions()) + n
      ensures View() == LearnedIfNew(old(View()), deviceId, status, s)
      ensures Did(old(Now()), Now(), deviceId, device, NewPollActs(old(View()), deviceId, status, s))
    {
      n := 0;
      if status.lastPolled.Some? && status.lastPolled.value.text != "" &&
          Get(seenPolledAt, deviceId) != Some(status.lastPolled.value.text) {
        ghost var m0 := View();
        seenPolledAt := seenPolledAt[deviceId := status.lastPolled.value.text];
        SameMemorySameActs(m0, View(), deviceId, status, status.lastPolled.value.at, s);
        n := Consider(deviceId, device, status, status.lastPolled.value.at, s);
      }
    }

    /** reconcile: the memory and the calls are those of the policy. */
    method Reconcile(deviceId: string, device: string, status: Status, s: Settings) returns (n: nat)
      requires Valid()
      modifies this, store
      ensures Valid() && View() == MemoryAfter(old(View()), deviceId, status, s)
      ensures Did(old(Now()), Now(), deviceId, device, PassActs(old(View()), deviceId, status, s))
      ensures Transitions() == old(Transitions()) + n && acted == old(acted) + n
    {
      ghost var m0, i0 := View(), Now();
      n := Reachability(deviceId, device, status, s);
      ghost var m1, i1 := View(), Now();
      var m := ConsiderIfNew(deviceId, device, status, s);
      n := n + m;
      SameNewPollActs(m0, m1, deviceId, status, s);
      DidTwice(i0, i1, Now(), deviceId, device, ReachActs(m0, deviceId, status, s),
               NewPollActs(m0, deviceId, status, s));
      acted := acted + n;
    }
  }

  /** All that a round of passes asks for after a run, each on behalf of its device. */
  function AskedOver(run: seq<Pass>, round: seq<Pass>, names: seq<string>): seq<Request>
    requires |names| == |round|
  {
    if round == [] then []
    else
      var n := |round| - 1;
      AskedOver(run, round[..n], names[..n]) + Requests(round[n].deviceId, names[n], Asked(run + round[..n], round[n]))
  }

  lemma RoundOfOneMore(run: seq<Pass>, round: seq<Pass>, names: seq<string>, n: nat)
    requires n < |round| == |names|
    ensures MemoryOver(run + round[..n + 1]) ==
            MemoryAfter(MemoryOver(run + round[..n]), round[n].deviceId, round[n].status, round[n].settings)
    ensures AskedOver(run, round[..n + 1], names[..n + 1]) ==
            AskedOver(run, round[..n], names[..n]) +
            Requests(round[n].deviceId, names[n], Asked(run + round[..n], round[n]))
  {
    assert (run + round[..n + 1])[..|run| + n] == run + round[..n];
    assert round[..n + 1][..n] == round[..n] && names[..n + 1][..n] == names[..n];
  }

  /** The loop of webui/app.py: one pass per device.  After any run of passes the
      memory is that of the run, and the calls are what the run asks for. */
  method ReconcileAll(r: SshReconciler, ghost run: seq<Pass>, round: seq<Pass>, names: seq<string>)
    requires r.Valid() && r.View() == MemoryOver(run) && |names| == |round|
    modifies r, r.store
    ensures r.Valid() && r.View() == MemoryOver(run + round)
    ensures r.issued == old(r.issued) + AskedOver(run, round, names)
    ensures |r.store.others| >= |old(r.store.others)|
    ensures |r.store.others| == |old(r.store.others)| ==>
              r.store.table == AppliedAll(old(r.store.table), AskedOver(run, round, names))
  {
    assert run + [] == run;
    assert round[..0] == [];
    for i := 0 to |round|
      invariant r.Valid() && r.View() == MemoryOver(run + round[..i])
      invariant r.issued == old(r.issued) + AskedOver(run, round[..i], names[..i]) &&
                |r.store.others| >= |old(r.store.others)|
      invariant |r.store.others| == |old(r.store.others)| ==>
                  r.store.table == AppliedAll(old(r.store.table), AskedOver(run, round[..i], names[..i]))
    {
      RoundOfOneMore(run, round, names, i);
      ghost var asked := Requests(round[i].deviceId, names[i], Asked(run + round[..i], round[i]));
      AppliedInTwoParts(old(r.store.table), AskedOver(run, round[..i], names[..i]), asked);
      Reassociate(old(r.issued), AskedOver(run, round[..i], names[..i]), asked);
      var n := r.Reconcile(round[i].deviceId, names[i], round[i].status, round[i].settings);
    }
    assert round[..|round|] == round && names[..|names|] == names;
  }
}
