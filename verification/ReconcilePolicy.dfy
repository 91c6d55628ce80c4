/** webui/event_reconcile.py: what each considered poll makes the reconciler do.
    Its memory and the calls it makes never depend on what the store answers, so
    both are functions of the polls.  SshReconciler performs the calls. */
module ReconcilePolicy {
  import opened Common
  import opened EventTable
  import opened EventStore
  import opened EventProtocol
  import opened SyslogDetector

  // --- polls ------------------------------------------------------------------------

  /** last_polled: the text that is compared, and the time it parses to, if it does. */
  datatype Stamp = Stamp(text: string, at: Option<Time>)

  datatype Iface = Iface(port: string, state: Option<string>, inputErrors: Option<int>, outputErrors: Option<int>,
                         inputDiscards: Option<int>, outputDiscards: Option<int>)

  datatype Fan = Fan(unit: string, bay: string, fan1: Option<string>, fan2: Option<string>, removed: bool)

  datatype Psu = Psu(unit: string, bay: string, status: Option<string>, removed: bool)

  datatype Env = Env(fans: seq<Fan>, psus: seq<Psu>)

  datatype Status = Status(lastError: Option<string>, lastPolled: Option<Stamp>, interfaces: seq<Iface>, env: Env,
                           cpu: Option<real>, memory: Option<real>)

  datatype Limit = Limit(raisePercent: real, clearPercent: real, polls: int)

  datatype Settings = Settings(severities: map<string, Choice>, ports: map<PortKey, Choice>, perPoll: map<string, int>,
                               cpu: Limit, memory: Limit, unreachablePolls: int)
  {
    function SeverityFor(kind: string): Choice {
      if kind in severities then severities[kind] else "warning"
    }

    function PortSeverity(deviceId: string, port: string): Choice {
      if (deviceId, port) in ports then ports[(deviceId, port)] else SeverityFor("port.link_down")
    }

    predicate Ignored(deviceId: string, port: string) {
      (deviceId, port) in ports && ports[(deviceId, port)] == "ignore"
    }
  }

  // --- what the reconciler asks for ----------------------------------------------------

  datatype Action =
    | RaiseUnlessSuperseded(kind: string, subject: string, severity: Choice, stamp: Option<Time>)  // _raise
    | CloseIfOlder(kind: string, subject: string,
                   stamp: Option<Time>)                             // _resolve_if_stale_safe
    | CloseNow(kind: string,
               subject: string)                                                      // _resolve_now and its like

  datatype Memory = Memory(seen: map<string, string>, ports: map<PortKey, string>,
                           counters: map<PortKey, map<string, int>>, failing: map<string, nat>,
                           cpu: map<string, nat>, memory: map<string, nat>)

  function Get<K, V>(m: map<K, V>, k: K): Option<V> {
    if k in m then Some(m[k]) else None
  }

  function Count(m: map<string, nat>, k: string): nat {
    if k in m then m[k] else 0
  }

  // --- ports -------------------------------------------------------------------------

  /** One interface as one considered poll saw it. */
  datatype Look = Look(port: string, state: Option<string>, severity: Choice, overridden: bool, stamp: Option<Time>)

  predicate Shows(l: Look) {
    l.port != "" && l.state.Some?
  }

  function PortActs(prev: Option<string>, l: Look): seq<Action> {
    if !Shows(l) then []
    else if l.state.value == "down" then
      if l.severity != "ignore" && (prev == Some("up") || (prev == None && l.overridden))
      then [RaiseUnlessSuperseded("port.link_down", l.port, l.severity, l.stamp)] else []
    else if l.state.value == "up" then [CloseIfOlder("port.link_down", l.port, l.stamp)]
    else []
  }

  function PortsAfter(prev: map<PortKey, string>, deviceId: string, looks: seq<Look>): map<PortKey, string> {
    if looks == [] then prev
    else
      var m := PortsAfter(prev, deviceId, looks[..|looks| - 1]);
      var l := looks[|looks| - 1];
      if Shows(l) then m[(deviceId, l.port) := l.state.value] else m
  }

  function PortsActs(prev: map<PortKey, string>, deviceId: string, looks: seq<Look>): seq<Action> {
    if looks == [] then []
    else
      var l := looks[|looks| - 1];
      PortsActs(prev, deviceId, looks[..|looks| - 1]) +
      PortActs(Get(PortsAfter(prev, deviceId, looks[..|looks| - 1]), (deviceId, l.port)), l)
  }

  function LookAt(deviceId: string, i: Iface, stamp: Option<Time>, s: Settings): Look {
    Look(i.port, i.state, s.PortSeverity(deviceId, i.port), (deviceId, i.port) in s.ports, stamp)
  }

  function Looks(deviceId: string, interfaces: seq<Iface>, stamp: Option<Time>, s: Settings): (looks: seq<Look>)
    ensures |looks| == |interfaces|
    ensures forall i :: 0 <= i < |looks| ==> looks[i] == LookAt(deviceId, interfaces[i], stamp, s)
  {
    if interfaces == [] then []
    else Looks(deviceId, interfaces[..|interfaces| - 1], stamp, s) + [LookAt(deviceId, interfaces[|interfaces| - 1],
        stamp, s)]
  }

  /** The state a port was last seen in, over all looks so far. */
  function LastState(looks: seq<Look>, port: string): Option<string> {
    if looks == [] then None
    else
      var l := looks[|looks| - 1];
      if Shows(l) && l.port == port then l.state else LastState(looks[..|looks| - 1], port)
  }

  /** The memory of a port is the state it was last seen in, or what it was before
      if it was not seen; other devices' ports are left alone. */
  lemma {:induction false} MemoryIsLastState(prev: map<PortKey, string>, deviceId: string, looks: seq<Look>,
                                             other: string, port: string)
    ensures Get(PortsAfter(prev, deviceId, looks), (other, port)) ==
            if other == deviceId && LastState(looks, port).Some? then LastState(looks, port)
            else Get(prev, (other, port))
  {
    if looks != [] {
      MemoryIsLastState(prev, deviceId, looks[..|looks| - 1], other, port);
    }
  }

  /** An action asked of the store on behalf of a device. */
  datatype Request = Request(deviceId: string, device: string, action: Action)

  function Requests(deviceId: string, device: string, acts: seq<Action>): seq<Request> {
    seq(|acts|, i requires 0 <= i < |acts| => Request(deviceId, device, acts[i]))
  }

  lemma RequestsInTwoParts(deviceId: string, device: string, a: seq<Action>, b: seq<Action>)
    ensures Requests(deviceId, device, a + b) == Requests(deviceId, device, a) + Requests(deviceId, device, b)
  {
  }

  // --- error counters ------------------------------------------------------------------

  const KINDS: seq<string> := ["port.input_errors", "port.output_errors", "port.discards"]

  function Sum(a: Option<int>, b: Option<int>): Option<int> {
    if a.Some? && b.Some? then Some(a.value + b.value) else None
  }

  function TotalFor(i: Iface, kind: string): Option<int> {
    if kind == "port.input_errors" then i.inputErrors
    else if kind == "port.output_errors" then i.outputErrors
    else Sum(i.inputDiscards, i.outputDiscards)
  }

  /** One counter as one considered poll saw it. */
  datatype Reading = Reading(total: Option<int>, up: bool, threshold: int)

  datatype Verdict = Rising | Flat | Quiet

  function Judge(previous: Option<int>, r: Reading): Verdict {
    if r.total == None || previous == None || !r.up then Quiet
    else
      var delta := r.total.value - previous.value;
      if delta < 0 then Quiet
      else if delta >= Max(1, r.threshold) then Rising
      else if delta == 0 then Flat
      else Quiet
  }

  function ReadingOf(i: Iface, kind: string, s: Settings): Reading {
    Reading(TotalFor(i, kind), i.state == Some("up"), if kind in s.perPoll then s.perPoll[kind] else 10)
  }

  function KindActs(previous: map<string, int>, i: Iface, kind: string, stamp: Option<Time>, s: Settings): seq<Action> {
    match Judge(Get(previous, kind), ReadingOf(i, kind, s))
    case Rising => [RaiseUnlessSuperseded(kind, i.port, s.SeverityFor(kind), stamp)]
    case Flat => [CloseNow(kind, i.port)]
    case Quiet => []
  }

  function KindsActs(previous: map<string, int>, i: Iface, n: nat, stamp: Option<Time>, s: Settings): seq<Action>
    requires n <= |KINDS|
  {
    if n == 0 then [] else KindsActs(previous, i, n - 1, stamp, s) + KindActs(previous, i, KINDS[n - 1], stamp, s)
  }

  function Current(i: Iface, n: nat): map<string, int>
    requires n <= |KINDS|
  {
    if n == 0 then map[]
    else if TotalFor(i, KINDS[n - 1]).Some? then Current(i, n - 1)[KINDS[n - 1] := TotalFor(i, KINDS[n - 1]).value]
    else Current(i, n - 1)
  }

  /** One interface of one considered poll, with the settings of that moment. */
  datatype Sighting = Sighting(iface: Iface, stamp: Option<Time>, settings: Settings)

  predicate Counted(deviceId: string, x: Sighting) {
    x.iface.port != "" && !x.settings.Ignored(deviceId, x.iface.port)
  }

  function Previous(counters: map<PortKey, map<string, int>>, key: PortKey): map<string, int> {
    if key in counters then counters[key] else map[]
  }

  function CountersAfter(c: map<PortKey, map<string, int>>, deviceId: string,
                         xs: seq<Sighting>): map<PortKey, map<string, int>> {
    if xs == [] then c
    else
      Recorded(CountersAfter(c, deviceId, xs[..|xs| - 1]), deviceId, xs[|xs| - 1])
  }

  /** The counter memory after one interface more. */
  function Recorded(m: map<PortKey, map<string, int>>, deviceId: string, x: Sighting): map<PortKey, map<string, int>> {
    var key := (deviceId, x.iface.port);
    if Counted(deviceId, x) && Current(x.iface, |KINDS|) != map[]
    then m[key := Previous(m, key) + Current(x.iface, |KINDS|)] else m
  }

  lemma CounterOfOneMore(deviceId: string, m: map<PortKey, map<string, int>>, x: Sighting, other: string,
                         port: string, k: nat)
    requires k < |KINDS|
    ensures Get(Previous(Recorded(m, deviceId, x), (other, port)), KINDS[k]) ==
            if other == deviceId && x.iface.port == port && Counted(deviceId, x) && TotalFor(x.iface, KINDS[k]).Some?
            then TotalFor(x.iface, KINDS[k])
            else Get(Previous(m, (other, port)), KINDS[k])
  {
    CurrentHasTotals(x.iface, |KINDS|);
  }

  function SightingActs(previous: map<string, int>, deviceId: string, x: Sighting): seq<Action> {
    if Counted(deviceId, x) then KindsActs(previous, x.iface, |KINDS|, x.stamp, x.settings) else []
  }

  function ErrorsActs(c: map<PortKey, map<string, int>>, deviceId: string, xs: seq<Sighting>): seq<Action> {
    if xs == [] then []
    else
      var front, x := xs[..|xs| - 1], xs[|xs| - 1];
      ErrorsActs(c, deviceId, front) +
      SightingActs(Previous(CountersAfter(c, deviceId, front), (deviceId, x.iface.port)), deviceId, x)
  }

  function Sightings(interfaces: seq<Iface>, stamp: Option<Time>, s: Settings): (xs: seq<Sighting>)
    ensures |xs| == |interfaces|
    ensures forall i :: 0 <= i < |xs| ==> xs[i] == Sighting(interfaces[i], stamp, s)
  {
    if interfaces == [] then []
    else Sightings(interfaces[..|interfaces| - 1], stamp, s) + [Sighting(interfaces[|interfaces| - 1], stamp, s)]
  }

  /** The total last recorded for a counter. */
  function LastTotal(rs: seq<Reading>): Option<int> {
    if rs == [] then None
    else if rs[|rs| - 1].total.Some? then rs[|rs| - 1].total else LastTotal(rs[..|rs| - 1])
  }

  /** The readings of one counter of one port in a run. */
  function ReadingsOf(deviceId: string, xs: seq<Sighting>, port: string, kind: string): seq<Reading> {
    if xs == [] then []
    else
      var x := xs[|xs| - 1];
      ReadingsOf(deviceId, xs[..|xs| - 1], port, kind) +
      if x.iface.port == port && Counted(deviceId, x) then [ReadingOf(x.iface, kind, x.settings)] else []
  }

  lemma {:induction false} CurrentHasTotals(i: Iface, n: nat)
    requires n <= |KINDS|
    ensures forall k :: 0 <= k < n ==> Get(Current(i, n), KINDS[k]) == TotalFor(i, KINDS[k])
    ensures forall kind :: kind in Current(i, n) ==> exists k :: 0 <= k < n && KINDS[k] == kind
  {
    if n > 0 {
      CurrentHasTotals(i, n - 1);
    }
  }

  /** The memory of a counter is the total last read, or what it was before if none
      was read; other devices' counters are left alone. */
  lemma {:induction false} CounterIsLastTotal(c: map<PortKey, map<string, int>>, deviceId: string, xs: seq<Sighting>,
                                              other: string, port: string, k: nat)
    requires k < |KINDS|
    ensures var read := if other == deviceId then LastTotal(ReadingsOf(deviceId, xs, port, KINDS[k])) else None;
            Get(Previous(CountersAfter(c, deviceId, xs), (other, port)), KINDS[k]) ==
            if read.Some? then read else Get(Previous(c, (other, port)), KINDS[k])
  {
    if xs != [] {
      var front, x := xs[..|xs| - 1], xs[|xs| - 1];
      CounterIsLastTotal(c, deviceId, front, other, port, k);
      CounterOfOneMore(deviceId, CountersAfter(c, deviceId, front), x, other, port, k);
      var rs := ReadingsOf(deviceId, front, port, KINDS[k]);
      if x.iface.port == port && Counted(deviceId, x) {
        LastOfOneMore(rs, ReadingOf(x.iface, KINDS[k], x.settings));
      } else {
        assert rs + [] == rs;
      }
    }
  }

  lemma LastOfOneMore(rs: seq<Reading>, r: Reading)
    ensures LastTotal(rs + [r]) == if r.total.Some? then r.total else LastTotal(rs)
  {
    assert (rs + [r])[..|rs|] == rs;
  }

  /** What successive reads add up to: the deltas telescope over any stretch. */
  function Deltas(base: int, rs: seq<Reading>): int {
    if rs == [] then 0
    else
      var last := rs[|rs| - 1];
      Deltas(base, rs[..|rs| - 1]) +
      if last.total.Some? then last.total.value - BaseAfter(base, rs[..|rs| - 1]) else 0
  }

  function BaseAfter(base: int, rs: seq<Reading>): int {
    if LastTotal(rs).Some? then LastTotal(rs).value else base
  }

  lemma {:induction false} DeltasTelescope(base: int, rs: seq<Reading>)
    ensures Deltas(base, rs) == BaseAfter(base, rs) - base
  {
    if rs != [] {
      DeltasTelescope(base, rs[..|rs| - 1]);
    }
  }

  /** A counter that stands still never raises, however long it is watched. */
  lemma {:induction false} FlatNeverRaises(rs: seq<Reading>, r: Reading, total: int)
    requires forall x :: x in rs + [r] ==> x.total == None || x.total == Some(total)
    ensures Judge(LastTotal(rs), r) != Rising
  {
    LastTotalIsAmong(rs);
    assert (rs + [r])[|rs|] == r;
  }

  lemma {:induction false} LastTotalIsAmong(rs: seq<Reading>)
    ensures LastTotal(rs).Some? ==> exists x :: x in rs && x.total == LastTotal(rs)
  {
    if rs != [] {
      LastTotalIsAmong(rs[..|rs| - 1]);
      assert rs[|rs| - 1] in rs;
    }
  }

  // --- compute, reachability: consecutive passes ----------------------------------------

  /** How many of the latest passes held, without a break. */
  function Streak(held: seq<bool>): nat {
    if held == [] || !held[|held| - 1] then 0 else Streak(held[..|held| - 1]) + 1
  }

  lemma {:induction false} StreakIsLongestSuffix(held: seq<bool>)
    ensures Streak(held) <= |held|
    ensures forall i :: |held| - Streak(held) <= i < |held| ==> held[i]
    ensures Streak(held) < |held| ==> !held[|held| - 1 - Streak(held)]
  {
    if held != [] {
      StreakIsLongestSuffix(held[..|held| - 1]);
    }
  }

  function PassesAfter(n: nat, reading: Option<real>, p: Limit): nat {
    if reading == None then n else if reading.value >= p.raisePercent then n + 1 else 0
  }

  function LimitActs(n: nat, reading: Option<real>, p: Limit, kind: string, subject: string, stamp: Option<Time>,
                     s: Settings): seq<Action> {
    if reading == None then []
    else if reading.value >= p.raisePercent then
      if n + 1 >= Max(1, p.polls) then [RaiseUnlessSuperseded(kind, subject, s.SeverityFor(kind), stamp)] else []
    else if reading.value <= p.clearPercent then [CloseNow(kind, subject)]
    else []
  }

  /** The pass counter after a run of readings, each with the limits of its time. */
  function PassesOver(rs: seq<(Option<real>, Limit)>): nat {
    if rs == [] then 0 else PassesAfter(PassesOver(rs[..|rs| - 1]), rs[|rs| - 1].0, rs[|rs| - 1].1)
  }

  function Highs(rs: seq<(Option<real>, Limit)>): seq<bool> {
    if rs == [] then []
    else
      var r := rs[|rs| - 1];
      Highs(rs[..|rs| - 1]) + if r.0.Some? then [r.0.value >= r.1.raisePercent] else []
  }

  lemma {:induction false} PassesAreTheStreak(rs: seq<(Option<real>, Limit)>)
    ensures PassesOver(rs) == Streak(Highs(rs))
  {
    if rs != [] {
      var front := rs[..|rs| - 1];
      PassesAreTheStreak(front);
      var h := Highs(front);
      var r := rs[|rs| - 1];
      if r.0.Some? {
        assert (h + [r.0.value >= r.1.raisePercent])[..|h|] == h;
      } else {
        assert Highs(rs) == h;
      }
    }
  }

  // --- fans and power supplies ------------------------------------------------------------

  function FanSubject(f: Fan): string {
    "Fan tray " + f.bay + " (unit " + f.unit + ")"
  }

  function PsuSubject(p: Psu): string {
    "PSU " + p.bay + " (unit " + p.unit + ")"
  }

  predicate FanFaulted(f: Fan) {
    (f.fan1.Some? && f.fan1.value != "up") || (f.fan2.Some? && f.fan2.value != "up")
  }

  predicate PsuFaulted(p: Psu) {
    p.status != Some("up")
  }

  type Fault = (string, string)  // kind, subject

  /** Writing a key into the dict of faults: a key keeps its first place. */
  function WithFault(fs: seq<Fault>, f: Fault): seq<Fault> {
    if f in fs then fs else fs + [f]
  }

  function FanFaults(fans: seq<Fan>): seq<Fault> {
    if fans == [] then []
    else
      var f := fans[|fans| - 1];
      var fs := FanFaults(fans[..|fans| - 1]);
      if FanFaulted(f) then WithFault(fs, ("env.fan", FanSubject(f))) else fs
  }

  function PsuFaults(fs: seq<Fault>, psus: seq<Psu>): seq<Fault> {
    if psus == [] then fs
    else
      var p := psus[|psus| - 1];
      var done := PsuFaults(fs, psus[..|psus| - 1]);
      if PsuFaulted(p) then WithFault(done, ("env.psu", PsuSubject(p))) else done
  }

  function FanCloses(fans: seq<Fan>, stamp: Option<Time>): seq<Action> {
    if fans == [] then []
    else
      var f := fans[|fans| - 1];
      FanCloses(fans[..|fans| - 1], stamp) + if FanFaulted(f) then []
          else [CloseIfOlder("env.fan", FanSubject(f), stamp)]
  }

  function PsuCloses(psus: seq<Psu>, stamp: Option<Time>): seq<Action> {
    if psus == [] then []
    else
      var p := psus[|psus| - 1];
      PsuCloses(psus[..|psus| - 1], stamp) + if PsuFaulted(p) then []
          else [CloseIfOlder("env.psu", PsuSubject(p), stamp)]
  }

  function FaultRaises(fs: seq<Fault>, stamp: Option<Time>, s: Settings): seq<Action> {
    if fs == [] then []
    else
      var f := fs[|fs| - 1];
      FaultRaises(fs[..|fs| - 1], stamp, s) + [RaiseUnlessSuperseded(f.0, f.1, s.SeverityFor(f.0), stamp)]
  }

  function EnvActs(env: Env, stamp: Option<Time>, s: Settings): seq<Action> {
    FanCloses(env.fans, stamp) + PsuCloses(env.psus, stamp) +
    FaultRaises(PsuFaults(FanFaults(env.fans), env.psus), stamp, s)
  }

  /** How many actions concern one event. */
  function About(acts: seq<Action>, kind: string, subject: string): nat {
    if acts == [] then 0
    else
      var a := acts[|acts| - 1];
      About(acts[..|acts| - 1], kind, subject) + if a.kind == kind && a.subject == subject then 1 else 0
  }

  lemma {:induction false} AboutConcat(a: seq<Action>, b: seq<Action>, kind: string, subject: string)
    ensures About(a + b, kind, subject) == About(a, kind, subject) + About(b, kind, subject)
  {
    if b == [] {
      assert a + b == a;
    } else {
      AboutConcat(a, b[..|b| - 1], kind, subject);
      assert (a + b)[..|a + b| - 1] == a + b[..|b| - 1];
    }
  }

  /** No two bays share a name, and no two supplies. */
  ghost predicate DistinctBays(env: Env) {
    && (forall i, j :: 0 <= i < j < |env.fans| ==> FanSubject(env.fans[i]) != FanSubject(env.fans[j]))
    && (forall i, j :: 0 <= i < j < |env.psus| ==> PsuSubject(env.psus[i]) != PsuSubject(env.psus[j]))
  }

  lemma {:induction false} FanFaultsAre(fans: seq<Fan>)
    ensures Distinct(FanFaults(fans))
    ensures forall f :: f in FanFaults(fans) ==> f.0 == "env.fan"
    ensures forall f :: f in FanFaults(fans) <==>
              exists i :: 0 <= i < |fans| && FanFaulted(fans[i]) && f == ("env.fan", FanSubject(fans[i]))
  {
    if fans != [] {
      var front, last := fans[..|fans| - 1], fans[|fans| - 1];
      FanFaultsAre(front);
      forall f
        ensures f in FanFaults(fans) <==>
                  exists i :: 0 <= i < |fans| && FanFaulted(fans[i]) && f == ("env.fan", FanSubject(fans[i]))
      {
        if f in FanFaults(front) {
          var i :| 0 <= i < |front| && FanFaulted(front[i]) && f == ("env.fan", FanSubject(front[i]));
          assert FanFaulted(fans[i]) && f == ("env.fan", FanSubject(fans[i]));
        }
        if i :| 0 <= i < |fans| && FanFaulted(fans[i]) && f == ("env.fan", FanSubject(fans[i])) {
          if i < |front| {
            assert FanFaulted(front[i]) && f == ("env.fan", FanSubject(front[i]));
          }
        }
        assert f == ("env.fan", FanSubject(last)) && FanFaulted(last) ==> FanFaulted(fans[|fans| - 1]);
      }
    }
  }

  lemma {:induction false} PsuFaultsAre(fs: seq<Fault>, psus: seq<Psu>)
    requires Distinct(fs) && forall f :: f in fs ==> f.0 == "env.fan"
    ensures Distinct(PsuFaults(fs, psus))
    ensures forall f: Fault :: f.0 == "env.fan" ==> (f in PsuFaults(fs, psus) <==> f in fs)
    ensures forall f: Fault :: f.0 == "env.psu" ==>
              (f in PsuFaults(fs, psus) <==>
                 exists i :: 0 <= i < |psus| && PsuFaulted(psus[i]) && f.1 == PsuSubject(psus[i]))
  {
    if psus != [] {
      var front, last := psus[..|psus| - 1], psus[|psus| - 1];
      PsuFaultsAre(fs, front);
      forall f: Fault | f.0 == "env.psu"
        ensures f in PsuFaults(fs, psus) <==>
                  exists i :: 0 <= i < |psus| && PsuFaulted(psus[i]) && f.1 == PsuSubject(psus[i])
      {
        if f in PsuFaults(fs, front) {
          var i :| 0 <= i < |front| && PsuFaulted(front[i]) && f.1 == PsuSubject(front[i]);
          assert PsuFaulted(psus[i]) && f.1 == PsuSubject(psus[i]);
        }
        if i :| 0 <= i < |psus| && PsuFaulted(psus[i]) && f.1 == PsuSubject(psus[i]) {
          if i < |front| {
            assert PsuFaulted(front[i]) && f.1 == PsuSubject(front[i]);
          }
        }
        assert f.1 == PsuSubject(last) && PsuFaulted(last) ==> PsuFaulted(psus[|psus| - 1]);
      }
    }
  }

  lemma AboutOneMore(acts: seq<Action>, a: Action, kind: string, subject: string)
    ensures About(acts + [a], kind, subject) == About(acts, kind, subject) + if a.kind == kind && a.subject == subject
            then 1 else 0
  {
    assert (acts + [a])[..|acts|] == acts;
  }

  lemma {:induction false} RaisesPerFault(fs: seq<Fault>, stamp: Option<Time>, s: Settings, kind: string,
                                          subject: string)
    requires Distinct(fs)
    ensures About(FaultRaises(fs, stamp, s), kind, subject) == if (kind, subject) in fs then 1 else 0
  {
    if fs != [] {
      var front, f := fs[..|fs| - 1], fs[|fs| - 1];
      RaisesPerFault(front, stamp, s, kind, subject);
      AboutOneMore(FaultRaises(front, stamp, s), RaiseUnlessSuperseded(f.0, f.1, s.SeverityFor(f.0), stamp), kind,
                   subject);
      assert f !in front;
    }
  }

  lemma FanClosesOneMore(fans: seq<Fan>, stamp: Option<Time>, kind: string, subject: string)
    requires fans != []
    ensures var f := fans[|fans| - 1];
            About(FanCloses(fans, stamp), kind, subject) ==
            About(FanCloses(fans[..|fans| - 1], stamp), kind, subject) +
            if !FanFaulted(f) && kind == "env.fan" && FanSubject(f) == subject then 1 else 0
  {
    var f, acts := fans[|fans| - 1], FanCloses(fans[..|fans| - 1], stamp);
    if FanFaulted(f) {
      assert acts + [] == acts;
    } else {
      AboutOneMore(acts, CloseIfOlder("env.fan", FanSubject(f), stamp), kind, subject);
    }
  }

  lemma PsuClosesOneMore(psus: seq<Psu>, stamp: Option<Time>, kind: string, subject: string)
    requires psus != []
    ensures var p := psus[|psus| - 1];
            About(PsuCloses(psus, stamp), kind, subject) ==
            About(PsuCloses(psus[..|psus| - 1], stamp), kind, subject) +
            if !PsuFaulted(p) && kind == "env.psu" && PsuSubject(p) == subject then 1 else 0
  {
    var p, acts := psus[|psus| - 1], PsuCloses(psus[..|psus| - 1], stamp);
    if PsuFaulted(p) {
      assert acts + [] == acts;
    } else {
      AboutOneMore(acts, CloseIfOlder("env.psu", PsuSubject(p), stamp), kind, subject);
    }
  }

  lemma {:induction false} FanClosesPerBay(fans: seq<Fan>, stamp: Option<Time>, k: nat)
    requires k < |fans| && forall i, j :: 0 <= i < j < |fans| ==> FanSubject(fans[i]) != FanSubject(fans[j])
    ensures About(FanCloses(fans, stamp), "env.fan", FanSubject(fans[k])) == if FanFaulted(fans[k]) then 0 else 1
  {
    FanClosesAt(fans, stamp, k, FanSubject(fans[k]));
  }

  lemma {:induction false} FanClosesAt(fans: seq<Fan>, stamp: Option<Time>, k: nat, subject: string)
    requires k < |fans| && forall i :: 0 <= i < |fans| ==> (FanSubject(fans[i]) == subject <==> i == k)
    ensures About(FanCloses(fans, stamp), "env.fan", subject) == if FanFaulted(fans[k]) then 0 else 1
  {
    var n := |fans| - 1;
    FanClosesOneMore(fans, stamp, "env.fan", subject);
    assert FanSubject(fans[n]) == subject <==> n == k;
    if k < n {
      assert fans[..n][k] == fans[k];
      FanClosesAt(fans[..n], stamp, k, subject);
    } else {
      NoFanCloses(fans[..n], stamp, subject);
    }
  }

  lemma {:induction false} NoFanCloses(fans: seq<Fan>, stamp: Option<Time>, subject: string)
    requires forall i :: 0 <= i < |fans| ==> FanSubject(fans[i]) != subject
    ensures About(FanCloses(fans, stamp), "env.fan", subject) == 0
  {
    if fans != [] {
      NoFanCloses(fans[..|fans| - 1], stamp, subject);
      FanClosesOneMore(fans, stamp, "env.fan", subject);
    }
  }

  lemma {:induction false} PsuClosesPerBay(psus: seq<Psu>, stamp: Option<Time>, k: nat)
    requires k < |psus| && forall i, j :: 0 <= i < j < |psus| ==> PsuSubject(psus[i]) != PsuSubject(psus[j])
    ensures About(PsuCloses(psus, stamp), "env.psu", PsuSubject(psus[k])) == if PsuFaulted(psus[k]) then 0 else 1
  {
    PsuClosesAt(psus, stamp, k, PsuSubject(psus[k]));
  }

  lemma {:induction false} PsuClosesAt(psus: seq<Psu>, stamp: Option<Time>, k: nat, subject: string)
    requires k < |psus| && forall i :: 0 <= i < |psus| ==> (PsuSubject(psus[i]) == subject <==> i == k)
    ensures About(PsuCloses(psus, stamp), "env.psu", subject) == if PsuFaulted(psus[k]) then 0 else 1
  {
    var n := |psus| - 1;
    PsuClosesOneMore(psus, stamp, "env.psu", subject);
    assert PsuSubject(psus[n]) == subject <==> n == k;
    if k < n {
      assert psus[..n][k] == psus[k];
      PsuClosesAt(psus[..n], stamp, k, subject);
    } else {
      NoPsuCloses(psus[..n], stamp, subject);
    }
  }

  lemma {:induction false} NoPsuCloses(psus: seq<Psu>, stamp: Option<Time>, subject: string)
    requires forall i :: 0 <= i < |psus| ==> PsuSubject(psus[i]) != subject
    ensures About(PsuCloses(psus, stamp), "env.psu", subject) == 0
  {
    if psus != [] {
      NoPsuCloses(psus[..|psus| - 1], stamp, subject);
      PsuClosesOneMore(psus, stamp, "env.psu", subject);
    }
  }

  lemma {:induction false} FanClosesAreFans(fans: seq<Fan>, stamp: Option<Time>, kind: string, subject: string)
    requires kind != "env.fan"
    ensures About(FanCloses(fans, stamp), kind, subject) == 0
  {
    if fans != [] {
      FanClosesAreFans(fans[..|fans| - 1], stamp, kind, subject);
      FanClosesOneMore(fans, stamp, kind, subject);
    }
  }

  lemma {:induction false} PsuClosesArePsus(psus: seq<Psu>, stamp: Option<Time>, kind: string, subject: string)
    requires kind != "env.psu"
    ensures About(PsuCloses(psus, stamp), kind, subject) == 0
  {
    if psus != [] {
      PsuClosesArePsus(psus[..|psus| - 1], stamp, kind, subject);
      PsuClosesOneMore(psus, stamp, kind, subject);
    }
  }

  /** Every fan tray and supply listed gets exactly one action: a raise when it is
      faulted, a guarded resolve when it is not. */
  lemma OneActionPerBay(env: Env, stamp: Option<Time>, s: Settings)
    requires DistinctBays(env)
    ensures forall k :: 0 <= k < |env.fans| ==> About(EnvActs(env, stamp, s), "env.fan", FanSubject(env.fans[k])) == 1
    ensures forall k :: 0 <= k < |env.psus| ==> About(EnvActs(env, stamp, s), "env.psu", PsuSubject(env.psus[k])) == 1
  {
    forall k | 0 <= k < |env.fans|
      ensures About(EnvActs(env, stamp, s), "env.fan", FanSubject(env.fans[k])) == 1
    {
      OneActionPerFan(env, stamp, s, k);
    }
    forall k | 0 <= k < |env.psus|
      ensures About(EnvActs(env, stamp, s), "env.psu", PsuSubject(env.psus[k])) == 1
    {
      OneActionPerPsu(env, stamp, s, k);
    }
  }

  lemma OneActionPerFan(env: Env, stamp: Option<Time>, s: Settings, k: nat)
    requires DistinctBays(env) && k < |env.fans|
    ensures About(EnvActs(env, stamp, s), "env.fan", FanSubject(env.fans[k])) == 1
  {
    var subject := FanSubject(env.fans[k]);
    EnvActsAbout(env, stamp, s, "env.fan", subject);
    FanClosesPerBay(env.fans, stamp, k);
    PsuClosesArePsus(env.psus, stamp, "env.fan", subject);
    FanFaultedIff(env, k);
  }

  lemma OneActionPerPsu(env: Env, stamp: Option<Time>, s: Settings, k: nat)
    requires DistinctBays(env) && k < |env.psus|
    ensures About(EnvActs(env, stamp, s), "env.psu", PsuSubject(env.psus[k])) == 1
  {
    var subject := PsuSubject(env.psus[k]);
    EnvActsAbout(env, stamp, s, "env.psu", subject);
    PsuClosesPerBay(env.psus, stamp, k);
    FanClosesAreFans(env.fans, stamp, "env.psu", subject);
    PsuFaultedIff(env, k);
  }

  lemma FanFaultedIff(env: Env, k: nat)
    requires DistinctBays(env) && k < |env.fans|
    ensures ("env.fan", FanSubject(env.fans[k])) in PsuFaults(FanFaults(env.fans), env.psus) <==>
              FanFaulted(env.fans[k])
  {
    FanFaultsAre(env.fans);
    PsuFaultsAre(FanFaults(env.fans), env.psus);
    var f: Fault := ("env.fan", FanSubject(env.fans[k]));
    if f in FanFaults(env.fans) {
      var i :| 0 <= i < |env.fans| && FanFaulted(env.fans[i]) && f == ("env.fan", FanSubject(env.fans[i]));
      assert i == k;
    }
  }

  lemma PsuFaultedIff(env: Env, k: nat)
    requires DistinctBays(env) && k < |env.psus|
    ensures ("env.psu", PsuSubject(env.psus[k])) in PsuFaults(FanFaults(env.fans), env.psus) <==>
              PsuFaulted(env.psus[k])
  {
    FanFaultsAre(env.fans);
    PsuFaultsAre(FanFaults(env.fans), env.psus);
    var f: Fault := ("env.psu", PsuSubject(env.psus[k]));
    if f in PsuFaults(FanFaults(env.fans), env.psus) {
      var i :| 0 <= i < |env.psus| && PsuFaulted(env.psus[i]) && f.1 == PsuSubject(env.psus[i]);
      assert i == k;
    }
  }

  lemma EnvActsAbout(env: Env, stamp: Option<Time>, s: Settings, kind: string, subject: string)
    ensures About(EnvActs(env, stamp, s), kind, subject) ==
            About(FanCloses(env.fans, stamp), kind, subject) + About(PsuCloses(env.psus, stamp), kind, subject) +
            if (kind, subject) in PsuFaults(FanFaults(env.fans), env.psus) then 1 else 0
  {
    var faults := PsuFaults(FanFaults(env.fans), env.psus);
    FanFaultsAre(env.fans);
    PsuFaultsAre(FanFaults(env.fans), env.psus);
    AboutConcat(FanCloses(env.fans, stamp) + PsuCloses(env.psus, stamp), FaultRaises(faults, stamp, s), kind, subject);
    AboutConcat(FanCloses(env.fans, stamp), PsuCloses(env.psus, stamp), kind, subject);
    RaisesPerFault(faults, stamp, s, kind, subject);
  }

  // --- a whole pass -------------------------------------------------------------------------

  predicate Failing(status: Status) {
    status.lastError.Some? && status.lastError.value != ""
  }

  predicate NewPoll(m: Memory, deviceId: string, status: Status) {
    status.lastPolled.Some? && status.lastPolled.value.text != "" &&
        Get(m.seen, deviceId) != Some(status.lastPolled.value.text)
  }

  function ReachActs(m: Memory, deviceId: string, status: Status, s: Settings): seq<Action> {
    if Failing(status) then
      if Count(m.failing, deviceId) + 1 >= Max(1, s.unreachablePolls)
      then [RaiseUnlessSuperseded("device.unreachable", "ssh", s.SeverityFor("device.unreachable"), None)] else []
    else if status.lastPolled.Some? && status.lastPolled.value.text != "" then [CloseNow("device.unreachable", "ssh")]
    else []
  }

  function FailingAfter(m: Memory, deviceId: string, status: Status): map<string, nat> {
    m.failing[deviceId := if Failing(status) then Count(m.failing, deviceId) + 1 else 0]
  }

  function ComputeActs(cpu: nat, memory: nat, status: Status, stamp: Option<Time>, s: Settings): seq<Action> {
    LimitActs(cpu, status.cpu, s.cpu, "compute.cpu_high", "cpu", stamp, s) +
    LimitActs(memory, status.memory, s.memory, "compute.memory_high", "memory", stamp, s)
  }

  function PassCounter(m: map<string, nat>, deviceId: string, reading: Option<real>, p: Limit): map<string, nat> {
    if reading == None then m else m[deviceId := PassesAfter(Count(m, deviceId), reading, p)]
  }

  function PassActs(m: Memory, deviceId: string, status: Status, s: Settings): seq<Action> {
    ReachActs(m, deviceId, status, s) + NewPollActs(m, deviceId, status, s)
  }

  function NewPollActs(m: Memory, deviceId: string, status: Status, s: Settings): seq<Action> {
    if NewPoll(m, deviceId, status) then PollActs(m, deviceId, status, status.lastPolled.value.at, s) else []
  }

  function PollActs(m: Memory, deviceId: string, status: Status, stamp: Option<Time>, s: Settings): seq<Action> {
    PortAndBayActs(m, deviceId, status, stamp, s) + LimitAndErrorActs(m, deviceId, status, stamp, s)
  }

  function PortAndBayActs(m: Memory, deviceId: string, status: Status, stamp: Option<Time>, s: Settings): seq<Action> {
    PortsActs(m.ports, deviceId, Looks(deviceId, status.interfaces, stamp, s)) + EnvActs(status.env, stamp, s)
  }

  function LimitAndErrorActs(m: Memory, deviceId: string, status: Status, stamp: Option<Time>,
                             s: Settings): seq<Action> {
    ComputeActs(Count(m.cpu, deviceId), Count(m.memory, deviceId), status, stamp, s) +
    ErrorsActs(m.counters, deviceId, Sightings(status.interfaces, stamp, s))
  }

  lemma SameMemorySameActs(m: Memory, n: Memory, deviceId: string, status: Status, stamp: Option<Time>, s: Settings)
    ensures m.ports == n.ports ==> PortAndBayActs(m, deviceId, status, stamp, s) == PortAndBayActs(n, deviceId, status,
              stamp, s)
    ensures m.counters == n.counters && m.cpu == n.cpu && m.memory == n.memory ==>
              LimitAndErrorActs(m, deviceId, status, stamp, s) == LimitAndErrorActs(n, deviceId, status, stamp, s)
  {
  }

  /** What a poll not considered before leaves in memory. */
  function Learned(m: Memory, deviceId: string, status: Status, stamp: Option<Time>, s: Settings): Memory {
    m.(ports := PortsAfter(m.ports, deviceId, Looks(deviceId, status.interfaces, stamp, s)),
       counters := CountersAfter(m.counters, deviceId, Sightings(status.interfaces, stamp, s)),
       cpu := PassCounter(m.cpu, deviceId, status.cpu, s.cpu),
       memory := PassCounter(m.memory, deviceId, status.memory, s.memory))
  }

  function LearnedIfNew(m: Memory, deviceId: string, status: Status, s: Settings): Memory {
    if NewPoll(m, deviceId, status)
    then Learned(m.(seen := m.seen[deviceId := status.lastPolled.value.text]), deviceId, status,
                 status.lastPolled.value.at, s)
    else m
  }

  function MemoryAfter(m: Memory, deviceId: string, status: Status, s: Settings): Memory {
    LearnedIfNew(m.(failing := FailingAfter(m, deviceId, status)), deviceId, status, s)
  }

  lemma SameNewPollActs(m: Memory, n: Memory, deviceId: string, status: Status, s: Settings)
    requires n == m.(failing := n.failing)
    ensures NewPollActs(m, deviceId, status, s) == NewPollActs(n, deviceId, status, s)
  {
  }

  /** A pass over a poll already considered changes nothing but the reachability
      count, and asks for nothing else either. */
  lemma SameStampChangesNothing(m: Memory, deviceId: string, status: Status, again: Status, s: Settings)
    requires NewPoll(m, deviceId, status) && again.lastPolled.Some? &&
             again.lastPolled.value.text == status.lastPolled.value.text
    ensures var once := MemoryAfter(m, deviceId, status, s);
            && MemoryAfter(once, deviceId, again, s) == once.(failing := FailingAfter(once, deviceId, again))
            && PassActs(once, deviceId, again, s) == ReachActs(once, deviceId, again, s)
  {
  }
}
