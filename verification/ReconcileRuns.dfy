/** Whole runs of the reconciler: any sequence of passes over any devices, with
    repeated and missing stamps, and settings that change from pass to pass. */
module ReconcileRuns {
  import opened Common
  import opened EventTable
  import opened EventStore
  import opened SyslogDetector
  import opened ReconcilePolicy

  /** One call of reconcile. */
  datatype Pass = Pass(deviceId: string, status: Status, settings: Settings)

  const NOTHING := Memory(map[], map[], map[], map[], map[], map[])

  function MemoryOver(run: seq<Pass>): Memory {
    if run == [] then NOTHING
    else
      var last := run[|run| - 1];
      MemoryAfter(MemoryOver(run[..|run| - 1]), last.deviceId, last.status, last.settings)
  }

  /** What a pass asks for after a run. */
  function Asked(run: seq<Pass>, p: Pass): seq<Action> {
    PassActs(MemoryOver(run), p.deviceId, p.status, p.settings)
  }

  // --- which polls are considered ------------------------------------------------------

  function StampOf(p: Pass): string {
    if p.status.lastPolled.Some? then p.status.lastPolled.value.text else ""
  }

  /** The stamp a device last came with. */
  function LastStamp(run: seq<Pass>, deviceId: string): Option<string> {
    if run == [] then None
    else
      var last := run[|run| - 1];
      if last.deviceId == deviceId && StampOf(last) != "" then Some(StampOf(last))
      else LastStamp(run[..|run| - 1], deviceId)
  }

  /** The pass brings a poll the run has not considered yet. */
  predicate Fresh(run: seq<Pass>, p: Pass) {
    StampOf(p) != "" && LastStamp(run, p.deviceId) != Some(StampOf(p))
  }

  lemma {:induction false} SeenIsLastStamp(run: seq<Pass>, deviceId: string)
    ensures Get(MemoryOver(run).seen, deviceId) == LastStamp(run, deviceId)
  {
    if run != [] {
      SeenIsLastStamp(run[..|run| - 1], deviceId);
      SeenIsLastStamp(run[..|run| - 1], run[|run| - 1].deviceId);
    }
  }

  lemma FreshIsNew(run: seq<Pass>, p: Pass)
    ensures NewPoll(MemoryOver(run), p.deviceId, p.status) <==> Fresh(run, p)
  {
    SeenIsLastStamp(run, p.deviceId);
  }

  // --- what the considered polls of a device showed --------------------------------------

  function TimeOf(p: Pass): Option<Time>
    requires StampOf(p) != ""
  {
    p.status.lastPolled.value.at
  }

  function LooksOf(p: Pass): seq<Look>
    requires StampOf(p) != ""
  {
    Looks(p.deviceId, p.status.interfaces, TimeOf(p), p.settings)
  }

  function SightingsOf(p: Pass): seq<Sighting>
    requires StampOf(p) != ""
  {
    Sightings(p.status.interfaces, TimeOf(p), p.settings)
  }

  /** Whether the last pass of a run is a considered poll of the device. */
  predicate LastCounts(run: seq<Pass>, deviceId: string)
    requires run != []
  {
    var last := run[|run| - 1];
    last.deviceId == deviceId && Fresh(run[..|run| - 1], last)
  }

  function AllLooks(run: seq<Pass>, deviceId: string): seq<Look> {
    if run == [] then []
    else AllLooks(run[..|run| - 1], deviceId) + if LastCounts(run, deviceId) then LooksOf(run[|run| - 1]) else []
  }

  function AllSightings(run: seq<Pass>, deviceId: string): seq<Sighting> {
    if run == [] then []
    else AllSightings(run[..|run| - 1], deviceId) + if LastCounts(run, deviceId) then SightingsOf(run[|run| - 1])
        else []
  }

  datatype Meter = Cpu | Mem

  function ReadingFrom(meter: Meter, p: Pass): (Option<real>, Limit) {
    match meter
    case Cpu => (p.status.cpu, p.settings.cpu)
    case Mem => (p.status.memory, p.settings.memory)
  }

  function AllReadings(run: seq<Pass>, deviceId: string, meter: Meter): seq<(Option<real>, Limit)> {
    if run == [] then []
    else
      AllReadings(run[..|run| - 1], deviceId, meter) +
      if LastCounts(run, deviceId) then [ReadingFrom(meter, run[|run| - 1])] else []
  }

  /** Reachability looks at every pass, considered or not. */
  function AllFailures(run: seq<Pass>, deviceId: string): seq<bool> {
    if run == [] then []
    else
      var last := run[|run| - 1];
      AllFailures(run[..|run| - 1], deviceId) + if last.deviceId == deviceId then [Failing(last.status)] else []
  }

  // --- the memory is a summary of the run ---------------------------------------------------

  lemma {:induction false} LastStateInTwoParts(a: seq<Look>, b: seq<Look>, port: string)
    ensures LastState(a + b, port) == if LastState(b, port).Some? then LastState(b, port) else LastState(a, port)
  {
    if b == [] {
      assert a + b == a;
    } else {
      LastStateInTwoParts(a, b[..|b| - 1], port);
      assert (a + b)[..|a + b| - 1] == a + b[..|b| - 1];
    }
  }

  /** The port memory of every device is the state each port was last seen in. */
  lemma {:induction false} PortMemoryOfRun(run: seq<Pass>, deviceId: string, port: string)
    ensures Get(MemoryOver(run).ports, (deviceId, port)) == LastState(AllLooks(run, deviceId), port)
  {
    if run != [] {
      var front, p := run[..|run| - 1], run[|run| - 1];
      PortMemoryOfRun(front, deviceId, port);
      FreshIsNew(front, p);
      assert AllLooks(front, deviceId) + [] == AllLooks(front, deviceId);
      if Fresh(front, p) {
        MemoryIsLastState(MemoryOver(front).ports, p.deviceId, LooksOf(p), deviceId, port);
        LastStateInTwoParts(AllLooks(front, deviceId), LooksOf(p), port);
      }
    }
  }

  lemma {:induction false} ReadingsInTwoParts(deviceId: string, a: seq<Sighting>, b: seq<Sighting>, port: string,
                                              kind: string)
    ensures ReadingsOf(deviceId, a + b, port, kind) == ReadingsOf(deviceId, a, port, kind) + ReadingsOf(deviceId, b,
              port, kind)
  {
    if b == [] {
      assert a + b == a;
    } else {
      ReadingsInTwoParts(deviceId, a, b[..|b| - 1], port, kind);
      assert (a + b)[..|a + b| - 1] == a + b[..|b| - 1];
    }
  }

  lemma {:induction false} LastTotalInTwoParts(a: seq<Reading>, b: seq<Reading>)
    ensures LastTotal(a + b) == if LastTotal(b).Some? then LastTotal(b) else LastTotal(a)
  {
    if b == [] {
      assert a + b == a;
    } else {
      LastTotalInTwoParts(a, b[..|b| - 1]);
      assert (a + b)[..|a + b| - 1] == a + b[..|b| - 1];
    }
  }

  /** The counter memory of every device is the total each counter last showed. */
  lemma {:induction false} CounterMemoryOfRun(run: seq<Pass>, deviceId: string, port: string, k: nat)
    requires k < |KINDS|
    ensures Get(Previous(MemoryOver(run).counters, (deviceId, port)), KINDS[k]) ==
            LastTotal(ReadingsOf(deviceId, AllSightings(run, deviceId), port, KINDS[k]))
  {
    if run != [] {
      var front, p := run[..|run| - 1], run[|run| - 1];
      CounterMemoryOfRun(front, deviceId, port, k);
      FreshIsNew(front, p);
      var before := AllSightings(front, deviceId);
      assert before + [] == before;
      if Fresh(front, p) {
        CounterIsLastTotal(MemoryOver(front).counters, p.deviceId, SightingsOf(p), deviceId, port, k);
        ReadingsInTwoParts(deviceId, before, SightingsOf(p), port, KINDS[k]);
        LastTotalInTwoParts(ReadingsOf(deviceId, before, port, KINDS[k]),
                            ReadingsOf(deviceId, SightingsOf(p), port, KINDS[k]));
      }
    }
  }

  function Passes(m: Memory, meter: Meter): map<string, nat> {
    match meter
    case Cpu => m.cpu
    case Mem => m.memory
  }

  lemma PassesOverOneMore(rs: seq<(Option<real>, Limit)>, r: (Option<real>, Limit))
    ensures PassesOver(rs + [r]) == PassesAfter(PassesOver(rs), r.0, r.1)
  {
    assert (rs + [r])[..|rs|] == rs;
  }

  lemma MeterAfter(m: Memory, p: Pass, meter: Meter, deviceId: string)
    ensures var r := ReadingFrom(meter, p);
            Count(Passes(MemoryAfter(m, p.deviceId, p.status, p.settings), meter), deviceId) ==
            if p.deviceId == deviceId && NewPoll(m, deviceId, p.status)
            then PassesAfter(Count(Passes(m, meter), deviceId), r.0, r.1)
            else Count(Passes(m, meter), deviceId)
  {
  }

  /** The pass counter of every device is the length of its latest run of highs. */
  lemma {:induction false} PassMemoryOfRun(run: seq<Pass>, deviceId: string, meter: Meter)
    ensures Count(Passes(MemoryOver(run), meter), deviceId) == PassesOver(AllReadings(run, deviceId, meter))
    ensures Count(Passes(MemoryOver(run), meter), deviceId) == Streak(Highs(AllReadings(run, deviceId, meter)))
  {
    PassesAreTheStreak(AllReadings(run, deviceId, meter));
    if run != [] {
      var front, p := run[..|run| - 1], run[|run| - 1];
      PassMemoryOfRun(front, deviceId, meter);
      FreshIsNew(front, p);
      MeterAfter(MemoryOver(front), p, meter, deviceId);
      var before := AllReadings(front, deviceId, meter);
      assert before + [] == before;
      PassesOverOneMore(before, ReadingFrom(meter, p));
    }
  }

  lemma StreakOfOneMore(held: seq<bool>, b: bool)
    ensures Streak(held + [b]) == if b then Streak(held) + 1 else 0
  {
    assert (held + [b])[..|held|] == held;
  }

  /** The failure count of every device is the length of its latest run of failing
      passes, whatever the stamps. */
  lemma {:induction false} FailureMemoryOfRun(run: seq<Pass>, deviceId: string)
    ensures Count(MemoryOver(run).failing, deviceId) == Streak(AllFailures(run, deviceId))
  {
    if run != [] {
      var front, p := run[..|run| - 1], run[|run| - 1];
      FailureMemoryOfRun(front, deviceId);
      assert AllFailures(front, deviceId) + [] == AllFailures(front, deviceId);
      StreakOfOneMore(AllFailures(front, deviceId), Failing(p.status));
    }
  }

  // --- which raises a pass asks for ------------------------------------------------------------

  /** A raise of that kind and subject is among the actions. */
  ghost predicate Raises(acts: seq<Action>, kind: string, subject: string) {
    exists a :: a in acts && a.RaiseUnlessSuperseded? && a.kind == kind && a.subject == subject
  }

  lemma RaisesInTwoParts(a: seq<Action>, b: seq<Action>, kind: string, subject: string)
    ensures Raises(a + b, kind, subject) <==> Raises(a, kind, subject) || Raises(b, kind, subject)
  {
    if x :| x in a + b && x.RaiseUnlessSuperseded? && x.kind == kind && x.subject == subject {
      assert x in a || x in b;
    }
    if x :| x in a && x.RaiseUnlessSuperseded? && x.kind == kind && x.subject == subject {
      assert x in a + b;
    }
    if x :| x in b && x.RaiseUnlessSuperseded? && x.kind == kind && x.subject == subject {
      assert x in a + b;
    }
  }

  lemma RaisesOfOne(a: Action, kind: string, subject: string)
    ensures Raises([a], kind, subject) <==> a.RaiseUnlessSuperseded? && a.kind == kind && a.subject == subject
    ensures !Raises([], kind, subject)
  {
    assert a in [a];
  }

  /** Every action is of one of the kinds. */
  ghost predicate ActsOnly(acts: seq<Action>, kinds: set<string>) {
    forall a :: a in acts ==> a.kind in kinds
  }


  const ENV: set<string> := {"env.fan", "env.psu"}
  const COMPUTE: set<string> := {"compute.cpu_high", "compute.memory_high"}
  const COUNTERS: set<string> := {"port.input_errors", "port.output_errors", "port.discards"}

  lemma {:induction false} PortsAreAboutLinks(prev: map<PortKey, string>, deviceId: string, looks: seq<Look>)
    ensures ActsOnly(PortsActs(prev, deviceId, looks), {"port.link_down"})
  {
    if looks != [] {
      PortsAreAboutLinks(prev, deviceId, looks[..|looks| - 1]);
    }
  }

  lemma {:induction false} FanClosesAreOfBays(fans: seq<Fan>, stamp: Option<Time>)
    ensures ActsOnly(FanCloses(fans, stamp), ENV)
  {
    if fans != [] {
      FanClosesAreOfBays(fans[..|fans| - 1], stamp);
    }
  }

  lemma {:induction false} PsuClosesAreOfBays(psus: seq<Psu>, stamp: Option<Time>)
    ensures ActsOnly(PsuCloses(psus, stamp), ENV)
  {
    if psus != [] {
      PsuClosesAreOfBays(psus[..|psus| - 1], stamp);
    }
  }

  lemma {:induction false} FaultRaisesAreOfBays(fs: seq<Fault>, stamp: Option<Time>, s: Settings)
    requires forall f :: f in fs ==> f.0 in ENV
    ensures ActsOnly(FaultRaises(fs, stamp, s), ENV)
  {
    if fs != [] {
      FaultRaisesAreOfBays(fs[..|fs| - 1], stamp, s);
      assert fs[|fs| - 1] in fs;
    }
  }

  lemma {:induction false} PsuFaultsAreOfBays(fs: seq<Fault>, psus: seq<Psu>)
    requires forall f :: f in fs ==> f.0 in ENV
    ensures forall f :: f in PsuFaults(fs, psus) ==> f.0 in ENV
  {
    if psus != [] {
      PsuFaultsAreOfBays(fs, psus[..|psus| - 1]);
    }
  }

  lemma {:induction false} FanFaultsAreOfBays(fans: seq<Fan>)
    ensures forall f :: f in FanFaults(fans) ==> f.0 in ENV
  {
    if fans != [] {
      FanFaultsAreOfBays(fans[..|fans| - 1]);
    }
  }

  lemma BaysAreAboutFaults(env: Env, stamp: Option<Time>, s: Settings)
    ensures ActsOnly(EnvActs(env, stamp, s), ENV)
  {
    FanClosesAreOfBays(env.fans, stamp);
    PsuClosesAreOfBays(env.psus, stamp);
    FanFaultsAreOfBays(env.fans);
    PsuFaultsAreOfBays(FanFaults(env.fans), env.psus);
    FaultRaisesAreOfBays(PsuFaults(FanFaults(env.fans), env.psus), stamp, s);
  }

  lemma {:induction false} KindsAreAboutCounters(previous: map<string, int>, i: Iface, n: nat, stamp: Option<Time>,
                                              s: Settings)
    requires n <= |KINDS|
    ensures ActsOnly(KindsActs(previous, i, n, stamp, s), COUNTERS)
  {
    if n > 0 {
      KindsAreAboutCounters(previous, i, n - 1, stamp, s);
      assert KINDS[n - 1] in COUNTERS;
    }
  }

  lemma {:induction false} ErrorsAreAboutCounters(c: map<PortKey, map<string, int>>, deviceId: string,
                                                  xs: seq<Sighting>)
    ensures ActsOnly(ErrorsActs(c, deviceId, xs), COUNTERS)
  {
    if xs != [] {
      var front, x := xs[..|xs| - 1], xs[|xs| - 1];
      ErrorsAreAboutCounters(c, deviceId, front);
      KindsAreAboutCounters(Previous(CountersAfter(c, deviceId, front), (deviceId, x.iface.port)), x.iface, |KINDS|,
                         x.stamp, x.settings);
    }
  }

  /** Which part of a pass a raise can come from, by its kind. */
  lemma RaisesByPart(run: seq<Pass>, p: Pass, kind: string, subject: string)
    ensures var m := MemoryOver(run);
            Raises(Asked(run, p), kind, subject) <==>
            || Raises(ReachActs(m, p.deviceId, p.status, p.settings), kind, subject)
            || (Fresh(run, p) &&
                (|| Raises(PortsActs(m.ports, p.deviceId, LooksOf(p)), kind, subject)
                 || Raises(EnvActs(p.status.env, TimeOf(p), p.settings), kind, subject)
                 || Raises(ComputeOf(m, p), kind, subject)
                 || Raises(ErrorsActs(m.counters, p.deviceId, SightingsOf(p)), kind, subject)))
  {
    var m := MemoryOver(run);
    FreshIsNew(run, p);
    RaisesInTwoParts(ReachActs(m, p.deviceId, p.status, p.settings),
                     NewPollActs(m, p.deviceId, p.status, p.settings), kind, subject);
    if Fresh(run, p) {
      var ports, env := PortsActs(m.ports, p.deviceId, LooksOf(p)), EnvActs(p.status.env, TimeOf(p), p.settings);
      var compute, errors := ComputeOf(m, p), ErrorsActs(m.counters, p.deviceId, SightingsOf(p));
      RaisesInTwoParts(ports + env, compute + errors, kind, subject);
      RaisesInTwoParts(ports, env, kind, subject);
      RaisesInTwoParts(compute, errors, kind, subject);
    }
  }

  /** Which part of a pass an action comes from. */
  lemma ActsByPart(run: seq<Pass>, p: Pass, a: Action)
    ensures var m := MemoryOver(run);
            a in Asked(run, p) <==>
            || a in ReachActs(m, p.deviceId, p.status, p.settings)
            || (Fresh(run, p) &&
                (|| a in PortsActs(m.ports, p.deviceId, LooksOf(p))
                 || a in EnvActs(p.status.env, TimeOf(p), p.settings)
                 || a in ComputeOf(m, p)
                 || a in ErrorsActs(m.counters, p.deviceId, SightingsOf(p))))
  {
    FreshIsNew(run, p);
  }

  /** ... and how many actions of each part there are about one event. */
  lemma AboutByPart(run: seq<Pass>, p: Pass, kind: string, subject: string)
    requires Fresh(run, p)
    ensures var m := MemoryOver(run);
            About(Asked(run, p), kind, subject) ==
            About(ReachActs(m, p.deviceId, p.status, p.settings), kind, subject) +
            About(PortsActs(m.ports, p.deviceId, LooksOf(p)), kind, subject) +
            About(EnvActs(p.status.env, TimeOf(p), p.settings), kind, subject) +
            About(ComputeOf(m, p), kind, subject) +
            About(ErrorsActs(m.counters, p.deviceId, SightingsOf(p)), kind, subject)
  {
    var m := MemoryOver(run);
    FreshIsNew(run, p);
    var ports, env := PortsActs(m.ports, p.deviceId, LooksOf(p)), EnvActs(p.status.env, TimeOf(p), p.settings);
    var compute, errors := ComputeOf(m, p), ErrorsActs(m.counters, p.deviceId, SightingsOf(p));
    AboutConcat(ReachActs(m, p.deviceId, p.status, p.settings), (ports + env) + (compute + errors), kind, subject);
    AboutConcat(ports + env, compute + errors, kind, subject);
    AboutConcat(ports, env, kind, subject);
    AboutConcat(compute, errors, kind, subject);
  }

  lemma {:induction false} NothingAbout(acts: seq<Action>, kinds: set<string>, kind: string, subject: string)
    requires ActsOnly(acts, kinds) && kind !in kinds
    ensures About(acts, kind, subject) == 0
  {
    if acts != [] {
      assert acts[|acts| - 1] in acts;
      NothingAbout(acts[..|acts| - 1], kinds, kind, subject);
    }
  }

  lemma {:induction false} CountsWhatIsThere(acts: seq<Action>, a: Action)
    requires a in acts
    ensures About(acts, a.kind, a.subject) > 0
  {
    if a != acts[|acts| - 1] {
      CountsWhatIsThere(acts[..|acts| - 1], a);
    }
  }

  // Every part of a pass acts on its own kinds only.

  lemma ReachActsOnItsOwn(m: Memory, p: Pass, kind: string, subject: string)
    requires kind != "device.unreachable"
    ensures About(ReachActs(m, p.deviceId, p.status, p.settings), kind, subject) == 0
  {
    var acts := ReachActs(m, p.deviceId, p.status, p.settings);
    assert |acts| <= 1 && acts[..0] == [];
  }

  lemma PortsActOnTheirOwn(m: Memory, p: Pass, kind: string, subject: string)
    requires StampOf(p) != "" && kind != "port.link_down"
    ensures About(PortsActs(m.ports, p.deviceId, LooksOf(p)), kind, subject) == 0
  {
    PortsAreAboutLinks(m.ports, p.deviceId, LooksOf(p));
    NothingAbout(PortsActs(m.ports, p.deviceId, LooksOf(p)), {"port.link_down"}, kind, subject);
  }

  lemma BaysActOnTheirOwn(p: Pass, kind: string, subject: string)
    requires StampOf(p) != "" && kind !in ENV
    ensures About(EnvActs(p.status.env, TimeOf(p), p.settings), kind, subject) == 0
  {
    BaysAreAboutFaults(p.status.env, TimeOf(p), p.settings);
    NothingAbout(EnvActs(p.status.env, TimeOf(p), p.settings), ENV, kind, subject);
  }

  lemma MetersActOnTheirOwn(m: Memory, p: Pass, kind: string, subject: string)
    requires StampOf(p) != "" && kind !in COMPUTE
    ensures About(ComputeOf(m, p), kind, subject) == 0
  {
    assert ActsOnly(ComputeOf(m, p), COMPUTE);
    NothingAbout(ComputeOf(m, p), COMPUTE, kind, subject);
  }

  lemma CountersActOnTheirOwn(m: Memory, p: Pass, kind: string, subject: string)
    requires StampOf(p) != "" && kind !in COUNTERS
    ensures About(ErrorsActs(m.counters, p.deviceId, SightingsOf(p)), kind, subject) == 0
  {
    ErrorsAreAboutCounters(m.counters, p.deviceId, SightingsOf(p));
    NothingAbout(ErrorsActs(m.counters, p.deviceId, SightingsOf(p)), COUNTERS, kind, subject);
  }

  lemma BaysAreTheirOwnKind(kind: string)
    requires kind in ENV
    ensures kind !in COMPUTE && kind !in COUNTERS && kind != "device.unreachable" && kind != "port.link_down"
  {
  }

  /** No other part of a pass acts on fans and supplies. */
  lemma AboutBays(run: seq<Pass>, p: Pass, kind: string, subject: string)
    requires Fresh(run, p) && kind in ENV
    ensures About(Asked(run, p), kind, subject) == About(EnvActs(p.status.env, TimeOf(p), p.settings), kind, subject)
  {
    BaysAreTheirOwnKind(kind);
    AboutByPart(run, p, kind, subject);
    NothingElseAboutBays(MemoryOver(run), p, kind, subject);
  }

  lemma NothingElseAboutBays(m: Memory, p: Pass, kind: string, subject: string)
    requires StampOf(p) != ""
    requires kind !in COMPUTE && kind !in COUNTERS && kind != "device.unreachable" && kind != "port.link_down"
    ensures About(ReachActs(m, p.deviceId, p.status, p.settings), kind, subject) == 0
    ensures About(PortsActs(m.ports, p.deviceId, LooksOf(p)), kind, subject) == 0
    ensures About(ComputeOf(m, p), kind, subject) == 0
    ensures About(ErrorsActs(m.counters, p.deviceId, SightingsOf(p)), kind, subject) == 0
  {
    ReachActsOnItsOwn(m, p, kind, subject);
    PortsActOnTheirOwn(m, p, kind, subject);
    MetersActOnTheirOwn(m, p, kind, subject);
    CountersActOnTheirOwn(m, p, kind, subject);
  }

  lemma CountersAreTheirOwnKind(kind: string)
    requires kind in COUNTERS
    ensures kind !in COMPUTE && kind !in ENV && kind != "device.unreachable" && kind != "port.link_down"
  {
  }

  /** ... nor on the counters. */
  lemma AboutCounters(run: seq<Pass>, p: Pass, kind: string, subject: string)
    requires Fresh(run, p) && kind in COUNTERS
    ensures About(Asked(run, p), kind, subject) ==
            About(ErrorsActs(MemoryOver(run).counters, p.deviceId, SightingsOf(p)), kind, subject)
  {
    CountersAreTheirOwnKind(kind);
    AboutByPart(run, p, kind, subject);
    NothingElseAboutCounters(MemoryOver(run), p, kind, subject);
  }

  lemma NothingElseAboutCounters(m: Memory, p: Pass, kind: string, subject: string)
    requires StampOf(p) != ""
    requires kind !in COMPUTE && kind !in ENV && kind != "device.unreachable" && kind != "port.link_down"
    ensures About(ReachActs(m, p.deviceId, p.status, p.settings), kind, subject) == 0
    ensures About(PortsActs(m.ports, p.deviceId, LooksOf(p)), kind, subject) == 0
    ensures About(EnvActs(p.status.env, TimeOf(p), p.settings), kind, subject) == 0
    ensures About(ComputeOf(m, p), kind, subject) == 0
  {
    ReachActsOnItsOwn(m, p, kind, subject);
    PortsActOnTheirOwn(m, p, kind, subject);
    BaysActOnTheirOwn(p, kind, subject);
    MetersActOnTheirOwn(m, p, kind, subject);
  }

  /** An action of another kind is not among those of a part. */
  lemma NotAmong(acts: seq<Action>, a: Action)
    requires About(acts, a.kind, a.subject) == 0
    ensures a !in acts
  {
    if a in acts {
      CountsWhatIsThere(acts, a);
    }
  }

  lemma OnlyReachActs(run: seq<Pass>, p: Pass, a: Action)
    requires a.kind !in ENV && a.kind !in COMPUTE && a.kind !in COUNTERS && a.kind != "port.link_down"
    ensures a in Asked(run, p) <==> a in ReachActs(MemoryOver(run), p.deviceId, p.status, p.settings)
  {
    var m := MemoryOver(run);
    ActsByPart(run, p, a);
    if Fresh(run, p) {
      PortsActOnTheirOwn(m, p, a.kind, a.subject);
      NotAmong(PortsActs(m.ports, p.deviceId, LooksOf(p)), a);
      NotAmongMost(m, p, a);
    }
  }

  lemma OnlyPortsAct(run: seq<Pass>, p: Pass, a: Action)
    requires a.kind !in ENV && a.kind !in COMPUTE && a.kind !in COUNTERS && a.kind != "device.unreachable"
    ensures a in Asked(run, p) <==> Fresh(run, p) && a in PortsActs(MemoryOver(run).ports, p.deviceId, LooksOf(p))
  {
    var m := MemoryOver(run);
    ActsByPart(run, p, a);
    ReachActsOnItsOwn(m, p, a.kind, a.subject);
    NotAmong(ReachActs(m, p.deviceId, p.status, p.settings), a);
    if Fresh(run, p) {
      NotAmongMost(m, p, a);
    }
  }

  lemma OnlyBaysAct(run: seq<Pass>, p: Pass, a: Action)
    requires a.kind !in COMPUTE && a.kind !in COUNTERS && a.kind != "device.unreachable" && a.kind != "port.link_down"
    ensures a in Asked(run, p) <==> Fresh(run, p) && a in EnvActs(p.status.env, TimeOf(p), p.settings)
  {
    var m := MemoryOver(run);
    ActsByPart(run, p, a);
    ReachActsOnItsOwn(m, p, a.kind, a.subject);
    NotAmong(ReachActs(m, p.deviceId, p.status, p.settings), a);
    if Fresh(run, p) {
      NothingElseAboutBays(m, p, a.kind, a.subject);
      NotAmong(PortsActs(m.ports, p.deviceId, LooksOf(p)), a);
      NotAmong(ComputeOf(m, p), a);
      NotAmong(ErrorsActs(m.counters, p.deviceId, SightingsOf(p)), a);
    }
  }

  lemma NotAmongMost(m: Memory, p: Pass, a: Action)
    requires StampOf(p) != "" && a.kind !in ENV && a.kind !in COMPUTE && a.kind !in COUNTERS
    ensures a !in EnvActs(p.status.env, TimeOf(p), p.settings) && a !in ComputeOf(m, p)
    ensures a !in ErrorsActs(m.counters, p.deviceId, SightingsOf(p))
  {
    BaysActOnTheirOwn(p, a.kind, a.subject);
    NotAmong(EnvActs(p.status.env, TimeOf(p), p.settings), a);
    MetersActOnTheirOwn(m, p, a.kind, a.subject);
    NotAmong(ComputeOf(m, p), a);
    CountersActOnTheirOwn(m, p, a.kind, a.subject);
    NotAmong(ErrorsActs(m.counters, p.deviceId, SightingsOf(p)), a);
  }

  function ComputeOf(m: Memory, p: Pass): seq<Action>
    requires StampOf(p) != ""
  {
    ComputeActs(Count(m.cpu, p.deviceId), Count(m.memory, p.deviceId), p.status, TimeOf(p), p.settings)
  }

  // Every kind is raised by its own part of a pass only.

  lemma ReachRaisesItsOwn(m: Memory, p: Pass, kind: string, subject: string)
    requires kind != "device.unreachable"
    ensures !Raises(ReachActs(m, p.deviceId, p.status, p.settings), kind, subject)
  {
  }

  lemma PortsRaiseTheirOwn(m: Memory, p: Pass, kind: string, subject: string)
    requires StampOf(p) != "" && kind != "port.link_down"
    ensures !Raises(PortsActs(m.ports, p.deviceId, LooksOf(p)), kind, subject)
  {
    PortsAreAboutLinks(m.ports, p.deviceId, LooksOf(p));
  }

  lemma BaysRaiseTheirOwn(p: Pass, kind: string, subject: string)
    requires StampOf(p) != "" && kind !in ENV
    ensures !Raises(EnvActs(p.status.env, TimeOf(p), p.settings), kind, subject)
  {
    BaysAreAboutFaults(p.status.env, TimeOf(p), p.settings);
  }

  lemma MetersRaiseTheirOwn(m: Memory, p: Pass, kind: string, subject: string)
    requires StampOf(p) != "" && kind !in COMPUTE
    ensures !Raises(ComputeOf(m, p), kind, subject)
  {
  }

  lemma CountersRaiseTheirOwn(m: Memory, p: Pass, kind: string, subject: string)
    requires StampOf(p) != "" && kind !in COUNTERS
    ensures !Raises(ErrorsActs(m.counters, p.deviceId, SightingsOf(p)), kind, subject)
  {
    ErrorsAreAboutCounters(m.counters, p.deviceId, SightingsOf(p));
  }

  lemma OnlyReachRaises(run: seq<Pass>, p: Pass, subject: string)
    ensures Raises(Asked(run, p), "device.unreachable", subject) <==>
            Raises(ReachActs(MemoryOver(run), p.deviceId, p.status, p.settings), "device.unreachable", subject)
  {
    RaisesByPart(run, p, "device.unreachable", subject);
    if StampOf(p) != "" {
      PortsRaiseTheirOwn(MemoryOver(run), p, "device.unreachable", subject);
      BaysRaiseTheirOwn(p, "device.unreachable", subject);
      MetersRaiseTheirOwn(MemoryOver(run), p, "device.unreachable", subject);
      CountersRaiseTheirOwn(MemoryOver(run), p, "device.unreachable", subject);
    }
  }

  lemma OnlyPortsRaise(run: seq<Pass>, p: Pass, kind: string, port: string)
    requires kind != "device.unreachable" && kind !in ENV && kind !in COMPUTE && kind !in COUNTERS
    ensures Raises(Asked(run, p), kind, port) <==>
            Fresh(run, p) && Raises(PortsActs(MemoryOver(run).ports, p.deviceId, LooksOf(p)), kind, port)
  {
    RaisesByPart(run, p, kind, port);
    ReachRaisesItsOwn(MemoryOver(run), p, kind, port);
    if StampOf(p) != "" {
      BaysRaiseTheirOwn(p, kind, port);
      MetersRaiseTheirOwn(MemoryOver(run), p, kind, port);
      CountersRaiseTheirOwn(MemoryOver(run), p, kind, port);
    }
  }

  lemma ReachIsItsOwnKind()
    ensures "device.unreachable" !in ENV && "device.unreachable" !in COMPUTE && "device.unreachable" !in COUNTERS
    ensures "device.unreachable" != "port.link_down"
  {
  }

  lemma LinksAreTheirOwnKind()
    ensures "port.link_down" !in ENV && "port.link_down" !in COMPUTE && "port.link_down" !in COUNTERS
  {
  }

  lemma OnlyMetersRaise(run: seq<Pass>, p: Pass, kind: string, subject: string)
    requires kind in COMPUTE
    ensures Raises(Asked(run, p), kind, subject) <==>
              Fresh(run, p) && Raises(ComputeOf(MemoryOver(run), p), kind, subject)
  {
    RaisesByPart(run, p, kind, subject);
    ReachRaisesItsOwn(MemoryOver(run), p, kind, subject);
    if StampOf(p) != "" {
      PortsRaiseTheirOwn(MemoryOver(run), p, kind, subject);
      BaysRaiseTheirOwn(p, kind, subject);
      CountersRaiseTheirOwn(MemoryOver(run), p, kind, subject);
    }
  }

  lemma OnlyCountersRaise(run: seq<Pass>, p: Pass, kind: string, port: string)
    requires kind in COUNTERS
    ensures Raises(Asked(run, p), kind, port) <==>
            Fresh(run, p) && Raises(ErrorsActs(MemoryOver(run).counters, p.deviceId, SightingsOf(p)), kind, port)
  {
    RaisesByPart(run, p, kind, port);
    ReachRaisesItsOwn(MemoryOver(run), p, kind, port);
    if StampOf(p) != "" {
      PortsRaiseTheirOwn(MemoryOver(run), p, kind, port);
      BaysRaiseTheirOwn(p, kind, port);
      MetersRaiseTheirOwn(MemoryOver(run), p, kind, port);
    }
  }

  // --- links ---------------------------------------------------------------------------------------

  /** A link seen going down: the port shows down, is not ignored, and was up when
      last seen - or was never seen and has a severity of its own. */
  predicate IsEdge(last: Option<string>, l: Look) {
    && Shows(l) && l.state.value == "down" && l.severity != "ignore"
    && (last == Some("up") || (last == None && l.overridden))
  }

  lemma LinkRaise(last: Option<string>, l: Look, port: string)
    ensures Raises(PortActs(last, l), "port.link_down", port) <==> l.port == port && IsEdge(last, l)
  {
    var acts := PortActs(last, l);
    assert |acts| == 1 ==> acts[0] in acts;
  }

  /** Some look of the poll shows the port going down: against the state it was last
      seen in, over all considered polls of its device and the poll so far. */
  ghost predicate ShowsEdge(run: seq<Pass>, p: Pass, port: string)
    requires StampOf(p) != ""
  {
    AnyEdge(AllLooks(run, p.deviceId), LooksOf(p), port, |LooksOf(p)|)
  }

  predicate EdgeAt(before: seq<Look>, looks: seq<Look>, port: string, i: nat)
    requires i < |looks|
  {
    looks[i].port == port && IsEdge(LastState(before + looks[..i], port), looks[i])
  }

  /** Over any run, a pass asks for a link_down raise exactly when it brings a poll
      not considered before, and in it the port is seen going down. */
  lemma LinkRaisesAreObservedEdges(run: seq<Pass>, p: Pass, port: string)
    ensures Raises(Asked(run, p), "port.link_down", port) <==> Fresh(run, p) && ShowsEdge(run, p, port)
  {
    LinksAreTheirOwnKind();
    OnlyPortsRaise(run, p, "port.link_down", port);
    if Fresh(run, p) {
      PortMemoryOfRun(run, p.deviceId, port);
      EdgesInPoll(MemoryOver(run).ports, AllLooks(run, p.deviceId), p.deviceId, LooksOf(p), port, |LooksOf(p)|);
      assert LooksOf(p)[..|LooksOf(p)|] == LooksOf(p);
    }
  }

  /** Among the first n looks there is an edge. */
  ghost predicate AnyEdge(before: seq<Look>, looks: seq<Look>, port: string, n: nat)
    requires n <= |looks|
  {
    exists i :: 0 <= i < n && EdgeAt(before, looks, port, i)
  }

  lemma {:induction false} EdgesInPoll(prev: map<PortKey, string>, before: seq<Look>, deviceId: string,
                                       looks: seq<Look>, port: string, n: nat)
    requires n <= |looks| && Get(prev, (deviceId, port)) == LastState(before, port)
    ensures Raises(PortsActs(prev, deviceId, looks[..n]), "port.link_down", port) <==> AnyEdge(before, looks, port, n)
  {
    RaisesOfOne(CloseNow("", ""), "port.link_down", port);
    if n > 0 {
      EdgesInPoll(prev, before, deviceId, looks, port, n - 1);
      OneMoreLook(prev, before, deviceId, looks, port, n - 1);
      AnyEdgeOfOneMore(before, looks, port, n - 1);
    }
  }

  lemma AnyEdgeOfOneMore(before: seq<Look>, looks: seq<Look>, port: string, n: nat)
    requires n < |looks|
    ensures AnyEdge(before, looks, port, n + 1) <==> AnyEdge(before, looks, port, n) || EdgeAt(before, looks, port, n)
  {
  }

  lemma OneMoreLook(prev: map<PortKey, string>, before: seq<Look>, deviceId: string, looks: seq<Look>, port: string,
                    n: nat)
    requires n < |looks| && Get(prev, (deviceId, port)) == LastState(before, port)
    ensures Raises(PortsActs(prev, deviceId, looks[..n + 1]), "port.link_down", port) <==>
            Raises(PortsActs(prev, deviceId, looks[..n]), "port.link_down", port) || EdgeAt(before, looks, port, n)
  {
    var front, l := looks[..n], looks[n];
    assert looks[..n + 1][..n] == front;
    var last := Get(PortsAfter(prev, deviceId, front), (deviceId, l.port));
    RaisesInTwoParts(PortsActs(prev, deviceId, front), PortActs(last, l), "port.link_down", port);
    LinkRaise(last, l, port);
    MemoryIsLastState(prev, deviceId, front, deviceId, port);
    LastStateInTwoParts(before, front, port);
  }

  /** A guarded resolve of a link is asked for exactly when the considered poll lists
      the port up, and its stamp is the poll's. */
  lemma LinkClosesAreListedUp(run: seq<Pass>, p: Pass, port: string, stamp: Option<Time>)
    ensures CloseIfOlder("port.link_down", port, stamp) in Asked(run, p) <==>
            Fresh(run, p) && port != "" && stamp == TimeOf(p) && ListsUp(p.status.interfaces, port)
  {
    LinksAreTheirOwnKind();
    OnlyPortsAct(run, p, CloseIfOlder("port.link_down", port, stamp));
    if Fresh(run, p) {
      ClosesInPoll(MemoryOver(run).ports, p.deviceId, LooksOf(p), port, stamp);
      var looks := LooksOf(p);
      if l :| l in looks && IsUp(l, port, stamp) {
        var i :| 0 <= i < |looks| && looks[i] == l;
        assert p.status.interfaces[i] in p.status.interfaces;
      }
      if port != "" && stamp == TimeOf(p) && ListsUp(p.status.interfaces, port) {
        var i :| 0 <= i < |p.status.interfaces| && p.status.interfaces[i].port == port
                 && p.status.interfaces[i].state == Some("up");
        assert looks[i] in looks && IsUp(looks[i], port, stamp);
      }
    }
  }

  predicate ListsUp(interfaces: seq<Iface>, port: string) {
    exists i :: 0 <= i < |interfaces| && interfaces[i].port == port && interfaces[i].state == Some("up")
  }

  predicate IsUp(l: Look, port: string, stamp: Option<Time>) {
    Shows(l) && l.port == port && l.state.value == "up" && l.stamp == stamp
  }

  lemma {:induction false} ClosesInPoll(prev: map<PortKey, string>, deviceId: string, looks: seq<Look>, port: string,
                                        stamp: Option<Time>)
    ensures CloseIfOlder("port.link_down", port, stamp) in PortsActs(prev, deviceId, looks) <==>
            exists l :: l in looks && IsUp(l, port, stamp)
  {
    if looks != [] {
      var front, last := looks[..|looks| - 1], looks[|looks| - 1];
      ClosesInPoll(prev, deviceId, front, port, stamp);
      assert forall l :: l in looks <==> l in front || l == last;
      assert last in looks;
      CloseOfLook(Get(PortsAfter(prev, deviceId, front), (deviceId, last.port)), last, port, stamp);
    }
  }

  lemma CloseOfLook(prev: Option<string>, l: Look, port: string, stamp: Option<Time>)
    ensures CloseIfOlder("port.link_down", port, stamp) in PortActs(prev, l) <==> IsUp(l, port, stamp)
  {
    var acts := PortActs(prev, l);
    assert |acts| == 1 ==> acts[0] in acts;
  }

  lemma {:induction false} LastStateWasSeen(looks: seq<Look>, port: string)
    ensures LastState(looks, port).Some? ==>
              exists l :: l in looks && l.port == port && l.state == LastState(looks, port)
  {
    if looks != [] {
      LastStateWasSeen(looks[..|looks| - 1], port);
      assert looks[|looks| - 1] in looks;
    }
  }

  /** A port that no considered poll ever showed up, and that has no severity of its
      own, is never raised. */
  lemma NeverUpNeverRaised(run: seq<Pass>, p: Pass, port: string)
    requires forall l :: l in AllLooks(run + [p], p.deviceId) && l.port == port ==>
               l.state != Some("up") && !l.overridden
    ensures !Raises(Asked(run, p), "port.link_down", port)
  {
    LinkRaisesAreObservedEdges(run, p, port);
    if Fresh(run, p) {
      var looks := LooksOf(p);
      assert (run + [p])[..|run|] == run;
      assert AllLooks(run + [p], p.deviceId) == AllLooks(run, p.deviceId) + looks;
      forall i | 0 <= i < |looks|
        ensures !EdgeAt(AllLooks(run, p.deviceId), looks, port, i)
      {
        LastStateWasSeen(AllLooks(run, p.deviceId) + looks[..i], port);
        assert looks[i] in AllLooks(run + [p], p.deviceId);
        assert forall l :: l in AllLooks(run, p.deviceId) + looks[..i] ==> l in AllLooks(run + [p], p.deviceId);
      }
    }
  }

  // --- fans and power supplies -----------------------------------------------------------------------

  /** A fan tray of that name is listed, faulted or not. */
  ghost predicate ListsFan(fans: seq<Fan>, subject: string, faulted: bool) {
    exists i :: 0 <= i < |fans| && FanSubject(fans[i]) == subject && FanFaulted(fans[i]) == faulted
  }

  ghost predicate ListsPsu(psus: seq<Psu>, subject: string, faulted: bool) {
    exists i :: 0 <= i < |psus| && PsuSubject(psus[i]) == subject && PsuFaulted(psus[i]) == faulted
  }

  lemma ListsFanOneMore(fans: seq<Fan>, subject: string, faulted: bool)
    requires fans != []
    ensures ListsFan(fans, subject, faulted) <==>
            || ListsFan(fans[..|fans| - 1], subject, faulted)
            || (FanSubject(fans[|fans| - 1]) == subject && FanFaulted(fans[|fans| - 1]) == faulted)
  {
    var front := fans[..|fans| - 1];
    if i :| 0 <= i < |front| && FanSubject(front[i]) == subject && FanFaulted(front[i]) == faulted {
      assert fans[i] == front[i];
    }
    if i :| 0 <= i < |fans| && FanSubject(fans[i]) == subject && FanFaulted(fans[i]) == faulted {
      assert i < |front| ==> fans[i] == front[i];
    }
  }

  lemma ListsPsuOneMore(psus: seq<Psu>, subject: string, faulted: bool)
    requires psus != []
    ensures ListsPsu(psus, subject, faulted) <==>
            || ListsPsu(psus[..|psus| - 1], subject, faulted)
            || (PsuSubject(psus[|psus| - 1]) == subject && PsuFaulted(psus[|psus| - 1]) == faulted)
  {
    var front := psus[..|psus| - 1];
    if i :| 0 <= i < |front| && PsuSubject(front[i]) == subject && PsuFaulted(front[i]) == faulted {
      assert psus[i] == front[i];
    }
    if i :| 0 <= i < |psus| && PsuSubject(psus[i]) == subject && PsuFaulted(psus[i]) == faulted {
      assert i < |front| ==> psus[i] == front[i];
    }
  }

  lemma {:induction false} FanClosesAre(fans: seq<Fan>, stamp: Option<Time>, a: Action)
    ensures a in FanCloses(fans, stamp) <==>
            a.CloseIfOlder? && a.kind == "env.fan" && a.stamp == stamp && ListsFan(fans, a.subject, false)
  {
    if fans != [] {
      FanClosesAre(fans[..|fans| - 1], stamp, a);
      ListsFanOneMore(fans, a.subject, false);
    }
  }

  lemma {:induction false} PsuClosesAre(psus: seq<Psu>, stamp: Option<Time>, a: Action)
    ensures a in PsuCloses(psus, stamp) <==>
            a.CloseIfOlder? && a.kind == "env.psu" && a.stamp == stamp && ListsPsu(psus, a.subject, false)
  {
    if psus != [] {
      PsuClosesAre(psus[..|psus| - 1], stamp, a);
      ListsPsuOneMore(psus, a.subject, false);
    }
  }

  lemma {:induction false} FaultRaisesAre(fs: seq<Fault>, stamp: Option<Time>, s: Settings, a: Action)
    ensures a in FaultRaises(fs, stamp, s) <==>
            && a.RaiseUnlessSuperseded? && a.stamp == stamp && a.severity == s.SeverityFor(a.kind)
            && (a.kind, a.subject) in fs
  {
    if fs != [] {
      var front, last := fs[..|fs| - 1], fs[|fs| - 1];
      FaultRaisesAre(front, stamp, s, a);
      assert (a.kind, a.subject) in fs <==> (a.kind, a.subject) in front || (a.kind, a.subject) == last;
    }
  }

  lemma FaultsAre(env: Env, kind: string, subject: string)
    requires kind == "env.fan" || kind == "env.psu"
    ensures (kind, subject) in PsuFaults(FanFaults(env.fans), env.psus) <==>
            if kind == "env.fan" then ListsFan(env.fans, subject, true) else ListsPsu(env.psus, subject, true)
  {
    FanFaultsAre(env.fans);
    PsuFaultsAre(FanFaults(env.fans), env.psus);
    var f: Fault := (kind, subject);
    if kind == "env.fan" {
      assert f in PsuFaults(FanFaults(env.fans), env.psus) <==> f in FanFaults(env.fans);
    }
  }

  /** Over any run a pass acts on a fan tray exactly when it brings a poll not considered
      before that lists it: a guarded resolve for a healthy row, a raise for a faulted
      one, both with the stamp of the poll. */
  lemma FanActsAreListed(run: seq<Pass>, p: Pass, a: Action)
    requires a.kind == "env.fan"
    ensures a in Asked(run, p) <==>
            && Fresh(run, p)
            && match a
               case RaiseUnlessSuperseded(_, subject, severity, stamp) =>
                 stamp == TimeOf(p) && severity == p.settings.SeverityFor("env.fan") &&
                 ListsFan(p.status.env.fans, subject, true)
               case CloseIfOlder(_, subject, stamp) => stamp == TimeOf(p) && ListsFan(p.status.env.fans, subject, false)
               case CloseNow(_, _) => false
  {
    BaysAreTheirOwnKind("env.fan");
    OnlyBaysAct(run, p, a);
    if Fresh(run, p) {
      EnvActsAre(p.status.env, TimeOf(p), p.settings, a);
      FaultsAre(p.status.env, "env.fan", a.subject);
    }
  }

  /** ... and so it does on a power supply. */
  lemma PsuActsAreListed(run: seq<Pass>, p: Pass, a: Action)
    requires a.kind == "env.psu"
    ensures a in Asked(run, p) <==>
            && Fresh(run, p)
            && match a
               case RaiseUnlessSuperseded(_, subject, severity, stamp) =>
                 stamp == TimeOf(p) && severity == p.settings.SeverityFor("env.psu") &&
                 ListsPsu(p.status.env.psus, subject, true)
               case CloseIfOlder(_, subject, stamp) => stamp == TimeOf(p) && ListsPsu(p.status.env.psus, subject, false)
               case CloseNow(_, _) => false
  {
    BaysAreTheirOwnKind("env.psu");
    OnlyBaysAct(run, p, a);
    if Fresh(run, p) {
      EnvActsAre(p.status.env, TimeOf(p), p.settings, a);
      FaultsAre(p.status.env, "env.psu", a.subject);
    }
  }

  lemma EnvActsAre(env: Env, stamp: Option<Time>, s: Settings, a: Action)
    ensures a in EnvActs(env, stamp, s) <==>
            || (a.CloseIfOlder? && a.kind == "env.fan" && a.stamp == stamp && ListsFan(env.fans, a.subject, false))
            || (a.CloseIfOlder? && a.kind == "env.psu" && a.stamp == stamp && ListsPsu(env.psus, a.subject, false))
            || (a.RaiseUnlessSuperseded? && a.stamp == stamp && a.severity == s.SeverityFor(a.kind) &&
                (a.kind, a.subject) in PsuFaults(FanFaults(env.fans), env.psus))
  {
    FanClosesAre(env.fans, stamp, a);
    PsuClosesAre(env.psus, stamp, a);
    FaultRaisesAre(PsuFaults(FanFaults(env.fans), env.psus), stamp, s, a);
  }

  /** What a pass asks about one fan tray, or one supply. */
  function FanAct(p: Pass, f: Fan): Action
    requires StampOf(p) != ""
  {
    if FanFaulted(f) then RaiseUnlessSuperseded("env.fan", FanSubject(f), p.settings.SeverityFor("env.fan"), TimeOf(p))
    else CloseIfOlder("env.fan", FanSubject(f), TimeOf(p))
  }

  function PsuAct(p: Pass, u: Psu): Action
    requires StampOf(p) != ""
  {
    if PsuFaulted(u) then RaiseUnlessSuperseded("env.psu", PsuSubject(u), p.settings.SeverityFor("env.psu"), TimeOf(p))
    else CloseIfOlder("env.psu", PsuSubject(u), TimeOf(p))
  }

  /** Over any run, a pass over a new poll asks for exactly one thing about every fan
      tray and supply it lists: a raise if it is faulted, a guarded resolve if not. */
  lemma OneActionPerListedBay(run: seq<Pass>, p: Pass)
    requires Fresh(run, p) && DistinctBays(p.status.env)
    ensures forall k :: 0 <= k < |p.status.env.fans| ==>
              FanAct(p, p.status.env.fans[k]) in Asked(run, p) &&
              About(Asked(run, p), "env.fan", FanSubject(p.status.env.fans[k])) == 1
    ensures forall k :: 0 <= k < |p.status.env.psus| ==>
              PsuAct(p, p.status.env.psus[k]) in Asked(run, p) &&
              About(Asked(run, p), "env.psu", PsuSubject(p.status.env.psus[k])) == 1
  {
    OneActionPerBay(p.status.env, TimeOf(p), p.settings);
    forall k | 0 <= k < |p.status.env.fans|
      ensures FanAct(p, p.status.env.fans[k]) in Asked(run, p)
      ensures About(Asked(run, p), "env.fan", FanSubject(p.status.env.fans[k])) == 1
    {
      FanActsAreListed(run, p, FanAct(p, p.status.env.fans[k]));
      AboutBays(run, p, "env.fan", FanSubject(p.status.env.fans[k]));
    }
    forall k | 0 <= k < |p.status.env.psus|
      ensures PsuAct(p, p.status.env.psus[k]) in Asked(run, p)
      ensures About(Asked(run, p), "env.psu", PsuSubject(p.status.env.psus[k])) == 1
    {
      PsuActsAreListed(run, p, PsuAct(p, p.status.env.psus[k]));
      AboutBays(run, p, "env.psu", PsuSubject(p.status.env.psus[k]));
    }
  }

  // --- error counters --------------------------------------------------------------------------------

  /** A counter seen rising: the port is up and the total grew by the threshold since
      it was last read. */
  predicate IsRise(last: Option<int>, r: Reading) {
    r.up && r.total.Some? && last.Some? && r.total.value - last.value >= Max(1, r.threshold)
  }

  lemma {:induction false} KindsRaise(previous: map<string, int>, i: Iface, n: nat, stamp: Option<Time>, s: Settings,
                                      k: nat, port: string)
    requires n <= |KINDS| && k < |KINDS|
    ensures Raises(KindsActs(previous, i, n, stamp, s), KINDS[k], port) <==>
            k < n && i.port == port && IsRise(Get(previous, KINDS[k]), ReadingOf(i, KINDS[k], s))
  {
    RaisesOfOne(CloseNow("", ""), KINDS[k], port);
    if n > 0 {
      KindsRaise(previous, i, n - 1, stamp, s, k, port);
      RaisesInTwoParts(KindsActs(previous, i, n - 1, stamp, s), KindActs(previous, i, KINDS[n - 1], stamp, s),
                       KINDS[k], port);
      KindRaise(previous, i, n - 1, stamp, s, k, port);
    }
  }

  lemma KindRaise(previous: map<string, int>, i: Iface, n: nat, stamp: Option<Time>, s: Settings, k: nat, port: string)
    requires n < |KINDS| && k < |KINDS|
    ensures Raises(KindActs(previous, i, KINDS[n], stamp, s), KINDS[k], port) <==>
            k == n && i.port == port && IsRise(Get(previous, KINDS[k]), ReadingOf(i, KINDS[k], s))
  {
    KindsAreDistinct(n, k);
    var acts := KindActs(previous, i, KINDS[n], stamp, s);
    assert |acts| == 1 ==> acts[0] in acts;
  }

  lemma KindsAreDistinct(n: nat, k: nat)
    requires n < |KINDS| && k < |KINDS|
    ensures KINDS[n] == KINDS[k] <==> n == k
    ensures KINDS[k] in COUNTERS && KINDS[k] !in ENV && KINDS[k] !in COMPUTE && KINDS[k] != "port.link_down" &&
            KINDS[k] != "device.unreachable"
  {
  }

  predicate CountsFor(deviceId: string, x: Sighting, port: string) {
    x.iface.port == port && Counted(deviceId, x)
  }

  /** Some listing of the port in the poll shows the counter rising: against the total
      it last showed, over all considered polls of its device and the poll so far. */
  ghost predicate ShowsRise(run: seq<Pass>, p: Pass, port: string, k: nat)
    requires StampOf(p) != "" && k < |KINDS|
  {
    AnyRise(AllSightings(run, p.deviceId), p.deviceId, SightingsOf(p), port, k, |SightingsOf(p)|)
  }

  predicate RiseAt(before: seq<Sighting>, deviceId: string, xs: seq<Sighting>, port: string, k: nat, i: nat)
    requires k < |KINDS| && i < |xs|
  {
    && CountsFor(deviceId, xs[i], port)
    && IsRise(LastTotal(ReadingsOf(deviceId, before + xs[..i], port, KINDS[k])),
              ReadingOf(xs[i].iface, KINDS[k], xs[i].settings))
  }

  /** Over any run, a pass asks for a counter raise exactly when it brings a poll not
      considered before, and in it the counter is seen rising. */
  lemma ErrorRaisesAreRealRises(run: seq<Pass>, p: Pass, port: string, k: nat)
    requires k < |KINDS|
    ensures Raises(Asked(run, p), KINDS[k], port) <==> Fresh(run, p) && ShowsRise(run, p, port, k)
  {
    KindsAreDistinct(k, k);
    OnlyCountersRaise(run, p, KINDS[k], port);
    if Fresh(run, p) {
      CounterMemoryOfRun(run, p.deviceId, port, k);
      RisesInPoll(MemoryOver(run).counters, AllSightings(run, p.deviceId), p.deviceId, SightingsOf(p), port, k,
                  |SightingsOf(p)|);
      assert SightingsOf(p)[..|SightingsOf(p)|] == SightingsOf(p);
    }
  }

  /** Among the first n listings the counter rises. */
  ghost predicate AnyRise(before: seq<Sighting>, deviceId: string, xs: seq<Sighting>, port: string, k: nat, n: nat)
    requires k < |KINDS| && n <= |xs|
  {
    exists i :: 0 <= i < n && RiseAt(before, deviceId, xs, port, k, i)
  }

  lemma {:induction false} RisesInPoll(c: map<PortKey, map<string, int>>, before: seq<Sighting>, deviceId: string,
                                       xs: seq<Sighting>, port: string, k: nat, n: nat)
    requires k < |KINDS| && n <= |xs|
    requires Get(Previous(c, (deviceId, port)), KINDS[k]) == LastTotal(ReadingsOf(deviceId, before, port, KINDS[k]))
    ensures Raises(ErrorsActs(c, deviceId, xs[..n]), KINDS[k], port) <==> AnyRise(before, deviceId, xs, port, k, n)
  {
    RaisesOfOne(CloseNow("", ""), KINDS[k], port);
    if n > 0 {
      RisesInPoll(c, before, deviceId, xs, port, k, n - 1);
      OneMoreListing(c, before, deviceId, xs, port, k, n - 1);
      AnyRiseOfOneMore(before, deviceId, xs, port, k, n - 1);
    }
  }

  lemma AnyRiseOfOneMore(before: seq<Sighting>, deviceId: string, xs: seq<Sighting>, port: string, k: nat, n: nat)
    requires k < |KINDS| && n < |xs|
    ensures AnyRise(before, deviceId, xs, port, k, n + 1) <==>
            AnyRise(before, deviceId, xs, port, k, n) || RiseAt(before, deviceId, xs, port, k, n)
  {
  }

  lemma OneMoreListing(c: map<PortKey, map<string, int>>, before: seq<Sighting>, deviceId: string, xs: seq<Sighting>,
                       port: string, k: nat, n: nat)
    requires k < |KINDS| && n < |xs|
    requires Get(Previous(c, (deviceId, port)), KINDS[k]) == LastTotal(ReadingsOf(deviceId, before, port, KINDS[k]))
    ensures Raises(ErrorsActs(c, deviceId, xs[..n + 1]), KINDS[k], port) <==>
            Raises(ErrorsActs(c, deviceId, xs[..n]), KINDS[k], port) || RiseAt(before, deviceId, xs, port, k, n)
  {
    var front, x := xs[..n], xs[n];
    assert xs[..n + 1][..n] == front;
    var previous := Previous(CountersAfter(c, deviceId, front), (deviceId, x.iface.port));
    RaisesInTwoParts(ErrorsActs(c, deviceId, front), SightingActs(previous, deviceId, x), KINDS[k], port);
    SightingRaises(previous, deviceId, x, k, port);
    CounterIsLastTotal(c, deviceId, front, deviceId, port, k);
    ReadingsInTwoParts(deviceId, before, front, port, KINDS[k]);
    LastTotalInTwoParts(ReadingsOf(deviceId, before, port, KINDS[k]), ReadingsOf(deviceId, front, port, KINDS[k]));
  }

  lemma SightingRaises(previous: map<string, int>, deviceId: string, x: Sighting, k: nat, port: string)
    requires k < |KINDS|
    ensures Raises(SightingActs(previous, deviceId, x), KINDS[k], port) <==>
            CountsFor(deviceId, x, port) && IsRise(Get(previous, KINDS[k]), ReadingOf(x.iface, KINDS[k], x.settings))
  {
    RaisesOfOne(CloseNow("", ""), KINDS[k], port);
    KindsRaise(previous, x.iface, |KINDS|, x.stamp, x.settings, k, port);
  }

  /** A port listed last at i shows the total of that listing. */
  lemma {:induction false} LastListingDecides(deviceId: string, xs: seq<Sighting>, port: string, k: nat, i: nat)
    requires i < |xs| && k < |KINDS| && CountsFor(deviceId, xs[i], port) && TotalFor(xs[i].iface, KINDS[k]).Some?
    requires forall j :: i < j < |xs| ==> xs[j].iface.port != port
    ensures LastTotal(ReadingsOf(deviceId, xs, port, KINDS[k])) == TotalFor(xs[i].iface, KINDS[k])
  {
    var front, x := xs[..|xs| - 1], xs[|xs| - 1];
    var rs := ReadingsOf(deviceId, front, port, KINDS[k]);
    if i == |xs| - 1 {
      LastOfOneMore(rs, ReadingOf(x.iface, KINDS[k], x.settings));
    } else {
      assert rs + [] == rs;
      LastListingDecides(deviceId, front, port, k, i);
    }
  }

  /** The poll lists the port at i and nowhere else. */
  ghost predicate ListedOnce(xs: seq<Sighting>, port: string, i: nat) {
    forall j :: 0 <= j < |xs| ==> (xs[j].iface.port == port <==> j == i)
  }

  lemma {:induction false} AboutKinds(previous: map<string, int>, i: Iface, n: nat, stamp: Option<Time>, s: Settings,
                                      k: nat, port: string)
    requires n <= |KINDS| && k < |KINDS|
    ensures About(KindsActs(previous, i, n, stamp, s), KINDS[k], port) ==
            if k < n && i.port == port && Judge(Get(previous, KINDS[k]), ReadingOf(i, KINDS[k], s)) != Quiet
            then 1 else 0
  {
    if n > 0 {
      AboutKinds(previous, i, n - 1, stamp, s, k, port);
      AboutConcat(KindsActs(previous, i, n - 1, stamp, s), KindActs(previous, i, KINDS[n - 1], stamp, s),
                  KINDS[k], port);
      AboutKind(previous, i, n - 1, stamp, s, k, port);
    }
  }

  lemma AboutKind(previous: map<string, int>, i: Iface, n: nat, stamp: Option<Time>, s: Settings, k: nat, port: string)
    requires n < |KINDS| && k < |KINDS|
    ensures About(KindActs(previous, i, KINDS[n], stamp, s), KINDS[k], port) ==
            if k == n && i.port == port && Judge(Get(previous, KINDS[k]), ReadingOf(i, KINDS[k], s)) != Quiet
            then 1 else 0
  {
    KindsAreDistinct(n, k);
    var acts := KindActs(previous, i, KINDS[n], stamp, s);
    assert |acts| <= 1 && acts[..0] == [];
    assert |acts| == 1 ==> acts[..|acts| - 1] == [];
  }

  lemma {:induction false} NoActsElsewhere(c: map<PortKey, map<string, int>>, deviceId: string, xs: seq<Sighting>,
                                           port: string, k: nat)
    requires k < |KINDS| && forall j :: 0 <= j < |xs| ==> xs[j].iface.port != port
    ensures About(ErrorsActs(c, deviceId, xs), KINDS[k], port) == 0
    ensures ReadingsOf(deviceId, xs, port, KINDS[k]) == []
  {
    if xs != [] {
      NoActsElsewhere(c, deviceId, xs[..|xs| - 1], port, k);
      AboutLastSighting(c, deviceId, xs, port, k);
    }
  }

  lemma AboutLastSighting(c: map<PortKey, map<string, int>>, deviceId: string, xs: seq<Sighting>, port: string, k: nat)
    requires k < |KINDS| && xs != []
    ensures var front, x := xs[..|xs| - 1], xs[|xs| - 1];
            var last := Get(Previous(CountersAfter(c, deviceId, front), (deviceId, port)), KINDS[k]);
            About(ErrorsActs(c, deviceId, xs), KINDS[k], port) ==
            About(ErrorsActs(c, deviceId, front), KINDS[k], port) +
            if CountsFor(deviceId, x, port) && Judge(last, ReadingOf(x.iface, KINDS[k], x.settings)) != Quiet
            then 1 else 0
  {
    var front, x := xs[..|xs| - 1], xs[|xs| - 1];
    var previous := Previous(CountersAfter(c, deviceId, front), (deviceId, x.iface.port));
    AboutConcat(ErrorsActs(c, deviceId, front), SightingActs(previous, deviceId, x), KINDS[k], port);
    AboutKinds(previous, x.iface, |KINDS|, x.stamp, x.settings, k, port);
  }

  lemma {:induction false} AboutOnlyListing(c: map<PortKey, map<string, int>>, deviceId: string, xs: seq<Sighting>,
                                            port: string, k: nat, i: nat)
    requires k < |KINDS| && i < |xs| && ListedOnce(xs, port, i)
    ensures var last := Get(Previous(c, (deviceId, port)), KINDS[k]);
            var r := ReadingOf(xs[i].iface, KINDS[k], xs[i].settings);
            About(ErrorsActs(c, deviceId, xs), KINDS[k], port) ==
            if CountsFor(deviceId, xs[i], port) && Judge(last, r) != Quiet then 1 else 0
  {
    var front := xs[..|xs| - 1];
    AboutLastSighting(c, deviceId, xs, port, k);
    if i == |xs| - 1 {
      NoActsElsewhere(c, deviceId, front, port, k);
      CounterIsLastTotal(c, deviceId, front, deviceId, port, k);
    } else {
      AboutOnlyListing(c, deviceId, front, port, k, i);
    }
  }

  /** Over any run, a poll that lists a port once makes one call about each of its
      counters, or none if the counter is judged quiet against the total last shown. */
  lemma AboutCounter(run: seq<Pass>, p: Pass, port: string, k: nat, i: nat)
    requires Fresh(run, p) && k < |KINDS| && i < |SightingsOf(p)| && ListedOnce(SightingsOf(p), port, i)
    ensures var xs := SightingsOf(p);
            var last := LastTotal(ReadingsOf(p.deviceId, AllSightings(run, p.deviceId) + xs[..i], port, KINDS[k]));
            About(Asked(run, p), KINDS[k], port) ==
            if CountsFor(p.deviceId, xs[i], port) && Judge(last, ReadingOf(xs[i].iface, KINDS[k], p.settings)) != Quiet
            then 1 else 0
  {
    var xs, before := SightingsOf(p), AllSightings(run, p.deviceId);
    KindsAreDistinct(k, k);
    AboutCounters(run, p, KINDS[k], port);
    AboutOnlyListing(MemoryOver(run).counters, p.deviceId, xs, port, k, i);
    CounterMemoryOfRun(run, p.deviceId, port, k);
    NoActsElsewhere(map[], p.deviceId, xs[..i], port, k);
    ReadingsInTwoParts(p.deviceId, before, xs[..i], port, KINDS[k]);
    assert ReadingsOf(p.deviceId, before, port, KINDS[k]) + [] == ReadingsOf(p.deviceId, before, port, KINDS[k]);
  }

  /** A total below the one last shown neither raises nor resolves, and the total a
      poll last shows is what the next one is measured from. */
  lemma DropRebaselines(run: seq<Pass>, p: Pass, port: string, k: nat, i: nat)
    requires Fresh(run, p) && k < |KINDS| && i < |SightingsOf(p)|
    requires CountsFor(p.deviceId, SightingsOf(p)[i], port) && TotalFor(SightingsOf(p)[i].iface, KINDS[k]).Some?
    ensures var xs := SightingsOf(p); var total := TotalFor(xs[i].iface, KINDS[k]);
            var last := LastTotal(ReadingsOf(p.deviceId, AllSightings(run, p.deviceId) + xs[..i], port, KINDS[k]));
            && (last.Some? && total.value < last.value ==>
                && Judge(last, ReadingOf(xs[i].iface, KINDS[k], p.settings)) == Quiet
                && (ListedOnce(xs, port, i) ==> About(Asked(run, p), KINDS[k], port) == 0))
            && ((forall j :: i < j < |xs| ==> xs[j].iface.port != port) ==>
                  Get(Previous(MemoryOver(run + [p]).counters, (p.deviceId, port)), KINDS[k]) == total)
  {
    var xs, before := SightingsOf(p), AllSightings(run, p.deviceId);
    if ListedOnce(xs, port, i) {
      AboutCounter(run, p, port, k, i);
    }
    if forall j :: i < j < |xs| ==> xs[j].iface.port != port {
      assert (run + [p])[..|run|] == run;
      CounterMemoryOfRun(run + [p], p.deviceId, port, k);
      ReadingsInTwoParts(p.deviceId, before, xs, port, KINDS[k]);
      LastListingDecides(p.deviceId, xs, port, k, i);
      LastTotalInTwoParts(ReadingsOf(p.deviceId, before, port, KINDS[k]), ReadingsOf(p.deviceId, xs, port, KINDS[k]));
    }
  }

  // --- CPU, memory, reachability --------------------------------------------------------------------

  function KindOf(meter: Meter): (string, string) {
    match meter
    case Cpu => ("compute.cpu_high", "cpu")
    case Mem => ("compute.memory_high", "memory")
  }

  /** Over any run, a pass asks for a CPU or memory raise exactly when it brings a
      reading not considered before that ends a run of highs at least as long as
      the configured polls. */
  lemma MeterRaisesIffStreakReachesPolls(run: seq<Pass>, p: Pass, meter: Meter)
    ensures var reading := ReadingFrom(meter, p);
            Raises(Asked(run, p), KindOf(meter).0, KindOf(meter).1) <==>
            && Fresh(run, p) && reading.0.Some?
            && Streak(Highs(AllReadings(run, p.deviceId, meter) + [reading])) >= Max(1, reading.1.polls)
  {
    var m, reading := MemoryOver(run), ReadingFrom(meter, p);
    OnlyMetersRaise(run, p, KindOf(meter).0, KindOf(meter).1);
    if Fresh(run, p) {
      PassMemoryOfRun(run, p.deviceId, meter);
      PassesOverOneMore(AllReadings(run, p.deviceId, meter), reading);
      PassesAreTheStreak(AllReadings(run, p.deviceId, meter) + [reading]);
      MeterRaise(Count(m.cpu, p.deviceId), Count(m.memory, p.deviceId), p.status, TimeOf(p), p.settings, meter);
    }
  }

  lemma MeterRaise(cpu: nat, memory: nat, status: Status, stamp: Option<Time>, s: Settings, meter: Meter)
    ensures var n := if meter.Cpu? then cpu else memory;
            var reading := if meter.Cpu? then status.cpu else status.memory;
            var limit := if meter.Cpu? then s.cpu else s.memory;
            Raises(ComputeActs(cpu, memory, status, stamp, s), KindOf(meter).0, KindOf(meter).1) <==>
            reading.Some? && PassesAfter(n, reading, limit) >= Max(1, limit.polls)
  {
    var a := LimitActs(cpu, status.cpu, s.cpu, "compute.cpu_high", "cpu", stamp, s);
    var b := LimitActs(memory, status.memory, s.memory, "compute.memory_high", "memory", stamp, s);
    RaisesInTwoParts(a, b, KindOf(meter).0, KindOf(meter).1);
    assert |a| == 1 ==> a[0] in a;
    assert |b| == 1 ==> b[0] in b;
  }

  /** Over any run, a pass asks for an unreachable raise exactly when it ends a run of
      failing passes of its device, considered or not, at least as long as the
      configured number; and it closes the event on every stamped pass that does not fail. */
  lemma UnreachableIffStreakReachesPolls(run: seq<Pass>, p: Pass)
    ensures Raises(Asked(run, p), "device.unreachable", "ssh") <==>
            Streak(AllFailures(run + [p], p.deviceId)) >= Max(1, p.settings.unreachablePolls)
    ensures CloseNow("device.unreachable", "ssh") in Asked(run, p) <==> !Failing(p.status) && StampOf(p) != ""
  {
    OnlyReachRaises(run, p, "ssh");
    ReachIsItsOwnKind();
    OnlyReachActs(run, p, CloseNow("device.unreachable", "ssh"));
    FailureMemoryOfRun(run, p.deviceId);
    assert (run + [p])[..|run|] == run;
    StreakOfOneMore(AllFailures(run, p.deviceId), Failing(p.status));
    ReachRaise(MemoryOver(run), p);
  }

  lemma ReachRaise(m: Memory, p: Pass)
    ensures var acts := ReachActs(m, p.deviceId, p.status, p.settings);
            && (Raises(acts, "device.unreachable", "ssh") <==>
                Failing(p.status) && Count(m.failing, p.deviceId) + 1 >= Max(1, p.settings.unreachablePolls))
            && (CloseNow("device.unreachable", "ssh") in acts <==> !Failing(p.status) && StampOf(p) != "")
  {
    var acts := ReachActs(m, p.deviceId, p.status, p.settings);
    assert |acts| == 1 ==> acts[0] in acts;
  }

  /** A pass whose stamp its device last came with asks for nothing but what
      reachability asks, and leaves every memory but the failure count as it was. */
  lemma RepeatedStampChangesNothing(run: seq<Pass>, p: Pass)
    requires !Fresh(run, p)
    ensures Asked(run, p) == ReachActs(MemoryOver(run), p.deviceId, p.status, p.settings)
    ensures MemoryOver(run + [p]) == MemoryOver(run).(failing := MemoryOver(run + [p]).failing)
  {
    FreshIsNew(run, p);
    assert (run + [p])[..|run|] == run;
    var acts := ReachActs(MemoryOver(run), p.deviceId, p.status, p.settings);
    assert acts + [] == acts;
  }
}
