/** What a pass asks for, in terms of what the polls listed and the settings said:
    for every action there is, whether the pass asks for it. */
module PassContents {
  import opened Common
  import opened EventTable
  import opened SyslogDetector
  import opened ReconcilePolicy
  import opened ReconcileRuns

  // --- settings ----------------------------------------------------------------------

  predicate IsSeverity(s: Settings, kind: string, severity: string) {
    severity == if kind in s.severities then s.severities[kind] else "warning"
  }

  predicate IsPortSeverity(s: Settings, deviceId: string, port: string, severity: string) {
    if (deviceId, port) in s.ports then severity == s.ports[(deviceId, port)]
    else IsSeverity(s, "port.link_down", severity)
  }

  /** A port someone marked `ignore`, or without a name, is not counted. */
  predicate Counts(s: Settings, deviceId: string, port: string) {
    port != "" && !((deviceId, port) in s.ports && s.ports[(deviceId, port)] == "ignore")
  }

  function AtLeastOne(n: int): int {
    if n < 1 then 1 else n
  }

  // --- what was seen before ----------------------------------------------------------

  /** The state a list shows of a port last, among its first n rows. */
  function StateIn(rows: seq<Iface>, n: nat, port: string): Option<string>
    requires n <= |rows|
  {
    if n == 0 then None
    else if rows[n - 1].port == port && port != "" && rows[n - 1].state.Some? then rows[n - 1].state
    else StateIn(rows, n - 1, port)
  }

  /** ... and over the considered polls of the device. */
  function StateOver(run: seq<Pass>, deviceId: string, port: string): Option<string> {
    if run == [] then None
    else
      var front, p := run[..|run| - 1], run[|run| - 1];
      if p.deviceId == deviceId && ReconcileRuns.Fresh(front, p) &&
         StateIn(p.status.interfaces, |p.status.interfaces|, port).Some?
      then StateIn(p.status.interfaces, |p.status.interfaces|, port)
      else StateOver(front, deviceId, port)
  }

  /** The state known of a port before row i of this poll. */
  function StateBefore(run: seq<Pass>, p: Pass, i: nat, port: string): Option<string>
    requires i <= |p.status.interfaces|
  {
    if StateIn(p.status.interfaces, i, port).Some? then StateIn(p.status.interfaces, i, port)
    else StateOver(run, p.deviceId, port)
  }

  /** The counter of a row. */
  function CountOf(row: Iface, kind: string): Option<int> {
    match kind
    case "port.input_errors" => row.inputErrors
    case "port.output_errors" => row.outputErrors
    case "port.discards" =>
      if row.inputDiscards == None || row.outputDiscards == None then None
      else Some(row.inputDiscards.value + row.outputDiscards.value)
    case _ => None
  }

  function CountIn(p: Pass, n: nat, port: string, kind: string): Option<int>
    requires n <= |p.status.interfaces|
  {
    if n == 0 then None
    else
      var row := p.status.interfaces[n - 1];
      if row.port == port && Counts(p.settings, p.deviceId, port) && CountOf(row, kind).Some? then CountOf(row, kind)
      else CountIn(p, n - 1, port, kind)
  }

  function CountOver(run: seq<Pass>, deviceId: string, port: string, kind: string): Option<int> {
    if run == [] then None
    else
      var front, p := run[..|run| - 1], run[|run| - 1];
      if p.deviceId == deviceId && ReconcileRuns.Fresh(front, p) && CountIn(p, |p.status.interfaces|, port, kind).Some?
      then CountIn(p, |p.status.interfaces|, port, kind)
      else CountOver(front, deviceId, port, kind)
  }

  function CountBefore(run: seq<Pass>, p: Pass, i: nat, port: string, kind: string): Option<int>
    requires i <= |p.status.interfaces|
  {
    if CountIn(p, i, port, kind).Some? then CountIn(p, i, port, kind) else CountOver(run, p.deviceId, port, kind)
  }

  /** Whether the considered polls that had a reading were high, by the limits of their time. */
  function CpuHighs(run: seq<Pass>, deviceId: string): seq<bool> {
    if run == [] then []
    else
      var front, p := run[..|run| - 1], run[|run| - 1];
      CpuHighs(front, deviceId) +
      if p.deviceId == deviceId && ReconcileRuns.Fresh(front, p) && p.status.cpu.Some?
      then [p.status.cpu.value >= p.settings.cpu.raisePercent] else []
  }

  function MemoryHighs(run: seq<Pass>, deviceId: string): seq<bool> {
    if run == [] then []
    else
      var front, p := run[..|run| - 1], run[|run| - 1];
      MemoryHighs(front, deviceId) +
      if p.deviceId == deviceId && ReconcileRuns.Fresh(front, p) && p.status.memory.Some?
      then [p.status.memory.value >= p.settings.memory.raisePercent] else []
  }

  /** Whether the passes of the device had an error, whatever their stamps. */
  function Errors(run: seq<Pass>, deviceId: string): seq<bool> {
    if run == [] then []
    else
      var p := run[|run| - 1];
      Errors(run[..|run| - 1], deviceId) +
      if p.deviceId == deviceId then [p.status.lastError != None && p.status.lastError != Some("")] else []
  }

  /** The last n of them held, and no more. */
  ghost predicate EndsWith(held: seq<bool>, n: nat) {
    && n <= |held| && (forall i :: |held| - n <= i < |held| ==> held[i])
    && (n < |held| ==> !held[|held| - 1 - n])
  }

  // --- what must be asked ------------------------------------------------------------

  ghost predicate AskAboutReach(run: seq<Pass>, p: Pass, a: Action) {
    && a.subject == "ssh"
    && match a
       case RaiseUnlessSuperseded(kind, _, severity, stamp) =>
         && stamp == None && IsSeverity(p.settings, kind, severity)
         && HasErrors(run, p)
       case CloseNow(_, _) =>
         (p.status.lastError == None || p.status.lastError == Some("")) &&
         p.status.lastPolled.Some? && p.status.lastPolled.value.text != ""
       case CloseIfOlder(_, _, _) => false
  }

  /** The last passes of the device, this one included, were errors, as many as the settings want. */
  ghost predicate HasErrors(run: seq<Pass>, p: Pass) {
    exists n :: n >= AtLeastOne(p.settings.unreachablePolls) && EndsWith(Errors(run + [p], p.deviceId), n)
  }

  ghost predicate AskAboutLink(run: seq<Pass>, p: Pass, a: Action)
    requires StampOf(p) != ""
  {
    exists i :: 0 <= i < |p.status.interfaces| && AskAboutLinkRow(run, p, i, a)
  }

  predicate AskAboutLinkRow(run: seq<Pass>, p: Pass, i: nat, a: Action)
    requires StampOf(p) != "" && i < |p.status.interfaces|
  {
    var row := p.status.interfaces[i];
    && row.port == a.subject && row.port != ""
    && match a
       case RaiseUnlessSuperseded(_, port, severity, stamp) =>
         && row.state == Some("down") && stamp == p.status.lastPolled.value.at
         && IsPortSeverity(p.settings, p.deviceId, port, severity) && severity != "ignore"
         && (|| StateBefore(run, p, i, port) == Some("up")
             || (StateBefore(run, p, i, port) == None && (p.deviceId, port) in p.settings.ports))
       case CloseIfOlder(_, _, stamp) => row.state == Some("up") && stamp == p.status.lastPolled.value.at
       case CloseNow(_, _) => false
  }

  ghost predicate AskAboutCounter(run: seq<Pass>, p: Pass, a: Action)
    requires StampOf(p) != ""
  {
    exists i :: 0 <= i < |p.status.interfaces| && AskAboutCounterRow(run, p, i, a)
  }

  predicate AskAboutCounterRow(run: seq<Pass>, p: Pass, i: nat, a: Action)
    requires StampOf(p) != "" && i < |p.status.interfaces|
  {
    var row, before := p.status.interfaces[i], CountBefore(run, p, i, a.subject, a.kind);
    var threshold := if a.kind in p.settings.perPoll then p.settings.perPoll[a.kind] else 10;
    && row.port == a.subject && Counts(p.settings, p.deviceId, row.port) && row.state == Some("up")
    && CountOf(row, a.kind).Some? && before.Some?
    && match a
       case RaiseUnlessSuperseded(kind, _, severity, stamp) =>
         && stamp == p.status.lastPolled.value.at && IsSeverity(p.settings, kind, severity)
         && CountOf(row, kind).value - before.value >= AtLeastOne(threshold)
       case CloseNow(kind, _) => CountOf(row, kind).value == before.value
       case CloseIfOlder(_, _, _) => false
  }

  ghost predicate AskAboutFan(p: Pass, a: Action)
    requires StampOf(p) != ""
  {
    exists f :: f in p.status.env.fans && AskAboutFanRow(p, f, a)
  }

  predicate AskAboutFanRow(p: Pass, f: Fan, a: Action)
    requires StampOf(p) != ""
  {
    var up := (f.fan1 == None || f.fan1 == Some("up")) && (f.fan2 == None || f.fan2 == Some("up"));
    && a.subject == "Fan tray " + f.bay + " (unit " + f.unit + ")"
    && match a
       case RaiseUnlessSuperseded(kind, _, severity, stamp) =>
         !up && stamp == p.status.lastPolled.value.at && IsSeverity(p.settings, kind, severity)
       case CloseIfOlder(_, _, stamp) => up && stamp == p.status.lastPolled.value.at
       case CloseNow(_, _) => false
  }

  ghost predicate AskAboutPsu(p: Pass, a: Action)
    requires StampOf(p) != ""
  {
    exists u :: u in p.status.env.psus && AskAboutPsuRow(p, u, a)
  }

  predicate AskAboutPsuRow(p: Pass, u: Psu, a: Action)
    requires StampOf(p) != ""
  {
    && a.subject == "PSU " + u.bay + " (unit " + u.unit + ")"
    && match a
       case RaiseUnlessSuperseded(kind, _, severity, stamp) =>
         u.status != Some("up") && stamp == p.status.lastPolled.value.at && IsSeverity(p.settings, kind, severity)
       case CloseIfOlder(_, _, stamp) => u.status == Some("up") && stamp == p.status.lastPolled.value.at
       case CloseNow(_, _) => false
  }

  ghost predicate AskAboutMeter(p: Pass, a: Action, reading: Option<real>, limit: Limit, highs: seq<bool>)
    requires StampOf(p) != ""
  {
    && reading.Some?
    && match a
       case RaiseUnlessSuperseded(kind, _, severity, stamp) =>
         && reading.value >= limit.raisePercent && stamp == p.status.lastPolled.value.at
         && IsSeverity(p.settings, kind, severity)
         && exists n :: n >= AtLeastOne(limit.polls) && EndsWith(highs, n)
       case CloseNow(_, _) => reading.value < limit.raisePercent && reading.value <= limit.clearPercent
       case CloseIfOlder(_, _, _) => false
  }

  /** For every action there is, whether the pass must ask for it. */
  ghost predicate MustAsk(run: seq<Pass>, p: Pass, a: Action) {
    if a.kind == "device.unreachable" then AskAboutReach(run, p, a)
    else
      && ReconcileRuns.Fresh(run, p)
      && match a.kind
         case "port.link_down" => AskAboutLink(run, p, a)
         case "port.input_errors" => AskAboutCounter(run, p, a)
         case "port.output_errors" => AskAboutCounter(run, p, a)
         case "port.discards" => AskAboutCounter(run, p, a)
         case "env.fan" => AskAboutFan(p, a)
         case "env.psu" => AskAboutPsu(p, a)
         case "compute.cpu_high" =>
           a.subject == "cpu" && AskAboutMeter(p, a, p.status.cpu, p.settings.cpu, CpuHighs(run + [p], p.deviceId))
         case "compute.memory_high" =>
           a.subject == "memory" &&
           AskAboutMeter(p, a, p.status.memory, p.settings.memory, MemoryHighs(run + [p], p.deviceId))
         case _ => false
  }

  // --- the streaks -------------------------------------------------------------------

  lemma EndsWithStreak(held: seq<bool>, least: int)
    requires least >= 1
    ensures (exists n :: n >= least && EndsWith(held, n)) <==> Streak(held) >= least
  {
    StreakIsLongestSuffix(held);
    assert EndsWith(held, Streak(held));
    if n :| n >= least && EndsWith(held, n) {
      OnlyOneEnd(held, n, Streak(held));
    }
  }

  lemma OnlyOneEnd(held: seq<bool>, m: nat, n: nat)
    requires EndsWith(held, m) && EndsWith(held, n)
    ensures m == n
  {
    var afterM := m < |held| && held[|held| - 1 - m];
    var afterN := n < |held| && held[|held| - 1 - n];
    assert !afterM && !afterN;
  }

  lemma {:induction false} ErrorsAre(run: seq<Pass>, deviceId: string)
    ensures Errors(run, deviceId) == AllFailures(run, deviceId)
  {
    if run != [] {
      ErrorsAre(run[..|run| - 1], deviceId);
    }
  }

  lemma HighOfOneMore(rs: seq<(Option<real>, Limit)>, r: (Option<real>, Limit))
    ensures Highs(rs + [r]) == Highs(rs) + if r.0.Some? then [r.0.value >= r.1.raisePercent] else []
  {
    assert (rs + [r])[..|rs|] == rs;
  }

  lemma {:induction false} CpuHighsAre(run: seq<Pass>, deviceId: string)
    ensures CpuHighs(run, deviceId) == Highs(AllReadings(run, deviceId, Cpu))
  {
    if run != [] {
      var front, p := run[..|run| - 1], run[|run| - 1];
      CpuHighsAre(front, deviceId);
      var rs := AllReadings(front, deviceId, Cpu);
      HighOfOneMore(rs, ReadingFrom(Cpu, p));
      assert rs + [] == rs;
      assert CpuHighs(front, deviceId) + [] == CpuHighs(front, deviceId);
    }
  }

  lemma {:induction false} MemoryHighsAre(run: seq<Pass>, deviceId: string)
    ensures MemoryHighs(run, deviceId) == Highs(AllReadings(run, deviceId, Mem))
  {
    if run != [] {
      var front, p := run[..|run| - 1], run[|run| - 1];
      MemoryHighsAre(front, deviceId);
      var rs := AllReadings(front, deviceId, Mem);
      HighOfOneMore(rs, ReadingFrom(Mem, p));
      assert rs + [] == rs;
      assert MemoryHighs(front, deviceId) + [] == MemoryHighs(front, deviceId);
    }
  }

  // --- reachability ------------------------------------------------------------------

  lemma ReachIsAsked(run: seq<Pass>, p: Pass, a: Action)
    requires a.kind == "device.unreachable"
    ensures a in Asked(run, p) <==> AskAboutReach(run, p, a)
  {
    ReachIsItsOwnKind();
    OnlyReachActs(run, p, a);
    ErrorStreakIs(run, p);
    ReachActsAre(MemoryOver(run), p, a);
  }

  lemma ErrorStreakIs(run: seq<Pass>, p: Pass)
    ensures HasErrors(run, p) <==>
            && p.status.lastError != None && p.status.lastError != Some("")
            && Count(MemoryOver(run).failing, p.deviceId) + 1 >= AtLeastOne(p.settings.unreachablePolls)
  {
    FailureMemoryOfRun(run, p.deviceId);
    ErrorsAre(run + [p], p.deviceId);
    assert (run + [p])[..|run|] == run;
    StreakOfOneMore(AllFailures(run, p.deviceId), Failing(p.status));
    EndsWithStreak(Errors(run + [p], p.deviceId), AtLeastOne(p.settings.unreachablePolls));
  }

  lemma ReachActsAre(m: Memory, p: Pass, a: Action)
    requires a.kind == "device.unreachable"
    ensures a in ReachActs(m, p.deviceId, p.status, p.settings) <==>
            && a.subject == "ssh"
            && match a
               case RaiseUnlessSuperseded(kind, _, severity, stamp) =>
                 && stamp == None && IsSeverity(p.settings, kind, severity)
                 && p.status.lastError != None && p.status.lastError != Some("")
                 && Count(m.failing, p.deviceId) + 1 >= AtLeastOne(p.settings.unreachablePolls)
               case CloseNow(_, _) =>
                 (p.status.lastError == None || p.status.lastError == Some("")) &&
                 p.status.lastPolled.Some? && p.status.lastPolled.value.text != ""
               case CloseIfOlder(_, _, _) => false
  {
    var acts := ReachActs(m, p.deviceId, p.status, p.settings);
    assert |acts| == 1 ==> acts[0] in acts;
  }

  // --- links -------------------------------------------------------------------------

  lemma {:induction false} StateInIs(deviceId: string, rows: seq<Iface>, n: nat, stamp: Option<Time>, s: Settings,
                                     port: string)
    requires n <= |rows|
    ensures LastState(Looks(deviceId, rows, stamp, s)[..n], port) == StateIn(rows, n, port)
  {
    if n > 0 {
      StateInIs(deviceId, rows, n - 1, stamp, s, port);
      var looks := Looks(deviceId, rows, stamp, s);
      assert looks[..n][..n - 1] == looks[..n - 1];
      assert looks[..n][n - 1] == LookAt(deviceId, rows[n - 1], stamp, s);
    }
  }

  lemma {:induction false} StateOverIs(run: seq<Pass>, deviceId: string, port: string)
    ensures LastState(AllLooks(run, deviceId), port) == StateOver(run, deviceId, port)
  {
    if run != [] {
      var front, p := run[..|run| - 1], run[|run| - 1];
      StateOverIs(front, deviceId, port);
      assert AllLooks(front, deviceId) + [] == AllLooks(front, deviceId);
      if p.deviceId == deviceId && ReconcileRuns.Fresh(front, p) {
        LastStateInTwoParts(AllLooks(front, deviceId), LooksOf(p), port);
        StateInIs(p.deviceId, p.status.interfaces, |p.status.interfaces|, TimeOf(p), p.settings, port);
        assert LooksOf(p)[..|LooksOf(p)|] == LooksOf(p);
      }
    }
  }

  lemma StateBeforeIs(run: seq<Pass>, p: Pass, i: nat, port: string)
    requires StampOf(p) != "" && i <= |LooksOf(p)|
    ensures Get(PortsAfter(MemoryOver(run).ports, p.deviceId, LooksOf(p)[..i]), (p.deviceId, port)) ==
            StateBefore(run, p, i, port)
  {
    MemoryIsLastState(MemoryOver(run).ports, p.deviceId, LooksOf(p)[..i], p.deviceId, port);
    PortMemoryOfRun(run, p.deviceId, port);
    StateOverIs(run, p.deviceId, port);
    StateInIs(p.deviceId, p.status.interfaces, i, TimeOf(p), p.settings, port);
  }

  /** The action comes from row i of the poll. */
  predicate FromLook(prev: map<PortKey, string>, deviceId: string, looks: seq<Look>, i: nat, a: Action)
    requires i < |looks|
  {
    a in PortActs(Get(PortsAfter(prev, deviceId, looks[..i]), (deviceId, looks[i].port)), looks[i])
  }

  ghost predicate FromSomeLook(prev: map<PortKey, string>, deviceId: string, looks: seq<Look>, n: nat, a: Action)
    requires n <= |looks|
  {
    exists i :: 0 <= i < n && FromLook(prev, deviceId, looks, i, a)
  }

  lemma FromOneMoreLook(prev: map<PortKey, string>, deviceId: string, looks: seq<Look>, n: nat, a: Action)
    requires n < |looks|
    ensures FromSomeLook(prev, deviceId, looks, n + 1, a) <==>
            FromSomeLook(prev, deviceId, looks, n, a) || FromLook(prev, deviceId, looks, n, a)
  {
  }

  lemma {:induction false} PortsActsAre(prev: map<PortKey, string>, deviceId: string, looks: seq<Look>, n: nat,
                                        a: Action)
    requires n <= |looks|
    ensures a in PortsActs(prev, deviceId, looks[..n]) <==> FromSomeLook(prev, deviceId, looks, n, a)
  {
    if n > 0 {
      PortsActsAre(prev, deviceId, looks, n - 1, a);
      FromOneMoreLook(prev, deviceId, looks, n - 1, a);
      assert looks[..n][..n - 1] == looks[..n - 1];
    }
  }

  lemma LookActsAre(run: seq<Pass>, p: Pass, i: nat, a: Action)
    requires StampOf(p) != "" && i < |LooksOf(p)| && a.kind == "port.link_down"
    ensures FromLook(MemoryOver(run).ports, p.deviceId, LooksOf(p), i, a) <==> AskAboutLinkRow(run, p, i, a)
  {
    var l := LooksOf(p)[i];
    StateBeforeIs(run, p, i, l.port);
    var acts := PortActs(StateBefore(run, p, i, l.port), l);
    assert |acts| == 1 ==> acts[0] in acts;
  }

  lemma LinksAreAsked(run: seq<Pass>, p: Pass, a: Action)
    requires a.kind == "port.link_down"
    ensures a in Asked(run, p) <==> ReconcileRuns.Fresh(run, p) && AskAboutLink(run, p, a)
  {
    LinksAreTheirOwnKind();
    OnlyPortsAct(run, p, a);
    if ReconcileRuns.Fresh(run, p) {
      var looks := LooksOf(p);
      PortsActsAre(MemoryOver(run).ports, p.deviceId, looks, |looks|, a);
      assert looks[..|looks|] == looks;
      forall i | 0 <= i < |looks|
        ensures FromLook(MemoryOver(run).ports, p.deviceId, looks, i, a) <==> AskAboutLinkRow(run, p, i, a)
      {
        LookActsAre(run, p, i, a);
      }
    }
  }

  // --- counters ----------------------------------------------------------------------

  lemma CountOfIs(row: Iface, k: nat)
    requires k < |KINDS|
    ensures CountOf(row, KINDS[k]) == TotalFor(row, KINDS[k])
  {
    assert KINDS[k] == if k == 0 then "port.input_errors" else if k == 1 then "port.output_errors" else "port.discards";
  }

  lemma CountsIs(p: Pass, i: nat)
    requires StampOf(p) != "" && i < |SightingsOf(p)|
    ensures var x := SightingsOf(p)[i];
            && x.iface == p.status.interfaces[i]
            && (Counted(p.deviceId, x) <==> Counts(p.settings, p.deviceId, x.iface.port))
  {
  }

  lemma {:induction false} CountInIs(p: Pass, n: nat, port: string, k: nat)
    requires StampOf(p) != "" && n <= |SightingsOf(p)| && k < |KINDS|
    ensures LastTotal(ReadingsOf(p.deviceId, SightingsOf(p)[..n], port, KINDS[k])) == CountIn(p, n, port, KINDS[k])
  {
    if n > 0 {
      CountInIs(p, n - 1, port, k);
      var xs := SightingsOf(p);
      assert xs[..n][..n - 1] == xs[..n - 1];
      CountsIs(p, n - 1);
      CountOfIs(xs[n - 1].iface, k);
      var rs := ReadingsOf(p.deviceId, xs[..n - 1], port, KINDS[k]);
      LastOfOneMore(rs, ReadingOf(xs[n - 1].iface, KINDS[k], xs[n - 1].settings));
      assert rs + [] == rs;
    }
  }

  lemma {:induction false} CountOverIs(run: seq<Pass>, deviceId: string, port: string, k: nat)
    requires k < |KINDS|
    ensures LastTotal(ReadingsOf(deviceId, AllSightings(run, deviceId), port, KINDS[k])) ==
            CountOver(run, deviceId, port, KINDS[k])
  {
    if run != [] {
      var front, p := run[..|run| - 1], run[|run| - 1];
      CountOverIs(front, deviceId, port, k);
      var before := AllSightings(front, deviceId);
      assert before + [] == before;
      if p.deviceId == deviceId && ReconcileRuns.Fresh(front, p) {
        var xs := SightingsOf(p);
        ReadingsInTwoParts(deviceId, before, xs, port, KINDS[k]);
        LastTotalInTwoParts(ReadingsOf(deviceId, before, port, KINDS[k]), ReadingsOf(deviceId, xs, port, KINDS[k]));
        CountInIs(p, |xs|, port, k);
        assert xs[..|xs|] == xs;
      }
    }
  }

  lemma CountBeforeIs(run: seq<Pass>, p: Pass, i: nat, port: string, k: nat)
    requires StampOf(p) != "" && i <= |SightingsOf(p)| && k < |KINDS|
    ensures Get(Previous(CountersAfter(MemoryOver(run).counters, p.deviceId, SightingsOf(p)[..i]), (p.deviceId, port)),
                KINDS[k]) ==
            CountBefore(run, p, i, port, KINDS[k])
  {
    CounterIsLastTotal(MemoryOver(run).counters, p.deviceId, SightingsOf(p)[..i], p.deviceId, port, k);
    CounterMemoryOfRun(run, p.deviceId, port, k);
    CountOverIs(run, p.deviceId, port, k);
    CountInIs(p, i, port, k);
  }

  predicate FromSighting(c: map<PortKey, map<string, int>>, deviceId: string, xs: seq<Sighting>, i: nat, a: Action)
    requires i < |xs|
  {
    a in SightingActs(Previous(CountersAfter(c, deviceId, xs[..i]), (deviceId, xs[i].iface.port)), deviceId, xs[i])
  }

  ghost predicate FromSomeSighting(c: map<PortKey, map<string, int>>, deviceId: string, xs: seq<Sighting>, n: nat,
                                   a: Action)
    requires n <= |xs|
  {
    exists i :: 0 <= i < n && FromSighting(c, deviceId, xs, i, a)
  }

  lemma FromOneMoreSighting(c: map<PortKey, map<string, int>>, deviceId: string, xs: seq<Sighting>, n: nat, a: Action)
    requires n < |xs|
    ensures FromSomeSighting(c, deviceId, xs, n + 1, a) <==>
            FromSomeSighting(c, deviceId, xs, n, a) || FromSighting(c, deviceId, xs, n, a)
  {
  }

  lemma {:induction false} ErrorsActsAre(c: map<PortKey, map<string, int>>, deviceId: string, xs: seq<Sighting>, n: nat,
                                         a: Action)
    requires n <= |xs|
    ensures a in ErrorsActs(c, deviceId, xs[..n]) <==> FromSomeSighting(c, deviceId, xs, n, a)
  {
    if n > 0 {
      ErrorsActsAre(c, deviceId, xs, n - 1, a);
      FromOneMoreSighting(c, deviceId, xs, n - 1, a);
      assert xs[..n][..n - 1] == xs[..n - 1];
    }
  }

  lemma {:induction false} KindsActsAre(previous: map<string, int>, i: Iface, n: nat, stamp: Option<Time>, s: Settings,
                                        k: nat, a: Action)
    requires n <= |KINDS| && k < |KINDS| && a.kind == KINDS[k]
    ensures a in KindsActs(previous, i, n, stamp, s) <==> k < n && a in KindActs(previous, i, KINDS[k], stamp, s)
  {
    if n > 0 {
      KindsActsAre(previous, i, n - 1, stamp, s, k, a);
      KindsAreDistinct(n - 1, k);
    }
  }

  lemma SightingActsAre(run: seq<Pass>, p: Pass, i: nat, k: nat, a: Action)
    requires StampOf(p) != "" && i < |SightingsOf(p)| && k < |KINDS| && a.kind == KINDS[k]
    ensures FromSighting(MemoryOver(run).counters, p.deviceId, SightingsOf(p), i, a) <==>
            AskAboutCounterRow(run, p, i, a)
  {
    var x := SightingsOf(p)[i];
    CountBeforeIs(run, p, i, x.iface.port, k);
    CountsIs(p, i);
    CountOfIs(x.iface, k);
    var counters := CountersAfter(MemoryOver(run).counters, p.deviceId, SightingsOf(p)[..i]);
    var previous := Previous(counters, (p.deviceId, x.iface.port));
    KindsActsAre(previous, x.iface, |KINDS|, x.stamp, x.settings, k, a);
    KindActsAre(previous, x.iface, k, x.stamp, x.settings, a);
  }

  lemma KindActsAre(previous: map<string, int>, i: Iface, k: nat, stamp: Option<Time>, s: Settings, a: Action)
    requires k < |KINDS| && a.kind == KINDS[k]
    ensures var before := Get(previous, a.kind); var threshold := if a.kind in s.perPoll then s.perPoll[a.kind] else 10;
            a in KindActs(previous, i, KINDS[k], stamp, s) <==>
            && i.port == a.subject && i.state == Some("up") && TotalFor(i, a.kind).Some? && before.Some?
            && match a
               case RaiseUnlessSuperseded(kind, _, severity, at) =>
                 && at == stamp && IsSeverity(s, kind, severity)
                 && TotalFor(i, kind).value - before.value >= AtLeastOne(threshold)
               case CloseNow(kind, _) => TotalFor(i, kind).value == before.value
               case CloseIfOlder(_, _, _) => false
  {
    var acts := KindActs(previous, i, KINDS[k], stamp, s);
    assert |acts| == 1 ==> acts[0] in acts;
  }

  lemma CountersAreAsked(run: seq<Pass>, p: Pass, k: nat, a: Action)
    requires k < |KINDS| && a.kind == KINDS[k]
    ensures a in Asked(run, p) <==> ReconcileRuns.Fresh(run, p) && AskAboutCounter(run, p, a)
  {
    KindsAreDistinct(k, k);
    OnlyCountersAct(run, p, a);
    if ReconcileRuns.Fresh(run, p) {
      var xs := SightingsOf(p);
      ErrorsActsAre(MemoryOver(run).counters, p.deviceId, xs, |xs|, a);
      assert xs[..|xs|] == xs;
      forall i | 0 <= i < |xs|
        ensures FromSighting(MemoryOver(run).counters, p.deviceId, xs, i, a) <==> AskAboutCounterRow(run, p, i, a)
      {
        SightingActsAre(run, p, i, k, a);
      }
    }
  }

  lemma OnlyCountersAct(run: seq<Pass>, p: Pass, a: Action)
    requires a.kind !in ENV && a.kind !in COMPUTE && a.kind != "port.link_down" && a.kind != "device.unreachable"
    ensures a in Asked(run, p) <==>
            ReconcileRuns.Fresh(run, p) && a in ErrorsActs(MemoryOver(run).counters, p.deviceId, SightingsOf(p))
  {
    var m := MemoryOver(run);
    ActsByPart(run, p, a);
    ReachActsOnItsOwn(m, p, a.kind, a.subject);
    NotAmong(ReachActs(m, p.deviceId, p.status, p.settings), a);
    if ReconcileRuns.Fresh(run, p) {
      NothingElseAboutCounters(m, p, a.kind, a.subject);
      NotAmong(PortsActs(m.ports, p.deviceId, LooksOf(p)), a);
      NotAmong(EnvActs(p.status.env, TimeOf(p), p.settings), a);
      NotAmong(ComputeOf(m, p), a);
    }
  }

  // --- fans and supplies -------------------------------------------------------------

  predicate Fits(p: Pass, a: Action)
    requires StampOf(p) != ""
  {
    && !a.CloseNow? && a.stamp == TimeOf(p)
    && (a.RaiseUnlessSuperseded? ==> IsSeverity(p.settings, a.kind, a.severity))
  }

  lemma FansAreAsked(run: seq<Pass>, p: Pass, a: Action)
    requires a.kind == "env.fan"
    ensures a in Asked(run, p) <==> ReconcileRuns.Fresh(run, p) && AskAboutFan(p, a)
  {
    FanActsAreListed(run, p, a);
    if ReconcileRuns.Fresh(run, p) && Fits(p, a) {
      FanRows(p, a, a.RaiseUnlessSuperseded?);
    }
  }

  lemma FanRows(p: Pass, a: Action, faulted: bool)
    requires StampOf(p) != "" && a.kind == "env.fan" && Fits(p, a) && faulted == a.RaiseUnlessSuperseded?
    ensures AskAboutFan(p, a) <==> ListsFan(p.status.env.fans, a.subject, faulted)
  {
    var fans := p.status.env.fans;
    if i :| 0 <= i < |fans| && FanSubject(fans[i]) == a.subject && FanFaulted(fans[i]) == faulted {
      assert fans[i] in fans && AskAboutFanRow(p, fans[i], a);
    }
    if f :| f in fans && AskAboutFanRow(p, f, a) {
      var i :| 0 <= i < |fans| && fans[i] == f;
      assert FanSubject(fans[i]) == a.subject && FanFaulted(fans[i]) == faulted;
    }
  }

  lemma PsusAreAsked(run: seq<Pass>, p: Pass, a: Action)
    requires a.kind == "env.psu"
    ensures a in Asked(run, p) <==> ReconcileRuns.Fresh(run, p) && AskAboutPsu(p, a)
  {
    PsuActsAreListed(run, p, a);
    if ReconcileRuns.Fresh(run, p) && Fits(p, a) {
      PsuRows(p, a, a.RaiseUnlessSuperseded?);
    }
  }

  lemma PsuRows(p: Pass, a: Action, faulted: bool)
    requires StampOf(p) != "" && a.kind == "env.psu" && Fits(p, a) && faulted == a.RaiseUnlessSuperseded?
    ensures AskAboutPsu(p, a) <==> ListsPsu(p.status.env.psus, a.subject, faulted)
  {
    var psus := p.status.env.psus;
    if i :| 0 <= i < |psus| && PsuSubject(psus[i]) == a.subject && PsuFaulted(psus[i]) == faulted {
      assert psus[i] in psus && AskAboutPsuRow(p, psus[i], a);
    }
    if u :| u in psus && AskAboutPsuRow(p, u, a) {
      var i :| 0 <= i < |psus| && psus[i] == u;
      assert PsuSubject(psus[i]) == a.subject && PsuFaulted(psus[i]) == faulted;
    }
  }

  /** Healthy bays are resolved before any fault is raised. */
  lemma ResolvesComeFirst(env: Env, stamp: Option<Time>, s: Settings)
    ensures var acts := EnvActs(env, stamp, s);
            forall i, j :: 0 <= i < j < |acts| && acts[i].RaiseUnlessSuperseded? ==> acts[j].RaiseUnlessSuperseded?
  {
    FanClosesOnly(env.fans, stamp);
    PsuClosesOnly(env.psus, stamp);
    RaisesOnly(PsuFaults(FanFaults(env.fans), env.psus), stamp, s);
  }

  lemma {:induction false} FanClosesOnly(fans: seq<Fan>, stamp: Option<Time>)
    ensures forall i :: 0 <= i < |FanCloses(fans, stamp)| ==> FanCloses(fans, stamp)[i].CloseIfOlder?
  {
    if fans != [] {
      FanClosesOnly(fans[..|fans| - 1], stamp);
    }
  }

  lemma {:induction false} PsuClosesOnly(psus: seq<Psu>, stamp: Option<Time>)
    ensures forall i :: 0 <= i < |PsuCloses(psus, stamp)| ==> PsuCloses(psus, stamp)[i].CloseIfOlder?
  {
    if psus != [] {
      PsuClosesOnly(psus[..|psus| - 1], stamp);
    }
  }

  lemma {:induction false} RaisesOnly(faults: seq<Fault>, stamp: Option<Time>, s: Settings)
    ensures forall i :: 0 <= i < |FaultRaises(faults, stamp, s)| ==>
              FaultRaises(faults, stamp, s)[i].RaiseUnlessSuperseded?
  {
    if faults != [] {
      RaisesOnly(faults[..|faults| - 1], stamp, s);
    }
  }

  // --- CPU and memory ----------------------------------------------------------------

  lemma OnlyMetersAct(run: seq<Pass>, p: Pass, a: Action)
    requires a.kind !in ENV && a.kind !in COUNTERS && a.kind != "port.link_down" && a.kind != "device.unreachable"
    ensures a in Asked(run, p) <==> ReconcileRuns.Fresh(run, p) && a in ComputeOf(MemoryOver(run), p)
  {
    var m := MemoryOver(run);
    ActsByPart(run, p, a);
    ReachActsOnItsOwn(m, p, a.kind, a.subject);
    NotAmong(ReachActs(m, p.deviceId, p.status, p.settings), a);
    if ReconcileRuns.Fresh(run, p) {
      PortsActOnTheirOwn(m, p, a.kind, a.subject);
      NotAmong(PortsActs(m.ports, p.deviceId, LooksOf(p)), a);
      BaysActOnTheirOwn(p, a.kind, a.subject);
      NotAmong(EnvActs(p.status.env, TimeOf(p), p.settings), a);
      CountersActOnTheirOwn(m, p, a.kind, a.subject);
      NotAmong(ErrorsActs(m.counters, p.deviceId, SightingsOf(p)), a);
    }
  }

  lemma LimitActsAre(n: nat, reading: Option<real>, limit: Limit, kind: string, subject: string, stamp: Option<Time>,
                     s: Settings, a: Action)
    ensures a in LimitActs(n, reading, limit, kind, subject, stamp, s) <==>
            && a.kind == kind && a.subject == subject && reading.Some?
            && match a
               case RaiseUnlessSuperseded(_, _, severity, at) =>
                 && reading.value >= limit.raisePercent && at == stamp && IsSeverity(s, kind, severity)
                 && n + 1 >= AtLeastOne(limit.polls)
               case CloseNow(_, _) => reading.value < limit.raisePercent && reading.value <= limit.clearPercent
               case CloseIfOlder(_, _, _) => false
  {
    var acts := LimitActs(n, reading, limit, kind, subject, stamp, s);
    assert |acts| == 1 ==> acts[0] in acts;
  }

  lemma ComputeActsAre(m: Memory, p: Pass, a: Action)
    requires StampOf(p) != ""
    ensures a in ComputeOf(m, p) <==>
            || a in LimitActs(Count(m.cpu, p.deviceId), p.status.cpu, p.settings.cpu, "compute.cpu_high", "cpu",
                              TimeOf(p), p.settings)
            || a in LimitActs(Count(m.memory, p.deviceId), p.status.memory, p.settings.memory, "compute.memory_high",
                              "memory", TimeOf(p), p.settings)
  {
  }

  /** The highs after a new poll with a reading. */
  lemma HighsGrow(run: seq<Pass>, p: Pass)
    requires ReconcileRuns.Fresh(run, p)
    ensures p.status.cpu.Some? ==>
              CpuHighs(run + [p], p.deviceId) ==
              CpuHighs(run, p.deviceId) + [p.status.cpu.value >= p.settings.cpu.raisePercent]
    ensures p.status.memory.Some? ==>
              MemoryHighs(run + [p], p.deviceId) ==
              MemoryHighs(run, p.deviceId) + [p.status.memory.value >= p.settings.memory.raisePercent]
  {
    assert (run + [p])[..|run|] == run;
  }

  lemma CpuIsAsked(run: seq<Pass>, p: Pass, a: Action)
    requires a.kind == "compute.cpu_high"
    ensures a in Asked(run, p) <==>
            && ReconcileRuns.Fresh(run, p) && a.subject == "cpu"
            && AskAboutMeter(p, a, p.status.cpu, p.settings.cpu, CpuHighs(run + [p], p.deviceId))
  {
    MetersAreTheirOwnKind(a.kind);
    OnlyMetersAct(run, p, a);
    if ReconcileRuns.Fresh(run, p) {
      var m := MemoryOver(run);
      ComputeActsAre(m, p, a);
      LimitActsAre(Count(m.cpu, p.deviceId), p.status.cpu, p.settings.cpu, "compute.cpu_high", "cpu", TimeOf(p),
                   p.settings, a);
      LimitActsAre(Count(m.memory, p.deviceId), p.status.memory, p.settings.memory, "compute.memory_high", "memory",
                   TimeOf(p), p.settings, a);
      PassMemoryOfRun(run, p.deviceId, Cpu);
      CpuHighsAre(run, p.deviceId);
      MeterStreak(CpuHighs(run, p.deviceId), p.settings.cpu.polls);
      HighsGrow(run, p);
    }
  }

  lemma MemoryIsAsked(run: seq<Pass>, p: Pass, a: Action)
    requires a.kind == "compute.memory_high"
    ensures a in Asked(run, p) <==>
            && ReconcileRuns.Fresh(run, p) && a.subject == "memory"
            && AskAboutMeter(p, a, p.status.memory, p.settings.memory, MemoryHighs(run + [p], p.deviceId))
  {
    MetersAreTheirOwnKind(a.kind);
    OnlyMetersAct(run, p, a);
    if ReconcileRuns.Fresh(run, p) {
      var m := MemoryOver(run);
      ComputeActsAre(m, p, a);
      LimitActsAre(Count(m.cpu, p.deviceId), p.status.cpu, p.settings.cpu, "compute.cpu_high", "cpu", TimeOf(p),
                   p.settings, a);
      LimitActsAre(Count(m.memory, p.deviceId), p.status.memory, p.settings.memory, "compute.memory_high", "memory",
                   TimeOf(p), p.settings, a);
      PassMemoryOfRun(run, p.deviceId, Mem);
      MemoryHighsAre(run, p.deviceId);
      MeterStreak(MemoryHighs(run, p.deviceId), p.settings.memory.polls);
      HighsGrow(run, p);
    }
  }

  lemma MetersAreTheirOwnKind(kind: string)
    requires kind in COMPUTE
    ensures kind !in ENV && kind !in COUNTERS && kind != "port.link_down" && kind != "device.unreachable"
  {
  }

  /** A high reading more ends a run of one more. */
  lemma MeterStreak(highs: seq<bool>, polls: int)
    ensures (exists n :: n >= AtLeastOne(polls) && EndsWith(highs + [true], n)) <==>
            Streak(highs) + 1 >= AtLeastOne(polls)
  {
    StreakOfOneMore(highs, true);
    EndsWithStreak(highs + [true], AtLeastOne(polls));
  }

  // --- everything --------------------------------------------------------------------

  /** Every action a pass asks for has one of the kinds. */
  lemma EveryKindIsKnown(run: seq<Pass>, p: Pass, a: Action)
    requires a.kind !in ENV && a.kind !in COMPUTE && a.kind !in COUNTERS
    requires a.kind != "port.link_down" && a.kind != "device.unreachable"
    ensures a !in Asked(run, p)
  {
    var m := MemoryOver(run);
    OnlyPortsAct(run, p, a);
    if ReconcileRuns.Fresh(run, p) {
      PortsActOnTheirOwn(m, p, a.kind, a.subject);
      NotAmong(PortsActs(m.ports, p.deviceId, LooksOf(p)), a);
    }
  }

  /** Over any run, a pass asks for an action exactly when what it lists, what the
      considered polls before it showed, and the settings say so. */
  lemma PassAsksWhatItMust(run: seq<Pass>, p: Pass, a: Action)
    ensures a in Asked(run, p) <==> MustAsk(run, p, a)
  {
    match a.kind
    case "device.unreachable" => ReachIsAsked(run, p, a);
    case "port.link_down" => LinksAreAsked(run, p, a);
    case "port.input_errors" => CountersAreAsked(run, p, 0, a);
    case "port.output_errors" => CountersAreAsked(run, p, 1, a);
    case "port.discards" => CountersAreAsked(run, p, 2, a);
    case "env.fan" => FansAreAsked(run, p, a);
    case "env.psu" => PsusAreAsked(run, p, a);
    case "compute.cpu_high" => CpuIsAsked(run, p, a);
    case "compute.memory_high" => MemoryIsAsked(run, p, a);
    case _ => EveryKindIsKnown(run, p, a);
  }
}
