/** The poll threads and metric series of exporter/exporter.py: the registry loop of
    main and the poll loops of all devices, interleaved one step at a time. */
module Exporter {

  type Device = string

  datatype Series = Series(device: Device, metric: string)

  /** Where a poll loop is: about to look at its stop event, inside a poll cycle,
      past the loop, or exited. */
  datatype Place = AtCheck | InCycle | Leaving | Gone

  datatype Thread = Thread(device: Device, stopped: bool, place: Place)

  predicate Alive(t: Thread) {
    t.place != Gone
  }

  /** A stopped thread can still set metrics, but only to finish its cycle. */
  predicate CanStillWrite(t: Thread) {
    t.stopped && t.place == InCycle
  }

  /** All threads ever started, by number; the two tables of main; and every series
      the metrics endpoint serves. */
  datatype State = State(all: seq<Thread>, threads: map<Device, nat>, pending: map<Device, nat>, series: set<Series>)

  const EMPTY := State([], map[], map[], {})

  datatype Step =
    | Start(d: Device)
    | Stop(d: Device)
    | Sweep(d: Device)
    | Check(t: nat)
    | Write(t: nat, metric: string)
    | EndCycle(t: nat)
    | Exit(t: nat)
    | Die(t: nat)

  /** The steps of the poll threads; the others are main's. */
  predicate OfThread(step: Step) {
    !step.Start? && !step.Stop? && !step.Sweep?
  }

  /** The tables of main name threads that exist. */
  predicate TablesOk(s: State) {
    && (forall d :: d in s.threads ==> s.threads[d] < |s.all|)
    && (forall d :: d in s.pending ==> s.pending[d] < |s.all|)
  }

  predicate Enabled(s: State, step: Step)
    requires TablesOk(s)
  {
    match step
    case Start(d) => d in s.threads ==> !Alive(s.all[s.threads[d]])
    case Stop(d) => d in s.threads
    case Sweep(d) => d in s.pending && !Alive(s.all[s.pending[d]])
    case Check(t) => t < |s.all| && s.all[t].place == AtCheck
    case Write(t, _) => t < |s.all| && s.all[t].place == InCycle
    case EndCycle(t) => t < |s.all| && s.all[t].place == InCycle
    case Exit(t) => t < |s.all| && s.all[t].place == Leaving
    case Die(t) => t < |s.all| && Alive(s.all[t])
  }

  function At(s: State, t: nat, place: Place): State
    requires t < |s.all|
  {
    s.(all := s.all[t := s.all[t].(place := place)])
  }

  function Without(series: set<Series>, d: Device): set<Series> {
    set x | x in series && x.device != d
  }

  function Next(s: State, step: Step): State
    requires TablesOk(s) && Enabled(s, step)
  {
    match step
    case Start(d) => s.(all := s.all + [Thread(d, false, AtCheck)], threads := s.threads[d := |s.all|])
    case Stop(d) =>
      var t := s.threads[d];
      s.(all := s.all[t := s.all[t].(stopped := true)], threads := s.threads - {d}, pending := s.pending[d := t])
    case Sweep(d) => s.(series := Without(s.series, d), pending := s.pending - {d})
    case Check(t) => At(s, t, if s.all[t].stopped then Leaving else InCycle)
    case Write(t, metric) => s.(series := s.series + {Series(s.all[t].device, metric)})
    case EndCycle(t) => At(s, t, AtCheck)
    case Exit(t) => At(s, t, Gone)
    case Die(t) => At(s, t, Gone)
  }

  // --- invariants -----------------------------------------------------------------------------

  /** threads holds running threads of their device, pending_cleanup stopped ones. */
  ghost predicate TablesFit(s: State) {
    && TablesOk(s)
    && (forall d :: d in s.threads ==> s.all[s.threads[d]].device == d && !s.all[s.threads[d]].stopped)
    && (forall d :: d in s.pending ==> s.all[s.pending[d]].device == d && s.all[s.pending[d]].stopped)
    && (forall t :: 0 <= t < |s.all| && s.all[t].place == Leaving ==> s.all[t].stopped)
  }

  /** A live thread that has not been told to stop is the one main has on file. */
  ghost predicate OnFile(s: State) {
    forall t :: 0 <= t < |s.all| && Alive(s.all[t]) && !s.all[t].stopped ==>
      s.all[t].device in s.threads && s.threads[s.all[t].device] == t
  }

  /** A stopped thread that can still write is the one whose exit main awaits. */
  ghost predicate Awaited(s: State) {
    forall t :: 0 <= t < |s.all| && CanStillWrite(s.all[t]) ==>
      s.all[t].device in s.pending && s.pending[s.all[t].device] == t
  }

  /** No series is left of a device that is neither polled nor awaiting its sweep. */
  ghost predicate Clean(s: State) {
    forall x :: x in s.series ==> x.device in s.threads || x.device in s.pending
  }

  ghost predicate Sound(s: State) {
    TablesFit(s) && OnFile(s)
  }

  /** The stop that makes main forget a thread that can still write: the device was
      added again, and is now removed again, while its first thread is in a cycle. */
  predicate Forgets(s: State, step: Step)
    requires TablesOk(s)
  {
    step.Stop? && step.d in s.pending && CanStillWrite(s.all[s.pending[step.d]])
  }

  lemma NextKeepsTables(s: State, step: Step)
    requires Sound(s) && Enabled(s, step)
    ensures TablesFit(Next(s, step))
  {
  }

  lemma NextKeepsOnFile(s: State, step: Step)
    requires Sound(s) && Enabled(s, step)
    ensures OnFile(Next(s, step))
  {
  }

  lemma NextKeepsSound(s: State, step: Step)
    requires Sound(s) && Enabled(s, step)
    ensures Sound(Next(s, step))
  {
    NextKeepsTables(s, step);
    NextKeepsOnFile(s, step);
  }

  lemma NextKeepsAwaited(s: State, step: Step)
    requires Sound(s) && Awaited(s) && Enabled(s, step) && !Forgets(s, step)
    ensures Awaited(Next(s, step))
  {
  }

  lemma NextKeepsClean(s: State, step: Step)
    requires Sound(s) && Awaited(s) && Clean(s) && Enabled(s, step)
    ensures Clean(Next(s, step))
  {
  }

  // --- runs --------------------------------------------------------------------------------------

  ghost predicate IsRun(s: State, steps: seq<Step>)
    requires Sound(s)
    decreases |steps|
  {
    steps == [] ||
    (Enabled(s, steps[0]) && (NextKeepsSound(s, steps[0]); IsRun(Next(s, steps[0]), steps[1..])))
  }

  ghost function After(s: State, steps: seq<Step>): (t: State)
    requires Sound(s) && IsRun(s, steps)
    ensures Sound(t)
    decreases |steps|
  {
    if steps == [] then s
    else
      NextKeepsSound(s, steps[0]);
      After(Next(s, steps[0]), steps[1..])
  }

  /** Main never forgets a thread that can still write. */
  ghost predicate NeverForgets(s: State, steps: seq<Step>)
    requires Sound(s) && IsRun(s, steps)
    decreases |steps|
  {
    steps == [] ||
    (!Forgets(s, steps[0]) && (NextKeepsSound(s, steps[0]); NeverForgets(Next(s, steps[0]), steps[1..])))
  }

  /** In every reachable state a device has at most one live thread that has not been
      told to stop, whatever was added, removed and added again. */
  lemma OnePollerPerDevice(steps: seq<Step>, t: nat, u: nat)
    requires IsRun(EMPTY, steps)
    requires t < |After(EMPTY, steps).all| && u < |After(EMPTY, steps).all|
    requires var all := After(EMPTY, steps).all;
             && all[t].device == all[u].device && Alive(all[t]) && Alive(all[u])
             && !all[t].stopped && !all[u].stopped
    ensures t == u
  {
    assert OnFile(After(EMPTY, steps));
  }

  /** As long as main forgets nobody, a device that is gone and swept has no series,
      in every state of every run. */
  lemma {:induction false} NothingIsLeftBehind(s: State, steps: seq<Step>)
    requires Sound(s) && Awaited(s) && Clean(s) && IsRun(s, steps) && NeverForgets(s, steps)
    ensures Awaited(After(s, steps)) && Clean(After(s, steps))
    decreases |steps|
  {
    if steps != [] {
      NextKeepsSound(s, steps[0]);
      NextKeepsAwaited(s, steps[0]);
      NextKeepsClean(s, steps[0]);
      NothingIsLeftBehind(Next(s, steps[0]), steps[1..]);
    }
  }

  // --- adding a device again too early ---------------------------------------------------------

  /** No device is added again while its old thread is alive. */
  ghost predicate ReaddsLate(s: State, steps: seq<Step>)
    requires Sound(s) && IsRun(s, steps)
    decreases |steps|
  {
    steps == [] ||
    ((steps[0].Start? && steps[0].d in s.pending ==> !Alive(s.all[s.pending[steps[0].d]]))
     && (NextKeepsSound(s, steps[0]); ReaddsLate(Next(s, steps[0]), steps[1..])))
  }

  /** What is polled has no live old thread. */
  ghost predicate OldAreGone(s: State)
    requires TablesOk(s)
  {
    forall d :: d in s.threads && d in s.pending ==> !Alive(s.all[s.pending[d]])
  }

  lemma NextKeepsOldGone(s: State, step: Step)
    requires Sound(s) && OldAreGone(s) && Enabled(s, step)
    requires step.Start? && step.d in s.pending ==> !Alive(s.all[s.pending[step.d]])
    ensures OldAreGone(Next(s, step)) && !Forgets(s, step)
  {
  }

  /** Adding devices again only after their old thread has exited is enough for main
      never to forget one. */
  lemma {:induction false} ReaddingLateForgetsNobody(s: State, steps: seq<Step>)
    requires Sound(s) && OldAreGone(s) && IsRun(s, steps) && ReaddsLate(s, steps)
    ensures NeverForgets(s, steps)
    decreases |steps|
  {
    if steps != [] {
      NextKeepsSound(s, steps[0]);
      NextKeepsOldGone(s, steps[0]);
      ReaddingLateForgetsNobody(Next(s, steps[0]), steps[1..]);
    }
  }

  /** How a stopped thread gets to its end. */
  function Finish(t: nat, place: Place): seq<Step> {
    match place
    case AtCheck => [Check(t), Exit(t)]
    case InCycle => [EndCycle(t), Check(t), Exit(t)]
    case Leaving => [Exit(t)]
    case Gone => []
  }

  lemma RunOneMore(s: State, step: Step, steps: seq<Step>)
    requires Sound(s) && Enabled(s, step)
    ensures Sound(Next(s, step))
    ensures IsRun(Next(s, step), steps) ==>
              IsRun(s, [step] + steps) && After(s, [step] + steps) == After(Next(s, step), steps)
    ensures IsRun(Next(s, step), steps) && NeverForgets(Next(s, step), steps) && !Forgets(s, step) ==>
              NeverForgets(s, [step] + steps)
  {
    NextKeepsSound(s, step);
    assert ([step] + steps)[1..] == steps;
  }

  /** Once the awaited thread has exited main sweeps the device; the forgotten one
      then finishes its cycle and sets a metric again. */
  lemma ForgottenThreadWrites(s: State, d: Device, t: nat)
    requires Sound(s) && d !in s.threads && d in s.pending && !Alive(s.all[s.pending[d]])
    requires t < |s.all| && s.all[t].device == d && s.all[t].place == InCycle
    ensures var steps := [Sweep(d), Write(t, "up")];
            IsRun(s, steps) && NeverForgets(s, steps) && !Clean(After(s, steps))
  {
    var swept := Next(s, Sweep(d));
    RunOneMore(s, Sweep(d), [Write(t, "up")]);
    RunOneMore(swept, Write(t, "up"), []);
    assert [Write(t, "up")] + [] == [Write(t, "up")];
    assert [Sweep(d)] + [Write(t, "up")] == [Sweep(d), Write(t, "up")];
    assert Series(d, "up") in Next(swept, Write(t, "up")).series;
  }

  /** The same, with the awaited thread still on its way out. */
  lemma {:induction false} ForgottenThreadSurvives(s: State, d: Device, t: nat) returns (steps: seq<Step>)
    requires Sound(s) && d !in s.threads && d in s.pending && s.pending[d] != t
    requires t < |s.all| && s.all[t].device == d && s.all[t].place == InCycle
    ensures IsRun(s, steps) && NeverForgets(s, steps) && !Clean(After(s, steps))
    ensures forall i :: 0 <= i < |steps| ==> !steps[i].Start? && !steps[i].Stop?
    decreases |Finish(s.pending[d], s.all[s.pending[d]].place)|
  {
    var last := s.pending[d];
    if !Alive(s.all[last]) {
      ForgottenThreadWrites(s, d, t);
      steps := [Sweep(d), Write(t, "up")];
    } else {
      var step := Finish(last, s.all[last].place)[0];
      NextKeepsSound(s, step);
      var rest := ForgottenThreadSurvives(Next(s, step), d, t);
      RunOneMore(s, step, rest);
      steps := [step] + rest;
    }
  }

  /** From s on, as long as main forgets nobody more, every state is clean. */
  ghost predicate StaysClean(s: State)
    requires Sound(s)
  {
    forall steps :: IsRun(s, steps) && NeverForgets(s, steps) ==> Clean(After(s, steps))
  }

  /** Removing a device is safe for ever exactly when main does not, in doing so,
      forget an earlier thread of it that can still write. */
  lemma SafeIffNobodyIsForgotten(s: State, d: Device)
    requires Sound(s) && Awaited(s) && Clean(s) && d in s.threads
    ensures Sound(Next(s, Stop(d)))
    ensures StaysClean(Next(s, Stop(d))) <==> !Forgets(s, Stop(d))
  {
    NextKeepsSound(s, Stop(d));
    var next := Next(s, Stop(d));
    if Forgets(s, Stop(d)) {
      assert s.pending[d] != s.threads[d];
      var steps := ForgottenThreadSurvives(next, d, s.pending[d]);
      assert !StaysClean(next);
    } else {
      NextKeepsAwaited(s, Stop(d));
      NextKeepsClean(s, Stop(d));
      forall steps | IsRun(next, steps) && NeverForgets(next, steps)
        ensures Clean(After(next, steps))
      {
        NothingIsLeftBehind(next, steps);
      }
    }
  }

  /** It is reached: a device is added, removed while its thread is in a cycle, added
      and removed again.  A later sweep then lets the first thread set a metric of a
      device that is neither polled nor awaited. */
  lemma AddingAgainTooEarlyForgets(d: Device) returns (early: seq<Step>, late: seq<Step>)
    ensures early == [Start(d), Check(0), Stop(d), Start(d)] && IsRun(EMPTY, early) && NeverForgets(EMPTY, early)
    ensures Enabled(After(EMPTY, early), Stop(d)) && Forgets(After(EMPTY, early), Stop(d))
    ensures IsRun(EMPTY, early + [Stop(d)] + late) && !Clean(After(EMPTY, early + [Stop(d)] + late))
    ensures forall i :: 0 <= i < |late| ==> !late[i].Start? && !late[i].Stop?
  {
    early := [Start(d), Check(0), Stop(d), Start(d)];
    EarlyRun(d);
    var s4 := After(EMPTY, early);
    NextKeepsSound(s4, Stop(d));
    late := ForgottenThreadSurvives(Next(s4, Stop(d)), d, 0);
    RunOneMore(s4, Stop(d), late);
    RunsInTwoParts(EMPTY, early, [Stop(d)] + late);
    assert early + [Stop(d)] + late == early + ([Stop(d)] + late);
  }

  lemma EarlyRun(d: Device)
    ensures var early := [Start(d), Check(0), Stop(d), Start(d)];
            && IsRun(EMPTY, early) && NeverForgets(EMPTY, early)
            && After(EMPTY, early) ==
               State([Thread(d, true, InCycle), Thread(d, false, AtCheck)], map[d := 1], map[d := 0], {})
  {
    RemovedAndAddedAgain(d);
    AddedAndRunning(d, [Stop(d), Start(d)]);
    assert [Start(d), Check(0)] + [Stop(d), Start(d)] == [Start(d), Check(0), Stop(d), Start(d)];
  }

  lemma AddedAndRunning(d: Device, more: seq<Step>)
    requires Sound(State([Thread(d, false, InCycle)], map[d := 0], map[], {}))
    requires IsRun(State([Thread(d, false, InCycle)], map[d := 0], map[], {}), more)
    requires NeverForgets(State([Thread(d, false, InCycle)], map[d := 0], map[], {}), more)
    ensures var steps := [Start(d), Check(0)] + more;
            && IsRun(EMPTY, steps) && NeverForgets(EMPTY, steps)
            && After(EMPTY, steps) == After(State([Thread(d, false, InCycle)], map[d := 0], map[], {}), more)
  {
    var s1 := Next(EMPTY, Start(d));
    NextKeepsSound(EMPTY, Start(d));
    assert Next(s1, Check(0)) == State([Thread(d, false, InCycle)], map[d := 0], map[], {});
    RunOneMore(s1, Check(0), more);
    RunOneMore(EMPTY, Start(d), [Check(0)] + more);
    assert [Start(d)] + ([Check(0)] + more) == [Start(d), Check(0)] + more;
  }

  lemma RemovedAndAddedAgain(d: Device)
    ensures var s := State([Thread(d, false, InCycle)], map[d := 0], map[], {});
            && Sound(s) && IsRun(s, [Stop(d), Start(d)]) && NeverForgets(s, [Stop(d), Start(d)])
            && After(s, [Stop(d), Start(d)]) ==
               State([Thread(d, true, InCycle), Thread(d, false, AtCheck)], map[d := 1], map[d := 0], {})
  {
    var s := State([Thread(d, false, InCycle)], map[d := 0], map[], {});
    var t := Next(s, Stop(d));
    RunOneMore(s, Stop(d), [Start(d)]);
    RunOneMore(t, Start(d), []);
    assert t.threads == map[];
    assert [Start(d)] + [] == [Start(d)];
    assert [Stop(d)] + [Start(d)] == [Stop(d), Start(d)];
  }

  lemma {:induction false} RunsInTwoParts(s: State, a: seq<Step>, b: seq<Step>)
    requires Sound(s) && IsRun(s, a) && IsRun(After(s, a), b)
    ensures IsRun(s, a + b) && After(s, a + b) == After(After(s, a), b)
    decreases |a|
  {
    if a == [] {
      assert a + b == b;
    } else {
      NextKeepsSound(s, a[0]);
      RunsInTwoParts(Next(s, a[0]), a[1..], b);
      RunOneMore(s, a[0], a[1..] + b);
      HeadFirst(a, b);
    }
  }

  lemma HeadFirst(a: seq<Step>, b: seq<Step>)
    requires a != []
    ensures [a[0]] + (a[1..] + b) == a + b
  {
  }

  // --- main's loop ---------------------------------------------------------------------------------

  /** What the poll threads can do to a state between two steps of main. */
  ghost predicate ThreadsRan(s: State, t: State)
    requires Sound(s)
  {
    exists steps :: IsRun(s, steps) && (forall i :: 0 <= i < |steps| ==> OfThread(steps[i])) && t == After(s, steps)
  }

  /** A thread that has exited does not come back. */
  ghost predicate GoneStayGone(before: seq<Thread>, after: seq<Thread>) {
    |before| <= |after| && forall i :: 0 <= i < |before| && !Alive(before[i]) ==> !Alive(after[i])
  }

  /** Threads stay who they are, and nobody is told to stop. */
  ghost predicate SameThreads(before: seq<Thread>, after: seq<Thread>) {
    |before| == |after| &&
    forall i :: 0 <= i < |before| ==> after[i].device == before[i].device && after[i].stopped == before[i].stopped
  }

  lemma {:induction false} ThreadsKeepTables(s: State, steps: seq<Step>)
    requires Sound(s) && IsRun(s, steps) && forall i :: 0 <= i < |steps| ==> OfThread(steps[i])
    ensures var t := After(s, steps);
            && t.threads == s.threads && t.pending == s.pending && |t.all| == |s.all|
            && NeverForgets(s, steps)
            && GoneStayGone(s.all, t.all)
            && SameThreads(s.all, t.all) && s.series <= t.series
    decreases |steps|
  {
    if steps != [] {
      NextKeepsSound(s, steps[0]);
      ThreadsKeepTables(Next(s, steps[0]), steps[1..]);
    }
  }

  /** One thread is told to stop, and nothing else changes. */
  ghost predicate IsToldToStop(before: seq<Thread>, after: seq<Thread>, t: nat) {
    && |before| == |after| && t < |after|
    && after[t].stopped && after[t].device == before[t].device && after[t].place == before[t].place
    && forall i :: 0 <= i < |before| && i != t ==> after[i] == before[i]
  }

  /** Just the series of one device are gone. */
  ghost predicate IsCleared(before: set<Series>, after: set<Series>, d: Device) {
    forall x :: x in after <==> x in before && x.device != d
  }

  /** No series is gone but of devices swept since. */
  ghost predicate OnlySweptLost(before: set<Series>, after: set<Series>, awaited: map<Device, nat>,
                                pending: map<Device, nat>) {
    forall x :: x in before && x !in after ==> x.device in awaited && x.device !in pending
  }

  datatype Listed = Listed(id: Device, supported: bool)

  function SupportedIn(devices: seq<Listed>): set<Device> {
    set i | 0 <= i < |devices| && devices[i].supported :: devices[i].id
  }

  lemma SupportedInOneMore(devices: seq<Listed>, i: nat)
    requires i < |devices|
    ensures SupportedIn(devices[..i + 1]) == SupportedIn(devices[..i]) + if devices[i].supported then {devices[i].id}
            else {}
  {
    var before, more := devices[..i], devices[..i + 1];
    assert more == before + [devices[i]];
    forall d
      ensures d in SupportedIn(more) <==> d in SupportedIn(before) || (devices[i].supported && d == devices[i].id)
    {
      if k :| 0 <= k < |before| && before[k].supported && before[k].id == d {
        assert more[k].id == d;
      } else if devices[i].supported && d == devices[i].id {
        assert more[i].id == d;
      }
    }
  }

  /** Whose exit main awaits once it has stopped every device not seen. */
  function AwaitedAfter(pending: map<Device, nat>, threads: map<Device, nat>, seen: set<Device>): map<Device, nat> {
    pending + (threads - seen)
  }

  /** Whoever is not awaited any more has exited. */
  ghost predicate SweptAreGone(before: map<Device, nat>, after: map<Device, nat>, all: seq<Thread>) {
    forall d :: d in before && d !in after ==> before[d] < |all| && !Alive(all[before[d]])
  }

  /** Main's tables once it has stopped some of the devices it polled. */
  ghost predicate Stopped(threads0: map<Device, nat>, pending0: map<Device, nat>, done: set<Device>,
                          threads: map<Device, nat>, pending: map<Device, nat>) {
    && done <= threads0.Keys && threads.Keys == threads0.Keys - done && pending.Keys == pending0.Keys + done
    && (forall d :: d in threads ==> threads[d] == threads0[d])
    && (forall d :: d in pending ==> pending[d] == if d in done then threads0[d] else pending0[d])
  }

  lemma StoppedOneMore(threads0: map<Device, nat>, pending0: map<Device, nat>, done: set<Device>,
                       threads: map<Device, nat>, pending: map<Device, nat>, d: Device,
                       threads2: map<Device, nat>, pending2: map<Device, nat>)
    requires Stopped(threads0, pending0, done, threads, pending) && d in threads
    requires threads2 == threads - {d} && pending2 == pending[d := threads[d]]
    ensures Stopped(threads0, pending0, done + {d}, threads2, pending2)
  {
  }

  lemma AllStopped(threads0: map<Device, nat>, pending0: map<Device, nat>, seen: set<Device>, done: set<Device>,
                   threads: map<Device, nat>, pending: map<Device, nat>)
    requires Stopped(threads0, pending0, done, threads, pending) && done == threads0.Keys - seen &&
             seen <= threads0.Keys
    ensures threads.Keys == seen && pending == AwaitedAfter(pending0, threads0, seen)
  {
    assert pending.Keys == AwaitedAfter(pending0, threads0, seen).Keys;
  }

  /** Restricted to devices not seen, main's table of threads is the same. */
  lemma SameAwaited(pending: map<Device, nat>, threads: map<Device, nat>, more: map<Device, nat>, seen: set<Device>)
    requires more.Keys == threads.Keys + seen && forall d :: d in threads && d !in seen ==> more[d] == threads[d]
    ensures AwaitedAfter(pending, more, seen) == AwaitedAfter(pending, threads, seen)
  {
    assert (more - seen) == (threads - seen);
  }

  class Exporter {
    var all: seq<Thread>
    var threads: map<Device, nat>
    var pending: map<Device, nat>
    var series: set<Series>
    /** Whether main has forgotten a thread that could still write. */
    ghost var forgot: bool

    ghost function Now(): State
      reads this
    {
      State(all, threads, pending, series)
    }

    ghost predicate Valid()
      reads this
    {
      Sound(Now()) && (!forgot ==> Awaited(Now()) && Clean(Now()))
    }

    constructor ()
      ensures Valid() && Now() == EMPTY && !forgot
    {
      all, threads, pending, series, forgot := [], map[], map[], {}, false;
    }

    /** The poll threads run. */
    method OtherThreads()
      requires Valid()
      modifies `all, `series
      ensures Valid() && ThreadsRan(old(Now()), Now())
      ensures GoneStayGone(old(all), all) && SameThreads(old(all), all) && old(series) <= series
    {
      assert IsRun(Now(), []) && After(Now(), []) == Now();
    }

    /** A device of the registry gets a thread unless it has a live one. */
    method EnsurePolled(d: Device)
      requires Valid()
      modifies `all, `threads
      ensures Valid() && d in threads && Alive(all[threads[d]]) && threads.Keys == old(threads).Keys + {d}
      ensures Now() == old(Now()) || (Enabled(old(Now()), Start(d)) && Now() == Next(old(Now()), Start(d)))
      ensures d in old(threads) && old(all)[old(threads)[d]].place != Gone ==>
                threads == old(threads) && all == old(all)
      ensures d !in old(threads) || old(all)[old(threads)[d]].place == Gone ==>
                threads == old(threads)[d := |old(all)|] && all == old(all) + [Thread(d, false, AtCheck)]
    {
      if d !in threads || !Alive(all[threads[d]]) {
        NextKeepsSound(Now(), Start(d));
        if !forgot {
          NextKeepsAwaited(Now(), Start(d));
          NextKeepsClean(Now(), Start(d));
        }
        threads := threads[d := |all|];
        all := all + [Thread(d, false, AtCheck)];
      }
    }

    /** A device no longer in the registry. */
    method StopPolling(d: Device)
      requires Valid() && d in threads
      modifies `all, `threads, `pending, `forgot
      ensures Valid() && Now() == Next(old(Now()), Stop(d))
      ensures forgot == (old(forgot) || Forgets(old(Now()), Stop(d)))
      ensures threads == old(threads) - {d} && threads.Keys == old(threads).Keys - {d}
      ensures pending == old(pending)[d := old(threads)[d]] && pending.Keys == old(pending).Keys + {d}
      ensures GoneStayGone(old(all), all) && IsToldToStop(old(all), all, old(threads)[d])
    {
      NextKeepsSound(Now(), Stop(d));
      if !forgot && !Forgets(Now(), Stop(d)) {
        NextKeepsAwaited(Now(), Stop(d));
        NextKeepsClean(Now(), Stop(d));
      }
      forgot := forgot || Forgets(Now(), Stop(d));
      var t := threads[d];
      threads := threads - {d};
      all := all[t := all[t].(stopped := true)];
      pending := pending[d := t];
    }

    /** Removes the series of one device, one by one. */
    method ClearDeviceMetrics(d: Device)
      modifies `series
      ensures series == Without(old(series), d) && IsCleared(old(series), series, d)
    {
      var doomed := set x | x in series && x.device == d;
      while doomed != {}
        invariant series == Without(old(series), d) + doomed
        invariant forall x :: x in doomed ==> x.device == d
        decreases |doomed|
      {
        var x :| x in doomed;
        series := series - {x};
        doomed := doomed - {x};
      }
    }

    /** A removed device whose thread has exited is swept. */
    method SweepIfExited(d: Device) returns (swept: bool)
      requires Valid() && d in pending
      modifies `series, `pending
      ensures Valid() && swept == (all[old(pending)[d]].place == Gone)
      ensures swept ==> IsCleared(old(series), series, d)
      ensures !swept ==> series == old(series)
      ensures Now() == if swept then Next(old(Now()), Sweep(d)) else old(Now())
      ensures pending.Keys == if swept then old(pending).Keys - {d} else old(pending).Keys
      ensures forall e :: e in pending ==> pending[e] == old(pending)[e]
    {
      swept := !Alive(all[pending[d]]);
      if swept {
        NextKeepsSound(Now(), Sweep(d));
        if !forgot {
          NextKeepsAwaited(Now(), Sweep(d));
          NextKeepsClean(Now(), Sweep(d));
        }
        ClearDeviceMetrics(d);
        pending := pending - {d};
      }
    }

    /** One pass over a registry that could be read. */
    method Pass(devices: seq<Listed>)
      requires Valid()
      modifies this
      ensures Valid() && threads.Keys == SupportedIn(devices) && |all| >= |old(all)|
      ensures forall d :: d in threads <==> exists i :: 0 <= i < |devices| && devices[i].supported && devices[i].id == d
      // An awaited device stays so with its thread, or is swept: surely if its thread
      // had exited before the pass, and only if it has exited by the end of it.
      ensures var awaited := AwaitedAfter(old(pending), old(threads), SupportedIn(devices));
              && (forall d :: d in pending ==> d in awaited && pending[d] == awaited[d])
              && (forall d :: d in awaited && !Alive(old(all)[awaited[d]]) ==> d !in pending)
              && SweptAreGone(awaited, pending, all)
              && OnlySweptLost(old(series), series, awaited, pending)
    {
      var seen := StartAll(devices);
      ghost var started := all;
      SameAwaited(old(pending), old(threads), threads, seen);
      StopAll(seen);
      ghost var stopped := all;
      GoneForGood(old(all), started, stopped);
      SweepAll();
      GoneForGood(old(all), stopped, all);
    }

    method StartAll(devices: seq<Listed>) returns (seen: set<Device>)
      requires Valid()
      modifies `all, `threads, `series
      ensures Valid() && seen == SupportedIn(devices) && threads.Keys == old(threads).Keys + seen
      ensures forall d :: d in old(threads) && d !in seen ==> threads[d] == old(threads)[d]
      ensures GoneStayGone(old(all), all) && old(series) <= series
    {
      seen := {};
      for i := 0 to |devices|
        invariant Valid() && seen == SupportedIn(devices[..i]) && threads.Keys == old(threads).Keys + seen
        invariant forall d :: d in old(threads) && d !in seen ==> threads[d] == old(threads)[d]
        invariant GoneStayGone(old(all), all) && old(series) <= series
      {
        OtherThreads();
        SupportedInOneMore(devices, i);
        if devices[i].supported {
          KeysGainOne(old(threads).Keys, seen, devices[i].id);
          seen := seen + {devices[i].id};
          EnsurePolled(devices[i].id);
        }
      }
      assert devices[..|devices|] == devices;
    }

    method StopAll(seen: set<Device>)
      requires Valid() && seen <= threads.Keys
      modifies this
      ensures Valid() && threads.Keys == seen
      ensures pending == AwaitedAfter(old(pending), old(threads), seen)
      ensures GoneStayGone(old(all), all) && old(series) <= series
    {
      ghost var done: set<Device>, before := {}, all;
      var todo := threads.Keys - seen;
      while todo != {}
        invariant Valid() && done + todo == old(threads).Keys - seen && done !! todo
        invariant Stopped(old(threads), old(pending), done, threads, pending)
        invariant GoneStayGone(before, all) && old(series) <= series
        decreases |todo|
      {
        var d :| d in todo;
        ghost var was, t, p := all, threads, pending;
        StopOne(d);
        StoppedOneMore(old(threads), old(pending), done, t, p, d, threads, pending);
        MoveOne(done, todo, d);
        todo, done := todo - {d}, done + {d};
        GoneForGood(before, was, all);
      }
      AllStopped(old(threads), old(pending), seen, done, threads, pending);
    }

    method StopOne(d: Device)
      requires Valid() && d in threads
      modifies this
      ensures Valid() && GoneStayGone(old(all), all) && old(series) <= series
      ensures threads == old(threads) - {d} && pending == old(pending)[d := old(threads)[d]]
    {
      StopPolling(d);
      ghost var was := all;
      OtherThreads();
      GoneForGood(old(all), was, all);
    }

    method SweepAll()
      requires Valid()
      modifies `all, `pending, `series
      ensures Valid() && GoneStayGone(old(all), all)
      ensures forall d :: d in pending ==> d in old(pending) && pending[d] == old(pending)[d]
      ensures forall d :: d in old(pending) && !Alive(old(all)[old(pending)[d]]) ==> d !in pending
      ensures SweptAreGone(old(pending), pending, all)
      ensures OnlySweptLost(old(series), series, old(pending), pending)
    {
      ghost var before := all;
      var todo := pending.Keys;
      while todo != {}
        invariant Valid() && todo <= pending.Keys && GoneStayGone(before, all)
        invariant Swept(old(pending), pending, todo, before, all)
        invariant OnlySweptLost(old(series), series, old(pending), pending)
        decreases |todo|
      {
        var d :| d in todo;
        ghost var was, p := all, pending;
        SweepOne(d);
        GoneForGood(before, was, all);
        SweptOneMore(old(pending), p, todo, before, was, d, pending, all);
        todo := todo - {d};
      }
    }

    method SweepOne(d: Device)
      requires Valid() && d in pending
      modifies `all, `pending, `series
      ensures Valid() && GoneStayGone(old(all), all)
      ensures pending == if Alive(all[old(pending)[d]]) then old(pending) else old(pending) - {d}
      ensures forall x :: x in old(series) && x !in series ==> x.device == d && d !in pending
    {
      OtherThreads();
      var swept := SweepIfExited(d);
    }
  }

  /** Main's pending table once it has looked at all but some of the devices. */
  ghost predicate Swept(pending0: map<Device, nat>, pending: map<Device, nat>, todo: set<Device>,
                        before: seq<Thread>, all: seq<Thread>) {
    && (forall d :: d in pending ==> d in pending0 && pending[d] == pending0[d])
    && (forall d :: d in pending && d !in todo ==> pending0[d] < |before| && Alive(before[pending0[d]]))
    && SweptAreGone(pending0, pending, all)
  }

  lemma SweptOneMore(pending0: map<Device, nat>, pending: map<Device, nat>, todo: set<Device>, before: seq<Thread>,
                     all: seq<Thread>, d: Device, pending2: map<Device, nat>, all2: seq<Thread>)
    requires Swept(pending0, pending, todo, before, all) && d in pending && pending[d] < |before|
    requires GoneStayGone(before, all2) && GoneStayGone(all, all2)
    requires pending2 == if Alive(all2[pending[d]]) then pending else pending - {d}
    ensures Swept(pending0, pending2, todo - {d}, before, all2)
  {
  }

  lemma GoneForGood(a: seq<Thread>, b: seq<Thread>, c: seq<Thread>)
    requires GoneStayGone(a, b) && GoneStayGone(b, c)
    ensures GoneStayGone(a, c)
  {
  }

  lemma MoveOne(done: set<Device>, todo: set<Device>, d: Device)
    requires d in todo && done !! todo
    ensures (done + {d}) + (todo - {d}) == done + todo && done + {d} !! todo - {d}
  {
  }

  lemma KeysGainOne(keys: set<Device>, done: set<Device>, d: Device)
    ensures keys + done + {d} == keys + (done + {d})
  {
  }
}
