/** webui/status_poller.py: the environment part of one OS9 poll, and why no fan
    tray or supply is ever forgotten. */
module StatusPoller {
  import opened Common
  import opened EventTable
  import opened Ordering
  import opened SyslogDetector
  import opened ReconcilePolicy
  import opened ReconcileRuns

  type Bay = Pair  // (unit, bay)

  function FanBay(f: Fan): Bay {
    (f.unit, f.bay)
  }

  function PsuBay(p: Psu): Bay {
    (p.unit, p.bay)
  }

  function FanPlaceholder(b: Bay): Fan {
    Fan(b.0, b.1, Some("down"), Some("down"), true)
  }

  function PsuPlaceholder(b: Bay): Psu {
    Psu(b.0, b.1, Some("down"), true)
  }

  ghost function BaysOf<T>(items: seq<T>, key: T -> Bay): set<Bay> {
    set i | 0 <= i < |items| :: key(items[i])
  }

  ghost predicate DistinctKeys<T>(items: seq<T>, key: T -> Bay) {
    forall i, j :: 0 <= i < j < |items| ==> key(items[i]) != key(items[j])
  }

  ghost function FanBays(fans: seq<Fan>): set<Bay> {
    BaysOf(fans, FanBay)
  }

  ghost function PsuBays(psus: seq<Psu>): set<Bay> {
    BaysOf(psus, PsuBay)
  }

  /** The rows read come first, unchanged; then a placeholder for each known bay
      that was not read, in sorted order. */
  ghost predicate Filled<T(!new)>(current: seq<T>, items: seq<T>, key: T -> Bay, placeholder: Bay -> T) {
    && |items| >= |current| && items[..|current|] == current
    && (forall i :: |current| <= i < |items| ==>
          items[i] == placeholder(key(items[i])) && key(items[i]) !in BaysOf(current, key))
    && (forall i, j :: |current| <= i < j < |items| ==>
          PairLe(key(items[i]), key(items[j])) && key(items[i]) != key(items[j]))
  }

  /** Whatever was added to the rows read is marked removed and down, every status of it. */
  ghost predicate GapsAreDown(parsed: Env, env: Env) {
    && (forall i :: |parsed.fans| <= i < |env.fans| ==>
          env.fans[i].removed && env.fans[i].fan1 == Some("down") && env.fans[i].fan2 == Some("down"))
    && (forall i :: |parsed.psus| <= i < |env.psus| ==> env.psus[i].removed && env.psus[i].status == Some("down"))
  }

  lemma FilledGapsAreDown(parsed: Env, env: Env)
    requires Filled(parsed.fans, env.fans, FanBay, FanPlaceholder)
    requires Filled(parsed.psus, env.psus, PsuBay, PsuPlaceholder)
    ensures IsFilled(parsed, env)
  {
  }

  ghost predicate IsFilled(parsed: Env, env: Env) {
    && Filled(parsed.fans, env.fans, FanBay, FanPlaceholder) && Filled(parsed.psus, env.psus, PsuBay, PsuPlaceholder)
    && GapsAreDown(parsed, env)
  }

  /** _fill_missing_bays */
  method FillMissing<T(!new)>(current: seq<T>, known: set<Bay>, key: T -> Bay, placeholder: Bay -> T)
    returns (items: seq<T>, known': set<Bay>)
    requires forall b :: key(placeholder(b)) == b
    ensures known' == known + BaysOf(current, key) && BaysOf(items, key) == known'
    ensures Filled(current, items, key, placeholder)
    ensures DistinctKeys(current, key) ==> DistinctKeys(items, key)
  {
    var currentKeys: set<Bay> := {};
    known' := known;
    for i := 0 to |current|
      invariant currentKeys == BaysOf(current[..i], key) && known' == known + currentKeys
    {
      OneMoreBay(current, i, key);
      currentKeys := currentKeys + {key(current[i])};
      known' := known' + {key(current[i])};
    }
    assert current[..|current|] == current;
    var missing := Sorted(known' - currentKeys);
    items := current;
    for i := 0 to |missing|
      invariant |items| == |current| + i && items[..|current|] == current
      invariant forall k :: 0 <= k < i ==> items[|current| + k] == placeholder(missing[k])
    {
      items := items + [placeholder(missing[i])];
    }
    FilledInOrder(current, known', missing, items, key, placeholder);
  }

  lemma OneMoreBay<T>(items: seq<T>, i: nat, key: T -> Bay)
    requires i < |items|
    ensures BaysOf(items[..i + 1], key) == BaysOf(items[..i], key) + {key(items[i])}
  {
    assert forall k :: 0 <= k < i ==> items[..i + 1][k] == items[..i][k];
    assert items[..i + 1][i] == items[i];
  }

  lemma FilledInOrder<T(!new)>(current: seq<T>, known: set<Bay>, missing: seq<Bay>, items: seq<T>, key: T -> Bay,
                               placeholder: Bay -> T)
    requires forall b :: key(placeholder(b)) == b
    requires BaysOf(current, key) <= known && Ascending(missing)
    requires forall b :: b in missing <==> b in known - BaysOf(current, key)
    requires |items| == |current| + |missing| && items[..|current|] == current
    requires forall k :: 0 <= k < |missing| ==> items[|current| + k] == placeholder(missing[k])
    ensures BaysOf(items, key) == known && Filled(current, items, key, placeholder)
    ensures DistinctKeys(current, key) ==> DistinctKeys(items, key)
  {
    forall i | 0 <= i < |items|
      ensures if i < |current| then items[i] == current[i]
              else items[i] == placeholder(missing[i - |current|]) && missing[i - |current|] in missing
    {
      if i < |current| {
        assert items[i] == items[..|current|][i];
      } else {
        assert items[|current| + (i - |current|)] == placeholder(missing[i - |current|]);
      }
    }
    forall b | b in known
      ensures b in BaysOf(items, key)
    {
      if b in BaysOf(current, key) {
        var i :| 0 <= i < |current| && key(current[i]) == b;
        assert key(items[i]) == b;
      } else {
        assert b in missing;
        var k :| 0 <= k < |missing| && missing[k] == b;
        assert key(items[|current| + k]) == b;
      }
    }
    forall i, j | 0 <= i < j < |items| && DistinctKeys(current, key)
      ensures key(items[i]) != key(items[j])
    {
      if i < |current| <= j {
        assert key(current[i]) in BaysOf(current, key);
      }
    }
  }

  // --- polls ----------------------------------------------------------------------------

  /** What a poll gave: an error before anything was learned; an environment and
      interfaces, each with the time it was read; or an exception after the bays of an
      environment were learned. */
  datatype Answer =
    | SshError(text: string)
    | Parsed(env: Env, envAt: Time, interfaces: seq<Iface>, portsAt: Time)
    | Broken(learned: Env)

  /** `at` is the stamp, taken when the poll is over, however it went. */
  datatype Poll = Poll(answer: Answer, at: Time)

  /** The poll whose interfaces the status holds: the last that was answered. */
  function PortsIndex(polls: seq<Poll>): (i: int)
    ensures -1 <= i < |polls|
    ensures i >= 0 ==> polls[i].answer.Parsed?
    ensures forall k :: i < k < |polls| ==> !polls[k].answer.Parsed?
  {
    if polls == [] then -1
    else if polls[|polls| - 1].answer.Parsed? then |polls| - 1
    else PortsIndex(polls[..|polls| - 1])
  }

  function InterfacesAfter(polls: seq<Poll>): seq<Iface> {
    var i := PortsIndex(polls);
    if i < 0 then [] else polls[i].answer.interfaces
  }

  function ErrorAfter(polls: seq<Poll>): Option<string> {
    if polls == [] then None
    else
      match polls[|polls| - 1].answer
      case SshError(text) => Some(text)
      case Parsed(_, _, _, _) => None
      case Broken(_) => Some("internal error")
  }

  function StampAfter(polls: seq<Poll>): Option<Time> {
    if polls == [] then None else Some(polls[|polls| - 1].at)
  }

  /** The environment whose bays a poll made known. */
  function Listing(a: Answer): Env {
    match a
    case SshError(_) => Env([], [])
    case Parsed(env, _, _, _) => env
    case Broken(learned) => learned
  }

  /** Every bay any poll so far listed. */
  ghost function KnownFans(polls: seq<Poll>): set<Bay> {
    if polls == [] then {} else KnownFans(polls[..|polls| - 1]) + FanBays(Listing(polls[|polls| - 1].answer).fans)
  }

  ghost function KnownPsus(polls: seq<Poll>): set<Bay> {
    if polls == [] then {} else KnownPsus(polls[..|polls| - 1]) + PsuBays(Listing(polls[|polls| - 1].answer).psus)
  }

  /** An environment without a row, from a device known to have fans or supplies. */
  ghost predicate Discarded(env: Env, before: seq<Poll>) {
    env == Env([], []) && KnownFans(before) + KnownPsus(before) != {}
  }

  /** The poll was answered with an environment that was kept. */
  ghost predicate IsKept(polls: seq<Poll>, i: nat)
    requires i < |polls|
  {
    polls[i].answer.Parsed? && !Discarded(polls[i].answer.env, polls[..i])
  }

  /** The poll whose environment the status holds. */
  ghost function EnvIndex(polls: seq<Poll>): (i: int)
    ensures -1 <= i < |polls|
    ensures i >= 0 ==> IsKept(polls, i)
    ensures forall k :: i < k < |polls| ==> !IsKept(polls, k)
  {
    if polls == [] then -1
    else
      var n := |polls| - 1;
      assert forall k :: 0 <= k < n ==> (IsKept(polls[..n], k) <==> IsKept(polls, k)) by {
        assert forall k :: 0 <= k < n ==> polls[..n][..k] == polls[..k];
      }
      if IsKept(polls, n) then n else EnvIndex(polls[..n])
  }

  /** The rows of that poll, and a placeholder for every bay listed before and missing in it. */
  ghost predicate IsEnvAfter(env: Env, polls: seq<Poll>) {
    var i := EnvIndex(polls);
    if i < 0 then env == Env([], [])
    else
      && Filled(polls[i].answer.env.fans, env.fans, FanBay, FanPlaceholder)
      && Filled(polls[i].answer.env.psus, env.psus, PsuBay, PsuPlaceholder)
      && FanBays(env.fans) == KnownFans(polls[..i + 1]) && PsuBays(env.psus) == KnownPsus(polls[..i + 1])
  }

  lemma PollsGrow(polls: seq<Poll>, poll: Poll)
    ensures var more := polls + [poll];
            && KnownFans(more) == KnownFans(polls) + FanBays(Listing(poll.answer).fans)
            && KnownPsus(more) == KnownPsus(polls) + PsuBays(Listing(poll.answer).psus)
            && PortsIndex(more) == (if poll.answer.Parsed? then |polls| else PortsIndex(polls))
            && EnvIndex(more) ==
               (if poll.answer.Parsed? && !Discarded(poll.answer.env, polls) then |polls| else EnvIndex(polls))
  {
    assert (polls + [poll])[..|polls|] == polls;
  }

  /** A poll whose environment is not kept leaves the one the status holds. */
  lemma EnvStays(env: Env, polls: seq<Poll>, poll: Poll)
    requires IsEnvAfter(env, polls)
    requires !poll.answer.Parsed? || Discarded(poll.answer.env, polls)
    ensures IsEnvAfter(env, polls + [poll])
  {
    PollsGrow(polls, poll);
    var i := EnvIndex(polls);
    if i >= 0 {
      assert (polls + [poll])[..i + 1] == polls[..i + 1] && (polls + [poll])[i] == polls[i];
    }
  }

  lemma EnvOfAnswered(env: Env, filled: Env, polls: seq<Poll>, poll: Poll)
    requires IsEnvAfter(env, polls) && poll.answer.Parsed?
    requires if Discarded(poll.answer.env, polls) then filled == env
             else (&& Filled(poll.answer.env.fans, filled.fans, FanBay, FanPlaceholder)
                   && Filled(poll.answer.env.psus, filled.psus, PsuBay, PsuPlaceholder)
                   && ListsExactly(filled, KnownFans(polls + [poll]), KnownPsus(polls + [poll])))
    ensures IsEnvAfter(filled, polls + [poll])
  {
    if Discarded(poll.answer.env, polls) {
      EnvStays(env, polls, poll);
    } else {
      PollsGrow(polls, poll);
      assert (polls + [poll])[..|polls| + 1] == polls + [poll];
    }
  }

  lemma StatusGrows(polls: seq<Poll>, poll: Poll)
    ensures var more := polls + [poll];
            && InterfacesAfter(more) == (if poll.answer.Parsed? then poll.answer.interfaces else InterfacesAfter(polls))
            && StampAfter(more) == Some(poll.at)
            && ErrorAfter(more) == (match poll.answer
                                    case SshError(text) => Some(text)
                                    case Parsed(_, _, _, _) => None
                                    case Broken(_) => Some("internal error"))
  {
    PollsGrow(polls, poll);
    assert PortsIndex(polls) >= 0 ==> (polls + [poll])[PortsIndex(polls)] == polls[PortsIndex(polls)];
  }

  class DeviceStatus {
    var env: Env
    var interfaces: seq<Iface>
    var knownFans: set<Bay>
    var knownPsus: set<Bay>
    var lastPolled: Option<Time>
    var lastError: Option<string>
    // Every poll so far.
    ghost var polls: seq<Poll>

    /** All that is kept follows from the polls. */
    ghost predicate Valid()
      reads this
    {
      && knownFans == KnownFans(polls) && knownPsus == KnownPsus(polls) && IsEnvAfter(env, polls)
      && interfaces == InterfacesAfter(polls) && lastError == ErrorAfter(polls) && lastPolled == StampAfter(polls)
    }

    constructor ()
      ensures Valid() && polls == []
      ensures env == Env([], []) && interfaces == [] && lastPolled == None && lastError == None
    {
      env, interfaces, lastPolled, lastError, polls := Env([], []), [], None, None, [];
      knownFans, knownPsus := {}, {};
    }

    /** _poll_once_os9: an empty environment on a device known to have fans or
        supplies keeps the last good one; the stamp moves whatever happens. */
    method PollOnce(answer: Answer, now: Time)
      requires Valid()
      modifies this
      ensures Valid() && polls == old(polls) + [Poll(answer, now)] && lastPolled == Some(now)
      ensures knownFans == old(knownFans) + FanBays(Listing(answer).fans)
      ensures knownPsus == old(knownPsus) + PsuBays(Listing(answer).psus)
      ensures answer.SshError? ==> lastError == Some(answer.text) && env == old(env) && interfaces == old(interfaces)
      ensures answer.Broken? ==>
                lastError == Some("internal error") && env == old(env) && interfaces == old(interfaces)
      ensures answer.Parsed? ==>
                && lastError == None && interfaces == answer.interfaces
                && if answer.env == Env([], []) && old(knownFans) + old(knownPsus) != {} then env == old(env)
                   else IsFilled(answer.env, env)
    {
      PollsGrow(polls, Poll(answer, now));
      StatusGrows(polls, Poll(answer, now));
      match answer {
        case SshError(text) =>
          EnvStays(env, polls, Poll(answer, now));
          lastError := Some(text);
        case Broken(learned) =>
          EnvStays(env, polls, Poll(answer, now));
          var filled := LearnBays(learned);
          lastError := Some("internal error");
        case Parsed(parsed, _, ifaces, _) =>
          ReplaceEnv(parsed, Poll(answer, now));
          interfaces, lastError := ifaces, None;
      }
      lastPolled := Some(now);
      polls := polls + [Poll(answer, now)];
    }

    method ReplaceEnv(parsed: Env, ghost poll: Poll)
      requires Valid() && poll.answer.Parsed? && poll.answer.env == parsed
      modifies this`env, this`knownFans, this`knownPsus
      ensures knownFans == old(knownFans) + FanBays(parsed.fans) && knownPsus == old(knownPsus) + PsuBays(parsed.psus)
      ensures IsEnvAfter(env, polls + [poll])
      ensures if Discarded(parsed, polls) then env == old(env)
              else IsFilled(parsed, env)
    {
      PollsGrow(polls, poll);
      var filled := LearnBays(parsed);
      if !Discarded(parsed, polls) {
        FilledGapsAreDown(parsed, filled);
      }
      EnvOfAnswered(env, filled, polls, poll);
      env := filled;
    }

    /** The bays of an environment that was read, and what becomes of it. */
    method LearnBays(parsed: Env) returns (filled: Env)
      requires knownFans == KnownFans(polls) && knownPsus == KnownPsus(polls)
      modifies this`knownFans, this`knownPsus
      ensures knownFans == old(knownFans) + FanBays(parsed.fans) && knownPsus == old(knownPsus) + PsuBays(parsed.psus)
      ensures if Discarded(parsed, polls) then filled == env
              else (&& Filled(parsed.fans, filled.fans, FanBay, FanPlaceholder)
                    && Filled(parsed.psus, filled.psus, PsuBay, PsuPlaceholder)
                    && FanBays(filled.fans) == knownFans && PsuBays(filled.psus) == knownPsus)
    {
      if parsed.fans == [] && parsed.psus == [] && (knownFans != {} || knownPsus != {}) {
        assert FanBays(parsed.fans) == {} && PsuBays(parsed.psus) == {};
        filled := env;
      } else {
        var fans, fanBays := FillMissing(parsed.fans, knownFans, FanBay, FanPlaceholder);
        var psus, psuBays := FillMissing(parsed.psus, knownPsus, PsuBay, PsuPlaceholder);
        filled, knownFans, knownPsus := Env(fans, psus), fanBays, psuBays;
      }
    }
  }

  ghost predicate ListsExactly(env: Env, fans: set<Bay>, psus: set<Bay>) {
    FanBays(env.fans) == fans && PsuBays(env.psus) == psus
  }

  ghost predicate EachOnce(env: Env) {
    DistinctKeys(env.fans, FanBay) && DistinctKeys(env.psus, PsuBay)
  }

  lemma FilledIsDistinct<T(!new)>(current: seq<T>, items: seq<T>, key: T -> Bay, placeholder: Bay -> T)
    requires Filled(current, items, key, placeholder) && DistinctKeys(current, key)
    ensures DistinctKeys(items, key)
  {
    forall i, j | 0 <= i < j < |items|
      ensures key(items[i]) != key(items[j])
    {
      assert i < |current| ==> items[i] == items[..|current|][i] == current[i];
      assert j < |current| ==> items[j] == items[..|current|][j] == current[j];
      if i < |current| <= j {
        assert key(current[i]) in BaysOf(current, key);
      }
    }
  }

  /** The environment lists each bay once if the read it holds did. */
  lemma EnvListsEachOnce(env: Env, polls: seq<Poll>)
    requires IsEnvAfter(env, polls) && (EnvIndex(polls) >= 0 ==> EachOnce(polls[EnvIndex(polls)].answer.env))
    ensures EachOnce(env)
  {
    var i := EnvIndex(polls);
    if i >= 0 {
      FilledIsDistinct(polls[i].answer.env.fans, env.fans, FanBay, FanPlaceholder);
      FilledIsDistinct(polls[i].answer.env.psus, env.psus, PsuBay, PsuPlaceholder);
    }
  }

  // --- from the poll to the reconciler ------------------------------------------------

  // Unit and bay numbers, as the parser reads them.
  predicate IsNumber(text: string) {
    text != "" && forall i :: 0 <= i < |text| ==> '0' <= text[i] <= '9'
  }

  ghost predicate Numbered(bays: set<Bay>) {
    forall b :: b in bays ==> IsNumber(b.0) && IsNumber(b.1)
  }

  function SubjectText(prefix: string, unit: string, bay: string): string {
    prefix + bay + " (unit " + unit + ")"
  }

  /** The subject text of a bay names no other bay. */
  lemma SubjectsAreInjective(prefix: string, u1: string, b1: string, u2: string, b2: string)
    requires IsNumber(u1) && IsNumber(b1) && IsNumber(u2) && IsNumber(b2)
    requires SubjectText(prefix, u1, b1) == SubjectText(prefix, u2, b2)
    ensures u1 == u2 && b1 == b2
  {
    var s1, s2 := SubjectText(prefix, u1, b1), SubjectText(prefix, u2, b2);
    var p := |prefix|;
    assert s1[p + |b1|] == ' ' && s2[p + |b2|] == ' ';
    assert |b1| == |b2|;
    assert b1 == s1[p..p + |b1|] == s2[p..p + |b2|] == b2;
    var q := p + |b1| + 7;
    assert u1 == s1[q..|s1| - 1] == s2[q..|s2| - 1] == u2;
  }

  /** The status a device has after these polls, as a pass sees it. */
  ghost predicate Delivers(polls: seq<Poll>, p: Pass) {
    && polls != [] && StampOf(p) != ""
    && p.status.lastPolled.value.at == StampAfter(polls) && p.status.lastError == ErrorAfter(polls)
    && p.status.interfaces == InterfacesAfter(polls) && IsEnvAfter(p.status.env, polls)
  }

  /** That is what the poller keeps. */
  lemma StatusDelivers(d: DeviceStatus, p: Pass)
    requires d.Valid() && d.polls != [] && StampOf(p) != ""
    requires p.status.lastPolled.value.at == d.lastPolled && p.status.lastError == d.lastError
    requires p.status.interfaces == d.interfaces && p.status.env == d.env
    ensures Delivers(d.polls, p)
  {
  }

  /** The polls up to the one whose environment is held, and that environment. */
  ghost function Held(polls: seq<Poll>): seq<Poll> {
    polls[..EnvIndex(polls) + 1]
  }

  ghost function HeldEnv(polls: seq<Poll>): Env {
    var i := EnvIndex(polls);
    if i < 0 then Env([], []) else polls[i].answer.env
  }

  lemma EnvListsHeld(env: Env, polls: seq<Poll>)
    requires IsEnvAfter(env, polls)
    ensures ListsExactly(env, KnownFans(Held(polls)), KnownPsus(Held(polls)))
    ensures Filled(HeldEnv(polls).fans, env.fans, FanBay, FanPlaceholder)
    ensures Filled(HeldEnv(polls).psus, env.psus, PsuBay, PsuPlaceholder)
  {
  }

  /** Nothing is known beyond the held environment unless a poll broke off since. */
  lemma {:induction false} AllKnownIsHeld(polls: seq<Poll>)
    requires forall k :: EnvIndex(polls) < k < |polls| ==> !polls[k].answer.Broken?
    ensures KnownFans(Held(polls)) == KnownFans(polls) && KnownPsus(Held(polls)) == KnownPsus(polls)
  {
    if EnvIndex(polls) == |polls| - 1 {
      assert Held(polls) == polls;
    } else {
      var front, last := polls[..|polls| - 1], polls[|polls| - 1];
      assert front + [last] == polls;
      PollsGrow(front, last);
      assert !IsKept(polls, |polls| - 1);
      assert forall k :: 0 <= k < |front| ==> front[k] == polls[k];
      AllKnownIsHeld(front);
      assert Held(front) == Held(polls);
      assert FanBays([]) == {} && PsuBays([]) == {};
    }
  }

  ghost predicate FanIsUp(env: Env, b: Bay) {
    exists k :: 0 <= k < |env.fans| && FanBay(env.fans[k]) == b && !FanFaulted(env.fans[k])
  }

  ghost predicate PsuIsUp(env: Env, b: Bay) {
    exists k :: 0 <= k < |env.psus| && PsuBay(env.psus[k]) == b && !PsuFaulted(env.psus[k])
  }

  function FanName(b: Bay): string {
    SubjectText("Fan tray ", b.0, b.1)
  }

  function PsuName(b: Bay): string {
    SubjectText("PSU ", b.0, b.1)
  }

  /** A pass acts on the bay once: a guarded resolve if the held read showed it up, else
      a raise - faulted, or missing and so filled in. */
  ghost predicate FanIsActedOn(run: seq<Pass>, p: Pass, env: Env, b: Bay)
    requires StampOf(p) != ""
  {
    var acts, severity := Asked(run, p), p.settings.SeverityFor("env.fan");
    && About(acts, "env.fan", FanName(b)) == 1
    && (CloseIfOlder("env.fan", FanName(b), TimeOf(p)) in acts <==> FanIsUp(env, b))
    && (RaiseUnlessSuperseded("env.fan", FanName(b), severity, TimeOf(p)) in acts <==> !FanIsUp(env, b))
  }

  ghost predicate PsuIsActedOn(run: seq<Pass>, p: Pass, env: Env, b: Bay)
    requires StampOf(p) != ""
  {
    var acts, severity := Asked(run, p), p.settings.SeverityFor("env.psu");
    && About(acts, "env.psu", PsuName(b)) == 1
    && (CloseIfOlder("env.psu", PsuName(b), TimeOf(p)) in acts <==> PsuIsUp(env, b))
    && (RaiseUnlessSuperseded("env.psu", PsuName(b), severity, TimeOf(p)) in acts <==> !PsuIsUp(env, b))
  }

  /** After any polls and any run of passes, a pass over a poll not considered before acts
      once on every bay any poll ever listed, removed or not - all but those that only
      polls which then broke off have listed since the environment that is held. */
  lemma NoBayIsForgotten(run: seq<Pass>, p: Pass, polls: seq<Poll>)
    requires ReconcileRuns.Fresh(run, p) && Delivers(polls, p) && EachOnce(HeldEnv(polls))
    requires Numbered(KnownFans(polls)) && Numbered(KnownPsus(polls))
    ensures forall b :: b in KnownFans(polls) ==>
              if b in KnownFans(Held(polls)) then FanIsActedOn(run, p, HeldEnv(polls), b)
              else About(Asked(run, p), "env.fan", FanName(b)) == 0
    ensures forall b :: b in KnownPsus(polls) ==>
              if b in KnownPsus(Held(polls)) then PsuIsActedOn(run, p, HeldEnv(polls), b)
              else About(Asked(run, p), "env.psu", PsuName(b)) == 0
    ensures (forall k :: EnvIndex(polls) < k < |polls| ==> !polls[k].answer.Broken?) ==>
              KnownFans(Held(polls)) == KnownFans(polls) && KnownPsus(Held(polls)) == KnownPsus(polls)
  {
    if forall k :: EnvIndex(polls) < k < |polls| ==> !polls[k].answer.Broken? {
      AllKnownIsHeld(polls);
    }
    HeldFacts(p, polls);
    forall b | b in KnownFans(polls)
      ensures if b in KnownFans(Held(polls)) then FanIsActedOn(run, p, HeldEnv(polls), b)
              else About(Asked(run, p), "env.fan", FanName(b)) == 0
    {
      FanOfPolls(run, p, polls, b);
    }
    forall b | b in KnownPsus(polls)
      ensures if b in KnownPsus(Held(polls)) then PsuIsActedOn(run, p, HeldEnv(polls), b)
              else About(Asked(run, p), "env.psu", PsuName(b)) == 0
    {
      PsuOfPolls(run, p, polls, b);
    }
  }

  /** The status lists the held bays under distinct names. */
  ghost predicate ListsHeld(env: Env, polls: seq<Poll>) {
    && DistinctBays(env)
    && ListsExactly(env, KnownFans(Held(polls)), KnownPsus(Held(polls)))
    && Filled(HeldEnv(polls).fans, env.fans, FanBay, FanPlaceholder)
    && Filled(HeldEnv(polls).psus, env.psus, PsuBay, PsuPlaceholder)
  }

  lemma HeldFacts(p: Pass, polls: seq<Poll>)
    requires Delivers(polls, p) && EachOnce(HeldEnv(polls))
    requires Numbered(KnownFans(polls)) && Numbered(KnownPsus(polls))
    ensures ListsHeld(p.status.env, polls)
    ensures Numbered(FanBays(p.status.env.fans)) && Numbered(PsuBays(p.status.env.psus))
  {
    HeldIsKnown(polls, EnvIndex(polls) + 1);
    EnvListsHeld(p.status.env, polls);
    EnvListsEachOnce(p.status.env, polls);
    BaysHaveDistinctNames(p.status.env, KnownFans(Held(polls)), KnownPsus(Held(polls)));
  }

  lemma FanOfPolls(run: seq<Pass>, p: Pass, polls: seq<Poll>, b: Bay)
    requires ReconcileRuns.Fresh(run, p) && ListsHeld(p.status.env, polls)
    requires Numbered(FanBays(p.status.env.fans)) && Numbered({b})
    ensures if b in KnownFans(Held(polls)) then FanIsActedOn(run, p, HeldEnv(polls), b)
            else About(Asked(run, p), "env.fan", FanName(b)) == 0
  {
    if b in KnownFans(Held(polls)) {
      FanActedOn(run, p, HeldEnv(polls), b);
    } else {
      FanLeftAlone(run, p, b);
    }
  }

  lemma PsuOfPolls(run: seq<Pass>, p: Pass, polls: seq<Poll>, b: Bay)
    requires ReconcileRuns.Fresh(run, p) && ListsHeld(p.status.env, polls)
    requires Numbered(PsuBays(p.status.env.psus)) && Numbered({b})
    ensures if b in KnownPsus(Held(polls)) then PsuIsActedOn(run, p, HeldEnv(polls), b)
            else About(Asked(run, p), "env.psu", PsuName(b)) == 0
  {
    if b in KnownPsus(Held(polls)) {
      PsuActedOn(run, p, HeldEnv(polls), b);
    } else {
      PsuLeftAlone(run, p, b);
    }
  }

  lemma {:induction false} HeldIsKnown(polls: seq<Poll>, n: nat)
    requires n <= |polls|
    ensures KnownFans(polls[..n]) <= KnownFans(polls) && KnownPsus(polls[..n]) <= KnownPsus(polls)
  {
    if n == |polls| {
      assert polls[..n] == polls;
    } else {
      assert polls[..|polls| - 1][..n] == polls[..n];
      HeldIsKnown(polls[..|polls| - 1], n);
    }
  }

  lemma FanActedOn(run: seq<Pass>, p: Pass, held: Env, b: Bay)
    requires ReconcileRuns.Fresh(run, p) && DistinctBays(p.status.env)
    requires Filled(held.fans, p.status.env.fans, FanBay, FanPlaceholder) && b in FanBays(p.status.env.fans)
    ensures FanIsActedOn(run, p, held, b)
  {
    var fans := p.status.env.fans;
    var i :| 0 <= i < |fans| && FanBay(fans[i]) == b;
    FanRowIs(held, p.status.env, b, i);
    OneActionPerListedBay(run, p);
    FanActsAreListed(run, p, CloseIfOlder("env.fan", FanName(b), TimeOf(p)));
    FanActsAreListed(run, p,
                     RaiseUnlessSuperseded("env.fan", FanName(b), p.settings.SeverityFor("env.fan"), TimeOf(p)));
  }

  /** The row of a bay in the filled environment. */
  lemma FanRowIs(held: Env, env: Env, b: Bay, i: nat)
    requires DistinctBays(env) && Filled(held.fans, env.fans, FanBay, FanPlaceholder)
    requires i < |env.fans| && FanBay(env.fans[i]) == b
    ensures FanSubject(env.fans[i]) == FanName(b)
    ensures FanFaulted(env.fans[i]) <==> !FanIsUp(held, b)
    ensures forall faulted :: ListsFan(env.fans, FanName(b), faulted) <==> FanFaulted(env.fans[i]) == faulted
  {
    assert forall k :: 0 <= k < |held.fans| ==> env.fans[k] == env.fans[..|held.fans|][k] == held.fans[k];
    if i < |held.fans| {
      assert FanFaulted(env.fans[i]) || FanIsUp(held, b);
    } else {
      assert env.fans[i] == FanPlaceholder(b) && b !in BaysOf(held.fans, FanBay);
    }
    if k :| 0 <= k < |held.fans| && FanBay(held.fans[k]) == b && !FanFaulted(held.fans[k]) {
      assert FanSubject(env.fans[k]) == FanSubject(env.fans[i]);
      assert k == i;
    }
  }

  lemma PsuActedOn(run: seq<Pass>, p: Pass, held: Env, b: Bay)
    requires ReconcileRuns.Fresh(run, p) && DistinctBays(p.status.env)
    requires Filled(held.psus, p.status.env.psus, PsuBay, PsuPlaceholder) && b in PsuBays(p.status.env.psus)
    ensures PsuIsActedOn(run, p, held, b)
  {
    var psus := p.status.env.psus;
    var i :| 0 <= i < |psus| && PsuBay(psus[i]) == b;
    PsuRowIs(held, p.status.env, b, i);
    OneActionPerListedBay(run, p);
    PsuActsAreListed(run, p, CloseIfOlder("env.psu", PsuName(b), TimeOf(p)));
    PsuActsAreListed(run, p,
                     RaiseUnlessSuperseded("env.psu", PsuName(b), p.settings.SeverityFor("env.psu"), TimeOf(p)));
  }

  lemma PsuRowIs(held: Env, env: Env, b: Bay, i: nat)
    requires DistinctBays(env) && Filled(held.psus, env.psus, PsuBay, PsuPlaceholder)
    requires i < |env.psus| && PsuBay(env.psus[i]) == b
    ensures PsuSubject(env.psus[i]) == PsuName(b)
    ensures PsuFaulted(env.psus[i]) <==> !PsuIsUp(held, b)
    ensures forall faulted :: ListsPsu(env.psus, PsuName(b), faulted) <==> PsuFaulted(env.psus[i]) == faulted
  {
    assert forall k :: 0 <= k < |held.psus| ==> env.psus[k] == env.psus[..|held.psus|][k] == held.psus[k];
    if i < |held.psus| {
      assert PsuFaulted(env.psus[i]) || PsuIsUp(held, b);
    } else {
      assert env.psus[i] == PsuPlaceholder(b) && b !in BaysOf(held.psus, PsuBay);
    }
    if k :| 0 <= k < |held.psus| && PsuBay(held.psus[k]) == b && !PsuFaulted(held.psus[k]) {
      assert PsuSubject(env.psus[k]) == PsuSubject(env.psus[i]);
      assert k == i;
    }
  }

  /** A bay that is not listed is not acted on. */
  lemma FanLeftAlone(run: seq<Pass>, p: Pass, b: Bay)
    requires ReconcileRuns.Fresh(run, p) && b !in FanBays(p.status.env.fans)
    requires Numbered(FanBays(p.status.env.fans)) && Numbered({b})
    ensures About(Asked(run, p), "env.fan", FanName(b)) == 0
  {
    if About(Asked(run, p), "env.fan", FanName(b)) > 0 {
      var a := ThereIsOne(Asked(run, p), "env.fan", FanName(b));
      FanActsAreListed(run, p, a);
      var i :| 0 <= i < |p.status.env.fans| && FanSubject(p.status.env.fans[i]) == FanName(b);
      var f := p.status.env.fans[i];
      assert FanBay(f) in FanBays(p.status.env.fans);
      assert b in {b};
      SubjectsAreInjective("Fan tray ", f.unit, f.bay, b.0, b.1);
    }
  }

  lemma PsuLeftAlone(run: seq<Pass>, p: Pass, b: Bay)
    requires ReconcileRuns.Fresh(run, p) && b !in PsuBays(p.status.env.psus)
    requires Numbered(PsuBays(p.status.env.psus)) && Numbered({b})
    ensures About(Asked(run, p), "env.psu", PsuName(b)) == 0
  {
    if About(Asked(run, p), "env.psu", PsuName(b)) > 0 {
      var a := ThereIsOne(Asked(run, p), "env.psu", PsuName(b));
      PsuActsAreListed(run, p, a);
      var i :| 0 <= i < |p.status.env.psus| && PsuSubject(p.status.env.psus[i]) == PsuName(b);
      var f := p.status.env.psus[i];
      assert PsuBay(f) in PsuBays(p.status.env.psus);
      assert b in {b};
      SubjectsAreInjective("PSU ", f.unit, f.bay, b.0, b.1);
    }
  }

  lemma {:induction false} ThereIsOne(acts: seq<Action>, kind: string, subject: string) returns (a: Action)
    requires About(acts, kind, subject) > 0
    ensures a in acts && a.kind == kind && a.subject == subject
  {
    a := acts[|acts| - 1];
    if a.kind != kind || a.subject != subject {
      a := ThereIsOne(acts[..|acts| - 1], kind, subject);
    }
  }

  lemma BaysHaveDistinctNames(env: Env, fans: set<Bay>, psus: set<Bay>)
    requires ListsExactly(env, fans, psus) && EachOnce(env) && Numbered(fans) && Numbered(psus)
    ensures DistinctBays(env)
  {
    forall i, j | 0 <= i < j < |env.fans|
      ensures FanSubject(env.fans[i]) != FanSubject(env.fans[j])
    {
      var f, g := env.fans[i], env.fans[j];
      assert FanBay(f) in FanBays(env.fans) && FanBay(g) in FanBays(env.fans);
      assert FanSubject(f) == SubjectText("Fan tray ", f.unit, f.bay) &&
             FanSubject(g) == SubjectText("Fan tray ", g.unit, g.bay);
      if FanSubject(f) == FanSubject(g) {
        SubjectsAreInjective("Fan tray ", f.unit, f.bay, g.unit, g.bay);
      }
    }
    forall i, j | 0 <= i < j < |env.psus|
      ensures PsuSubject(env.psus[i]) != PsuSubject(env.psus[j])
    {
      var f, g := env.psus[i], env.psus[j];
      assert PsuBay(f) in PsuBays(env.psus) && PsuBay(g) in PsuBays(env.psus);
      assert PsuSubject(f) == SubjectText("PSU ", f.unit, f.bay) && PsuSubject(g) == SubjectText("PSU ", g.unit, g.bay);
      if PsuSubject(f) == PsuSubject(g) {
        SubjectsAreInjective("PSU ", f.unit, f.bay, g.unit, g.bay);
      }
    }
  }
}
