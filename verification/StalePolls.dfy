/** What a stamp does not say.  webui/status_poller.py reads a device in several commands
    and stamps the poll when it is over, however it went; a poll that failed, or whose
    environment it does not trust, leaves older data under the new stamp.
    webui/event_reconcile.py takes the stamp for the time of the data. */
module StalePolls {
  import opened Common
  import opened EventTable
  import opened EventProtocol
  import opened ReconcilePolicy
  import opened ReconcileRuns
  import opened StatusPoller

  /** After a failed poll the same interfaces and the same environment are considered
      again, as of the new stamp. */
  lemma FailedPollIsConsideredAgain(run: seq<Pass>, before: Pass, p: Pass, polls: seq<Poll>, failed: Poll)
    requires !failed.answer.Parsed? && before.deviceId == p.deviceId && StampOf(p) != StampOf(before)
    requires Delivers(polls, before) && Delivers(polls + [failed], p)
    ensures ReconcileRuns.Fresh(run + [before], p) && TimeOf(p) == Some(failed.at)
    ensures |LooksOf(p)| == |LooksOf(before)|
    ensures forall i :: 0 <= i < |LooksOf(p)| ==>
              && LooksOf(p)[i].port == LooksOf(before)[i].port && LooksOf(p)[i].state == LooksOf(before)[i].state
              && LooksOf(p)[i].stamp == Some(failed.at)
    ensures HeldEnv(polls + [failed]) == HeldEnv(polls)
  {
    assert (run + [before])[..|run|] == run;
    PollsGrow(polls, failed);
    StatusGrows(polls, failed);
    assert EnvIndex(polls) >= 0 ==> (polls + [failed])[EnvIndex(polls)] == polls[EnvIndex(polls)];
  }

  // --- interfaces ----------------------------------------------------------------------------

  lemma PortsIndexIs(polls: seq<Poll>, j: nat)
    requires j < |polls| && polls[j].answer.Parsed?
    ensures PortsIndex(polls) == j <==> forall k :: j < k < |polls| ==> !polls[k].answer.Parsed?
  {
    var i := PortsIndex(polls);
    assert i > j ==> polls[i].answer.Parsed?;
  }

  /** The pass asks to close the link's event on the ports read by poll j, its stamp lets
      it close this one, and this one changed after that read. */
  ghost predicate ClosesNewer(run: seq<Pass>, p: Pass, polls: seq<Poll>, j: nat, port: string, o: Row)
    requires StampOf(p) != "" && j < |polls| && polls[j].answer.Parsed?
  {
    && PortsIndex(polls) == j && CloseIfOlder("port.link_down", port, TimeOf(p)) in Asked(run, p)
    && MayClose(Some(o), TimeOf(p)) && o.Since() > polls[j].answer.portsAt
  }

  /** An outage is closed on data older than it exactly when that data lists the port up,
      no later poll was answered, and the outage began between that read and the stamp
      of the latest poll - the same poll, if it was answered. */
  lemma StaleDataClosesIff(run: seq<Pass>, p: Pass, polls: seq<Poll>, j: nat, port: string, o: Row)
    requires ReconcileRuns.Fresh(run, p) && Delivers(polls, p) && j < |polls| && polls[j].answer.Parsed?
    ensures ClosesNewer(run, p, polls, j, port, o) <==>
            && (forall k :: j < k < |polls| ==> !polls[k].answer.Parsed?)
            && port != "" && ListsUp(polls[j].answer.interfaces, port)
            && polls[j].answer.portsAt < o.Since() < polls[|polls| - 1].at
  {
    StampIs(polls, p);
    LinkClosesAreListedUp(run, p, port, TimeOf(p));
    PortsIndexIs(polls, j);
    ClosesIfUp(run, p, polls, j, port, o);
  }

  lemma StampIs(polls: seq<Poll>, p: Pass)
    requires Delivers(polls, p)
    ensures TimeOf(p) == Some(polls[|polls| - 1].at) && p.status.interfaces == InterfacesAfter(polls)
  {
  }

  lemma ClosesIfUp(run: seq<Pass>, p: Pass, polls: seq<Poll>, j: nat, port: string, o: Row)
    requires StampOf(p) != "" && j < |polls| && polls[j].answer.Parsed?
    requires TimeOf(p) == Some(polls[|polls| - 1].at) && p.status.interfaces == InterfacesAfter(polls)
    requires CloseIfOlder("port.link_down", port, TimeOf(p)) in Asked(run, p) <==>
             port != "" && ListsUp(p.status.interfaces, port)
    ensures ClosesNewer(run, p, polls, j, port, o) <==>
            && PortsIndex(polls) == j && port != "" && ListsUp(polls[j].answer.interfaces, port)
            && polls[j].answer.portsAt < o.Since() < polls[|polls| - 1].at
  {
  }

  /** Some outage of the port newer than the data may be closed. */
  ghost predicate CanCloseNewer(run: seq<Pass>, p: Pass, polls: seq<Poll>, port: string)
    requires StampOf(p) != "" && PortsIndex(polls) >= 0
  {
    exists o: Row ::
      o.Open() && o.sig == Signature("port.link_down", p.deviceId, port) &&
      ClosesNewer(run, p, polls, PortsIndex(polls), port, o)
  }

  /** A pass is safe from that exactly when it does not list the port up, or its stamp
      leaves no instant after the read of the ports. */
  lemma SafeIffStampIsTheRead(run: seq<Pass>, p: Pass, polls: seq<Poll>, port: string)
    requires ReconcileRuns.Fresh(run, p) && Delivers(polls, p) && PortsIndex(polls) >= 0
    ensures !CanCloseNewer(run, p, polls, port) <==>
            || port == "" || !ListsUp(p.status.interfaces, port)
            || polls[|polls| - 1].at <= polls[PortsIndex(polls)].answer.portsAt + 1
  {
    var j, at := PortsIndex(polls), polls[|polls| - 1].at;
    if port != "" && ListsUp(p.status.interfaces, port) && at > polls[j].answer.portsAt + 1 {
      var o := OpenSince(p.deviceId, port, polls[j].answer.portsAt + 1);
      StaleDataClosesIff(run, p, polls, j, port, o);
      assert ClosesNewer(run, p, polls, j, port, o);
    } else {
      forall o: Row | ClosesNewer(run, p, polls, j, port, o)
        ensures false
      {
        StaleDataClosesIff(run, p, polls, j, port, o);
      }
    }
  }

  /** An outage of the port that began at that time. */
  function OpenSince(deviceId: string, port: string, at: Time): (o: Row)
    ensures o.Open() && o.Since() == at && o.sig == Signature("port.link_down", deviceId, port)
  {
    EventTable.Fresh(1, at, Report("port.link_down", "critical", deviceId, deviceId, port, "Link down", None, None,
                                   "syslog", None))
  }

  // --- fans and supplies ------------------------------------------------------------------------

  ghost predicate ListsBay(env: Env, kind: string, subject: string, faulted: bool) {
    if kind == "env.fan" then ListsFan(env.fans, subject, faulted) else ListsPsu(env.psus, subject, faulted)
  }

  /** Placeholders are faulted, so a healthy row was read. */
  lemma HealthyIsRead(env: Env, polls: seq<Poll>, kind: string, subject: string)
    requires IsEnvAfter(env, polls)
    ensures ListsBay(env, kind, subject, false) <==> ListsBay(HeldEnv(polls), kind, subject, false)
  {
    EnvListsHeld(env, polls);
    var held := HeldEnv(polls);
    assert forall k :: 0 <= k < |held.fans| ==> env.fans[k] == env.fans[..|held.fans|][k] == held.fans[k];
    assert forall k :: 0 <= k < |held.psus| ==> env.psus[k] == env.psus[..|held.psus|][k] == held.psus[k];
  }

  lemma EnvIndexIs(polls: seq<Poll>, j: nat)
    requires j < |polls| && IsKept(polls, j)
    ensures EnvIndex(polls) == j <==> forall k :: j < k < |polls| ==> !IsKept(polls, k)
  {
    var i := EnvIndex(polls);
    assert i > j ==> IsKept(polls, i);
  }

  ghost predicate ClosesNewerBay(run: seq<Pass>, p: Pass, polls: seq<Poll>, j: nat, kind: string, subject: string,
                                 o: Row)
    requires StampOf(p) != "" && j < |polls| && polls[j].answer.Parsed?
  {
    && EnvIndex(polls) == j && CloseIfOlder(kind, subject, TimeOf(p)) in Asked(run, p)
    && MayClose(Some(o), TimeOf(p)) && o.Since() > polls[j].answer.envAt
  }

  /** A fault is closed on an environment older than it exactly when that environment
      lists the bay healthy, no later one was kept - a poll that was answered with an
      empty one keeps the old - and the fault began between that read and the stamp. */
  lemma StaleEnvClosesIff(run: seq<Pass>, p: Pass, polls: seq<Poll>, j: nat, kind: string, subject: string, o: Row)
    requires ReconcileRuns.Fresh(run, p) && Delivers(polls, p) && j < |polls| && IsKept(polls, j)
    requires kind == "env.fan" || kind == "env.psu"
    ensures ClosesNewerBay(run, p, polls, j, kind, subject, o) <==>
            && (forall k :: j < k < |polls| ==> !IsKept(polls, k))
            && ListsBay(polls[j].answer.env, kind, subject, false)
            && polls[j].answer.envAt < o.Since() < polls[|polls| - 1].at
  {
    StampIs(polls, p);
    BayActs(run, p, CloseIfOlder(kind, subject, TimeOf(p)));
    HealthyIsRead(p.status.env, polls, kind, subject);
    EnvIndexIs(polls, j);
    ClosesIfHealthy(run, p, polls, j, kind, subject, o);
  }

  lemma ClosesIfHealthy(run: seq<Pass>, p: Pass, polls: seq<Poll>, j: nat, kind: string, subject: string, o: Row)
    requires StampOf(p) != "" && j < |polls| && polls[j].answer.Parsed? && TimeOf(p) == Some(polls[|polls| - 1].at)
    requires CloseIfOlder(kind, subject, TimeOf(p)) in Asked(run, p) <==> ListsBay(HeldEnv(polls), kind, subject, false)
    ensures ClosesNewerBay(run, p, polls, j, kind, subject, o) <==>
            && EnvIndex(polls) == j && ListsBay(polls[j].answer.env, kind, subject, false)
            && polls[j].answer.envAt < o.Since() < polls[|polls| - 1].at
  {
  }

  lemma BayActs(run: seq<Pass>, p: Pass, a: Action)
    requires a.kind == "env.fan" || a.kind == "env.psu"
    requires ReconcileRuns.Fresh(run, p) && !a.CloseNow? && a.stamp == TimeOf(p)
    requires a.RaiseUnlessSuperseded? ==> a.severity == p.settings.SeverityFor(a.kind)
    ensures a in Asked(run, p) <==> ListsBay(p.status.env, a.kind, a.subject, a.RaiseUnlessSuperseded?)
  {
    if a.kind == "env.fan" {
      FanActsAreListed(run, p, a);
    } else {
      PsuActsAreListed(run, p, a);
    }
  }

  /** The mirror: a raise that undoes a resolve newer than the environment it reads. */
  ghost predicate RaisesOverNewer(run: seq<Pass>, p: Pass, polls: seq<Poll>, j: nat, kind: string, subject: string,
                                  latest: Row)
    requires StampOf(p) != "" && j < |polls| && polls[j].answer.Parsed?
  {
    && EnvIndex(polls) == j
    && RaiseUnlessSuperseded(kind, subject, p.settings.SeverityFor(kind), TimeOf(p)) in Asked(run, p)
    && !IsSuperseded(Some(latest), TimeOf(p)) && latest.Since() > polls[j].answer.envAt
  }

  /** ... happens exactly when the status lists the bay faulted, no later environment was
      kept, and the resolve fell between that read and the stamp. */
  lemma StaleEnvRaisesIff(run: seq<Pass>, p: Pass, polls: seq<Poll>, j: nat, kind: string, subject: string, latest: Row)
    requires ReconcileRuns.Fresh(run, p) && Delivers(polls, p) && j < |polls| && IsKept(polls, j)
    requires (kind == "env.fan" || kind == "env.psu") && !latest.Open()
    ensures RaisesOverNewer(run, p, polls, j, kind, subject, latest) <==>
            && (forall k :: j < k < |polls| ==> !IsKept(polls, k))
            && ListsBay(p.status.env, kind, subject, true)
            && polls[j].answer.envAt < latest.Since() <= polls[|polls| - 1].at
  {
    BayActs(run, p, RaiseUnlessSuperseded(kind, subject, p.settings.SeverityFor(kind), TimeOf(p)));
    EnvIndexIs(polls, j);
  }

  // --- it happens -----------------------------------------------------------------------------------

  const UP: Iface := Iface("1", Some("up"), None, None, None, None)
  const TRAY: Fan := Fan("1", "1", Some("up"), Some("up"), false)

  function PassAt10(error: Option<string>, ports: seq<Iface>, env: Env, s: Settings): Pass {
    Pass("d", Status(error, Some(Stamp("10", Some(10))), ports, env, None, None), s)
  }

  /** A poll that goes well, reads the port up at 0, and is over at 10. */
  const SLOW: Poll := Poll(Parsed(Env([], []), 0, [UP], 0), 10)

  lemma OnePoll(poll: Poll)
    requires poll.answer.Parsed?
    ensures PortsIndex([poll]) == 0 && EnvIndex([poll]) == 0 && IsKept([poll], 0)
    ensures KnownFans([poll]) == FanBays(poll.answer.env.fans) && KnownPsus([poll]) == PsuBays(poll.answer.env.psus)
    ensures EachOnce(poll.answer.env) ==> IsEnvAfter(poll.answer.env, [poll])
  {
    assert [] + [poll] == [poll];
    PollsGrow([], poll);
    assert [poll][..1] == [poll] && [poll][..0] == [];
  }

  /** With last_error unset, an outage that begins while the poll is under way is closed. */
  lemma SlowPollCanCloseANewerOutage(s: Settings, o: Row)
    requires o.Open() && o.Since() == 5
    ensures var p := PassAt10(None, [UP], Env([], []), s);
            ReconcileRuns.Fresh([], p) && Delivers([SLOW], p) && ClosesNewer([], p, [SLOW], 0, "1", o)
  {
    OnePoll(SLOW);
    assert SLOW.answer.interfaces[0] == UP;
    StaleDataClosesIff([], PassAt10(None, [UP], Env([], []), s), [SLOW], 0, "1", o);
  }

  const READ: Poll := Poll(Parsed(Env([], []), 0, [UP], 0), 1)
  const FAILED: Poll := Poll(SshError("timed out"), 10)

  /** A port read up, an outage, a poll that times out. */
  lemma StaleDataCanCloseANewerOutage(s: Settings, o: Row)
    requires o.Open() && o.Since() == 5
    ensures var p := PassAt10(Some("timed out"), [UP], Env([], []), s);
            ReconcileRuns.Fresh([], p) && Delivers([READ, FAILED], p) && ClosesNewer([], p, [READ, FAILED], 0, "1", o)
  {
    OnePoll(READ);
    assert [READ] + [FAILED] == [READ, FAILED];
    PollsGrow([READ], FAILED);
    StatusGrows([READ], FAILED);
    EnvStays(Env([], []), [READ], FAILED);
    assert READ.answer.interfaces[0] == UP;
    StaleDataClosesIff([], PassAt10(Some("timed out"), [UP], Env([], []), s), [READ, FAILED], 0, "1", o);
  }

  const TRAY_UP: Poll := Poll(Parsed(Env([TRAY], []), 0, [], 0), 1)
  const EMPTY_READ: Poll := Poll(Parsed(Env([], []), 9, [], 9), 10)

  /** A tray read up, a fault, and a poll that is answered with no environment at all. */
  lemma EmptyReadCanCloseANewerFault(s: Settings, o: Row)
    requires o.Open() && o.Since() == 5
    ensures var p := PassAt10(None, [], Env([TRAY], []), s);
            && ReconcileRuns.Fresh([], p) && Delivers([TRAY_UP, EMPTY_READ], p) && IsKept([TRAY_UP, EMPTY_READ], 0)
            && ClosesNewerBay([], p, [TRAY_UP, EMPTY_READ], 0, "env.fan", FanSubject(TRAY), o)
  {
    OnePoll(TRAY_UP);
    assert FanBay([TRAY][0]) in FanBays([TRAY]);
    assert [TRAY_UP] + [EMPTY_READ] == [TRAY_UP, EMPTY_READ];
    PollsGrow([TRAY_UP], EMPTY_READ);
    StatusGrows([TRAY_UP], EMPTY_READ);
    EnvStays(Env([TRAY], []), [TRAY_UP], EMPTY_READ);
    assert [TRAY][0] == TRAY;
    var p := PassAt10(None, [], Env([TRAY], []), s);
    StaleEnvClosesIff([], p, [TRAY_UP, EMPTY_READ], 0, "env.fan", FanSubject(TRAY), o);
  }
}
