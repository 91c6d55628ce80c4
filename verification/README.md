# Verified model of switchboard's event engine, topology and stateful cores

This project models, in Dafny, the parts of the repository whose correctness is hard to see from any
one function, and proves what they promise for every input, every run and every interleaving.

* **Events.** `EventTable` is the events table: rows, a clock that never goes back, and every SQL statement
  of `webui/eventstore.py` as one atomic step. `EventJournal` runs any sequence of statements and
  accounts for every transition. `EventStore` is the `EventStore` class with its loops and hooks; between two
  statements of a call a method `Interference` lets other callers commit anything. `EventProtocol` gives
  each public call a program counter and interleaves the calls one statement at a time;
  `EventGuarantees` states what holds in every such execution, `EventRaces` exhibits what does not, and
  `EventConditions` says exactly when. `EventFields` says, column by column, what a statement writes and which
  rows a call means; `EventContents` says it of every entry of every execution.
* **Detection.** `SyslogDetector` merges the two delivery paths of syslog lines; `ReconcilePolicy` says, as functions of what
  the polls reported, which raises and resolves a pass makes; `ReconcileRuns` says what that means over whole runs of
  passes, and `PassContents` which requests that makes, in terms of the rows listed; `SshReconciler` is the class that does
  it with its memories; `StatusPoller` is the poll that feeds it, and `StalePolls` what a pass makes of data older than its
  stamp. `SyslogContents` says what the detector makes of its lines, in terms of what they say.
* **Topology.** `LinkMatching`, `Grouping`, `Discovery` and `Topology` are `build_topology` and `_mac_table_hosts`;
  `TopologyFields` says what is drawn, in terms of the tables given and the edges returned; `Drift`
  is the baseline, its diff and `accept`; `ExternalSignatures` is what the order of devices and entries does to external
  edges. `Ordering` is Python's order on strings and pairs.
* **Cores.** `Forecast` (over real numbers), `Recorder`, `DnsCache`, `Exporter`.

Functions specify; classes and methods carry the state and loops of the source and are proved against those
functions; lemmas say what the functions mean.

## What is proved

* Under any interleaving of single statements: at most one open row per signature, and it is the newest;
  earlier episodes close before later ones are raised; raise and resolve alternate; hooks run exactly once per
  transition; the counts add up to the calls that reported something.
* A guarded poll whose signature did not change since the guard was read changes it only if it last changed no later than
  the poll's stamp; a poll reverses newer news if and only if that news came after the guard was read
  (`EventGuarantees.PollNeverReversesNewerNews`). It does happen: the guard and the statement are two steps
  (`EventRaces.PollCanCloseANewerEventInARace`). An expire closes a fresh event if and only if it was reported after the
  expire took its list; a raise returns nothing if and only if the signature was resolved, and not raised again, between
  its last two statements; `resolve_id` closes another episode than the one asked for if and only if one was raised after
  it read the row; and an insert brings two episodes closer than the window if and only if the earlier one was resolved
  within that window after the call's re-open.
* Over any run of reconcile passes, for any devices, stamps and settings, the memory is a summary of the considered polls,
  and each raise is asked for if and only if the run shows the edge, the rise or the streak it stands for.
* `raise_event` without interference is one atomic "bump, else re-open, else insert"; episodes of a signature are then a
  window apart, and an appended row keeps them so exactly when the newest row closed at least a window ago.
* What the rows of the events table contain is said of their columns: every entry of every execution carries what its call
  was given, and a call that closes events closes those whose columns match, and no others. In the same way: which
  requests a pass makes, for every action there is, is said of the rows it lists and of earlier polls; and a link event is
  open after any batches of lines if and only if the last one that tells of the link says it is down.
* The matching of links is sound and maximal; its signatures do not depend on the order of devices and entries if and only if
  no port faces two others, and those of external edges if and only if no two chassis ids on a port can be merged. Every
  neighbour is drawn exactly once, and so is every MAC row unless a link or host of the same drawing explains it; nothing is
  drawn as a host on the aggregate of a link.
* Claims that fail in the code carry their exact condition: the DNS cache is bounded if and only if `MAX_ENTRIES` is at
  least 10 or no more addresses than that may be looked up; replaying a batch is ignored if and only if it has no line without a timestamp; a relearn leaves no drift if and
  only if no signature is `None`; removing a device from the exporter leaves no series behind, ever, if and
  only if the removal does not overwrite the pending thread of an earlier removal that can still write, which a run from
  an empty exporter does reach.

Where the code and its comments differ, the code is followed. `max_bytes` of the recorder counts characters.
The insert of `raise_event` uses ON CONFLICT DO NOTHING, and its identifier sequence also advances on a conflict.
`last_polled` is stamped when a poll is over, also when it failed or its environment was discarded, so staleness is
relative to the stamp and not to when the data was read: a guarded resolve can close an outage newer than its data,
exactly when the outage began between the read of that data and the stamp (`StalePolls`).

## Model

| member | source | states |
|---|---|---|
| `EventTable.OpenIsNewest` | webui/eventstore.py:212-220 | In every sane table a signature has at most one open row, and `open_for` is then the row `latest_for` returns |
| `EventTable.ReopenPicksNewest` | webui/eventstore.py:121-140 | The re-open statement picks the newest row of the signature, exactly when it closed inside the window; never an older episode |
| `EventTable.InsertKeepsOk` | webui/eventstore.py:141-156 | An insert that the partial unique index lets through keeps episodes ordered: every earlier row closed before the new one is raised |
| `EventTable.PruneKeepsOk` | webui/eventstore.py:279-285 | Retention keeps ids, order and sanity of what is left |
| `EventTable.ExecKeepsOk` | common/db.py:125 | Every statement keeps: ids unique and increasing, one open row per signature, count >= 1 + reopen_count, raised <= reopened <= last seen <= resolved <= now |
| `EventJournal.StatementEffect` | webui/eventstore.py:90-170 | Whatever a statement commits, it commits to the newest row of its signature, and each kind of statement moves it between open and closed in its one direction |
| `EventJournal.PruneSplitsTotal` | webui/eventstore.py:279-285 | Episode, report and open totals before a prune are those kept plus those dropped |
| `EventJournal.PruneDropsNoOpening` | webui/eventstore.py:279-285 | A prune never deletes an open event |
| `EventJournal.NewestAfterPrune` | webui/eventstore.py:279-285 | Retention keeps the newest row of a signature or all of the signature is gone |
| `EventJournal.CommitKeepsLinked` | webui/eventstore.py:90-170 | After every commit the newest row tells the latest transition of its signature |
| `EventJournal.CommitTotal` | webui/eventstore.py:90-170 | How each statement changes the report, episode and open totals of its own signature, and of no other |
| `EventJournal.EveryRunIsGood` | webui/eventstore.py:90-285 | For every sequence of statements: raise and resolve alternate in commit order, and totals over rows and pruned rows equal the counts in the log |
| `EventStore.AloneIsReportOnce` | webui/eventstore.py:99-158 | Bump, re-open and insert tried in turn on one table are the atomic "bump if open, else re-open if recent, else insert" |
| `EventStore.Store.RaiseEvent` | webui/eventstore.py:99-158 | Rejects unknown severities untouched; otherwise the statements run in their order among whatever others commit in between, the raised hook runs once exactly for news, and with no interference the call is one atomic report. In columns: the row returned and announced carries the severity, title, source and signal given, a new episode also kind, device, subject, rule and the clipped detail, a re-open keeps its identity, a repeat changes count, time and detail only; alone, which of the three it is depends on the row that is open or recent |
| `EventStore.RaiseInColumns` | webui/eventstore.py:99-158 | What a report leaves in the table, returns and announces, column by column, among whatever others commit |
| `EventFields.StatementWrites` | webui/eventstore.py:90-170 | Which row each statement writes and what it puts in each column: a bump the open row, a re-open the newest if it closed inside the window, an insert a new one with every column as reported, a resolve the open one with actor and note |
| `EventStore.Store.OpenEpisode` | webui/eventstore.py:118-158 | The same from the point where nothing was open to bump, others committing before and after the insert |
| `EventStore.Store.InsertOrBump` | webui/eventstore.py:146-158 | A first insert is news with its hook; after a lost race the report is bumped onto whatever the others left |
| `EventStore.Store.ResolveSignature` | webui/eventstore.py:160-170 | Closes the one open row of the signature, storing time, actor and clipped note and nothing else, and runs the resolved hook exactly then, with that row |
| `EventStore.Store.CloseSelected` | webui/eventstore.py:172-210 | Select, then resolve one by one: the table and the hooks are those of that loop among whatever others commit before each resolve; if nobody does, exactly the selected rows are closed and announced |
| `EventStore.ClosedAmongNobody` | webui/eventstore.py:179-210 | Among nobody the loop closes exactly the selected rows, in the order they were selected |
| `EventStore.Store.ResolveId` | webui/eventstore.py:172-174 | Reads the row with that id and, if it is open, resolves its signature after whatever others commit; returns and announces the row it closed; alone, that is the row whose id column is the one given, and nothing else changes |
| `EventStore.Store.ResolveOpen` | webui/eventstore.py:179-193 | That loop, one hook for each row closed; alone, a row is closed if and only if it was open and its kind, device and rule columns are the ones given, where given and not empty; whoever interferes, what is announced matched them and carries actor and note |
| `EventStore.Store.Expire` | webui/eventstore.py:195-210 | That loop, one hook for each row closed; alone, a row is closed if and only if it was open, of that kind, last seen before now minus ttl, and of the rule if one is given; whoever interferes, what is announced is of that kind and had a stale row when the call began; nothing for a ttl of zero or less |
| `EventStore.Store.DeleteOld` | webui/eventstore.py:279-285 | A row stays if and only if it is open or was resolved no earlier than keepDays days ago; returns how many went |
| `EventStore.SelectedAreDistinct` | webui/eventstore.py:179-208 | A selection of open rows never lists a signature twice |
| `EventStore.AppendKeepsSpacedIff` | webui/eventstore.py:121-156 | A new row keeps episodes a window apart if and only if the newest row closed at least a window ago |
| `EventStore.PerformKeepsSpaced` | webui/eventstore.py:99-170 | Each uninterrupted call keeps successive episodes of a signature a window apart |
| `EventStore.UninterruptedEpisodesAreSpaced` | webui/eventstore.py:99-170 | So does every run of uninterrupted calls, waits and prunes |
| `EventProtocol.StepOwesItsNews` | webui/eventstore.py:99-170 | Each step of a call owes a hook for exactly the transition its statement committed |
| `EventProtocol.StepLandsItsReport` | webui/eventstore.py:99-158 | A call lands one report when, and only when, a statement of it commits one |
| `EventProtocol.GuardIsStable` | webui/event_reconcile.py:98-135 | No statement of anyone invalidates "if nothing changed since the check, the signature last changed no later than the stamp" |
| `EventProtocol.WatchIsStable` | webui/eventstore.py:195-210 | What expire listed stays stale, or was touched after the list was taken |
| `EventProtocol.StepKeepsSound` | webui/eventstore.py:90-210 | Every step of every call keeps all invariants of the interleaved system |
| `EventProtocol.EveryExecutionIsSound` | common/db.py:528-544 | They hold in every state of every execution, whatever the interleaving |
| `EventGuarantees.HooksRunExactlyOnce` | webui/eventstore.py:59-66 | When no call is between its statement and its hook: each transition fired its hook as often as it happened, raised hooks = sum of 1 + reopen_count, resolved hooks = that minus the open rows |
| `EventGuarantees.EveryReportIsCountedOnce` | webui/eventstore.py:99-158 | The counts of all rows, pruned ones included, add up to the calls that reported something; openings per signature are 0 or 1; transitions alternate |
| `EventGuarantees.PollNeverReversesNewerNews` | webui/event_reconcile.py:98-135 | In every execution a guarded call that changes a signature nobody changed since its check finds it last changed no later than the stamp; for a stamp older than the check it reverses newer news if and only if there was news since the check |
| `EventGuarantees.ExpireClosesFreshIffReported` | webui/eventstore.py:195-210 | In every execution an expire closes an event that is not stale if and only if the event was reported, within its time to live, after the expire took its list |
| `EventGuarantees.EveryReportSawItOpen` | webui/eventstore.py:99-158 | Every call that got past its insert had a moment inside it when its signature was open |
| `EventGuarantees.EmptyReturnIffResolvedSince` | webui/eventstore.py:156-158 | A call whose insert was refused ends without a row if and only if the latest news of its signature since that refusal is a resolve; otherwise it returns the row it bumped |
| `EventGuarantees.NothingIsReturnedIff` | webui/eventstore.py:99-158 | Over every execution a call has returned nothing if and only if some step of it was the last bump after such a resolve; a call with no such resolve returns a row |
| `EventRaces.SoloRaise` | webui/eventstore.py:99-158 | The interleaved protocol, run alone, does exactly one atomic report |
| `EventRaces.EpisodesCanTouchUnderInterleaving` | webui/eventstore.py:121-156 | Two episodes can be less than a window apart when a resolve falls between re-open and insert |
| `EventRaces.RaiseCanReturnNothing` | webui/eventstore.py:158 | A raise can end with no row and no news |
| `EventRaces.ExpireCanCloseAFreshReport` | webui/eventstore.py:195-210 | An expire can close an event reported in that very moment |
| `EventRaces.PollCanCloseANewerEventInARace` | webui/event_reconcile.py:122-135 | A poll can close an event that came back between its check and its resolve |
| `EventRaces.ResolveIdCanCloseALaterEpisode` | webui/eventstore.py:172-174 | Closing an id can close a later episode than the one asked for, because the row is read first and then resolved by signature |
| `EventContents.EveryEntrySaysWhatItsCallSaid` | webui/eventstore.py:99-170 | In every execution each entry of the log was committed by one step of one call and carries what that call was given: news its severity, title, source and signal, a new episode also kind, device, subject, rule and detail, a resolve its actor and note; what a statement does not write stays as it was |
| `EventContents.InterferenceIsARun` | webui/eventstore.py:90-170 | What others commit between two statements of a call leaves the table that a run of those statements leaves |
| `EventConditions.ResolveIdClosesALaterEpisodeIff` | webui/eventstore.py:172-174 | In every execution, at any moment after resolve_id read its open row when the signature is open, the open row has another id if and only if another episode of the signature was raised since the read; that row is what the call closes |
| `EventConditions.InsertBreaksSpacingIff` | webui/eventstore.py:121-156 | In every execution, an accepted insert of a call whose re-open found nothing puts two episodes closer than the window if and only if the signature still has a row and was resolved, less than a window ago, since that re-open |
| `SyslogDetector.NewestIsMax` | webui/event_detect.py:130-146 | The cursor after a batch is the maximum of the cursor and the batch's timestamps |
| `SyslogDetector.CursorIsRunningMaximum` | webui/event_detect.py:130-146 | Over any batches the cursor is the largest timestamp ever delivered |
| `SyslogDetector.TwoPathsAreOneStream` | webui/app.py:768-774 | A timed line is evaluated if and only if it is newer than every line of every earlier batch of either path |
| `SyslogDetector.ReplayIsIgnored` | webui/event_detect.py:130-146 | Replaying an earlier batch evaluates nothing if and only if every line has a timestamp; the cursor stays in any case |
| `SyslogDetector.BoundedMemoryCounts` | webui/event_detect.py:271-279 | In time order the last n entries count as many recent downs as the whole history, capped at n |
| `SyslogDetector.FlapDecidesFromFullHistory` | webui/event_detect.py:271-279 | The ten-entry memory decides flapping as the whole history would |
| `SyslogDetector.FlapsIffThreeRecentDowns` | webui/event_detect.py:271-279 | A link-down line also raises flapping if and only if that port went down at least three times in the last 300 s of all lines ever heard |
| `SyslogDetector.HeardIsDowns` | webui/event_detect.py:271-275 | What is remembered of a port is when lines reported it down |
| `SyslogDetector.SyslogDetector.Raise` | webui/event_detect.py:150-158 | An ignored severity is counted and dropped; anything else is one report to the store, with the kind, severity, title, device and subject of the act and the source and detail of the line, and counts as acted only if it opened something |
| `SyslogDetector.SyslogDetector.Resolve` | webui/event_detect.py:160-165 | Resolves exactly the signature of the act's kind, the line's device id, or device if that is empty, and the subject; alone, that event is closed with the actor and note and no other row changes |
| `SyslogDetector.SyslogDetector.Flap` | webui/event_detect.py:271-279 | Remembers the down and raises flapping as the specification says |
| `SyslogDetector.SyslogDetector.One` | webui/event_detect.py:167-269 | A line makes exactly the raises and resolves its verdict and the flap memory call for, in order, and the table alone is what they make of it |
| `SyslogDetector.SyslogDetector.Down` | webui/event_detect.py:193-195 | A link going down is raised first, and flapping after it if the memory says so |
| `SyslogDetector.SyslogDetector.Process` | webui/event_detect.py:130-148 | A batch evaluates exactly its new lines in order, moves the cursor to its maximum and returns the transitions made; a batch with nothing new changes nothing |
| `SyslogContents.NewLinesAreEvaluated` | webui/event_detect.py:130-148 | The lines evaluated are those of the batch, in order, that have no timestamp or one beyond the cursor |
| `SyslogContents.LineDoesWhatItSays` | webui/event_detect.py:167-279 | After any lines: a link going down raises port.link_down with its severity, and port.flapping with its own exactly when that port of that device went down three times within 300 s; a link coming up clears port.link_down of that port and nothing else |
| `SyslogContents.LinkIsOpenIffLastDown` | webui/event_detect.py:186-200 | With nobody interfering, after any lines a link_down of a device and port is open if and only if the last evaluated line that tells of that link says down with a severity, or none tells and it was open |
| `SyslogContents.ProcessAll` | webui/app.py:768-774 | So it is after any batches of lines: the detector leaves exactly those links open whose last word is down |
| `ReconcileRuns.LinkRaisesAreObservedEdges` | webui/event_reconcile.py:156-178 | Over any run of passes over any devices, a pass asks for a link-down raise if and only if it brings a poll not considered before in which the port shows down, is not ignored, and was last seen up, or is seen first with an override |
| `ReconcileRuns.NeverUpNeverRaised` | webui/event_reconcile.py:156-178 | Over any run a port no considered poll showed up, without an override, is never raised |
| `ReconcilePolicy.MemoryIsLastState` | webui/event_reconcile.py:156-178 | Within a poll the memory of a port becomes the last state listed for it, whatever it was before, and other devices keep theirs |
| `ReconcilePolicy.CounterIsLastTotal` | webui/event_reconcile.py:273-304 | Within a poll the memory of a counter becomes the last total listed for it, whatever it was before, and other devices keep theirs |
| `ReconcileRuns.ErrorRaisesAreRealRises` | webui/event_reconcile.py:273-304 | Over any run a pass asks for an error raise if and only if it brings a poll not considered before in which the port is up and the total rose by at least the threshold since it was last shown |
| `ReconcileRuns.DropRebaselines` | webui/event_reconcile.py:273-304 | After any run, a poll that lists a port once with a total below the one last shown makes no call about that counter, and the total a poll last shows is the new base |
| `ReconcileRuns.AboutCounter` | webui/event_reconcile.py:273-304 | Over any run, a poll that lists a port once makes one call about a counter, and none if it is not counted, not up, has no earlier total, dropped, or rose by something below the threshold |
| `ReconcileRuns.LinkClosesAreListedUp` | webui/event_reconcile.py:156-178 | Over any run a pass asks for the guarded resolve of a link if and only if it brings a poll not considered before that lists the port up, and with the stamp of that poll |
| `ReconcilePolicy.DeltasTelescope` | webui/event_reconcile.py:273-304 | Deltas add up to the last total minus the base |
| `ReconcilePolicy.FlatNeverRaises` | webui/event_reconcile.py:273-304 | A counter that never moves is never raised, for any length of history |
| `ReconcilePolicy.StreakIsLongestSuffix` | webui/event_reconcile.py:306-341 | Independent definition: the longest run of high readings at the end |
| `ReconcilePolicy.PassesAreTheStreak` | webui/event_reconcile.py:306-341 | The pass counter over any readings is that run of highs |
| `ReconcileRuns.MeterRaisesIffStreakReachesPolls` | webui/event_reconcile.py:306-341 | Over any run a pass asks for a CPU or memory raise if and only if it brings a new reading that ends a run of highs at least as long as the configured polls |
| `ReconcilePolicy.OneActionPerBay` | webui/event_reconcile.py:180-202 | Every fan tray and supply of an environment gets exactly one action |
| `ReconcileRuns.OneActionPerListedBay` | webui/event_reconcile.py:180-202 | Over any run, a pass over a new poll asks for exactly one thing about every fan tray and supply it lists: the raise if it is faulted, the guarded resolve with the stamp of the poll if it is not |
| `ReconcileRuns.FanActsAreListed` | webui/event_reconcile.py:180-202 | Over any run, which actions on fan trays a pass asks for: raises for faulted rows, guarded resolves for healthy ones, both with the stamp of the poll, and nothing else |
| `ReconcileRuns.PsuActsAreListed` | webui/event_reconcile.py:180-202 | The same for power supplies |
| `ReconcilePolicy.SameStampChangesNothing` | webui/event_reconcile.py:67-89 | A second pass with the same stamp changes no memory but the failure count and asks for nothing but the reachability action |
| `ReconcileRuns.SeenIsLastStamp` | webui/event_reconcile.py:67-76 | After any run the stamp remembered of a device is the last one it came with |
| `ReconcileRuns.PortMemoryOfRun` | webui/event_reconcile.py:156-178 | After any run the memory of every port of every device is the state it was last seen in over the considered polls |
| `ReconcileRuns.CounterMemoryOfRun` | webui/event_reconcile.py:273-304 | After any run the memory of every counter is the total it last showed in a considered poll |
| `ReconcileRuns.PassMemoryOfRun` | webui/event_reconcile.py:306-341 | After any run the CPU and memory counters are the streak of highs over the considered polls of the device |
| `ReconcileRuns.FailureMemoryOfRun` | webui/event_reconcile.py:139-150 | After any run the failure count of a device is the streak of its failing passes, considered polls or not |
| `ReconcileRuns.UnreachableIffStreakReachesPolls` | webui/event_reconcile.py:139-154 | Over any run a pass asks for an unreachable raise if and only if it ends a streak of failing passes of its device that reaches max(1, polls), and asks to close the event if and only if it is stamped and does not fail |
| `ReconcileRuns.RepeatedStampChangesNothing` | webui/event_reconcile.py:67-76 | Over any run a pass with the stamp its device last came with asks for the reachability action only and changes no other memory |
| `PassContents.PassAsksWhatItMust` | webui/event_reconcile.py:67-341 | Over any run of passes over any devices, for every action there is, a pass asks for it if and only if the rows it lists, what considered polls before it last showed, and the settings say so, written out on their fields: raises, resolves at once and guarded resolves, each with its kind, subject, severity and stamp |
| `PassContents.ReachIsAsked` | webui/event_reconcile.py:139-154 | The unreachable raise at an error that ends enough errors in a row; its resolve, at once, at a stamped pass without error |
| `PassContents.LinksAreAsked` | webui/event_reconcile.py:156-178 | The link raise of a port listed down that was last shown up, or never shown and has an override; the guarded resolve of a port listed up; nothing else |
| `PassContents.CountersAreAsked` | webui/event_reconcile.py:273-304 | The counter raise when the total - input errors, output errors, or both discards added - rose by the threshold since it was last shown on a port that is up; the resolve, at once, when it did not move; nothing in between and nothing at a drop |
| `PassContents.FansAreAsked` | webui/event_reconcile.py:180-190 | The raise of a fan tray whose tray or either fan is not up, the guarded resolve otherwise, subjects and severities written out |
| `PassContents.PsusAreAsked` | webui/event_reconcile.py:190-202 | The same for power supplies |
| `PassContents.ResolvesComeFirst` | webui/event_reconcile.py:180-202 | Of what a pass asks about fan trays and supplies, every resolve comes before every raise |
| `PassContents.CpuIsAsked` | webui/event_reconcile.py:306-325 | The CPU raise at a reading of at least the raise percentage that ends enough such readings; the resolve, at once, at a reading below it and at most the clear percentage; nothing between the two |
| `PassContents.MemoryIsAsked` | webui/event_reconcile.py:326-341 | The same for memory |
| `SshReconciler.CloseKeepsNewer` | webui/event_reconcile.py:122-135 | A resolve that passed the check does not undo anything newer than the stamp |
| `SshReconciler.RaiseKeepsNewer` | webui/event_reconcile.py:98-120 | Nor does a raise that was not superseded |
| `SshReconciler.SshReconciler.Raise` | webui/event_reconcile.py:113-120 | Ignored or superseded by a resolve after the stamp: nothing happens; otherwise one report after and among whatever others commit, carrying kind, severity, device and subject of the request; if nobody does, the table is that of the request and nothing newer than the stamp is undone |
| `SshReconciler.SshReconciler.Close` | webui/event_reconcile.py:122-135 | If the event is open and last opened before the stamp, or there is no stamp to compare, its signature is resolved after whatever others commit, otherwise nothing happens; if nobody commits, that row alone is closed and nothing newer than the stamp is undone |
| `SshReconciler.SshReconciler.Port` | webui/event_reconcile.py:156-178 | One interface: the memory and the calls of the specification |
| `SshReconciler.SshReconciler.Ports` | webui/event_reconcile.py:156-178 | All interfaces, each looking at the memory the earlier ones left |
| `SshReconciler.SshReconciler.InterfaceErrors` | webui/event_reconcile.py:273-304 | All counters of one interface against the totals recorded before |
| `SshReconciler.SshReconciler.Errors` | webui/event_reconcile.py:273-304 | All interfaces that count |
| `SshReconciler.SshReconciler.Environment` | webui/event_reconcile.py:180-202 | Resolves of healthy bays first, then one raise per distinct fault |
| `SshReconciler.SshReconciler.Compute` | webui/event_reconcile.py:306-341 | Both counters move as specified and make the specified calls |
| `SshReconciler.SshReconciler.Reconcile` | webui/event_reconcile.py:67-91 | A whole pass leaves exactly the memory and asks for exactly the actions of the specification; the table, if nobody interferes, is what these actions make of it; returns the transitions |
| `SshReconciler.ReconcileAll` | webui/app.py:833-844 | Rounds of passes over the devices: after any run the object holds the memory of the run, so that what holds of runs holds of it |
| `StatusPoller.FillMissing` | webui/status_poller.py:125-141 | The list grows by exactly the bays known and not reported, in order, and the known set by those reported |
| `StatusPoller.DeviceStatus.PollOnce` | webui/status_poller.py:453-523 | All that is kept is a function of the polls: the interfaces of the last one answered, the environment of the last one not discarded as empty with every bay listed before filled in, removed and down in every status; error and stamp of the last one; an exception after the bays were learned keeps the data and the bays |
| `StatusPoller.StatusDelivers` | webui/status_poller.py:453-523 | So a pass that reads what the poller keeps is one that these polls deliver |
| `StatusPoller.SubjectsAreInjective` | webui/event_reconcile.py:180-202 | Two different numbered bays never share an event subject |
| `StatusPoller.NoBayIsForgotten` | webui/event_reconcile.py:180-202 | After any polls and any run of passes, a pass over a new poll acts once on every bay any poll ever listed - a guarded resolve if the held read showed it up, a raise if it was faulted or missing - except bays listed since only by polls that then broke off |
| `StalePolls.FailedPollIsConsideredAgain` | webui/event_reconcile.py:74-80 | After a failed poll a pass with its stamp is fresh, and considers the same ports in the same states and the same environment again, as of the new stamp |
| `StalePolls.StaleDataClosesIff` | webui/event_reconcile.py:122-135 | A pass may close an outage newer than the ports it reads if and only if that read lists the port up, no later poll was answered, and the outage began between the read and the stamp of the latest poll, be it the same one |
| `StalePolls.SafeIffStampIsTheRead` | webui/event_reconcile.py:122-135 | A pass can close no outage newer than its data if and only if the port is not listed up or the stamp leaves no instant after the read |
| `StalePolls.StaleDataCanCloseANewerOutage` | webui/status_poller.py:514-523 | It happens with one good read and one poll that times out |
| `StalePolls.SlowPollCanCloseANewerOutage` | webui/status_poller.py:478-523 | It happens with a single poll that goes well, and with last_error unset |
| `StalePolls.StaleEnvClosesIff` | webui/event_reconcile.py:122-135 | A pass may close a fan or supply fault newer than the environment it reads if and only if that environment lists the bay healthy, none was kept since - a poll answered with an empty one keeps the old - and the fault began between the read and the stamp |
| `StalePolls.StaleEnvRaisesIff` | webui/event_reconcile.py:98-120 | A raise may undo a resolve newer than the environment it reads if and only if the status lists the bay faulted, none was kept since, and the resolve fell between the read and the stamp |
| `StalePolls.EmptyReadCanCloseANewerFault` | webui/status_poller.py:487-491 | It happens with an empty environment, and with last_error unset |
| `Drift.SignatureIsTheUnorderedPair` | webui/topology.py:447-472 | Two internal edges have one signature if and only if they join the same two ports, in either direction; it holds just these ports, the lesser one first |
| `Drift.LiveOf` | webui/topology.py:475-493 | The signatures that take part in a diff are those that exist, in order |
| `Drift.ComputeDiff` | webui/topology.py:475-493 | Added holds just the signatures drawn that are not in the baseline, each once, in the order drawn; removed just those of the baseline, None included, that are not drawn, each once, in its order; no baseline, no diff |
| `Drift.DiffIsDifference` | webui/topology.py:475-493 | The functions of the diff are these differences, by membership and order |
| `Drift.AcceptLeavesExactlyTheRest` | webui/topology_store.py:37-54 | After accepting any part of the drift a new diff is exactly the rest |
| `Drift.AcceptingAllLeavesNothing` | webui/topology_store.py:37-54 | Accepting all of it leaves none |
| `Drift.AcceptIntroducesNoDuplicate` | webui/topology_store.py:37-54 | For any baseline: what is not removed stays in front, in order and as often as before; anything else that is added comes once |
| `Drift.RelearnLeavesNoDriftIff` | webui/app.py:3569 | After saving all signatures nothing is added, and something is removed if and only if a signature was None |
| `Drift.TopologyStore.Accept` | webui/topology_store.py:37-54 | The stored baseline becomes the accepted one, a missing baseline counting as empty: a stored entry that is not removed stays as often as it was, any other that is added is there once, and nothing else is |
| `Drift.TopologyStore.Save` | webui/topology_store.py:26-35 | The stored baseline becomes the given one |
| `LinkMatching.Find` | webui/topology.py:267-279 | The first unclaimed entry of another device, in order, that corroborates; none only if there is none |
| `LinkMatching.MatchDevice` | webui/topology.py:262-301 | Adds sound links only, keeps earlier ones, and afterwards none of the device's entries has a partner left |
| `LinkMatching.MatchLinks` | webui/topology.py:259-301 | Draws the greedy matching; each end of a link is an entry of its device that names the port at the other end, with the aggregate the entry names, else the one its port is a member of, else none; no port twice; of two entries that name each other one port at least is an end |
| `LinkMatching.MatchingIsListed` | webui/topology.py:218-301 | A sound maximal matching says this of the fields of entries and ends |
| `LinkMatching.LinksAreFacingPorts` | webui/topology.py:259-301 | If no port faces two others, every pair of facing ports is drawn |
| `LinkMatching.SignaturesDoNotDependOnOrder` | webui/topology.py:447-472 | Then the set of signatures is the same for any order of devices and entries |
| `LinkMatching.GreedyIsMatching` | webui/topology.py:259-301 | For every order of devices and entries the loops end in a sound maximal matching |
| `LinkMatching.OrderDoesNotMatterIffUnambiguous` | webui/topology.py:259-301 | The signatures drawn are the same for every order of devices and entries if and only if no port faces two others |
| `LinkMatching.SameNamesAreAmbiguous` | webui/topology.py:275 | Three devices whose cabled port is called "1" are drawn A-B in one order of devices and A-C in another |
| `Grouping.GroupBy` | webui/topology.py:320-331 | Groups in order of first appearance, each holding exactly the values with its key, in order |
| `Grouping.GroupingSorts` | webui/topology.py:320-331 | Each group holds the values at exactly the places of the list that have its key, in order, and groups come in the order of their first places |
| `Discovery.MergeMacToIp` | webui/topology.py:167-180 | The first row of a MAC decides its address |
| `Discovery.GroupHosts` | webui/topology.py:320-362 | Unclaimed neighbours are grouped by port and chassis, and groups merged by resolved address |
| `Discovery.EveryNeighbourIsDrawnOnce` | webui/topology.py:320-433 | Every neighbour on an unclaimed port is shown by exactly one external edge of its device and logical port |
| `Discovery.NothingIsInvented` | webui/topology.py:320-433 | What an external edge shows some table of its device reported on an unclaimed port |
| `Discovery.EdgeNamesEveryChassis` | webui/topology.py:403-433 | An edge names each merged chassis, as its primary or among its other names |
| `Discovery.PortEdges` | webui/topology.py:143-164 | The MACs of a port are split by identity, every MAC in an edge and no other |
| `Discovery.DeviceEdges` | webui/topology.py:114-164 | The MAC-table edges of a device draw exactly its rows that are not suppressed |
| `Discovery.EveryMacIsDrawnOnceOrSuppressed` | webui/topology.py:86-164 | A row is suppressed or drawn, never both or neither; two MACs of a port share an edge if and only if they have one identity |
| `Discovery.EdgeNamesEveryMac` | webui/topology.py:143-164 | An edge is labelled with its identity and names every MAC it stands for |
| `Topology.CollectMacs` | webui/topology.py:384-390 | A MAC is collected for a port if and only if it is, in lower case, the chassis id or a port id of a neighbour grouped there |
| `Topology.CollectIps` | webui/topology.py:401-417 | An address is collected for a port if and only if some LLDP host on it is drawn with that address |
| `Topology.BuildTopology` | webui/topology.py:182-444 | What is returned, said of the tables given: links named by both ends, with their aggregates; one external edge for each address or chassis id that neighbours on a logical port are known as, showing just their ports, chassis ids and labels, the address of the first, and the MAC-table mark; every MAC-table row in exactly one MAC edge of the rows known as the same, unless its port is an end of a link or the aggregate of one, or LLDP shows its MAC or its address there; no host on a link or on the aggregate its end is a member of |
| `TopologyFields.TransitIsNotDrawn` | webui/topology.py:86-164 | No MAC edge is on a port that is an end of a link, nor on an aggregate that the end's table entries name, or that its port is a member of when they name none |
| `Topology.EdgeIs` | webui/topology.py:333-433 | An edge shows exactly the neighbours known as one: ports, chassis ids, labels and address |
| `TopologyFields.GroupAddress` | webui/topology.py:333-344 | The address of a chassis on a port is that of its id in lower case, else of the first port id, in table order, that has one that is not empty |
| `Topology.SuppressedIffExplained` | webui/topology.py:125-135 | A row is kept back if and only if its port is an end of a link, or named like an aggregate and the lag of one, or a neighbour on that port has the MAC as chassis or port id, or an edge drawn there shows its address |
| `Topology.UplinksAre` | webui/topology.py:377-382 | An aggregate counts as an uplink if and only if an end of some link carries it as its lag |
| `Topology.SeenIffAHostIsListed` | webui/topology.py:391-416 | An edge is marked as seen in the MAC table if and only if the table lists, on its port, a chassis or port id that LLDP shows there |
| `ExternalSignatures.ExternalOrderDoesNotMatterIff` | webui/topology.py:333-433 | The signatures of external edges are the same for every order of devices and entries if and only if no two chassis ids on one port can be merged into one host |
| `ExternalSignatures.FirstSigns` | webui/topology.py:403-408 | Of two neighbours that are merged, the one met first signs for both |
| `ExternalSignatures.EdgesAreSigned` | webui/topology.py:447-472 | These signatures are what is read off the edges drawn |
| `ExternalSignatures.TheDrawingDoesNotDependOnOrder` | webui/topology.py:447-472 | With neither ambiguity all signatures, of links and external edges, are the same in every order |
| `Forecast.DenomIsZeroIffTimesAreEqual` | webui/trending.py:199-201 | There is no fit if and only if all samples are of one time |
| `Forecast.FitIsNormal` | webui/trending.py:202-203 | The residuals of the fitted line add up to zero, also weighted by time |
| `Forecast.ErrorAround` | webui/trending.py:202-203 | Any other line's squared error is that of the fitted line plus the squared gaps between them |
| `Forecast.FitIsLeastSquares` | webui/trending.py:202-203 | No other line has a smaller squared error, and none an equal one |
| `Forecast.ForecastMeetsTarget` | webui/trending.py:206-215 | A forecast names the one moment, after the last sample, when the fitted line takes the target value |
| `Forecast.ForecastIsGiven` | webui/trending.py:192-215 | Whenever the line heads for the target and meets it after the last sample there is a forecast |
| `Forecast.ForecastIsTheClosestLine` | webui/trending.py:192-221 | A forecast is the one line with the least squared error over the samples, extended from the last of at least six to the target, which it heads for: slope a day and days to go are those of that line |
| `Forecast.ForecastIsGivenIff` | webui/trending.py:192-215 | It is given if and only if there are six samples and such a line |
| `Recorder.Recorder.Append` | webui/bastion.py:176-178 | Chunks are numbered 1, 2, ... without gaps, whether or not the store keeps them |
| `Recorder.Recorder.FlushLocked` | webui/bastion.py:219-229 | What was buffered becomes one chunk; the transcript is unchanged |
| `Recorder.Recorder.Output` | webui/bastion.py:180-196 | Output within the limit is appended, and written with all that waits exactly when that makes 4096 characters or two seconds have passed; the first that exceeds the limit flushes, notes the cut and ends the stream; less than a chunk stays buffered |
| `Recorder.Recorder.Line` | webui/bastion.py:198-201 | A line is a chunk of its own, after everything shown before it |
| `Recorder.Recorder.Note` | webui/bastion.py:203-206 | So is a note |
| `Recorder.Recorder.Tick` | webui/bastion.py:208-213 | What waits is written exactly if two seconds have passed, so nothing older stays unwritten |
| `Recorder.Recorder.Flush` | webui/bastion.py:215-217 | Afterwards the chunks alone are the transcript |
| `Recorder.Recorder.Run` | webui/bastion.py:161-229 | Any sequence of calls leaves the transcript those calls mean, whatever the clock and the store did |
| `Recorder.AllThatFitsIsKept` | webui/bastion.py:180-196 | While all output fits, the transcript is everything in order |
| `Recorder.CutAtFirstOverflow` | webui/bastion.py:180-196 | Otherwise it is everything before the first call that did not fit, one note, and then lines and notes only |
| `Recorder.TruncatedIffTooMuchWasSent` | webui/bastion.py:180-196 | Recording is cut if and only if more output was sent than may be kept; what is kept never exceeds the limit |
| `DnsCache.DnsCache.LookUp` | webui/dns_cache.py:116-131 | One locked section answers exactly the addresses whose entry expires after now, with its name; counts them as hits and the others as misses; and claims exactly those not answered, not in flight and fit to be looked up |
| `DnsCache.DnsCache.ReverseMany` | webui/dns_cache.py:105-148 | A request starts one task for each such address, and returns exactly the non-empty names the cache held or those tasks answered in time |
| `DnsCache.DnsCache.Evict` | webui/dns_cache.py:85-90 | Evicts nothing below the limit, else a tenth of it rounded down, and those expire no later than every survivor |
| `DnsCache.DnsCache.Store` | webui/dns_cache.py:82-92 | Stores the name, good for the positive lifetime if there is one and the negative lifetime if not; evicted entries go, all others stay as they were; the address is no longer in flight |
| `DnsCache.EveryRunHasOneTaskEach` | webui/dns_cache.py:94-134 | In every run an address in flight has exactly one task, any other none |
| `DnsCache.EveryClaimIsAnsweredOnce` | webui/dns_cache.py:94-134 | Lookups begun are answers stored plus the one in flight |
| `DnsCache.CacheHoldsTheLastAnswer` | webui/dns_cache.py:82-92 | Whatever is cached is the last answer stored for that address |
| `DnsCache.BoundedIffTenEntries` | webui/dns_cache.py:85-90 | Where ten addresses or more may be looked up, the cache never exceeds MAX_ENTRIES if and only if MAX_ENTRIES is at least 10 |
| `DnsCache.BoundedIffTenEntriesOrFewAddresses` | webui/dns_cache.py:85-90 | For any configuration the cache never exceeds MAX_ENTRIES in any run if and only if MAX_ENTRIES is at least 10 or no more addresses than that may be looked up |
| `Exporter.OnePollerPerDevice` | exporter/exporter.py:440-448 | In every reachable state a device has at most one live thread not told to stop |
| `Exporter.NothingIsLeftBehind` | exporter/exporter.py:450-480 | As long as main forgets no thread, a device gone and swept has no series in any state |
| `Exporter.ReaddingLateForgetsNobody` | exporter/exporter.py:470 | Re-adding devices only after their old thread exited is enough for that |
| `Exporter.SafeIffNobodyIsForgotten` | exporter/exporter.py:450-480 | Removing a device is safe for ever if and only if the removal does not overwrite a pending thread that can still write |
| `Exporter.AddingAgainTooEarlyForgets` | exporter/exporter.py:450-470 | From an empty exporter, adding a device, removing it while its thread is in a cycle, adding and removing it again reaches that removal, and then a state with a series of a device neither polled nor awaited |
| `Exporter.ThreadsKeepTables` | exporter/exporter.py:346-396 | Poll threads never touch main's tables, and one that exited stays so |
| `Exporter.Exporter.EnsurePolled` | exporter/exporter.py:444-448 | A device without a live thread gets one, not stopped and about to start; otherwise nothing changes |
| `Exporter.Exporter.StopPolling` | exporter/exporter.py:450-470 | The thread on file, and no other, is told to stop; it leaves the table of threads and is awaited |
| `Exporter.Exporter.SweepIfExited` | exporter/exporter.py:472-478 | Series are swept if and only if the awaited thread has exited: those of that device go and no others |
| `Exporter.Exporter.ClearDeviceMetrics` | exporter/exporter.py:104-122 | A series stays if and only if it is of another device |
| `Exporter.Exporter.Pass` | exporter/exporter.py:425-480 | After a pass exactly the supported devices are polled; whoever was awaited, or is stopped now, stays awaited with its thread or is swept: certainly if the thread had exited before the pass, and only if it has exited by its end, whether the device is back or gone; a series is lost only if its device was awaited and is swept |

## Left out

- `webui/eventstore.py`: labels, `list`, `summary`, `get` and `open_events`, which only read; a hook that raises, which the source logs and ignores.
- Signatures are hashes in the source; here the triple itself, so hashing is taken to be injective.
- Postgres reconnects and retries, and several processes on one database; statements are serialised by one connection.
- The exception branch around the re-open of `raise_event`: on one connection its NOT EXISTS guard and the update are one step, so the unique index cannot be hit there.
- SyslogDetector.SyslogDetector.One: what the patterns and classifiers make of a line other than a link going up or down is an input (raises and clears with their titles), and an exception inside a line, which the source logs before it goes on, is not modelled.
- SyslogDetector.SyslogDetector.Process: the cursor is unlocked in the source; batches are taken to arrive one at a time.
- SshReconciler.SshReconciler.Reconcile: the optics checks, titles and details are not modelled; settings are one value for the pass.
- SshReconciler.SshReconciler.Perform: the effect of several requests on the table is stated for a stretch that nothing interrupts; that of one request is stated among others, and interleavings are in `EventProtocol`.
- SshReconciler.ReconcileAll: an exception in the pass of one device, which the source logs before it goes on to the next, is not modelled.
- StatusPoller.DeviceStatus.PollOnce: OS9 polls; Junos and OPNsense polls, transceivers, and a status read while a poll is still writing it are not modelled.
- StatusPoller.NoBayIsForgotten: bay and unit names are digits, as the OS9 parsers give them, and the held read lists a bay once.
- SshReconciler.SshReconciler.Raise: the title and detail of the report, which are formatted text, are not those of the source.
- SshReconciler.SshReconciler.Close: the detail of the resolve is not carried.
- Topology.BuildTopology: the list of device nodes, which copies the registry, is not modelled; member ports are a set where the source sorts them.
- ExternalSignatures.ExternalOrderDoesNotMatterIff: is stated for given claimed ports; they are the same in every order if no port faces two others.
- LLDP, ARP and MAC-table parsing; timestamps are integers, and seconds for the forecast.
- `evaluate_decline`, `evaluate_deviation` and the sample tables of `webui/trending.py`: single-branch arithmetic and SQL. Floating-point rounding: the forecast is over real numbers.
- `LineAssembler` and the session around the recorder; the wording of the recorder's cut note.
- DnsCache.DnsCache.ReverseMany: which answers arrive before the deadline is an input; forward lookups are not modelled; ties between equal expiry times may fall either way.
- DnsCache.BoundedIffTenEntries: is the case of ten or more addresses; `DnsCache.BoundedIffTenEntriesOrFewAddresses` is the general one.
- Exporter.Exporter.ClearDeviceMetrics: is one step in the interleaved system; no live thread of the device runs during it unless the device was added again.
- Exporter.Exporter.Pass: a registry that cannot be read changes nothing and is not modelled; which metrics a poll sets is any metric of its device.
- SSH, HTTP, WebSocket and Prometheus plumbing, the frontend, roles and tokens.
