/** What the entries of an execution say: every transition and every repeat carries the
    report, or the resolve, of the very call that committed it. */
module EventContents {
  import opened Common
  import opened EventTable
  import opened EventFields
  import opened EventJournal
  import opened EventStore
  import opened EventProtocol
  import opened EventGuarantees
  import opened EventConditions

  /** The entry that this call is about to commit on this table. */
  ghost predicate IsEntryOf(t: Table, call: Call, e: Entry) {
    match e
    case Raised(row) =>
      && call.Raising? && (call.point.AtReopen? || call.point.AtInsert?)
      && (call.point.AtReopen? ==>
            exists k :: IsRecentAt(t, k, SigOf(call.report), call.window)
                        && IsReopening(t.rows[k], row, call.report, call.report.detail, t.now))
      && (call.point.AtInsert? ==> IsNewEpisode(row, call.report, call.report.detail, t.nextId, t.now))
    case Repeated(row) =>
      && call.Raising? && (call.point.AtBump? || call.point.AtBumpAgain?)
      && exists k :: IsOpenAt(t, k, SigOf(call.report)) && IsBump(t.rows[k], row, call.report.detail, t.now)
    case Resolved(row) =>
      && call.Closing? && call.todo != []
      && exists k :: IsOpenAt(t, k, call.todo[0]) && IsClosing(t.rows[k], row, call.actor, call.note, t.now)
  }

  /** Step n of the execution committed entry k, and it is that of the call which took it. */
  ghost predicate Committed(now: Time, ls: seq<Label>, k: nat, n: nat) {
    && n < |ls| && ls[n].Advance? && ls[n].c < |Execution(now, ls[..n]).calls|
    && var s := Execution(now, ls[..n]);
       k == |s.journal.log| && k < |Execution(now, ls).journal.log|
       && IsEntryOf(s.journal.table, s.calls[ls[n].c], Execution(now, ls).journal.log[k])
  }

  lemma EntryIsOf(j: Journal, call: Call, e: Entry)
    requires Good(j) && Noted(NextStatement(call), Exec(j.table, NextStatement(call)).row) == [e]
    ensures IsEntryOf(j.table, call, e)
  {
    StatementWrites(j.table, NextStatement(call));
    if call.Raising? {
      ReportIsOnItsSignature(call.report);
      match call.point
      case AtBump =>
      case AtReopen =>
      case AtInsert =>
      case AtBumpAgain(_) =>
    }
  }

  /** In every execution each entry of the log was committed by one step of one call, and
      says what that call was given: severity, title, source and signal for news, device,
      rule and detail for a new episode, nothing but count, time and detail for a repeat,
      actor and note for a resolve. */
  lemma {:induction false} EveryEntrySaysWhatItsCallSaid(now: Time, ls: seq<Label>, k: nat) returns (n: nat)
    requires k < |Execution(now, ls).journal.log|
    ensures Committed(now, ls, k, n)
  {
    n := |ls| - 1;
    var s, l := Execution(now, ls[..n]), ls[n];
    EveryExecutionIsSound(now, ls[..n]);
    StepIsStatement(s, l);
    if k < |s.journal.log| {
      var m := EveryEntrySaysWhatItsCallSaid(now, ls[..n], k);
      StillCommitted(now, ls, k, m);
      n := m;
    } else {
      LastStepCommitted(now, ls, k);
    }
  }

  lemma StillCommitted(now: Time, ls: seq<Label>, k: nat, m: nat)
    requires ls != [] && Committed(now, ls[..|ls| - 1], k, m)
    requires Execution(now, ls[..|ls| - 1]).journal.log <= Execution(now, ls).journal.log
    ensures Committed(now, ls, k, m)
  {
    assert ls[..|ls| - 1][..m] == ls[..m];
  }

  lemma LastStepCommitted(now: Time, ls: seq<Label>, k: nat)
    requires ls != [] && var s := Execution(now, ls[..|ls| - 1]);
             && Sound(s) && |s.journal.log| <= k < |Execution(now, ls).journal.log|
             && Execution(now, ls).journal == Do(s.journal, StatementOf(s, ls[|ls| - 1]))
    ensures Committed(now, ls, k, |ls| - 1)
  {
    var s, l := Execution(now, ls[..|ls| - 1]), ls[|ls| - 1];
    var st := StatementOf(s, l);
    var noted := Noted(st, Exec(s.journal.table, st).row);
    assert noted == [noted[0]] && Execution(now, ls).journal.log[k] == noted[0];
    assert l.Advance? && l.c < |s.calls|;
    EntryIsOf(s.journal, s.calls[l.c], noted[0]);
  }

  /** What others commit between two statements of a call is a run of the journal. */
  lemma {:induction false} InterferenceIsARun(j: Journal, ss: seq<Statement>)
    ensures ExecAll(j.table, ss) == Run(j, ss).table
  {
    if ss != [] {
      InterferenceIsARun(j, ss[..|ss| - 1]);
    }
  }
}
