/** webui/event_detect.py: syslog lines in, event transitions out.  What the
    patterns made of a line is an input; the cursor, the dispatch of a link
    line and the flap memory are modelled. */
module SyslogDetector {
  import opened Common
  import opened EventTable
  import opened EventFields
  import opened EventStore

  const CHOICES: set<string> := SEVERITIES + {"ignore"}
  const FLAP_SECONDS: int := 300
  const FLAP_DOWNS: nat := 3
  const FLAP_MEMORY: nat := 10

  // A severity as the settings store it: one of CHOICES.
  type Choice = s: string | s in CHOICES witness "info"

  datatype Act =
    | Fault(kind: string, subject: string, title: string, severity: Choice, ruleId: Option<string>)
    | Clear(kind: string, subject: string)

  datatype Verdict =
    | LinkDown(port: string, severity: Choice, flapSeverity: Choice)
    | LinkUp(port: string)
    | Other(acts: seq<Act>)

  /** `timestamp` is 0 when the line has none; `heardAt` is the monotonic clock
      when the line is processed. */
  datatype Line = Line(timestamp: int, heardAt: int, deviceId: string, device: string, message: string,
                       signalAt: Option<string>, verdict: Verdict)

  type PortKey = (string, string)

  function KeyOf(line: Line, port: string): PortKey {
    (if line.deviceId != "" then line.deviceId else line.device, port)
  }

  // --- the cursor -----------------------------------------------------------------

  predicate Considered(cursor: int, line: Line) {
    line.timestamp == 0 || line.timestamp > cursor
  }

  function Evaluated(cursor: int, batch: seq<Line>): seq<Line> {
    if batch == [] then []
    else Evaluated(cursor, batch[..|batch| - 1]) +
         if Considered(cursor, batch[|batch| - 1]) then [batch[|batch| - 1]] else []
  }

  function Newest(cursor: int, batch: seq<Line>): int {
    if batch == [] then cursor
    else
      var newest := Newest(cursor, batch[..|batch| - 1]);
      if Considered(cursor, batch[|batch| - 1]) then Max(newest, batch[|batch| - 1].timestamp) else newest
  }

  function CursorAfter(batches: seq<seq<Line>>): int {
    if batches == [] then 0 else Newest(CursorAfter(batches[..|batches| - 1]), batches[|batches| - 1])
  }

  /** `ts` is among the timestamps of the batches. */
  ghost predicate Seen(batches: seq<seq<Line>>, ts: int) {
    exists b, i :: 0 <= b < |batches| && 0 <= i < |batches[b]| && batches[b][i].timestamp == ts
  }

  lemma {:induction false} NewestIsMax(cursor: int, batch: seq<Line>)
    requires cursor >= 0
    ensures Newest(cursor, batch) >= cursor
    ensures forall i :: 0 <= i < |batch| ==> batch[i].timestamp <= Newest(cursor, batch)
    ensures Newest(cursor, batch) == cursor ||
              exists i :: 0 <= i < |batch| && batch[i].timestamp == Newest(cursor, batch)
  {
    if batch != [] {
      var front := batch[..|batch| - 1];
      NewestIsMax(cursor, front);
      if Newest(cursor, front) != cursor {
        var i :| 0 <= i < |front| && front[i].timestamp == Newest(cursor, front);
        assert batch[i].timestamp == Newest(cursor, front);
      }
    }
  }

  /** The cursor is the running maximum of every timestamp in every batch. */
  lemma {:induction false} CursorIsRunningMaximum(batches: seq<seq<Line>>)
    ensures CursorAfter(batches) >= 0
    ensures forall ts :: Seen(batches, ts) ==> ts <= CursorAfter(batches)
    ensures CursorAfter(batches) == 0 || Seen(batches, CursorAfter(batches))
  {
    if batches != [] {
      var n := |batches| - 1;
      var front := batches[..n];
      CursorIsRunningMaximum(front);
      NewestIsMax(CursorAfter(front), batches[n]);
      forall ts | Seen(batches, ts)
        ensures ts <= CursorAfter(batches)
      {
        var b, i :| 0 <= b < |batches| && 0 <= i < |batches[b]| && batches[b][i].timestamp == ts;
        if b < n {
          assert front[b][i].timestamp == ts;
          assert Seen(front, ts);
        }
      }
      if CursorAfter(batches) != 0 && CursorAfter(batches) == CursorAfter(front) {
        var b, i :| 0 <= b < n && 0 <= i < |front[b]| && front[b][i].timestamp == CursorAfter(front);
        assert batches[b][i].timestamp == CursorAfter(front);
      }
    }
  }

  /** Whichever path delivers it, a timestamped line is evaluated exactly when it
      is newer than everything in all earlier batches. */
  lemma TwoPathsAreOneStream(batches: seq<seq<Line>>, line: Line)
    requires line.timestamp > 0
    ensures Considered(CursorAfter(batches), line) <==> forall ts :: Seen(batches, ts) ==> ts < line.timestamp
  {
    CursorIsRunningMaximum(batches);
  }

  lemma {:induction false} EvaluatesNoneIff(cursor: int, batch: seq<Line>)
    ensures Evaluated(cursor, batch) == [] <==> forall i :: 0 <= i < |batch| ==> !Considered(cursor, batch[i])
  {
    if batch != [] {
      EvaluatesNoneIff(cursor, batch[..|batch| - 1]);
    }
  }

  /** Delivering an earlier batch again evaluates nothing and leaves the cursor,
      exactly when the batch has no line without a timestamp. */
  lemma ReplayIsIgnored(batches: seq<seq<Line>>, b: nat)
    requires b < |batches|
    ensures Evaluated(CursorAfter(batches), batches[b]) == [] <==>
            forall i :: 0 <= i < |batches[b]| ==> batches[b][i].timestamp != 0
    ensures Newest(CursorAfter(batches), batches[b]) == CursorAfter(batches)
  {
    var cursor := CursorAfter(batches);
    CursorIsRunningMaximum(batches);
    forall i | 0 <= i < |batches[b]|
      ensures Considered(cursor, batches[b][i]) <==> batches[b][i].timestamp == 0
      ensures batches[b][i].timestamp <= cursor
    {
      assert Seen(batches, batches[b][i].timestamp);
    }
    EvaluatesNoneIff(cursor, batches[b]);
    NewestIsMax(cursor, batches[b]);
  }

  // --- flapping ---------------------------------------------------------------------

  function LastN(h: seq<int>, n: nat): seq<int> {
    if |h| <= n then h else h[|h| - n..]
  }

  /** How many of the times lie within the flap window before `now`. */
  function RecentCount(h: seq<int>, now: int): nat {
    if h == [] then 0
    else RecentCount(h[..|h| - 1], now) + if now - h[|h| - 1] <= FLAP_SECONDS then 1 else 0
  }

  ghost predicate NonDecreasing(h: seq<int>) {
    forall i, j :: 0 <= i < j < |h| ==> h[i] <= h[j]
  }

  lemma {:induction false} NoneRecent(h: seq<int>, now: int)
    requires forall i :: 0 <= i < |h| ==> now - h[i] > FLAP_SECONDS
    ensures RecentCount(h, now) == 0
  {
    if h != [] {
      NoneRecent(h[..|h| - 1], now);
    }
  }

  lemma LastNSnoc(h: seq<int>, n: nat)
    requires h != [] && n > 0
    ensures var l := LastN(h, n);
            l != [] && l[|l| - 1] == h[|h| - 1] && l[..|l| - 1] == LastN(h[..|h| - 1], n - 1)
  {
  }

  /** A bounded memory counts what the full history counts, up to its bound. */
  lemma {:induction false} BoundedMemoryCounts(h: seq<int>, n: nat, now: int)
    requires NonDecreasing(h)
    ensures RecentCount(LastN(h, n), now) == if RecentCount(h, now) <= n then RecentCount(h, now) else n
  {
    if n == 0 {
      assert LastN(h, n) == [];
    } else if h != [] {
      if now - h[|h| - 1] > FLAP_SECONDS {
        AllAreOld(h, n, now);
      } else {
        OneMoreRecent(h, n, now);
        BoundedMemoryCounts(h[..|h| - 1], n - 1, now);
      }
    }
  }

  lemma OneMoreRecent(h: seq<int>, n: nat, now: int)
    requires h != [] && n > 0 && now - h[|h| - 1] <= FLAP_SECONDS
    ensures RecentCount(h, now) == RecentCount(h[..|h| - 1], now) + 1
    ensures RecentCount(LastN(h, n), now) == RecentCount(LastN(h[..|h| - 1], n - 1), now) + 1
  {
    LastNSnoc(h, n);
  }

  /** When even the last time is too old, so are all before it. */
  lemma AllAreOld(h: seq<int>, n: nat, now: int)
    requires h != [] && NonDecreasing(h) && now - h[|h| - 1] > FLAP_SECONDS
    ensures RecentCount(h, now) == 0 && RecentCount(LastN(h, n), now) == 0
  {
    forall i | 0 <= i < |h|
      ensures now - h[i] > FLAP_SECONDS
    {
      assert i < |h| - 1 ==> h[i] <= h[|h| - 1];
    }
    NoneRecent(h, now);
    NoneRecent(LastN(h, n), now);
  }

  function Remember(downs: seq<int>, now: int): seq<int> {
    LastN(downs + [now], FLAP_MEMORY)
  }

  /** The ten remembered downs decide the same as the whole history. */
  lemma FlapDecidesFromFullHistory(h: seq<int>, now: int)
    requires NonDecreasing(h + [now])
    ensures Remember(LastN(h, FLAP_MEMORY), now) == LastN(h + [now], FLAP_MEMORY)
    ensures RecentCount(Remember(LastN(h, FLAP_MEMORY), now), now) >= FLAP_DOWNS <==>
              RecentCount(h + [now], now) >= FLAP_DOWNS
  {
    BoundedMemoryCounts(h + [now], FLAP_MEMORY, now);
  }

  lemma OneMoreLine(cursor: int, heard: map<PortKey, seq<int>>, batch: seq<Line>, i: nat, source: string)
    requires i < |batch|
    ensures var e, e' := Evaluated(cursor, batch[..i]), Evaluated(cursor, batch[..i + 1]);
            if Considered(cursor, batch[i]) then
              && e' == e + [batch[i]]
              && Newest(cursor, batch[..i + 1]) == Max(Newest(cursor, batch[..i]), batch[i].timestamp)
              && HeardAfterAll(heard, e') == HeardAfter(HeardAfterAll(heard, e), batch[i])
              && IssuedBy(heard, e', source) == IssuedBy(heard, e, source) + Tagged(batch[i], source,
                  ActsOf(HeardAfterAll(heard, e), batch[i]))
            else e' == e && Newest(cursor, batch[..i + 1]) == Newest(cursor, batch[..i])
  {
    assert batch[..i + 1][..i] == batch[..i];
    var e := Evaluated(cursor, batch[..i]);
    assert (e + [batch[i]])[..|e|] == e;
  }

  function Head(text: string, n: nat): string {
    if |text| > n then text[..n] else text
  }

  /** An act of a line, as handed to the store or ignored. */
  datatype Issued = Issued(line: Line, source: string, act: Act)

  function Tagged(line: Line, source: string, acts: seq<Act>): seq<Issued> {
    seq(|acts|, i requires 0 <= i < |acts| => Issued(line, source, acts[i]))
  }

  function ReportOf(line: Line, act: Act, source: string): Report
    requires act.Fault?
  {
    Report(act.kind, act.severity, line.deviceId, line.device, act.subject, act.title, Some(Head(line.message, 1000)),
           act.ruleId, source, line.signalAt)
  }

  function ClearedBy(line: Line, act: Act): Signature {
    Signature(act.kind, if line.deviceId != "" then line.deviceId else line.device, act.subject)
  }

  /** What handing on one act does to the table when nobody interferes. */
  function Handled(t: Table, i: Issued): Table {
    match i.act
    case Fault(_, _, _, severity, _) =>
      if severity == "ignore" then t
      else ReportOnce(t, Clipped(ReportOf(i.line, i.act, i.source)), REOPEN_WITHIN_SECONDS).table
    case Clear(_, _) => Exec(t, Resolve(ClearedBy(i.line, i.act), i.source, NoteOf(i.line))).table
  }

  function NoteOf(line: Line): Option<string> {
    Clip(Some(Head(line.message, 500)), 2000)
  }

  function HandledAll(t: Table, handed: seq<Issued>): Table {
    if handed == [] then t else Handled(HandledAll(t, handed[..|handed| - 1]), handed[|handed| - 1])
  }

  lemma {:induction false} HandledInTwoParts(t: Table, a: seq<Issued>, b: seq<Issued>)
    ensures HandledAll(t, a + b) == HandledAll(HandledAll(t, a), b)
  {
    if b == [] {
      assert a + b == a;
    } else {
      HandledInTwoParts(t, a, b[..|b| - 1]);
      assert (a + b)[..|a + b| - 1] == a + b[..|b| - 1] && (a + b)[|a + b| - 1] == b[|b| - 1];
    }
  }

  /** The table, what has been handed on, and how many statements others committed. */
  datatype Progress = Progress(table: Table, issued: seq<Issued>, others: nat)

  /** Between two moments exactly this was handed on, and if nobody interfered the table
      is what it makes of it. */
  ghost predicate Handed(a: Progress, b: Progress, handed: seq<Issued>) {
    && b.issued == a.issued + handed && a.others <= b.others
    && (a.others == b.others ==> b.table == HandledAll(a.table, handed))
  }

  lemma HandedNothing(a: Progress)
    ensures Handed(a, a, [])
  {
  }

  lemma HandedOne(a: Progress, b: Progress, i: Issued)
    requires b.issued == a.issued + [i] && a.others <= b.others
    requires a.others == b.others ==> b.table == Handled(a.table, i)
    ensures Handed(a, b, [i])
  {
    assert [i][..0] == [];
  }

  lemma HandedTwice(a: Progress, b: Progress, c: Progress, x: seq<Issued>, y: seq<Issued>)
    requires Handed(a, b, x) && Handed(b, c, y)
    ensures Handed(a, c, x + y)
  {
    HandledInTwoParts(a.table, x, y);
    Reassociate(a.issued, x, y);
  }

  lemma TaggedInTwoParts(line: Line, source: string, a: seq<Act>, b: seq<Act>)
    ensures Tagged(line, source, a + b) == Tagged(line, source, a) + Tagged(line, source, b)
  {
  }

  // --- the detector -------------------------------------------------------------------

  /** The report made of a fault on a line, column by column. */
  predicate IsLineReport(r: Report, line: Line, act: Act, source: string)
    requires act.Fault?
  {
    && r.kind == act.kind && r.subject == act.subject && r.severity == act.severity && r.title == act.title
    && r.deviceId == line.deviceId && r.device == line.device && r.ruleId == act.ruleId
    && r.source == source && r.signalAt == line.signalAt
    && r.detail.Some? && r.detail.value <= line.message
    && |r.detail.value| == if |line.message| < 1000 then |line.message| else 1000
  }

  lemma ReportIsOf(line: Line, act: Act, source: string)
    requires act.Fault?
    ensures IsLineReport(ReportOf(line, act, source), line, act, source)
  {
  }

  lemma NoteIsOf(line: Line)
    ensures IsClip(Some(line.message), 500, NoteOf(line))
  {
  }

  class SyslogDetector {
    const store: Store
    var cursor: int
    var downs: map<PortKey, seq<int>>
    var ignored: nat
    var acted: nat
    // Every act handed to the store or ignored, in order, and every down ever heard.
    ghost var issued: seq<Issued>
    ghost var heard: map<PortKey, seq<int>>

    ghost predicate Valid()
      reads this, store
    {
      && store.Valid()
      && downs.Keys == heard.Keys
      && forall k :: k in heard ==> downs[k] == LastN(heard[k], FLAP_MEMORY)
    }

    ghost function Now(): Progress
      reads this, store
    {
      Progress(store.table, issued, |store.others|)
    }

    constructor (store: Store)
      requires store.Valid()
      ensures Valid() && this.store == store && cursor == 0 && downs == map[] && issued == [] && ignored == acted == 0
    {
      this.store := store;
      cursor, ignored, acted := 0, 0, 0;
      downs, heard, issued := map[], map[], [];
    }

    /** _raise: an ignored severity drops the fault, anything else is reported. */
    method Raise(line: Line, act: Act, source: string) returns (n: nat)
      requires Valid() && act.Fault?
      modifies this`ignored, this`issued, store
      ensures Valid() && issued == old(issued) + Tagged(line, source, [act])
      ensures Handed(old(Now()), Now(), Tagged(line, source, [act]))
      ensures act.severity == "ignore" ==> n == 0 && ignored == old(ignored) + 1 && store.table == old(store.table)
      ensures act.severity != "ignore" ==> ignored == old(ignored)
      ensures act.severity != "ignore" && |store.others| == |old(store.others)| ==>
                var r := Clipped(ReportOf(line, act, source));
                && store.table == ReportOnce(old(store.table), r, REOPEN_WITHIN_SECONDS).table
                && n == if IsOpen(old(store.table), r.Sig()) then 0 else 1
      ensures Transitions() == old(Transitions()) + n
      // In terms of the columns.
      ensures act.severity != "ignore" ==>
                exists r :: IsLineReport(r, line, act, source) &&
                            ReportWasMade(r, old(store.table), store.table, n == 1,
                                          old(store.raisedHooks), store.raisedHooks,
                                          |store.others| == |old(store.others)|)
    {
      ghost var i0 := Now();
      issued := issued + Tagged(line, source, [act]);
      assert Tagged(line, source, [act]) == [Issued(line, source, act)];
      if act.severity == "ignore" {
        ignored := ignored + 1;
        HandedOne(i0, Now(), Issued(line, source, act));
        return 0;
      }
      ReportIsOf(line, act, source);
      var outcome := store.RaiseEvent(ReportOf(line, act, source), None);
      n := if outcome.news then 1 else 0;
      HandedOne(i0, Now(), Issued(line, source, act));
    }

    method Resolve(line: Line, act: Act, source: string) returns (n: nat)
      requires Valid() && act.Clear?
      modifies this`issued, store
      ensures Valid() && issued == old(issued) + Tagged(line, source, [act])
      ensures Handed(old(Now()), Now(), Tagged(line, source, [act]))
      ensures var done := Exec(old(store.table), EventTable.Resolve(ClearedBy(line, act), source, NoteOf(line)));
              store.table == done.table && n == if done.row.Some? then 1 else 0
      ensures Transitions() == old(Transitions()) + n
      // In terms of the columns.
      ensures exists note: Option<string>, row: Option<Row> ::
                && IsClip(Some(line.message), 500, note) && (n == 1 <==> row.Some?)
                && Closes(old(store.table), DeviceSig(act.kind, line, act.subject), source, note, store.table, row)
    {
      ghost var i0 := Now();
      issued := issued + Tagged(line, source, [act]);
      assert Tagged(line, source, [act]) == [Issued(line, source, act)];
      NoteIsOf(line);
      StatementWrites(store.table, EventTable.Resolve(ClearedBy(line, act), source, NoteOf(line)));
      var row := store.ResolveSignature(ClearedBy(line, act), source, Some(Head(line.message, 500)));
      n := if row.Some? then 1 else 0;
      HandedOne(i0, Now(), Issued(line, source, act));
    }

    /** Hooks run so far: the transitions the store has made for its callers. */
    ghost function Transitions(): nat
      reads store
    {
      |store.raisedHooks| + |store.resolvedHooks|
    }

    /** _flap */
    method Flap(line: Line, port: string, severity: Choice, source: string) returns (n: nat)
      requires Valid()
      modifies this`downs, this`ignored, this`issued, this`heard, store
      ensures Valid()
      ensures var key := KeyOf(line, port); var before := if key in old(heard) then old(heard)[key] else [];
              && heard == old(heard)[key := before + [line.heardAt]]
              && Handed(old(Now()), Now(), Tagged(line, source, FlapActs(line, port, severity, before)))
      ensures Transitions() == old(Transitions()) + n
    {
      var key := KeyOf(line, port);
      var q := Remember(if key in downs then downs[key] else [], line.heardAt);
      downs := downs[key := q];
      heard := heard[key := (if key in heard then heard[key] else []) + [line.heardAt]];
      n := 0;
      assert Tagged(line, source, []) == [];
      HandedNothing(Now());
      var recent := RecentCount(q, line.heardAt);
      if recent >= FLAP_DOWNS {
        n := Raise(line, FlapFault(line, port, severity, recent), source);
      }
    }

    /** _one: the acts of a line, link lines first looking at the flap memory. */
    method One(line: Line, source: string) returns (n: nat)
      requires Valid()
      modifies this`downs, this`ignored, this`issued, this`heard, store
      ensures Valid()
      ensures heard == HeardAfter(old(heard), line)
      ensures Handed(old(Now()), Now(), Tagged(line, source, ActsOf(old(heard), line)))
      ensures Transitions() == old(Transitions()) + n
    {
      match line.verdict
      case LinkDown(port, severity, flapSeverity) =>
        n := Down(line, port, severity, flapSeverity, source);
      case LinkUp(port) =>
        n := Resolve(line, Clear("port.link_down", port), source);
      case Other(acts) =>
        n := Each(line, acts, source);
    }

    /** A link went down: raise it, then see whether it flaps. */
    method Down(line: Line, port: string, severity: Choice, flapSeverity: Choice, source: string) returns (n: nat)
      requires Valid()
      modifies this`downs, this`ignored, this`issued, this`heard, store
      ensures Valid() && Transitions() == old(Transitions()) + n
      ensures var before := Before(old(heard), KeyOf(line, port));
              && heard == old(heard)[KeyOf(line, port) := before + [line.heardAt]]
              && Handed(old(Now()), Now(),
                        Tagged(line, source,
                               [DownFault(line, port, severity)] + FlapActs(line, port, flapSeverity, before)))
    {
      ghost var before, i0 := Before(heard, KeyOf(line, port)), Now();
      var a := Raise(line, DownFault(line, port, severity), source);
      ghost var i1 := Now();
      var b := Flap(line, port, flapSeverity, source);
      n := a + b;
      ghost var down, flaps := [DownFault(line, port, severity)], FlapActs(line, port, flapSeverity, before);
      TaggedInTwoParts(line, source, down, flaps);
      HandedTwice(i0, i1, Now(), Tagged(line, source, down), Tagged(line, source, flaps));
    }

    /** The faults and clears of a line that is not about a link, in order. */
    method Each(line: Line, acts: seq<Act>, source: string) returns (n: nat)
      requires Valid()
      modifies this`ignored, this`issued, store
      ensures Valid() && Handed(old(Now()), Now(), Tagged(line, source, acts))
      ensures Transitions() == old(Transitions()) + n
    {
      n := 0;
      HandedNothing(Now());
      assert Tagged(line, source, acts[..0]) == [];
      for i := 0 to |acts|
        invariant Valid() && Handed(old(Now()), Now(), Tagged(line, source, acts[..i]))
        invariant Transitions() == old(Transitions()) + n
      {
        var m := 0;
        ghost var before := Now();
        if acts[i].Fault? {
          m := Raise(line, acts[i], source);
        } else {
          m := Resolve(line, acts[i], source);
        }
        n := n + m;
        TaggedInTwoParts(line, source, acts[..i], [acts[i]]);
        HandedTwice(old(Now()), before, Now(), Tagged(line, source, acts[..i]), Tagged(line, source, [acts[i]]));
        assert acts[..i + 1] == acts[..i] + [acts[i]];
      }
      assert acts[..|acts|] == acts;
    }

    /** Evaluates exactly the lines newer than the cursor (and those without a
        timestamp), moves the cursor, and returns the transitions made. */
    method Process(batch: seq<Line>, source: string) returns (n: nat)
      requires Valid()
      modifies this, store
      ensures Valid()
      ensures cursor == Newest(old(cursor), batch)
      ensures heard == HeardAfterAll(old(heard), Evaluated(old(cursor), batch))
      ensures Handed(old(Now()), Now(), IssuedBy(old(heard), Evaluated(old(cursor), batch), source))
      ensures Transitions() == old(Transitions()) + n && acted == old(acted) + n
      ensures Evaluated(old(cursor), batch) == [] ==>
                store.table == old(store.table) && downs == old(downs) && ignored == old(ignored) && n == 0
    {
      n := 0;
      var newest := cursor;
      HandedNothing(Now());
      for i := 0 to |batch|
        invariant Valid() && cursor == old(cursor) && acted == old(acted)
        invariant newest == Newest(cursor, batch[..i])
        invariant heard == HeardAfterAll(old(heard), Evaluated(cursor, batch[..i]))
        invariant Handed(old(Now()), Now(), IssuedBy(old(heard), Evaluated(cursor, batch[..i]), source))
        invariant Transitions() == old(Transitions()) + n
        invariant Evaluated(cursor, batch[..i]) == [] ==>
                    store.table == old(store.table) && downs == old(downs) && ignored == old(ignored) && n == 0
      {
        OneMoreLine(cursor, old(heard), batch, i, source);
        if batch[i].timestamp != 0 && batch[i].timestamp <= cursor {
          continue;
        }
        newest := Max(newest, batch[i].timestamp);
        ghost var before, acts := Now(), Tagged(batch[i], source, ActsOf(heard, batch[i]));
        var m := One(batch[i], source);
        n := n + m;
        HandedTwice(old(Now()), before, Now(), IssuedBy(old(heard), Evaluated(cursor, batch[..i]), source), acts);
      }
      assert batch[..|batch|] == batch;
      cursor := newest;
      acted := acted + n;
    }
  }

  /** A report reached the store: whoever interfered, news was announced as reported;
      alone, the table is one report further. */
  ghost predicate ReportWasMade(r: Report, t: Table, u: Table, news: bool, hooks: seq<Row>, hooks': seq<Row>,
                                alone: bool) {
    && (if news then |hooks'| == |hooks| + 1 && hooks <= hooks' && SaysWhatWasReported(Some(hooks'[|hooks|]), true, r)
        else hooks' == hooks)
    && (alone ==> exists row :: IsOneReport(t, r, 900, u, row, news))
  }

  /** The signature of something on the line's device. */
  function DeviceSig(kind: string, line: Line, subject: string): (sig: Signature)
    ensures sig.kind == kind && sig.subject == subject
    ensures sig.deviceKey == if line.deviceId == "" then line.device else line.deviceId
  {
    Signature(kind, if line.deviceId == "" then line.device else line.deviceId, subject)
  }

  // --- what the detector does, as functions of the lines and the downs heard ---------------

  function DownFault(line: Line, port: string, severity: Choice): Act {
    Fault("port.link_down", port, "Link down: " + port + " on " + line.device, severity, None)
  }

  function FlapFault(line: Line, port: string, severity: Choice, recent: nat): Act {
    Fault("port.flapping", port,
          "Link flapping: " + port + " on " + line.device + " (" + Decimal(recent) + " downs in 5 min)", severity, None)
  }

  function FlapActs(line: Line, port: string, severity: Choice, before: seq<int>): seq<Act> {
    var recent := RecentCount(Remember(LastN(before, FLAP_MEMORY), line.heardAt), line.heardAt);
    if recent >= FLAP_DOWNS then [FlapFault(line, port, severity, recent)] else []
  }

  function Before(heard: map<PortKey, seq<int>>, key: PortKey): seq<int> {
    if key in heard then heard[key] else []
  }

  function HeardAfter(heard: map<PortKey, seq<int>>, line: Line): map<PortKey, seq<int>> {
    match line.verdict
    case LinkDown(port, _, _) => heard[KeyOf(line, port) := Before(heard, KeyOf(line, port)) + [line.heardAt]]
    case _ => heard
  }

  function ActsOf(heard: map<PortKey, seq<int>>, line: Line): seq<Act> {
    match line.verdict
    case LinkDown(port, severity, flapSeverity) =>
      [DownFault(line, port, severity)] + FlapActs(line, port, flapSeverity, Before(heard, KeyOf(line, port)))
    case LinkUp(port) => [Clear("port.link_down", port)]
    case Other(acts) => acts
  }

  function HeardAfterAll(heard: map<PortKey, seq<int>>, lines: seq<Line>): map<PortKey, seq<int>> {
    if lines == [] then heard else HeardAfter(HeardAfterAll(heard, lines[..|lines| - 1]), lines[|lines| - 1])
  }

  /** Everything a run of lines hands to the store, in order. */
  function IssuedBy(heard: map<PortKey, seq<int>>, lines: seq<Line>, source: string): seq<Issued> {
    if lines == [] then []
    else
      var front, last := lines[..|lines| - 1], lines[|lines| - 1];
      IssuedBy(heard, front, source) + Tagged(last, source, ActsOf(HeardAfterAll(heard, front), last))
  }

  // --- flapping, from the lines alone ---------------------------------------------------------

  /** When the lines reported this port down. */
  function DownsOf(lines: seq<Line>, key: PortKey): seq<int> {
    if lines == [] then []
    else
      var last := lines[|lines| - 1];
      DownsOf(lines[..|lines| - 1], key) +
      if last.verdict.LinkDown? && KeyOf(last, last.verdict.port) == key then [last.heardAt] else []
  }

  ghost predicate InTimeOrder(lines: seq<Line>) {
    forall i, j :: 0 <= i < j < |lines| ==> lines[i].heardAt <= lines[j].heardAt
  }

  lemma {:induction false} HeardIsDowns(lines: seq<Line>, key: PortKey)
    ensures Before(HeardAfterAll(map[], lines), key) == DownsOf(lines, key)
  {
    if lines != [] {
      HeardIsDowns(lines[..|lines| - 1], key);
    }
  }

  lemma {:induction false} DownsAreOrdered(lines: seq<Line>, key: PortKey)
    requires InTimeOrder(lines)
    ensures NonDecreasing(DownsOf(lines, key))
    ensures forall t :: t in DownsOf(lines, key) ==> t <= lines[|lines| - 1].heardAt
  {
    if lines != [] {
      var front := lines[..|lines| - 1];
      DownsAreOrdered(front, key);
      var d := DownsOf(front, key);
      assert forall i :: 0 <= i < |d| ==> d[i] in d;
    }
  }

  /** A link-down line also raises port.flapping exactly when the port went down
      at least three times in the last 300 seconds of everything ever heard. */
  lemma FlapsIffThreeRecentDowns(lines: seq<Line>, line: Line)
    requires line.verdict.LinkDown? && InTimeOrder(lines + [line])
    ensures var port := line.verdict.port;
            |ActsOf(HeardAfterAll(map[], lines), line)| == 2 <==>
            RecentCount(DownsOf(lines + [line], KeyOf(line, port)), line.heardAt) >= FLAP_DOWNS
  {
    var key := KeyOf(line, line.verdict.port);
    assert (lines + [line])[..|lines|] == lines;
    HeardIsDowns(lines, key);
    DownsAreOrdered(lines + [line], key);
    FlapDecidesFromFullHistory(DownsOf(lines, key), line.heardAt);
  }
}
