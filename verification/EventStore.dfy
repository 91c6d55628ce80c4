/** webui/eventstore.py: the calls of the event store, each a sequence of the
    statements of EventTable.  Between two of them other callers may commit anything;
    what a call does alone is stated beside that.  EventProtocol interleaves the
    steps of many calls. */
module EventStore {
  import opened Common
  import opened EventTable
  import opened EventFields

  const REOPEN_WITHIN_SECONDS: int := 900
  const SEVERITIES: set<string> := {"info", "warning", "critical"}

  datatype Outcome = BadSeverity | Reported(row: Option<Row>, news: bool)

  /** `(detail or "")[:limit] or None` */
  function Clip(detail: Option<string>, limit: nat): Option<string> {
    if detail == None || detail.value == "" then None
    else if |detail.value| > limit then (if limit == 0 then None else Some(detail.value[..limit]))
    else detail
  }

  function Clipped(report: Report): Report {
    report.(detail := Clip(report.detail, 4000))
  }

  // --- what one report means --------------------------------------------------

  /** Bump what is open, else re-open the newest episode if it closed within
      the window, else start a new one. */
  function ReportOnce(t: Table, report: Report, window: int): (done: Result)
    ensures done.row.Some?
  {
    var n := LastIndex(t.rows, AnyOf(report.Sig()));
    if n >= 0 && t.rows[n].Open() then Put(t, n, Bumped(t.rows[n], t.now, report.detail))
    else if n >= 0 && window > 0 && t.rows[n].resolvedAt.value > t.now - window * SECOND then
      Put(t, n, Reopened(t.rows[n], t.now, report))
    else
      var r := Fresh(t.nextId, t.now, report);
      Result(t.(rows := t.rows + [r], nextId := t.nextId + 1), Some(r))
  }

  predicate IsOpen(t: Table, sig: Signature) {
    OpenFor(t, sig).Some?
  }

  function ExecAll(t: Table, ss: seq<Statement>): Table {
    if ss == [] then t else Exec(ExecAll(t, ss[..|ss| - 1]), ss[|ss| - 1]).table
  }

  predicate Distinct<T(==)>(s: seq<T>) {
    forall a, b :: 0 <= a < b < |s| ==> s[a] != s[b]
  }

  // --- which open events a call closes -----------------------------------------

  datatype Selection =
    | ById(id: nat)
    | OpenMatching(kind: Option<string>, deviceId: Option<string>, ruleId: Option<string>)
    | StaleFor(staleKind: string, ttlSeconds: int, staleRule: Option<string>)

  predicate Picks(s: Selection, r: Row, now: Time) {
    && r.Open()
    && match s {
         case ById(id) => r.id == id
         case OpenMatching(kind, deviceId, ruleId) =>
           && (kind.Some? ==> r.sig.kind == kind.value)
           && (deviceId.Some? ==> r.deviceId == deviceId)
           && (ruleId.Some? ==> r.ruleId == ruleId)
         case StaleFor(kind, ttl, ruleId) =>
           && r.sig.kind == kind
           && r.lastSeenAt < now - ttl * SECOND
           && (ruleId.Some? ==> r.ruleId == ruleId)
       }
  }

  /** SELECT signature FROM events WHERE ... */
  function Selected(rows: seq<Row>, now: Time, s: Selection): (sigs: seq<Signature>)
    ensures forall sig :: sig in sigs ==> exists i :: 0 <= i < |rows| && rows[i].sig == sig && Picks(s, rows[i], now)
    ensures forall i :: 0 <= i < |rows| && Picks(s, rows[i], now) ==> rows[i].sig in sigs
  {
    if rows == [] then []
    else
      var last := rows[|rows| - 1];
      var front := Selected(rows[..|rows| - 1], now, s);
      assert forall i :: 0 <= i < |rows| ==> i == |rows| - 1 || rows[..|rows| - 1][i] == rows[i];
      if Picks(s, last, now) then front + [last.sig] else front
  }

  lemma {:induction false} SelectedAreDistinct(rows: seq<Row>, now: Time, s: Selection)
    requires Ordered(rows)
    ensures Distinct(Selected(rows, now, s))
  {
    if rows != [] {
      var front, last := rows[..|rows| - 1], rows[|rows| - 1];
      SelectedAreDistinct(front, now, s);
      forall i | 0 <= i < |front| && front[i].sig == last.sig
        ensures !Picks(s, front[i], now)
      {
        assert InOrder(rows[i], rows[|rows| - 1]);
      }
      assert forall a :: 0 <= a < |Selected(front, now, s)| ==> Selected(front, now, s)[a] in Selected(front, now, s);
    }
  }

  /** The table in which exactly the chosen rows have been closed. */
  ghost predicate ClosesExactly(before: Table, after: Table, chosen: seq<Signature>, s: Selection, actor: string,
                                note: Option<string>) {
    && after.nextId == before.nextId && after.now == before.now
    && |after.rows| == |before.rows|
    && forall i :: 0 <= i < |before.rows| ==>
         after.rows[i] == if Picks(s, before.rows[i], before.now) && before.rows[i].sig in chosen
                          then Closed(before.rows[i], before.now, actor, note) else before.rows[i]
  }

  lemma CloseOneMore(before: Table, mid: Table, done: seq<Signature>, sig: Signature, s: Selection, actor: string,
                     note: Option<string>)
    requires Ok(before) && ClosesExactly(before, mid, done, s, actor, note) && sig !in done
    requires exists i :: 0 <= i < |before.rows| && before.rows[i].sig == sig && Picks(s, before.rows[i], before.now)
    ensures var next := Exec(mid, Resolve(sig, actor, note));
            next.row.Some? && ClosesExactly(before, next.table, done + [sig], s, actor, note)
  {
    var m :| 0 <= m < |before.rows| && before.rows[m].sig == sig && Picks(s, before.rows[m], before.now);
    OnlyOneToClose(before, mid, done, sig, s, actor, note, m);
    var next := Exec(mid, Resolve(sig, actor, note));
    assert next.table.rows == mid.rows[m := Closed(mid.rows[m], mid.now, actor, note)];
  }

  /** The row a resolve finds part way through is the one that was chosen. */
  lemma OnlyOneToClose(before: Table, mid: Table, done: seq<Signature>, sig: Signature, s: Selection, actor: string,
                       note: Option<string>, m: nat)
    requires Ok(before) && ClosesExactly(before, mid, done, s, actor, note) && sig !in done
    requires m < |before.rows| && before.rows[m].sig == sig && Picks(s, before.rows[m], before.now)
    ensures LastIndex(mid.rows, OpenOf(sig)) == m && mid.rows[m] == before.rows[m]
    ensures forall i :: 0 <= i < |before.rows| && before.rows[i].sig == sig && i != m ==>
              !Picks(s, before.rows[i], before.now)
  {
    OpenIsNewest(before, sig);
    var k := LastIndex(mid.rows, OpenOf(sig));
    assert Matches(OpenOf(sig), mid.rows[m]);
    assert before.rows[k].sig == sig && before.rows[k].Open();
  }

  /** The selected rows as they will be when closed, in the order they are selected. */
  function ClosedRows(rows: seq<Row>, now: Time, s: Selection, actor: string, note: Option<string>): seq<Row> {
    if rows == [] then []
    else
      var last := rows[|rows| - 1];
      ClosedRows(rows[..|rows| - 1], now, s, actor, note) +
      if Picks(s, last, now) then [Closed(last, now, actor, note)] else []
  }

  /** One closed row per selected signature. */
  lemma {:induction false} SelectedRows(rows: seq<Row>, now: Time, s: Selection, actor: string, note: Option<string>)
    ensures var sigs, closed := Selected(rows, now, s), ClosedRows(rows, now, s, actor, note);
            |closed| == |sigs| && forall i :: 0 <= i < |sigs| ==>
              closed[i].sig == sigs[i] && HasClosed(rows, now, s, actor, note, closed[i])
  {
    if rows != [] {
      var front := rows[..|rows| - 1];
      SelectedRows(front, now, s, actor, note);
      var closed := ClosedRows(front, now, s, actor, note);
      forall i | 0 <= i < |closed|
        ensures HasClosed(rows, now, s, actor, note, closed[i])
      {
        assert HasClosed(front, now, s, actor, note, closed[i]);
        var m :| 0 <= m < |front| && Picks(s, front[m], now) && closed[i] == Closed(front[m], now, actor, note);
        assert rows[m] == front[m];
      }
      if Picks(s, rows[|rows| - 1], now) {
        assert HasClosed(rows, now, s, actor, note, Closed(rows[|rows| - 1], now, actor, note));
      }
    }
  }

  /** `r` is a selected row, closed. */
  ghost predicate HasClosed(rows: seq<Row>, now: Time, s: Selection, actor: string, note: Option<string>, r: Row) {
    exists m :: 0 <= m < |rows| && Picks(s, rows[m], now) && r == Closed(rows[m], now, actor, note)
  }

  /** The i-th resolve closes the i-th selected row. */
  lemma ClosesNext(before: Table, mid: Table, sigs: seq<Signature>, closed: seq<Row>, i: nat, s: Selection,
                   actor: string, note: Option<string>)
    requires Ok(before) && Chosen(before, sigs, closed, s, actor, note) && i < |sigs|
    requires ClosesExactly(before, mid, sigs[..i], s, actor, note)
    ensures var next := Exec(mid, Resolve(sigs[i], actor, note));
            next.row == Some(closed[i]) && ClosesExactly(before, next.table, sigs[..i] + [sigs[i]], s, actor, note)
  {
    NotYetClosed(before, s, i);
    CloseOneMore(before, mid, sigs[..i], sigs[i], s, actor, note);
    SelectedRows(before.rows, before.now, s, actor, note);
    ReturnsTheClosedRow(before, mid, sigs[..i], sigs[i], s, actor, note, closed[i]);
  }

  /** The selected signatures, and the rows they will close. */
  ghost predicate Chosen(before: Table, sigs: seq<Signature>, closed: seq<Row>, s: Selection, actor: string,
                         note: Option<string>) {
    && sigs == Selected(before.rows, before.now, s)
    && closed == ClosedRows(before.rows, before.now, s, actor, note)
    && |closed| == |sigs|
  }

  lemma TakeOneMore<T>(s: seq<T>, i: nat)
    requires i < |s|
    ensures s[..i + 1] == s[..i] + [s[i]]
  {
  }

  lemma NotYetClosed(before: Table, s: Selection, i: nat)
    requires Ok(before) && i < |Selected(before.rows, before.now, s)|
    ensures var sigs := Selected(before.rows, before.now, s);
            && sigs[i] !in sigs[..i] && sigs[..i + 1] == sigs[..i] + [sigs[i]]
            && exists m :: 0 <= m < |before.rows| && before.rows[m].sig == sigs[i] &&
                Picks(s, before.rows[m], before.now)
  {
    var sigs := Selected(before.rows, before.now, s);
    SelectedAreDistinct(before.rows, before.now, s);
    assert sigs[i] in sigs;
  }

  lemma ReturnsTheClosedRow(before: Table, mid: Table, done: seq<Signature>, sig: Signature, s: Selection,
                            actor: string, note: Option<string>, r: Row)
    requires Ok(before) && ClosesExactly(before, mid, done, s, actor, note) && sig !in done
    requires r.sig == sig && HasClosed(before.rows, before.now, s, actor, note, r)
    ensures Exec(mid, Resolve(sig, actor, note)).row == Some(r)
  {
    var m :| 0 <= m < |before.rows| && Picks(s, before.rows[m], before.now) &&
        r == Closed(before.rows[m], before.now, actor, note);
    OnlyOneToClose(before, mid, done, sig, s, actor, note, m);
  }

  /** When all the selected signatures are done, all the selected rows are closed. */
  lemma AllAreClosed(before: Table, after: Table, s: Selection, actor: string, note: Option<string>)
    requires ClosesExactly(before, after, Selected(before.rows, before.now, s), s, actor, note)
    ensures ClosesAll(before, after, s, actor, note)
  {
  }

  lemma ByIdSelectsOne(t: Table, id: nat)
    requires Ok(t)
    ensures |Selected(t.rows, t.now, ById(id))| <= 1
  {
    IdIsSelectedOnce(t.rows, t.now, id);
  }

  lemma {:induction false} IdIsSelectedOnce(rows: seq<Row>, now: Time, id: nat)
    requires Ordered(rows)
    ensures |Selected(rows, now, ById(id))| <= 1
    ensures (forall i :: 0 <= i < |rows| ==> rows[i].id != id) ==> Selected(rows, now, ById(id)) == []
  {
    if rows != [] {
      var front, last := rows[..|rows| - 1], rows[|rows| - 1];
      IdIsSelectedOnce(front, now, id);
      if last.id == id {
        forall i | 0 <= i < |front|
          ensures front[i].id != id
        {
          assert InOrder(rows[i], rows[|rows| - 1]);
        }
      }
    }
  }

  /** Bump, re-open and insert, tried in that order on the same table. */
  lemma AloneIsReportOnce(t: Table, r: Report, window: int)
    requires Ok(t)
    ensures var b := Exec(t, Bump(r.Sig(), r.detail));
            && (b.row.Some? <==> IsOpen(t, r.Sig()))
            && (b.row.Some? ==> b == ReportOnce(t, r, window))
            && (b.row == None ==> b.table == t && TriedToOpen(t, r, window))
  {
    OpenIsNewest(t, r.Sig());
    ReopenPicksNewest(t, r.Sig(), window);
  }

  ghost predicate TriedToOpen(t: Table, r: Report, window: int) {
    var o, i := Exec(t, Reopen(r, window)), Exec(t, Insert(r));
    if window > 0 && o.row.Some? then o == ReportOnce(t, r, window)
    else o.row == None ==> o.table == t && i.row.Some? && i == ReportOnce(t, r, window)
  }

  function WindowFor(reopenWithin: Option<int>): int {
    if reopenWithin.Some? then reopenWithin.value else REOPEN_WITHIN_SECONDS
  }

  ghost predicate IsReportOnce(before: Table, r: Report, window: int, after: Table, outcome: Outcome) {
    var done := ReportOnce(before, r, window);
    after == done.table && outcome == Reported(done.row, !IsOpen(before, r.Sig()))
  }

  /** on_raised ran once for news, not at all otherwise. */
  ghost predicate Announced(outcome: Outcome, before: seq<Row>, after: seq<Row>)
    requires outcome.Reported?
  {
    if outcome.news then outcome.row.Some? && after == before + [outcome.row.value] else after == before
  }

  // --- a call among others ------------------------------------------------------------

  /** Where a call leaves the table, and what it returns. */
  datatype Ended = Ended(table: Table, outcome: Outcome)

  /** The insert, and if it is refused a bump onto what others left by then. */
  function InsertAmong(t: Table, r: Report, c: seq<Statement>): Ended {
    var i := Exec(t, Insert(r));
    if i.row.Some? then Ended(i.table, Reported(i.row, true))
    else
      var b := Exec(ExecAll(i.table, c), Bump(r.Sig(), r.detail));
      Ended(b.table, Reported(b.row, false))
  }

  /** The re-open, and if there is nothing to re-open the insert. */
  function OpenAmong(t: Table, r: Report, window: int, b: seq<Statement>, c: seq<Statement>): Ended {
    if window <= 0 then InsertAmong(t, r, c)
    else
      var o := Exec(t, Reopen(r, window));
      if o.row.Some? then Ended(o.table, Reported(o.row, true)) else InsertAmong(ExecAll(o.table, b), r, c)
  }

  /** A whole raise_event while others commit a, b and c between its statements. */
  function RaiseAmong(t: Table, r: Report, window: int, a: seq<Statement>, b: seq<Statement>,
                      c: seq<Statement>): Ended {
    var bump := Exec(t, Bump(r.Sig(), r.detail));
    if bump.row.Some? then Ended(bump.table, Reported(bump.row, false))
    else OpenAmong(ExecAll(bump.table, a), r, window, b, c)
  }

  ghost predicate InsertedAmong(t: Table, r: Report, earlier: seq<Statement>, later: seq<Statement>, end: Ended) {
    exists c :: later == earlier + c && InsertAmong(t, r, c) == end
  }

  ghost predicate OpenedAmong(t: Table, r: Report, window: int, earlier: seq<Statement>, later: seq<Statement>,
                              end: Ended) {
    exists b, c :: later == earlier + b + c && OpenAmong(t, r, window, b, c) == end
  }

  ghost predicate RaisedAmong(t: Table, r: Report, window: int, earlier: seq<Statement>, later: seq<Statement>,
                              end: Ended) {
    exists a, b, c :: later == earlier + a + b + c && RaiseAmong(t, r, window, a, b, c) == end
  }

  /** Among nobody, the call is one atomic report. */
  lemma AmongNobodyIsReportOnce(t: Table, r: Report, window: int)
    requires Ok(t)
    ensures var done := ReportOnce(t, r, window);
            RaiseAmong(t, r, window, [], [], []) == Ended(done.table, Reported(done.row, !IsOpen(t, r.Sig())))
  {
    AloneIsReportOnce(t, r, window);
    assert ExecAll(t, []) == t;
  }

  /** A call with nobody in between. */
  lemma AmongNobody(t: Table, r: Report, window: int, earlier: seq<Statement>, later: seq<Statement>, end: Ended)
    requires Ok(t) && RaisedAmong(t, r, window, earlier, later, end)
    ensures |later| == |earlier| ==> IsReportOnce(t, r, window, end.table, end.outcome)
  {
    var a, b, c :| later == earlier + a + b + c && RaiseAmong(t, r, window, a, b, c) == end;
    if |later| == |earlier| {
      assert a == [] && b == [] && c == [];
      AmongNobodyIsReportOnce(t, r, window);
    }
  }

  lemma RaisedAfter(t: Table, r: Report, window: int, o0: seq<Statement>, a: seq<Statement>, t2: Table,
                    o2: seq<Statement>, later: seq<Statement>, end: Ended)
    requires Exec(t, Bump(r.Sig(), r.detail)).row == None && t2 == ExecAll(Exec(t, Bump(r.Sig(), r.detail)).table, a)
    requires o2 == o0 + a && OpenedAmong(t2, r, window, o2, later, end)
    ensures RaisedAmong(t, r, window, o0, later, end)
  {
    var b, c :| later == o2 + b + c && OpenAmong(t2, r, window, b, c) == end;
    assert RaiseAmong(t, r, window, a, b, c) == end;
    assert later == o0 + a + b + c;
  }

  lemma OpenedAfter(t: Table, r: Report, window: int, o0: seq<Statement>, b: seq<Statement>, t2: Table,
                    o2: seq<Statement>, later: seq<Statement>, end: Ended)
    requires window > 0 ==>
               Exec(t, Reopen(r, window)).row == None && t2 == ExecAll(Exec(t, Reopen(r, window)).table, b)
    requires window <= 0 ==> t2 == t && b == []
    requires o2 == o0 + b && InsertedAmong(t2, r, o2, later, end)
    ensures OpenedAmong(t, r, window, o0, later, end)
  {
    var c :| later == o2 + c && InsertAmong(t2, r, c) == end;
    assert OpenAmong(t, r, window, b, c) == end;
    assert later == o0 + b + c;
  }

  /** What a loop of resolves leaves, and the rows it closed. */
  datatype Closures = Closures(table: Table, rows: seq<Row>)

  function RowsOf(row: Option<Row>): seq<Row> {
    if row.Some? then [row.value] else []
  }

  function CloseLater(mid: Closures, sig: Signature, ss: seq<Statement>, actor: string,
                      note: Option<string>): Closures {
    var done := Exec(ExecAll(mid.table, ss), Resolve(sig, actor, note));
    Closures(done.table, mid.rows + RowsOf(done.row))
  }

  /** Resolving signatures one by one while others commit between[i] before the i-th. */
  function CloseAmong(t: Table, sigs: seq<Signature>, between: seq<seq<Statement>>, actor: string,
                      note: Option<string>): Closures
    requires |between| == |sigs|
  {
    if sigs == [] then Closures(t, [])
    else
      var n := |sigs| - 1;
      CloseLater(CloseAmong(t, sigs[..n], between[..n], actor, note), sigs[n], between[n], actor, note)
  }

  function Flatten(between: seq<seq<Statement>>): seq<Statement> {
    if between == [] then [] else Flatten(between[..|between| - 1]) + between[|between| - 1]
  }

  ghost predicate ClosedAmong(t: Table, sigs: seq<Signature>, actor: string, note: Option<string>,
                              earlier: seq<Statement>, later: seq<Statement>, end: Closures) {
    exists between ::
      |between| == |sigs| && later == earlier + Flatten(between) && CloseAmong(t, sigs, between, actor, note) == end
  }

  lemma NothingToClose(t: Table, actor: string, note: Option<string>, others: seq<Statement>)
    ensures ClosedAmong(t, [], actor, note, others, others, Closures(t, []))
  {
    var between: seq<seq<Statement>> := [];
    assert others == others + Flatten(between);
    assert CloseAmong(t, [], between, actor, note) == Closures(t, []);
  }

  lemma ClosedOneMore(t: Table, sigs: seq<Signature>, i: nat, actor: string, note: Option<string>,
                      earlier: seq<Statement>, mid: seq<Statement>, done: Closures, ss: seq<Statement>)
    requires i < |sigs| && ClosedAmong(t, sigs[..i], actor, note, earlier, mid, done)
    ensures ClosedAmong(t, sigs[..i + 1], actor, note, earlier, mid + ss, CloseLater(done, sigs[i], ss, actor, note))
  {
    var between :| |between| == i && mid == earlier + Flatten(between)
                   && CloseAmong(t, sigs[..i], between, actor, note) == done;
    FlattenOneMore(between, ss);
    Reassociate(earlier, Flatten(between), ss);
    CloseAmongOneMore(t, sigs, i, between, ss, actor, note);
  }

  lemma FlattenOneMore(between: seq<seq<Statement>>, ss: seq<Statement>)
    ensures Flatten(between + [ss]) == Flatten(between) + ss
  {
    assert (between + [ss])[..|between|] == between;
  }

  lemma CloseAmongOneMore(t: Table, sigs: seq<Signature>, i: nat, between: seq<seq<Statement>>, ss: seq<Statement>,
                          actor: string, note: Option<string>)
    requires i < |sigs| && |between| == i
    ensures CloseAmong(t, sigs[..i + 1], between + [ss], actor, note) ==
            CloseLater(CloseAmong(t, sigs[..i], between, actor, note), sigs[i], ss, actor, note)
  {
    assert (between + [ss])[..i] == between && sigs[..i + 1][..i] == sigs[..i];
  }

  lemma {:induction false} FlattensToNothing(between: seq<seq<Statement>>)
    requires Flatten(between) == []
    ensures forall i :: 0 <= i < |between| ==> between[i] == []
  {
    if between != [] {
      FlattensToNothing(between[..|between| - 1]);
    }
  }

  /** Among nobody, the loop closes exactly the selected rows. */
  lemma {:induction false} NobodyClosesExactly(before: Table, s: Selection, i: nat, between: seq<seq<Statement>>,
                                               actor: string, note: Option<string>)
    requires Ok(before) && i == |between| <= |Selected(before.rows, before.now, s)|
    requires forall k :: 0 <= k < i ==> between[k] == []
    ensures var sigs := Selected(before.rows, before.now, s);
            var closed := ClosedRows(before.rows, before.now, s, actor, note);
            var end := CloseAmong(before, sigs[..i], between, actor, note);
            |closed| == |sigs| && ClosesExactly(before, end.table, sigs[..i], s, actor, note) && end.rows == closed[..i]
  {
    var sigs, closed := Selected(before.rows, before.now, s), ClosedRows(before.rows, before.now, s, actor, note);
    SelectedRows(before.rows, before.now, s, actor, note);
    if i > 0 {
      NobodyClosesExactly(before, s, i - 1, between[..i - 1], actor, note);
      var mid := CloseAmong(before, sigs[..i - 1], between[..i - 1], actor, note);
      ClosesNext(before, mid.table, sigs, closed, i - 1, s, actor, note);
      TakeOneMore(sigs, i - 1);
      TakeOneMore(closed, i - 1);
      assert sigs[..i][..i - 1] == sigs[..i - 1];
      assert ExecAll(mid.table, []) == mid.table;
    }
  }

  /** A loop with nobody in between. */
  lemma ClosedAmongNobody(before: Table, s: Selection, actor: string, note: Option<string>, earlier: seq<Statement>,
                          later: seq<Statement>, end: Closures)
    requires Ok(before) && |later| == |earlier|
    requires ClosedAmong(before, Selected(before.rows, before.now, s), actor, note, earlier, later, end)
    ensures ClosesAll(before, end.table, s, actor, note)
    ensures end.rows == ClosedRows(before.rows, before.now, s, actor, note)
  {
    var sigs := Selected(before.rows, before.now, s);
    var between :| |between| == |sigs| && later == earlier + Flatten(between)
                   && CloseAmong(before, sigs, between, actor, note) == end;
    FlattensToNothing(between);
    NobodyClosesExactly(before, s, |sigs|, between, actor, note);
    assert sigs[..|sigs|] == sigs;
    AllAreClosed(before, end.table, s, actor, note);
  }

  // --- ... in terms of the columns ------------------------------------------------------

  lemma ClipIs(detail: Option<string>, limit: nat)
    requires limit > 0
    ensures IsClip(detail, limit, Clip(detail, limit))
  {
  }

  lemma {:induction false} ExecAllKeepsOk(t: Table, ss: seq<Statement>)
    requires Ok(t)
    ensures Ok(ExecAll(t, ss))
  {
    if ss != [] {
      ExecAllKeepsOk(t, ss[..|ss| - 1]);
      ExecKeepsOk(ExecAll(t, ss[..|ss| - 1]), ss[|ss| - 1]);
    }
  }

  lemma ReportIsOnItsSignature(r: Report)
    ensures r.Sig() == SigOf(r)
  {
  }

  /** One atomic report, column by column. */
  lemma ReportWrites(t: Table, r: Report, window: int)
    requires Ok(t)
    ensures var done := ReportOnce(t, r, window);
            Reports(t, r, r.detail, window, done.table, done.row, !IsOpen(t, r.Sig()))
  {
    ReportIsOnItsSignature(r);
    OpenIsFound(t, r.Sig());
    AloneIsReportOnce(t, r, window);
    StatementWrites(t, Bump(r.Sig(), r.detail));
    StatementWrites(t, Reopen(r, window));
    StatementWrites(t, Insert(r));
  }

  lemma BumpCarries(t: Table, r: Report)
    requires Ok(t)
    ensures Carries(Exec(t, Bump(r.Sig(), r.detail)).row, false, r, r.detail)
  {
    ReportIsOnItsSignature(r);
    StatementWrites(t, Bump(r.Sig(), r.detail));
  }

  lemma InsertCarries(t: Table, r: Report, c: seq<Statement>)
    requires Ok(t)
    ensures var end := InsertAmong(t, r, c).outcome; end.Reported? && Carries(end.row, end.news, r, r.detail)
  {
    StatementWrites(t, Insert(r));
    ExecKeepsOk(t, Insert(r));
    ExecAllKeepsOk(Exec(t, Insert(r)).table, c);
    BumpCarries(ExecAll(Exec(t, Insert(r)).table, c), r);
  }

  lemma OpenCarries(t: Table, r: Report, window: int, b: seq<Statement>, c: seq<Statement>)
    requires Ok(t)
    ensures var end := OpenAmong(t, r, window, b, c).outcome; end.Reported? && Carries(end.row, end.news, r, r.detail)
  {
    StatementWrites(t, Reopen(r, window));
    ExecKeepsOk(t, Reopen(r, window));
    ExecAllKeepsOk(Exec(t, Reopen(r, window)).table, b);
    InsertCarries(t, r, c);
    InsertCarries(ExecAll(Exec(t, Reopen(r, window)).table, b), r, c);
  }

  /** The row a report comes back with carries it, whatever others commit. */
  lemma RaiseCarries(t: Table, r: Report, window: int, earlier: seq<Statement>, later: seq<Statement>, end: Ended)
    requires Ok(t) && RaisedAmong(t, r, window, earlier, later, end)
    ensures end.outcome.Reported? && Carries(end.outcome.row, end.outcome.news, r, r.detail)
  {
    var a, b, c :| later == earlier + a + b + c && RaiseAmong(t, r, window, a, b, c) == end;
    BumpCarries(t, r);
    ExecKeepsOk(t, Bump(r.Sig(), r.detail));
    ExecAllKeepsOk(Exec(t, Bump(r.Sig(), r.detail)).table, a);
    OpenCarries(ExecAll(Exec(t, Bump(r.Sig(), r.detail)).table, a), r, window, b, c);
  }

  ghost predicate SaysWhatWasReported(row: Option<Row>, news: bool, report: Report) {
    exists d :: IsClip(report.detail, 4000, d) && Carries(row, news, report, d)
  }

  ghost predicate IsOneReport(t: Table, report: Report, window: int, u: Table, row: Option<Row>, news: bool) {
    exists d :: IsClip(report.detail, 4000, d) && Reports(t, report, d, window, u, row, news)
  }

  /** The clipped report says what the report says. */
  lemma ClippedCarries(report: Report, row: Option<Row>, news: bool)
    requires Carries(row, news, Clipped(report), Clipped(report).detail)
    ensures SaysWhatWasReported(row, news, report)
  {
    ClipIs(report.detail, 4000);
    assert Carries(row, news, report, Clipped(report).detail);
  }

  lemma ClippedReports(t: Table, report: Report, window: int, u: Table, row: Option<Row>, news: bool)
    requires Reports(t, Clipped(report), Clipped(report).detail, window, u, row, news)
    ensures IsOneReport(t, report, window, u, row, news)
  {
    ClipIs(report.detail, 4000);
    assert SigOf(Clipped(report)) == SigOf(report);
    assert Reports(t, report, Clipped(report).detail, window, u, row, news);
  }

  lemma RaiseInColumns(t: Table, report: Report, window: int, earlier: seq<Statement>, later: seq<Statement>, u: Table,
                       outcome: Outcome)
    requires Ok(t) && RaisedAmong(t, Clipped(report), window, earlier, later, Ended(u, outcome))
    requires |later| == |earlier| ==> IsReportOnce(t, Clipped(report), window, u, outcome)
    ensures outcome.Reported? && SaysWhatWasReported(outcome.row, outcome.news, report)
    ensures |later| == |earlier| ==> IsOneReport(t, report, window, u, outcome.row, outcome.news)
  {
    RaiseCarries(t, Clipped(report), window, earlier, later, Ended(u, outcome));
    ClippedCarries(report, outcome.row, outcome.news);
    if |later| == |earlier| {
      ReportWrites(t, Clipped(report), window);
      ClippedReports(t, report, window, u, outcome.row, outcome.news);
    }
  }

  /** Every row announced by a loop of resolves is of a chosen signature, and closed. */
  lemma {:induction false} CloseAmongTells(t: Table, sigs: seq<Signature>, between: seq<seq<Statement>>, actor: string,
                                           note: Option<string>)
    requires |between| == |sigs|
    ensures forall r :: r in CloseAmong(t, sigs, between, actor, note).rows ==>
              r.sig in sigs && ToldAsClosed(r, actor, note)
  {
    if sigs != [] {
      var n := |sigs| - 1;
      CloseAmongTells(t, sigs[..n], between[..n], actor, note);
      assert sigs[n] in sigs && forall sig :: sig in sigs[..n] ==> sig in sigs;
    }
  }

  lemma ClosedAmongTells(t: Table, sigs: seq<Signature>, actor: string, note: Option<string>,
                         earlier: seq<Statement>, later: seq<Statement>, end: Closures)
    requires ClosedAmong(t, sigs, actor, note, earlier, later, end)
    ensures forall r :: r in end.rows ==> r.sig in sigs && ToldAsClosed(r, actor, note)
  {
    var between :| |between| == |sigs| && later == earlier + Flatten(between)
                   && CloseAmong(t, sigs, between, actor, note) == end;
    CloseAmongTells(t, sigs, between, actor, note);
  }

  function PickedAt(rows: seq<Row>, now: Time, s: Selection): set<int> {
    set i | 0 <= i < |rows| && Picks(s, rows[i], now)
  }

  lemma {:induction false} OneClosedRowEach(rows: seq<Row>, now: Time, s: Selection, actor: string,
                                            note: Option<string>)
    ensures |ClosedRows(rows, now, s, actor, note)| == |PickedAt(rows, now, s)|
  {
    if rows != [] {
      var n := |rows| - 1;
      OneClosedRowEach(rows[..n], now, s, actor, note);
      PickedOneMore(rows, now, s);
    }
  }

  lemma PickedOneMore(rows: seq<Row>, now: Time, s: Selection)
    requires rows != []
    ensures var n := |rows| - 1;
            && PickedAt(rows, now, s) == PickedAt(rows[..n], now, s) + (if Picks(s, rows[n], now) then {n} else {})
            && n !in PickedAt(rows[..n], now, s)
  {
    var n := |rows| - 1;
    forall i
      ensures i in PickedAt(rows, now, s) <==> i in PickedAt(rows[..n], now, s) || (Picks(s, rows[n], now) && i == n)
    {
      assert 0 <= i < n ==> rows[..n][i] == rows[i];
    }
  }

  /** Closing all that is selected, column by column. */
  lemma ClosesJustPicked(t: Table, u: Table, s: Selection, actor: string, note: Option<string>)
    requires ClosesAll(t, u, s, actor, note)
    ensures ClosesJust(t, u, PickedAt(t.rows, t.now, s), actor, note, ClosedRows(t.rows, t.now, s, actor, note))
  {
    OneClosedRowEach(t.rows, t.now, s, actor, note);
    forall r | r in ClosedRows(t.rows, t.now, s, actor, note)
      ensures exists i :: i in PickedAt(t.rows, t.now, s) && 0 <= i < |u.rows| && u.rows[i] == r
    {
      ToldIsClosed(t, u, s, actor, note, r);
    }
    forall i | 0 <= i < |t.rows|
      ensures if i in PickedAt(t.rows, t.now, s) then IsClosing(t.rows[i], u.rows[i], actor, note, t.now)
              else u.rows[i] == t.rows[i]
    {
      PickedIsClosed(t, u, s, actor, note, i);
    }
  }

  lemma PickedIsClosed(t: Table, u: Table, s: Selection, actor: string, note: Option<string>, i: nat)
    requires ClosesAll(t, u, s, actor, note) && i < |t.rows|
    ensures if i in PickedAt(t.rows, t.now, s) then IsClosing(t.rows[i], u.rows[i], actor, note, t.now)
            else u.rows[i] == t.rows[i]
  {
  }

  lemma ToldIsClosed(t: Table, u: Table, s: Selection, actor: string, note: Option<string>, r: Row)
    requires ClosesAll(t, u, s, actor, note) && r in ClosedRows(t.rows, t.now, s, actor, note)
    ensures exists i :: i in PickedAt(t.rows, t.now, s) && 0 <= i < |u.rows| && u.rows[i] == r
  {
    var told := ClosedRows(t.rows, t.now, s, actor, note);
    SelectedRows(t.rows, t.now, s, actor, note);
    var k :| 0 <= k < |told| && told[k] == r;
    assert HasClosed(t.rows, t.now, s, actor, note, told[k]);
    var m :| 0 <= m < |t.rows| && Picks(s, t.rows[m], t.now) && r == Closed(t.rows[m], t.now, actor, note);
    assert m in PickedAt(t.rows, t.now, s);
  }

  lemma IdIsPicked(t: Table, id: nat)
    ensures PickedAt(t.rows, t.now, ById(id)) == WithId(t, id)
  {
  }

  lemma WantedIsPicked(t: Table, kind: Option<string>, deviceId: Option<string>, ruleId: Option<string>)
    ensures PickedAt(t.rows, t.now, OpenMatching(NonEmpty(kind), NonEmpty(deviceId), ruleId)) ==
            Wanted(t, kind, deviceId, ruleId)
  {
  }

  lemma StaleIsPicked(t: Table, kind: string, ttl: int, ruleId: Option<string>)
    ensures PickedAt(t.rows, t.now, StaleFor(kind, ttl, ruleId)) == Stale(t, kind, ttl, ruleId)
  {
  }

  /** What expire leaves and announces, column by column. */
  lemma ExpiredFields(t: Table, u: Table, kind: string, ttl: nat, ruleId: Option<string>, actor: string,
                      earlier: seq<Statement>, later: seq<Statement>, told: seq<Row>)
    requires var s, note := StaleFor(kind, ttl, ruleId), ExpiryNote(ttl);
             && ClosedAmong(t, Selected(t.rows, t.now, s), actor, note, earlier, later, Closures(u, told))
             && (|later| == |earlier| ==>
                   ClosesAll(t, u, s, actor, note) && told == ClosedRows(t.rows, t.now, s, actor, note))
    ensures TellsOfStale(t, kind, ttl, ruleId, actor, told)
    ensures |later| == |earlier| ==> ExpiresJust(t, u, kind, ttl, ruleId, actor, told)
  {
    StaleIsPicked(t, kind, ttl, ruleId);
    ClosedFields(t, u, StaleFor(kind, ttl, ruleId), actor, Some("no further report for " + Decimal(ttl) + "s"), earlier,
                 later, told);
    assert SaysHowLong(ExpiryNote(ttl), ttl);
    forall r | r in told
      ensures r.sig.kind == kind
    {
      var i :| i in PickedAt(t.rows, t.now, StaleFor(kind, ttl, ruleId)) && t.rows[i].sig == r.sig;
    }
  }

  /** What a loop over a selection leaves and announces, column by column. */
  lemma ClosedFields(t: Table, u: Table, s: Selection, actor: string, detail: Option<string>, earlier: seq<Statement>,
                     later: seq<Statement>, told: seq<Row>)
    requires var note := Clip(detail, 2000);
             && ClosedAmong(t, Selected(t.rows, t.now, s), actor, note, earlier, later, Closures(u, told))
             && (|later| == |earlier| ==>
                   ClosesAll(t, u, s, actor, note) && told == ClosedRows(t.rows, t.now, s, actor, note))
    ensures var note := Clip(detail, 2000);
            && IsClip(detail, 2000, note)
            && (forall r :: r in told ==>
                  && ToldAsClosed(r, actor, note)
                  && exists i :: i in PickedAt(t.rows, t.now, s) && t.rows[i].sig == r.sig)
            && (|later| == |earlier| ==> ClosesJust(t, u, PickedAt(t.rows, t.now, s), actor, note, told))
  {
    var sigs, note := Selected(t.rows, t.now, s), Clip(detail, 2000);
    ClipIs(detail, 2000);
    ClosedAmongTells(t, sigs, actor, note, earlier, later, Closures(u, told));
    forall r | r in told
      ensures exists i :: i in PickedAt(t.rows, t.now, s) && t.rows[i].sig == r.sig
    {
      var i :| 0 <= i < |t.rows| && t.rows[i].sig == r.sig && Picks(s, t.rows[i], t.now);
      assert i in PickedAt(t.rows, t.now, s);
    }
    if |later| == |earlier| {
      ClosesJustPicked(t, u, s, actor, note);
    }
  }

  lemma AfterFirst<T>(a: seq<T>, b: seq<T>)
    ensures (a + b)[|a|..] == b
  {
  }

  // --- the store -----------------------------------------------------------------------

  class Store {
    var table: Table
    var raisedHooks: seq<Row>    // events passed to on_raised, in order
    var resolvedHooks: seq<Row>  // events passed to on_resolved, in order

    // Statements that other callers committed while a call of ours was running.
    ghost var others: seq<Statement>

    ghost predicate Valid()
      reads this
    {
      Ok(table)
    }

    constructor (now: Time)
      ensures Valid() && table == Table([], 1, now) && raisedHooks == [] && resolvedHooks == []
    {
      table, raisedHooks, resolvedHooks, others := Table([], 1, now), [], [], [];
    }

    /** Between two statements of a call, other callers may commit any statements. */
    method Interference()
      requires Valid()
      modifies this`table, this`others
      ensures Valid()
      ensures exists ss :: others == old(others) + ss && table == ExecAll(old(table), ss)
      ensures |others| >= |old(others)| && (others == old(others) ==> table == old(table))
    {
      assert others == others + [] && table == ExecAll(table, []);
    }

    /** db.query_one */
    method QueryOne(s: Statement) returns (row: Option<Row>)
      requires Valid()
      modifies this`table
      ensures Valid() && table == Exec(old(table), s).table
      ensures row == Exec(old(table), s).row
    {
      ExecKeepsOk(table, s);
      var done := Exec(table, s);
      table, row := done.table, done.row;
    }

    /** The call runs its statements among those of others; hooks fire for news only,
        and news always has a row.  If nobody interrupts, it is one ReportOnce. */
    method RaiseEvent(report: Report, reopenWithin: Option<int>) returns (outcome: Outcome)
      requires Valid()
      modifies this
      ensures Valid() && resolvedHooks == old(resolvedHooks) && |others| >= |old(others)|
      ensures outcome == BadSeverity <==> report.severity !in SEVERITIES
      ensures outcome == BadSeverity ==> table == old(table) && raisedHooks == old(raisedHooks) && others == old(others)
      ensures outcome.Reported? ==> Announced(outcome, old(raisedHooks), raisedHooks)
      ensures outcome.Reported? ==>
                RaisedAmong(old(table), Clipped(report), WindowFor(reopenWithin), old(others), others,
                            Ended(table, outcome))
      ensures outcome.Reported? && |others| == |old(others)| ==>
                IsReportOnce(old(table), Clipped(report), WindowFor(reopenWithin), table, outcome)
      // In terms of the columns: what the row says, and alone also what it was.
      ensures outcome == BadSeverity <==>
                report.severity != "info" && report.severity != "warning" && report.severity != "critical"
      ensures outcome.Reported? ==> SaysWhatWasReported(outcome.row, outcome.news, report)
      ensures outcome.Reported? && |others| == |old(others)| ==>
                IsOneReport(old(table), report, if reopenWithin.Some? then reopenWithin.value else 900,
                            table, outcome.row, outcome.news)
    {
      if report.severity !in SEVERITIES {
        return BadSeverity;
      }
      outcome := RaiseClipped(Clipped(report), WindowFor(reopenWithin));
      AmongNobody(old(table), Clipped(report), WindowFor(reopenWithin), old(others), others, Ended(table, outcome));
      RaiseInColumns(old(table), report, WindowFor(reopenWithin), old(others), others, table, outcome);
    }

    method RaiseClipped(r: Report, window: int) returns (outcome: Outcome)
      requires Valid()
      modifies this
      ensures Valid() && resolvedHooks == old(resolvedHooks) && |others| >= |old(others)|
      ensures outcome.Reported? && Announced(outcome, old(raisedHooks), raisedHooks)
      ensures RaisedAmong(old(table), r, window, old(others), others, Ended(table, outcome))
    {
      ghost var t0, o0 := table, others;
      var row := QueryOne(Bump(r.Sig(), r.detail));
      if row.Some? {
        assert others == o0 + [] + [] + [] &&
               RaiseAmong(t0, r, window, [], [], []) == Ended(table, Reported(row, false));
        return Reported(row, false);
      }
      ghost var t1 := table;
      Interference();
      ghost var a :| others == o0 + a && table == ExecAll(t1, a);
      ghost var t2, o2 := table, others;
      outcome := OpenEpisode(r, window);
      RaisedAfter(t0, r, window, o0, a, t2, o2, others, Ended(table, outcome));
    }

    /** The rest of raise_event once there was nothing to bump. */
    method OpenEpisode(r: Report, window: int) returns (outcome: Outcome)
      requires Valid()
      modifies this
      ensures Valid() && resolvedHooks == old(resolvedHooks) && |others| >= |old(others)|
      ensures outcome.Reported? && Announced(outcome, old(raisedHooks), raisedHooks)
      ensures OpenedAmong(old(table), r, window, old(others), others, Ended(table, outcome))
    {
      ghost var t0, o0 := table, others;
      ghost var b: seq<Statement> := [];
      if window > 0 {
        var row := QueryOne(Reopen(r, window));
        if row.Some? {
          raisedHooks := raisedHooks + [row.value];
          assert others == o0 + [] + [] && OpenAmong(t0, r, window, [], []) == Ended(table, Reported(row, true));
          return Reported(row, true);
        }
        ghost var t1 := table;
        Interference();
        b :| others == o0 + b && table == ExecAll(t1, b);
      }
      ghost var t2, o2 := table, others;
      outcome := InsertOrBump(r);
      OpenedAfter(t0, r, window, o0, b, t2, o2, others, Ended(table, outcome));
    }

    /** The insert, and the bump for the case that someone else was quicker. */
    method InsertOrBump(r: Report) returns (outcome: Outcome)
      requires Valid()
      modifies this
      ensures Valid() && resolvedHooks == old(resolvedHooks) && |others| >= |old(others)|
      ensures outcome.Reported? && Announced(outcome, old(raisedHooks), raisedHooks)
      ensures InsertedAmong(old(table), r, old(others), others, Ended(table, outcome))
    {
      ghost var t0, o0 := table, others;
      var row := QueryOne(Insert(r));
      if row.Some? {
        raisedHooks := raisedHooks + [row.value];
        assert others == o0 + [] && InsertAmong(t0, r, []) == Ended(table, Reported(row, true));
        return Reported(row, true);
      }
      ghost var t1 := table;
      Interference();
      ghost var c :| others == o0 + c && table == ExecAll(t1, c);
      row := QueryOne(Bump(r.Sig(), r.detail));
      assert InsertAmong(t0, r, c) == Ended(table, Reported(row, false));
      return Reported(row, false);
    }

    method ResolveSignature(sig: Signature, actor: string, detail: Option<string>) returns (row: Option<Row>)
      requires Valid()
      modifies this
      ensures Valid() && raisedHooks == old(raisedHooks) && others == old(others)
      ensures table == Exec(old(table), Resolve(sig, actor, Clip(detail, 2000))).table
      ensures row == Exec(old(table), Resolve(sig, actor, Clip(detail, 2000))).row
      ensures resolvedHooks == old(resolvedHooks) + if row.Some? then [row.value] else []
      ensures exists note :: IsClip(detail, 2000, note) && Closes(old(table), sig, actor, note, table, row)
    {
      ClipIs(detail, 2000);
      StatementWrites(table, Resolve(sig, actor, Clip(detail, 2000)));
      row := QueryOne(Resolve(sig, actor, Clip(detail, 2000)));
      if row.Some? {
        resolvedHooks := resolvedHooks + [row.value];
      }
    }

    /** A resolve some time after its signature was read. */
    method ResolveLater(sig: Signature, actor: string, detail: Option<string>)
      returns (row: Option<Row>, ghost ss: seq<Statement>)
      requires Valid()
      modifies this
      ensures Valid() && raisedHooks == old(raisedHooks) && others == old(others) + ss
      ensures resolvedHooks == old(resolvedHooks) + RowsOf(row)
      ensures var done := Exec(ExecAll(old(table), ss), Resolve(sig, actor, Clip(detail, 2000)));
              table == done.table && row == done.row
    {
      ghost var t0, o0 := table, others;
      Interference();
      ss :| others == o0 + ss && table == ExecAll(t0, ss);
      row := ResolveSignature(sig, actor, detail);
    }

    /** The common tail of resolve_open and expire: select, then resolve the signatures
        one by one, while others may commit anything in between.  Every row closed is
        announced as it was closed; if nobody commits, these are exactly the selected rows. */
    method CloseSelected(s: Selection, actor: string, detail: Option<string>) returns (n: nat)
      requires Valid()
      modifies this
      ensures Valid() && raisedHooks == old(raisedHooks) && old(resolvedHooks) <= resolvedHooks
      ensures |resolvedHooks| == |old(resolvedHooks)| + n
      ensures ClosedAmong(old(table), Selected(old(table.rows), old(table.now), s), actor, Clip(detail, 2000),
                          old(others), others, Closures(table, resolvedHooks[|old(resolvedHooks)|..]))
      ensures |others| == |old(others)| ==>
                && ClosesAll(old(table), table, s, actor, Clip(detail, 2000))
                && resolvedHooks == old(resolvedHooks) +
                                    ClosedRows(old(table.rows), old(table.now), s, actor, Clip(detail, 2000))
    {
      var sigs := Selected(table.rows, table.now, s);
      n := 0;
      ghost var t0, o0, note, closed := table, others, Clip(detail, 2000), [];
      NothingToClose(t0, actor, note, o0);
      assert sigs[..0] == [];
      for i := 0 to |sigs|
        invariant Valid() && raisedHooks == old(raisedHooks)
        invariant resolvedHooks == old(resolvedHooks) + closed && |closed| == n
        invariant ClosedAmong(t0, sigs[..i], actor, note, o0, others, Closures(table, closed))
      {
        ghost var before, mid := Closures(table, closed), others;
        var row, ss := ResolveLater(sigs[i], actor, detail);
        ClosedOneMore(t0, sigs, i, actor, note, o0, mid, before, ss);
        Reassociate(old(resolvedHooks), closed, RowsOf(row));
        closed := closed + RowsOf(row);
        if row.Some? {
          n := n + 1;
        }
      }
      assert sigs[..|sigs|] == sigs;
      AfterFirst(old(resolvedHooks), closed);
      if |others| == |old(others)| {
        ClosedAmongNobody(t0, s, actor, note, o0, others, Closures(table, closed));
      }
    }

    /** Closes the event with that id if it is open, by its signature, and returns the
        row it closed.  EventConditions says when that is another episode. */
    method ResolveId(id: nat, actor: string, detail: Option<string>) returns (row: Option<Row>)
      requires Valid()
      modifies this
      ensures Valid() && raisedHooks == old(raisedHooks) && resolvedHooks == old(resolvedHooks) + RowsOf(row)
      ensures ClosedAmong(old(table), Selected(old(table.rows), old(table.now), ById(id)), actor, Clip(detail, 2000),
                          old(others), others, Closures(table, RowsOf(row)))
      ensures |others| == |old(others)| ==>
                && ClosesAll(old(table), table, ById(id), actor, Clip(detail, 2000))
                && RowsOf(row) == ClosedRows(old(table.rows), old(table.now), ById(id), actor, Clip(detail, 2000))
      // In terms of the columns: whose row is closed, and alone which.
      ensures row.Some? ==>
                && (exists i :: i in WithId(old(table), id) && old(table).rows[i].sig == row.value.sig)
                && exists note :: IsClip(detail, 2000, note) && ToldAsClosed(row.value, actor, note)
      ensures |others| == |old(others)| ==>
                exists note :: IsClip(detail, 2000, note) &&
                  ClosesJust(old(table), table, WithId(old(table), id), actor, note, RowsOf(row))
    {
      var sigs := Selected(table.rows, table.now, ById(id));
      ghost var t0, o0, note := table, others, Clip(detail, 2000);
      ByIdSelectsOne(table, id);
      NothingToClose(t0, actor, note, o0);
      row := None;
      if sigs != [] {
        ghost var ss;
        assert sigs[..0] == [] && sigs[..1] == sigs;
        row, ss := ResolveLater(sigs[0], actor, detail);
        ClosedOneMore(t0, sigs, 0, actor, note, o0, o0, Closures(t0, []), ss);
      }
      if |others| == |old(others)| {
        ClosedAmongNobody(t0, ById(id), actor, note, o0, others, Closures(table, RowsOf(row)));
        ClosesJustPicked(t0, table, ById(id), actor, note);
      }
      ClipIs(detail, 2000);
      IdIsPicked(t0, id);
      ClosedAmongTells(t0, sigs, actor, note, o0, others, Closures(table, RowsOf(row)));
      assert row.Some? ==> row.value in RowsOf(row);
    }

    /** Closes every open event that matches; an empty filter matches everything. */
    method ResolveOpen(kind: Option<string>, deviceId: Option<string>, ruleId: Option<string>, actor: string,
                       detail: Option<string>)
      returns (n: nat)
      requires Valid()
      modifies this
      ensures Valid() && |resolvedHooks| == |old(resolvedHooks)| + n && old(resolvedHooks) <= resolvedHooks
      ensures var pick := OpenMatching(NonEmpty(kind), NonEmpty(deviceId), ruleId); var note := Clip(detail, 2000);
              && ClosedAmong(old(table), Selected(old(table.rows), old(table.now), pick), actor, note,
                             old(others), others, Closures(table, resolvedHooks[|old(resolvedHooks)|..]))
              && (|others| == |old(others)| ==>
                    && ClosesAll(old(table), table, pick, actor, note)
                    && resolvedHooks == old(resolvedHooks) +
                                        ClosedRows(old(table.rows), old(table.now), pick, actor, note))
      // In terms of the columns.
      ensures exists note :: IsClip(detail, 2000, note) &&
                forall r :: r in resolvedHooks[|old(resolvedHooks)|..] ==>
                  && ToldAsClosed(r, actor, note)
                  && exists i :: i in Wanted(old(table), kind, deviceId, ruleId) && old(table).rows[i].sig == r.sig
      ensures |others| == |old(others)| ==>
                exists note :: IsClip(detail, 2000, note) &&
                  ClosesJust(old(table), table, Wanted(old(table), kind, deviceId, ruleId), actor, note,
                             resolvedHooks[|old(resolvedHooks)|..])
    {
      ghost var t0, h0, pick := table, resolvedHooks, OpenMatching(NonEmpty(kind), NonEmpty(deviceId), ruleId);
      n := CloseSelected(OpenMatching(NonEmpty(kind), NonEmpty(deviceId), ruleId), actor, detail);
      WantedIsPicked(t0, kind, deviceId, ruleId);
      ClosedFields(t0, table, pick, actor, detail, old(others), others, resolvedHooks[|h0|..]);
    }

    /** Closes every open event of the kind not reported for `ttl` seconds. */
    method Expire(kind: string, ttl: int, actor: string, ruleId: Option<string>) returns (n: nat)
      requires Valid()
      modifies this
      ensures Valid() && |resolvedHooks| == |old(resolvedHooks)| + n && old(resolvedHooks) <= resolvedHooks
      ensures ttl <= 0 ==> table == old(table) && others == old(others) && n == 0
      ensures ttl > 0 ==>
                var pick := StaleFor(kind, ttl, ruleId); var note := ExpiryNote(ttl);
                && ClosedAmong(old(table), Selected(old(table.rows), old(table.now), pick), actor, note,
                               old(others), others, Closures(table, resolvedHooks[|old(resolvedHooks)|..]))
                && (|others| == |old(others)| ==>
                      && ClosesAll(old(table), table, pick, actor, note)
                      && resolvedHooks == old(resolvedHooks) +
                                        ClosedRows(old(table.rows), old(table.now), pick, actor, note))
      // In terms of the columns.
      ensures ttl > 0 ==> TellsOfStale(old(table), kind, ttl, ruleId, actor, resolvedHooks[|old(resolvedHooks)|..])
      ensures ttl > 0 && |others| == |old(others)| ==>
                ExpiresJust(old(table), table, kind, ttl, ruleId, actor, resolvedHooks[|old(resolvedHooks)|..])
    {
      if ttl <= 0 {
        return 0;
      }
      ghost var t0, h0 := table, resolvedHooks;
      n := CloseSelected(StaleFor(kind, ttl, ruleId), actor, Some("no further report for " + Decimal(ttl) + "s"));
      ExpiredFields(t0, table, kind, ttl, ruleId, actor, old(others), others, resolvedHooks[|h0|..]);
    }

    /** prune: a row stays exactly when it is open, or was resolved no earlier than
        `keepDays` days ago; returns how many went. */
    method DeleteOld(keepDays: int) returns (deleted: nat)
      requires Valid()
      modifies this`table
      ensures Valid() && table.now == old(table.now) && table.nextId == old(table.nextId)
      ensures forall r :: r in table.rows <==>
                r in old(table.rows) && (r.Open() || r.resolvedAt.value >= old(table.now) - keepDays * DAY)
      ensures |table.rows| + deleted == |old(table.rows)|
    {
      KeptAre(table.rows, Cutoff(table, keepDays));
      var before := |table.rows|;
      var _ := QueryOne(Prune(keepDays));
      deleted := before - |table.rows|;
    }
  }

  function ExpiryNote(ttl: nat): Option<string> {
    Clip(Some("no further report for " + Decimal(ttl) + "s"), 2000)
  }

  /** Python truthiness of an optional string filter. */
  function NonEmpty(s: Option<string>): Option<string> {
    if s == Some("") then None else s
  }

  ghost predicate ClosesAll(before: Table, after: Table, s: Selection, actor: string, note: Option<string>) {
    && after.nextId == before.nextId && after.now == before.now
    && |after.rows| == |before.rows|
    && forall i :: 0 <= i < |before.rows| ==>
         after.rows[i] == if Picks(s, before.rows[i], before.now) then Closed(before.rows[i], before.now, actor, note)
             else before.rows[i]
  }

  // --- episodes a window apart ----------------------------------------------------

  /** Successive episodes of a signature are at least `window` seconds apart. */
  ghost predicate Spaced(rows: seq<Row>, window: int) {
    forall i, j :: 0 <= i < j < |rows| && rows[i].sig == rows[j].sig ==>
      rows[i].resolvedAt.Some? && rows[i].resolvedAt.value + window * SECOND <= rows[j].raisedAt
  }

  /** Calls that run without interference, and the passage of time. */
  datatype Op =
    | OpReport(report: Report, window: int)
    | OpClose(sig: Signature, actor: string, note: Option<string>)
    | OpRetain(keepDays: int)
    | OpWait(elapsed: nat)

  function Perform(t: Table, op: Op): Table {
    match op
    case OpReport(report, window) => ReportOnce(t, report, window).table
    case OpClose(sig, actor, note) => Exec(t, Resolve(sig, actor, note)).table
    case OpRetain(keepDays) => Exec(t, Prune(keepDays)).table
    case OpWait(elapsed) => Exec(t, Tick(elapsed)).table
  }

  function PerformAll(t: Table, ops: seq<Op>): Table {
    if ops == [] then t else Perform(PerformAll(t, ops[..|ops| - 1]), ops[|ops| - 1])
  }

  lemma NewestChangeKeepsSpaced(t: Table, k: int, r: Row, window: int)
    requires Ok(t) && Spaced(t.rows, window) && 0 <= k < |t.rows| && k == LastIndex(t.rows, AnyOf(r.sig))
    requires r.sig == t.rows[k].sig && r.raisedAt == t.rows[k].raisedAt
    ensures Spaced(t.rows[k := r], window)
  {
    var rows := t.rows[k := r];
    forall i, j | 0 <= i < j < |rows| && rows[i].sig == rows[j].sig
      ensures rows[i].resolvedAt.Some? && rows[i].resolvedAt.value + window * SECOND <= rows[j].raisedAt
    {
      assert i == k ==> !Matches(AnyOf(r.sig), t.rows[j]);
      assert t.rows[i].sig == t.rows[j].sig;
    }
  }

  /** A new episode keeps the spacing exactly when the newest one did not close
      within the window: the guard of the re-open. */
  lemma AppendKeepsSpacedIff(t: Table, report: Report, window: int)
    requires Ok(t) && Spaced(t.rows, window) && !IsOpen(t, report.Sig())
    ensures var n := LastIndex(t.rows, AnyOf(report.Sig()));
            Spaced(t.rows + [Fresh(t.nextId, t.now, report)], window) <==>
            (n >= 0 ==> t.rows[n].resolvedAt.value <= t.now - window * SECOND)
  {
    var sig := report.Sig();
    OpenIsNewest(t, sig);
    var n := LastIndex(t.rows, AnyOf(sig));
    var r := Fresh(t.nextId, t.now, report);
    var rows := t.rows + [r];
    if n >= 0 && t.rows[n].resolvedAt.value > t.now - window * SECOND {
      assert rows[n].sig == rows[|t.rows|].sig;
    } else {
      forall i, j | 0 <= i < j < |rows| && rows[i].sig == rows[j].sig
        ensures rows[i].resolvedAt.Some? && rows[i].resolvedAt.value + window * SECOND <= rows[j].raisedAt
      {
        if j < |t.rows| {
          assert t.rows[i].sig == t.rows[j].sig;
        } else {
          assert Matches(AnyOf(sig), t.rows[i]);
          assert i < n ==> InOrder(t.rows[i], t.rows[n]);
          assert Sane(t.rows[n], t.now);
        }
      }
    }
  }

  lemma {:induction false} KeptIsSpaced(rows: seq<Row>, cutoff: Time, window: int)
    requires Spaced(rows, window)
    ensures Spaced(Kept(rows, cutoff), window)
  {
    if rows != [] {
      var front, last := rows[..|rows| - 1], rows[|rows| - 1];
      KeptIsSpaced(front, cutoff, window);
      var kept := Kept(front, cutoff);
      forall i | 0 <= i < |kept| && kept[i].sig == last.sig
        ensures kept[i].resolvedAt.Some? && kept[i].resolvedAt.value + window * SECOND <= last.raisedAt
      {
        assert kept[i] in front;
        var k :| 0 <= k < |front| && front[k] == kept[i];
        assert rows[k].sig == rows[|rows| - 1].sig;
      }
    }
  }

  lemma ReportOnceIsOk(t: Table, report: Report, window: int)
    requires Ok(t)
    ensures Ok(ReportOnce(t, report, window).table)
  {
    OpenIsNewest(t, report.Sig());
    ReopenPicksNewest(t, report.Sig(), window);
    ExecKeepsOk(t, Bump(report.Sig(), report.detail));
    ExecKeepsOk(t, Reopen(report, window));
    ExecKeepsOk(t, Insert(report));
  }

  lemma PerformKeepsSpaced(t: Table, op: Op, window: int)
    requires Ok(t) && Spaced(t.rows, window) && window > 0
    requires op.OpReport? ==> op.window >= window
    ensures Ok(Perform(t, op)) && Spaced(Perform(t, op).rows, window)
  {
    match op
    case OpReport(report, w) =>
      var n := LastIndex(t.rows, AnyOf(report.Sig()));
      OpenIsNewest(t, report.Sig());
      ReportOnceIsOk(t, report, w);
      if n >= 0 && t.rows[n].Open() {
        NewestChangeKeepsSpaced(t, n, Bumped(t.rows[n], t.now, report.detail), window);
      } else if n >= 0 && t.rows[n].resolvedAt.value > t.now - w * SECOND {
        NewestChangeKeepsSpaced(t, n, Reopened(t.rows[n], t.now, report), window);
      } else {
        AppendKeepsSpacedIff(t, report, window);
      }
    case OpClose(sig, actor, note) =>
      OpenIsNewest(t, sig);
      ExecKeepsOk(t, Resolve(sig, actor, note));
      var k := LastIndex(t.rows, OpenOf(sig));
      if k >= 0 {
        NewestChangeKeepsSpaced(t, k, Closed(t.rows[k], t.now, actor, note), window);
      }
    case OpRetain(keepDays) =>
      PruneKeepsOk(t, keepDays);
      KeptIsSpaced(t.rows, Cutoff(t, keepDays), window);
    case OpWait(_) =>
  }

  /** Over any run of uninterrupted calls whose re-open window is at least
      `window`, two episodes of a signature are never closer than that. */
  lemma {:induction false} UninterruptedEpisodesAreSpaced(now: Time, ops: seq<Op>, window: int)
    requires window > 0 && forall op :: op in ops && op.OpReport? ==> op.window >= window
    ensures Ok(PerformAll(Table([], 1, now), ops)) && Spaced(PerformAll(Table([], 1, now), ops).rows, window)
  {
    if ops != [] {
      UninterruptedEpisodesAreSpaced(now, ops[..|ops| - 1], window);
      PerformKeepsSpaced(PerformAll(Table([], 1, now), ops[..|ops| - 1]), ops[|ops| - 1], window);
    }
  }
}
