/** The `events` table (common/db.py) and the SQL statements that
    webui/eventstore.py runs on it.  Every statement is atomic: the database
    wrapper serialises statements, not calls.  Rows are kept in id order. */
module EventTable {
  import opened Common

  // Microseconds, as Postgres keeps a TIMESTAMPTZ.
  type Time = int

  const SECOND: int := 1_000_000
  const DAY: int := 86_400 * SECOND

  // The hash that the program stores is taken to be injective, so a signature
  // is the triple that is hashed.
  datatype Signature = Signature(kind: string, deviceKey: string, subject: string)

  /** The arguments of raise_event. */
  datatype Report = Report(
    kind: string, severity: string, deviceId: string, device: string, subject: string,
    title: string, detail: Option<string>, ruleId: Option<string>, source: string, signalAt: Option<string>)
  {
    function Sig(): Signature {
      Signature(kind, if deviceId != "" then deviceId else device, subject)
    }
  }

  datatype Row = Row(
    id: nat, sig: Signature, severity: string, deviceId: Option<string>, device: string,
    title: string, detail: Option<string>, ruleId: Option<string>, source: string, signalAt: Option<string>,
    raisedAt: Time, lastSeenAt: Time, count: nat, reopenCount: nat, reopenedAt: Option<Time>,
    resolvedAt: Option<Time>, resolvedBy: Option<string>, resolveDetail: Option<string>)
  {
    predicate Open() {
      resolvedAt == None
    }

    /** When the episode last changed between open and closed. */
    function Since(): Time {
      if resolvedAt.Some? then resolvedAt.value else if reopenedAt.Some? then reopenedAt.value else raisedAt
    }
  }

  datatype Table = Table(rows: seq<Row>, nextId: nat, now: Time)

  datatype Result = Result(table: Table, row: Option<Row>)

  datatype Statement =
    | Bump(sig: Signature, detail: Option<string>)
    | Reopen(report: Report, window: int)
    | Insert(report: Report)
    | Resolve(sig: Signature, actor: string, note: Option<string>)
    | Prune(keepDays: int)
    | Tick(elapsed: nat)
    | Read

  // --- queries ------------------------------------------------------------

  datatype Filter = AnyOf(sig: Signature) | OpenOf(sig: Signature) | ClosedAfter(sig: Signature, cutoff: Time)

  predicate Matches(f: Filter, r: Row) {
    && r.sig == f.sig
    && match f {
         case AnyOf(_) => true
         case OpenOf(_) => r.Open()
         case ClosedAfter(_, cutoff) => r.resolvedAt.Some? && r.resolvedAt.value > cutoff
       }
  }

  /** ORDER BY id DESC LIMIT 1: the index of the last matching row, or -1. */
  function LastIndex(rows: seq<Row>, f: Filter): (k: int)
    ensures -1 <= k < |rows|
    ensures k >= 0 ==> Matches(f, rows[k])
    ensures forall i :: k < i < |rows| ==> !Matches(f, rows[i])
  {
    if rows == [] then -1
    else if Matches(f, rows[|rows| - 1]) then |rows| - 1
    else LastIndex(rows[..|rows| - 1], f)
  }

  function LatestFor(t: Table, sig: Signature): (row: Option<Row>) {
    var k := LastIndex(t.rows, AnyOf(sig));
    if k < 0 then None else Some(t.rows[k])
  }

  function OpenFor(t: Table, sig: Signature): (row: Option<Row>) {
    var k := LastIndex(t.rows, OpenOf(sig));
    if k < 0 then None else Some(t.rows[k])
  }

  // --- statements ---------------------------------------------------------

  function Coalesce<T>(a: Option<T>, b: Option<T>): Option<T> {
    if a.Some? then a else b
  }

  function Bumped(r: Row, now: Time, detail: Option<string>): Row {
    r.(count := r.count + 1, lastSeenAt := now, detail := Coalesce(detail, r.detail))
  }

  function Reopened(r: Row, now: Time, report: Report): Row {
    r.(resolvedAt := None, resolvedBy := None, resolveDetail := None,
       reopenCount := r.reopenCount + 1, reopenedAt := Some(now), count := r.count + 1, lastSeenAt := now,
       severity := report.severity, source := report.source, signalAt := report.signalAt, title := report.title,
       detail := Coalesce(report.detail, r.detail))
  }

  function Fresh(id: nat, now: Time, report: Report): Row {
    Row(id, report.Sig(), report.severity, if report.deviceId != "" then Some(report.deviceId) else None,
        if report.device != "" then report.device else "unknown",
        report.title, report.detail, report.ruleId, report.source, report.signalAt,
        now, now, 1, 0, None, None, None, None)
  }

  function Closed(r: Row, now: Time, actor: string, note: Option<string>): Row {
    r.(resolvedAt := Some(now), resolvedBy := Some(actor), resolveDetail := note)
  }

  function Put(t: Table, k: int, r: Row): Result
    requires 0 <= k < |t.rows|
  {
    Result(t.(rows := t.rows[k := r]), Some(r))
  }

  /** The row the re-open's sub-select picks: none while the signature is open,
      else the highest id closed within the window. */
  function ReopenIndex(t: Table, sig: Signature, window: int): (k: int)
    ensures -1 <= k < |t.rows|
  {
    if LastIndex(t.rows, OpenOf(sig)) >= 0 then -1
    else LastIndex(t.rows, ClosedAfter(sig, t.now - window * SECOND))
  }

  predicate Expired(r: Row, cutoff: Time) {
    r.resolvedAt.Some? && r.resolvedAt.value < cutoff
  }

  function Kept(rows: seq<Row>, cutoff: Time): (kept: seq<Row>)
    ensures forall r :: r in kept ==> r in rows && !Expired(r, cutoff)
  {
    if rows == [] then []
    else
      var last := rows[|rows| - 1];
      Kept(rows[..|rows| - 1], cutoff) + if Expired(last, cutoff) then [] else [last]
  }

  function Dropped(rows: seq<Row>, cutoff: Time): (dropped: seq<Row>)
    ensures forall r :: r in dropped ==> r in rows && Expired(r, cutoff)
  {
    if rows == [] then []
    else
      var last := rows[|rows| - 1];
      Dropped(rows[..|rows| - 1], cutoff) + if Expired(last, cutoff) then [last] else []
  }

  /** Retention keeps a row exactly when it is open or was resolved no earlier than
      the cutoff, and drops the others. */
  lemma {:induction false} KeptAre(rows: seq<Row>, cutoff: Time)
    ensures forall r :: r in Kept(rows, cutoff) <==> r in rows && (r.Open() || r.resolvedAt.value >= cutoff)
    ensures |Kept(rows, cutoff)| + |Dropped(rows, cutoff)| == |rows|
  {
    if rows != [] {
      KeptAre(rows[..|rows| - 1], cutoff);
      assert forall r :: r in rows <==> r in rows[..|rows| - 1] || r == rows[|rows| - 1];
    }
  }

  function Cutoff(t: Table, keepDays: int): Time {
    t.now - keepDays * DAY
  }

  function Exec(t: Table, s: Statement): Result {
    match s
    case Bump(sig, detail) =>
      var k := LastIndex(t.rows, OpenOf(sig));
      if k < 0 then Result(t, None) else Put(t, k, Bumped(t.rows[k], t.now, detail))
    case Reopen(report, window) =>
      var k := ReopenIndex(t, report.Sig(), window);
      if k < 0 then Result(t, None) else Put(t, k, Reopened(t.rows[k], t.now, report))
    case Insert(report) =>
      // The id sequence advances even when the conflict clause discards the row.
      var u := t.(nextId := t.nextId + 1);
      if LastIndex(t.rows, OpenOf(report.Sig())) >= 0 then Result(u, None)
      else
        var r := Fresh(t.nextId, t.now, report);
        Result(u.(rows := t.rows + [r]), Some(r))
    case Resolve(sig, actor, note) =>
      var k := LastIndex(t.rows, OpenOf(sig));
      if k < 0 then Result(t, None) else Put(t, k, Closed(t.rows[k], t.now, actor, note))
    case Prune(keepDays) => Result(t.(rows := Kept(t.rows, Cutoff(t, keepDays))), None)
    case Tick(elapsed) => Result(t.(now := t.now + elapsed), None)
    case Read => Result(t, None)
  }

  // --- what every statement keeps -------------------------------------------

  ghost predicate Sane(r: Row, now: Time) {
    && r.raisedAt <= r.lastSeenAt <= now
    && r.count >= 1 + r.reopenCount
    && (r.reopenedAt.Some? <==> r.reopenCount > 0)
    && (r.reopenedAt.Some? ==> r.raisedAt <= r.reopenedAt.value <= r.lastSeenAt)
    && (r.resolvedAt.Some? ==> r.lastSeenAt <= r.resolvedAt.value <= now)
  }

  /** An earlier row of a signature closed before a later one was raised. */
  ghost predicate InOrder(a: Row, b: Row) {
    && a.id < b.id
    && (a.sig == b.sig ==> a.resolvedAt.Some? && a.resolvedAt.value <= b.raisedAt)
  }

  ghost predicate Ordered(rows: seq<Row>) {
    forall i, j :: 0 <= i < j < |rows| ==> InOrder(rows[i], rows[j])
  }

  ghost predicate AllSane(rows: seq<Row>, nextId: nat, now: Time) {
    forall i :: 0 <= i < |rows| ==> Sane(rows[i], now) && rows[i].id < nextId
  }

  ghost predicate Ok(t: Table) {
    AllSane(t.rows, t.nextId, t.now) && Ordered(t.rows)
  }

  /** At most one open row per signature, and it is the newest one. */
  lemma OpenIsNewest(t: Table, sig: Signature)
    requires Ok(t)
    ensures OpenFor(t, sig).Some? <==> LatestFor(t, sig).Some? && LatestFor(t, sig).value.Open()
    ensures OpenFor(t, sig).Some? ==> OpenFor(t, sig) == LatestFor(t, sig)
    ensures LastIndex(t.rows, OpenOf(sig)) >= 0 ==> LastIndex(t.rows, OpenOf(sig)) == LastIndex(t.rows, AnyOf(sig))
    ensures forall i, j :: 0 <= i < j < |t.rows| && t.rows[i].sig == t.rows[j].sig == sig ==> !t.rows[i].Open()
  {
    var k, n := LastIndex(t.rows, OpenOf(sig)), LastIndex(t.rows, AnyOf(sig));
    forall i, j | 0 <= i < j < |t.rows| && t.rows[i].sig == t.rows[j].sig == sig
      ensures !t.rows[i].Open()
    {
      assert InOrder(t.rows[i], t.rows[j]);
    }
    if k >= 0 {
      assert Matches(AnyOf(sig), t.rows[k]);
    } else if n >= 0 {
      assert Matches(AnyOf(sig), t.rows[n]);
    }
  }

  /** The re-open never revives an older episode: what it picks is the newest
      row, and it picks it exactly when that row closed inside the window. */
  lemma ReopenPicksNewest(t: Table, sig: Signature, window: int)
    requires Ok(t)
    ensures var n := LastIndex(t.rows, AnyOf(sig));
            ReopenIndex(t, sig, window) ==
            if n >= 0 && t.rows[n].resolvedAt.Some? && t.rows[n].resolvedAt.value > t.now - window * SECOND then n
            else -1
  {
    OpenIsNewest(t, sig);
    var cutoff := t.now - window * SECOND;
    var n, k := LastIndex(t.rows, AnyOf(sig)), LastIndex(t.rows, ClosedAfter(sig, cutoff));
    if n >= 0 {
      assert Matches(ClosedAfter(sig, cutoff), t.rows[n]) <==>
             t.rows[n].resolvedAt.Some? && t.rows[n].resolvedAt.value > cutoff;
      assert Matches(OpenOf(sig), t.rows[n]) <==> t.rows[n].Open();
    }
    if k >= 0 {
      assert Matches(AnyOf(sig), t.rows[k]);
      if k < n {
        assert InOrder(t.rows[k], t.rows[n]) && Sane(t.rows[n], t.now);
      }
    }
  }

  lemma PutKeepsOk(t: Table, k: int, r: Row)
    requires Ok(t) && 0 <= k < |t.rows| && Sane(r, t.now)
    requires r.id == t.rows[k].id && r.sig == t.rows[k].sig && r.raisedAt == t.rows[k].raisedAt
    requires k == LastIndex(t.rows, AnyOf(r.sig))
    ensures Ok(Put(t, k, r).table)
  {
    var rows := t.rows[k := r];
    forall i, j | 0 <= i < j < |rows|
      ensures InOrder(rows[i], rows[j])
    {
      assert InOrder(t.rows[i], t.rows[j]);
      assert i == k ==> !Matches(AnyOf(r.sig), t.rows[j]);
    }
  }

  lemma InsertKeepsOk(t: Table, report: Report)
    requires Ok(t)
    ensures Ok(Exec(t, Insert(report)).table)
  {
    var u := Exec(t, Insert(report)).table;
    if LastIndex(t.rows, OpenOf(report.Sig())) < 0 {
      forall i, j | 0 <= i < j < |u.rows|
        ensures InOrder(u.rows[i], u.rows[j])
      {
        if j < |t.rows| {
          assert InOrder(t.rows[i], t.rows[j]);
        } else {
          assert Sane(t.rows[i], t.now) && !Matches(OpenOf(report.Sig()), t.rows[i]);
        }
      }
    }
  }

  lemma {:induction false} KeptIsOrdered(rows: seq<Row>, cutoff: Time)
    requires Ordered(rows)
    ensures Ordered(Kept(rows, cutoff))
  {
    if rows != [] {
      var front, last := rows[..|rows| - 1], rows[|rows| - 1];
      KeptIsOrdered(front, cutoff);
      var kept := Kept(front, cutoff);
      forall i | 0 <= i < |kept|
        ensures InOrder(kept[i], last)
      {
        assert kept[i] in front;
        var k :| 0 <= k < |front| && front[k] == kept[i];
        assert InOrder(rows[k], rows[|rows| - 1]);
      }
    }
  }

  lemma PruneKeepsOk(t: Table, keepDays: int)
    requires Ok(t)
    ensures Ok(Exec(t, Prune(keepDays)).table)
  {
    var kept := Kept(t.rows, Cutoff(t, keepDays));
    KeptIsOrdered(t.rows, Cutoff(t, keepDays));
    forall i | 0 <= i < |kept|
      ensures Sane(kept[i], t.now) && kept[i].id < t.nextId
    {
      assert kept[i] in t.rows;
    }
  }

  /** Every statement keeps the table well-formed, whoever issues it. */
  lemma ExecKeepsOk(t: Table, s: Statement)
    requires Ok(t)
    ensures Ok(Exec(t, s).table)
    ensures Exec(t, s).table.now >= t.now
  {
    match s
    case Bump(sig, _) => ChangeKeepsOk(t, s, sig);
    case Reopen(report, window) => ChangeKeepsOk(t, s, report.Sig());
    case Insert(report) => InsertKeepsOk(t, report);
    case Resolve(sig, _, _) => ChangeKeepsOk(t, s, sig);
    case Prune(days) => PruneKeepsOk(t, days);
    case Tick(_) =>
    case Read =>
  }

  lemma ChangeKeepsOk(t: Table, s: Statement, sig: Signature)
    requires Ok(t)
    requires (s.Bump? && s.sig == sig) || (s.Resolve? && s.sig == sig) || (s.Reopen? && s.report.Sig() == sig)
    ensures Ok(Exec(t, s).table)
  {
    OpenIsNewest(t, sig);
    if s.Reopen? {
      ReopenPicksNewest(t, sig, s.window);
    }
    var n := LastIndex(t.rows, AnyOf(sig));
    var o := Exec(t, s);
    if o.row.Some? {
      assert Sane(t.rows[n], t.now);
      PutKeepsOk(t, n, o.row.value);
    }
  }
}
