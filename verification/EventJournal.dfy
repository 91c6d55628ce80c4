/** Whole runs of statements, in any order and from any number of callers:
    the table together with the history of what its statements returned. */
module EventJournal {
  import opened Common
  import opened EventTable

  /** A statement that returned a row: news (raised or resolved) or a repeat. */
  datatype Entry = Raised(row: Row) | Repeated(row: Row) | Resolved(row: Row)

  /** `archive` holds the rows retention deleted. */
  datatype Journal = Journal(table: Table, archive: seq<Row>, log: seq<Entry>)

  function Noted(s: Statement, row: Option<Row>): seq<Entry> {
    if row == None then []
    else match s
      case Bump(_, _) => [Repeated(row.value)]
      case Reopen(_, _) => [Raised(row.value)]
      case Insert(_) => [Raised(row.value)]
      case Resolve(_, _, _) => [Resolved(row.value)]
      case _ => []
  }

  function Do(j: Journal, s: Statement): Journal {
    var done := Exec(j.table, s);
    Journal(
      done.table,
      j.archive + if s.Prune? then Dropped(j.table.rows, Cutoff(j.table, s.keepDays)) else [],
      j.log + Noted(s, done.row))
  }

  function Run(j: Journal, ss: seq<Statement>): Journal {
    if ss == [] then j else Do(Run(j, ss[..|ss| - 1]), ss[|ss| - 1])
  }

  function Empty(now: Time): Journal {
    Journal(Table([], 1, now), [], [])
  }

  // --- the history of one signature -----------------------------------------

  /** The last time the signature changed between open and closed. */
  function LastNews(log: seq<Entry>, sig: Signature): (e: Option<Entry>)
    ensures e.Some? ==> e.value in log && e.value.row.sig == sig && !e.value.Repeated?
  {
    if log == [] then None
    else
      var last := log[|log| - 1];
      if last.row.sig == sig && !last.Repeated? then Some(last) else LastNews(log[..|log| - 1], sig)
  }

  predicate OpenAfter(log: seq<Entry>, sig: Signature) {
    LastNews(log, sig).Some? && LastNews(log, sig).value.Raised?
  }

  /** Raise and resolve strictly alternate, starting with a raise, and repeats
      are reported only in between. */
  ghost predicate Alternates(log: seq<Entry>) {
    forall k :: 0 <= k < |log| ==> (OpenAfter(log[..k], log[k].row.sig) <==> !log[k].Raised?)
  }

  /** What to count in a history. */
  datatype Probe =
    | Exactly(entry: Entry)
    | RaisesOf(sig: Signature)
    | RepeatsOf(sig: Signature)
    | ResolvesOf(sig: Signature)

  predicate Hits(p: Probe, e: Entry) {
    match p
    case Exactly(entry) => e == entry
    case RaisesOf(sig) => e.Raised? && e.row.sig == sig
    case RepeatsOf(sig) => e.Repeated? && e.row.sig == sig
    case ResolvesOf(sig) => e.Resolved? && e.row.sig == sig
  }

  function Times(es: seq<Entry>, p: Probe): nat {
    if es == [] then 0 else Times(es[..|es| - 1], p) + if Hits(p, es[|es| - 1]) then 1 else 0
  }

  lemma TimesGrows(es: seq<Entry>, more: seq<Entry>, p: Probe)
    requires |more| <= 1
    ensures Times(es + more, p) == Times(es, p) + Times(more, p)
    ensures Times(more, p) == if |more| == 1 && Hits(p, more[0]) then 1 else 0
  {
    if more == [] {
      assert es + more == es;
    } else {
      assert (es + more)[..|es + more| - 1] == es;
      assert more[..0] == [];
    }
  }

  function Raises(log: seq<Entry>, sig: Signature): nat {
    Times(log, RaisesOf(sig))
  }

  function Repeats(log: seq<Entry>, sig: Signature): nat {
    Times(log, RepeatsOf(sig))
  }

  function Resolves(log: seq<Entry>, sig: Signature): nat {
    Times(log, ResolvesOf(sig))
  }

  // --- totals over rows -------------------------------------------------------

  datatype Weight = Reports | Episodes | Openings

  function WeightOf(w: Weight, sig: Signature, r: Row): nat {
    if r.sig != sig then 0
    else match w
      case Reports => r.count
      case Episodes => 1 + r.reopenCount
      case Openings => if r.Open() then 1 else 0
  }

  function Total(w: Weight, sig: Signature, rows: seq<Row>): nat {
    if rows == [] then 0 else Total(w, sig, rows[..|rows| - 1]) + WeightOf(w, sig, rows[|rows| - 1])
  }

  lemma {:induction false} TotalOfUpdate(w: Weight, sig: Signature, rows: seq<Row>, k: int, r: Row)
    requires 0 <= k < |rows|
    ensures Total(w, sig, rows[k := r]) == Total(w, sig, rows) - WeightOf(w, sig, rows[k]) + WeightOf(w, sig, r)
  {
    var n := |rows| - 1;
    if k == n {
      assert rows[k := r][..n] == rows[..n];
    } else {
      TotalOfUpdate(w, sig, rows[..n], k, r);
      assert rows[k := r][..n] == rows[..n][k := r];
    }
  }

  lemma {:induction false} TotalOfConcat(w: Weight, sig: Signature, a: seq<Row>, b: seq<Row>)
    ensures Total(w, sig, a + b) == Total(w, sig, a) + Total(w, sig, b)
  {
    if b == [] {
      assert a + b == a;
    } else {
      var n := |b| - 1;
      TotalOfConcat(w, sig, a, b[..n]);
      assert (a + b)[..|a + b| - 1] == a + b[..n];
    }
  }

  /** Retention moves rows, it loses none. */
  lemma {:induction false} PruneSplitsTotal(w: Weight, sig: Signature, rows: seq<Row>, cutoff: Time)
    ensures Total(w, sig, rows) == Total(w, sig, Kept(rows, cutoff)) + Total(w, sig, Dropped(rows, cutoff))
  {
    if rows != [] {
      var front, last := rows[..|rows| - 1], rows[|rows| - 1];
      PruneSplitsTotal(w, sig, front, cutoff);
      PruneOneMore(rows, cutoff);
      if Expired(last, cutoff) {
        TotalOfOneMore(w, sig, Dropped(front, cutoff), last);
      } else {
        TotalOfOneMore(w, sig, Kept(front, cutoff), last);
      }
    }
  }

  lemma PruneOneMore(rows: seq<Row>, cutoff: Time)
    requires rows != []
    ensures var front, last := rows[..|rows| - 1], rows[|rows| - 1];
            if Expired(last, cutoff) then Kept(rows, cutoff) == Kept(front, cutoff) &&
                Dropped(rows, cutoff) == Dropped(front, cutoff) + [last]
            else Kept(rows, cutoff) == Kept(front, cutoff) + [last] && Dropped(rows, cutoff) == Dropped(front, cutoff)
  {
  }

  /** What retention deletes was closed. */
  lemma {:induction false} PruneDropsNoOpening(sig: Signature, rows: seq<Row>, cutoff: Time)
    ensures Total(Openings, sig, Dropped(rows, cutoff)) == 0
  {
    if rows != [] {
      var front, last := rows[..|rows| - 1], rows[|rows| - 1];
      PruneDropsNoOpening(sig, front, cutoff);
      PruneOneMore(rows, cutoff);
      if Expired(last, cutoff) {
        TotalOfOneMore(Openings, sig, Dropped(front, cutoff), last);
      }
    }
  }

  lemma TotalOfOneMore(w: Weight, sig: Signature, rows: seq<Row>, last: Row)
    ensures Total(w, sig, rows + [last]) == Total(w, sig, rows) + WeightOf(w, sig, last)
  {
    assert (rows + [last])[..|rows|] == rows;
  }

  // --- the invariant ----------------------------------------------------------

  ghost predicate SameEpisode(e: Entry, r: Row) {
    e.row.id == r.id && e.row.sig == r.sig && (e.Raised? <==> r.Open()) && e.row.Since() == r.Since()
  }

  /** The newest row of a signature tells its latest news; once retention has
      deleted every row, the latest news was a resolve. */
  ghost predicate Linked(j: Journal, sig: Signature) {
    var n := LastIndex(j.table.rows, AnyOf(sig));
    var e := LastNews(j.log, sig);
    if n >= 0 then e.Some? && SameEpisode(e.value, j.table.rows[n])
    else e.Some? ==> e.value.Resolved?
  }

  /** When an entry was committed. */
  function At(e: Entry): Time {
    if e.Resolved? then e.row.Since() else e.row.lastSeenAt
  }

  /** The log is in the order of time, and news carries the time it was made. */
  ghost predicate Timely(log: seq<Entry>, now: Time) {
    && (forall i, k :: 0 <= i <= k < |log| ==> At(log[i]) <= At(log[k]))
    && (forall i :: 0 <= i < |log| ==> At(log[i]) <= now && (!log[i].Repeated? ==> log[i].row.Since() == At(log[i])))
  }

  /** The last time the signature was reported. */
  function LastReport(log: seq<Entry>, sig: Signature): (e: Option<Entry>)
    ensures e.Some? ==> e.value in log && e.value.row.sig == sig && !e.value.Resolved?
  {
    if log == [] then None
    else
      var last := log[|log| - 1];
      if last.row.sig == sig && !last.Resolved? then Some(last) else LastReport(log[..|log| - 1], sig)
  }

  /** The newest row of a signature was last seen at its last report. */
  ghost predicate Seen(j: Journal, sig: Signature) {
    var n := LastIndex(j.table.rows, AnyOf(sig));
    n >= 0 ==> LastReport(j.log, sig).Some? && LastReport(j.log, sig).value.row.lastSeenAt == j.table.rows[n].lastSeenAt
  }

  ghost predicate Balanced(j: Journal, sig: Signature) {
    && Total(Episodes, sig, j.table.rows) + Total(Episodes, sig, j.archive) == Raises(j.log, sig)
    && Total(Reports, sig, j.table.rows) + Total(Reports, sig, j.archive) == Raises(j.log, sig) + Repeats(j.log, sig)
    && Total(Openings, sig, j.table.rows) + Resolves(j.log, sig) == Raises(j.log, sig)
  }

  ghost predicate Good(j: Journal) {
    && Ok(j.table)
    && Alternates(j.log)
    && Timely(j.log, j.table.now)
    && (forall sig :: Linked(j, sig))
    && (forall sig :: Seen(j, sig))
    && (forall sig :: Balanced(j, sig))
  }

  /** What one committed statement does to the newest row of its signature. */
  lemma StatementEffect(t: Table, s: Statement)
    requires Ok(t) && Exec(t, s).row.Some?
    ensures var r := Exec(t, s).row.value; var u := Exec(t, s).table; var n := LastIndex(t.rows, AnyOf(r.sig));
            if s.Insert? && |u.rows| > |t.rows| then u.rows == t.rows + [r] && r.count == 1 && r.reopenCount == 0
            else n >= 0 && u.rows == t.rows[n := r] && r.id == t.rows[n].id && r.sig == t.rows[n].sig
    ensures var r := Exec(t, s).row.value; var n := LastIndex(t.rows, AnyOf(r.sig));
            match s
            case Bump(_, _) => t.rows[n].Open() && r.Open() && r.Since() == t.rows[n].Since()
                               && r.count == t.rows[n].count + 1 && r.reopenCount == t.rows[n].reopenCount
            case Reopen(_, _) => !t.rows[n].Open() && r.Open()
                               && r.count == t.rows[n].count + 1 && r.reopenCount == t.rows[n].reopenCount + 1
            case Insert(_) => r.Open() && (n >= 0 ==> !t.rows[n].Open())
            case Resolve(_, _, _) => t.rows[n].Open() && !r.Open()
                               && r.count == t.rows[n].count && r.reopenCount == t.rows[n].reopenCount
            case _ => false
  {
    var r := Exec(t, s).row.value;
    OpenIsNewest(t, r.sig);
    if s.Reopen? {
      ReopenPicksNewest(t, r.sig, s.window);
    }
  }

  /** The newest row of a signature after its newest row, or another row, changed. */
  lemma NewestAfterUpdate(rows: seq<Row>, k: int, r: Row, sig: Signature)
    requires 0 <= k < |rows| && r.sig == rows[k].sig
    ensures LastIndex(rows[k := r], AnyOf(sig)) == LastIndex(rows, AnyOf(sig))
  {
    var a, b := LastIndex(rows[k := r], AnyOf(sig)), LastIndex(rows, AnyOf(sig));
    if a >= 0 {
      assert Matches(AnyOf(sig), rows[a]);
    }
    if b >= 0 {
      assert Matches(AnyOf(sig), rows[k := r][b]);
    }
  }

  lemma NewestAfterAppend(rows: seq<Row>, r: Row, sig: Signature)
    ensures LastIndex(rows + [r], AnyOf(sig)) == if r.sig == sig then |rows| else LastIndex(rows, AnyOf(sig))
  {
    assert (rows + [r])[..|rows + [r]| - 1] == rows;
  }

  lemma LogGrows(log: seq<Entry>, e: Entry, sig: Signature)
    ensures LastNews(log + [e], sig) == if e.row.sig == sig && !e.Repeated? then Some(e) else LastNews(log, sig)
  {
    assert (log + [e])[..|log + [e]| - 1] == log;
  }

  lemma NewestAfterCommit(t: Table, s: Statement, sig: Signature)
    requires Ok(t) && Exec(t, s).row.Some?
    ensures var r := Exec(t, s).row.value; var u := Exec(t, s).table;
            var m := LastIndex(u.rows, AnyOf(sig)); var n := LastIndex(t.rows, AnyOf(sig));
            if r.sig == sig then m >= 0 && u.rows[m] == r else m == n && (n >= 0 ==> u.rows[n] == t.rows[n])
  {
    var r := Exec(t, s).row.value;
    StatementEffect(t, s);
    if s.Insert? {
      NewestAfterAppend(t.rows, r, sig);
    } else {
      NewestAfterUpdate(t.rows, LastIndex(t.rows, AnyOf(r.sig)), r, sig);
    }
  }

  lemma CommitKeepsLinked(j: Journal, s: Statement, sig: Signature)
    requires Good(j) && Exec(j.table, s).row.Some?
    ensures Linked(Do(j, s), sig)
  {
    var r := Exec(j.table, s).row.value;
    assert Linked(j, sig);
    CommitShape(j, s);
    NewestAfterCommit(j.table, s, sig);
    LogGrows(j.log, Noted(s, Some(r))[0], sig);
    if r.sig == sig {
      StatementEffect(j.table, s);
    }
  }

  lemma CommitKeepsSeen(j: Journal, s: Statement, sig: Signature)
    requires Good(j) && Exec(j.table, s).row.Some?
    ensures Seen(Do(j, s), sig)
  {
    var r := Exec(j.table, s).row.value;
    var e := Noted(s, Some(r))[0];
    assert Seen(j, sig);
    CommitShape(j, s);
    NewestAfterCommit(j.table, s, sig);
    assert (j.log + [e])[..|j.log|] == j.log;
    if r.sig == sig && s.Resolve? {
      StatementEffect(j.table, s);
      ResolveKeepsLastSeen(j.table, s);
    }
  }

  lemma ResolveKeepsLastSeen(t: Table, s: Statement)
    requires Ok(t) && Exec(t, s).row.Some? && s.Resolve?
    ensures var r := Exec(t, s).row.value; r.lastSeenAt == t.rows[LastIndex(t.rows, AnyOf(r.sig))].lastSeenAt
  {
    OpenIsNewest(t, s.sig);
  }

  /** What a statement commits carries the time of the commit. */
  lemma CommitIsNow(t: Table, s: Statement)
    requires Exec(t, s).row.Some?
    ensures var e := Noted(s, Exec(t, s).row)[0];
            At(e) == t.now == Exec(t, s).table.now && (!e.Repeated? ==> e.row.Since() == t.now)
  {
  }

  lemma CommitKeepsTimely(j: Journal, s: Statement)
    requires Good(j) && Exec(j.table, s).row.Some?
    ensures Timely(Do(j, s).log, Do(j, s).table.now)
  {
    CommitShape(j, s);
    CommitIsNow(j.table, s);
  }

  /** How much a statement adds to each total of its own signature. */
  function Gain(w: Weight, s: Statement): int {
    match w
    case Reports => if s.Resolve? then 0 else 1
    case Episodes => if s.Reopen? || s.Insert? then 1 else 0
    case Openings => if s.Reopen? || s.Insert? then 1 else if s.Resolve? then -1 else 0
  }

  lemma CommitTotal(t: Table, s: Statement, w: Weight, sig: Signature)
    requires Ok(t) && Exec(t, s).row.Some?
    ensures Total(w, sig, Exec(t, s).table.rows) ==
            Total(w, sig, t.rows) + if Exec(t, s).row.value.sig == sig then Gain(w, s) else 0
  {
    var r := Exec(t, s).row.value;
    var n := LastIndex(t.rows, AnyOf(r.sig));
    StatementEffect(t, s);
    if s.Insert? {
      assert (t.rows + [r])[..|t.rows|] == t.rows;
    } else {
      TotalOfUpdate(w, sig, t.rows, n, r);
    }
  }

  lemma CommitShape(j: Journal, s: Statement)
    requires Exec(j.table, s).row.Some?
    ensures !s.Prune? && |Noted(s, Exec(j.table, s).row)| == 1
    ensures var e := Noted(s, Exec(j.table, s).row)[0];
            e.row == Exec(j.table, s).row.value && e.Resolved? == s.Resolve? && e.Repeated? == s.Bump?
            && e.Raised? == (s.Reopen? || s.Insert?)
    ensures Do(j, s) == Journal(Exec(j.table, s).table, j.archive, j.log + Noted(s, Exec(j.table, s).row))
  {
    assert j.archive + [] == j.archive;
  }

  lemma CommitCounts(j: Journal, s: Statement, sig: Signature)
    requires Exec(j.table, s).row.Some?
    ensures var mine := Exec(j.table, s).row.value.sig == sig; var log := Do(j, s).log;
            && Raises(log, sig) == Raises(j.log, sig) + (if mine then Gain(Episodes, s) else 0)
            && Raises(log, sig) + Repeats(log, sig) ==
               Raises(j.log, sig) + Repeats(j.log, sig) + (if mine then Gain(Reports, s) else 0)
            && Raises(log, sig) - Resolves(log, sig) ==
               Raises(j.log, sig) - Resolves(j.log, sig) + (if mine then Gain(Openings, s) else 0)
  {
    CommitShape(j, s);
    var noted := Noted(s, Exec(j.table, s).row);
    TimesGrows(j.log, noted, RaisesOf(sig));
    TimesGrows(j.log, noted, RepeatsOf(sig));
    TimesGrows(j.log, noted, ResolvesOf(sig));
  }

  lemma CommitKeepsBalanced(j: Journal, s: Statement, sig: Signature)
    requires Ok(j.table) && Balanced(j, sig) && Exec(j.table, s).row.Some?
    ensures Balanced(Do(j, s), sig)
  {
    CommitShape(j, s);
    CommitCounts(j, s, sig);
    CommitTotal(j.table, s, Episodes, sig);
    CommitTotal(j.table, s, Reports, sig);
    CommitTotal(j.table, s, Openings, sig);
  }

  lemma CommitKeepsAlternates(j: Journal, s: Statement)
    requires Good(j) && Exec(j.table, s).row.Some?
    ensures Alternates(Do(j, s).log)
  {
    var r := Exec(j.table, s).row.value;
    StatementEffect(j.table, s);
    var log := j.log + Noted(s, Some(r));
    assert Linked(j, r.sig);
    forall k | 0 <= k < |log|
      ensures OpenAfter(log[..k], log[k].row.sig) <==> !log[k].Raised?
    {
      assert log[..k] == j.log[..k];
      assert j.log[..|j.log|] == j.log;
    }
  }

  /** Rows of a signature close in id order, so whatever retention leaves of a
      signature includes its newest row. */
  lemma KeptLeavesNewest(t: Table, cutoff: Time, sig: Signature, i: int)
    requires Ok(t) && 0 <= i < |Kept(t.rows, cutoff)| && Kept(t.rows, cutoff)[i].sig == sig
    ensures var n := LastIndex(t.rows, AnyOf(sig));
            n >= 0 && !Expired(t.rows[n], cutoff)
            && (t.rows[n] == Kept(t.rows, cutoff)[i] || InOrder(Kept(t.rows, cutoff)[i], t.rows[n]))
  {
    var n := LastIndex(t.rows, AnyOf(sig));
    var r := Kept(t.rows, cutoff)[i];
    assert r in Kept(t.rows, cutoff);
    var k :| 0 <= k < |t.rows| && t.rows[k] == r;
    assert Matches(AnyOf(sig), t.rows[k]);
    if k < n {
      assert InOrder(t.rows[k], t.rows[n]) && Sane(t.rows[n], t.now);
    }
  }

  lemma NewestAfterPrune(t: Table, cutoff: Time, sig: Signature)
    requires Ok(t)
    ensures var n := LastIndex(t.rows, AnyOf(sig)); var m := LastIndex(Kept(t.rows, cutoff), AnyOf(sig));
            if n >= 0 && !Expired(t.rows[n], cutoff) then m >= 0 && Kept(t.rows, cutoff)[m] == t.rows[n] else m < 0
  {
    var n := LastIndex(t.rows, AnyOf(sig));
    var kept := Kept(t.rows, cutoff);
    var m := LastIndex(kept, AnyOf(sig));
    if m >= 0 {
      KeptLeavesNewest(t, cutoff, sig, m);
    }
    if n >= 0 && !Expired(t.rows[n], cutoff) {
      NewestIsKept(t, cutoff, sig);
    }
  }

  lemma NewestIsKept(t: Table, cutoff: Time, sig: Signature)
    requires Ok(t)
    requires var n := LastIndex(t.rows, AnyOf(sig)); n >= 0 && !Expired(t.rows[n], cutoff)
    ensures var m := LastIndex(Kept(t.rows, cutoff), AnyOf(sig));
            m >= 0 && Kept(t.rows, cutoff)[m] == t.rows[LastIndex(t.rows, AnyOf(sig))]
  {
    var n := LastIndex(t.rows, AnyOf(sig));
    var kept := Kept(t.rows, cutoff);
    var i := KeptHas(t.rows, cutoff, n);
    assert Matches(AnyOf(sig), kept[i]);
    var m := LastIndex(kept, AnyOf(sig));
    KeptLeavesNewest(t, cutoff, sig, m);
    KeptIsOrdered(t.rows, cutoff);
    NotBefore(kept, i, m);
  }

  lemma NotBefore(rows: seq<Row>, i: nat, m: nat)
    requires i <= m < |rows| && Ordered(rows)
    requires rows[m] == rows[i] || InOrder(rows[m], rows[i])
    ensures rows[m] == rows[i]
  {
    assert i < m ==> InOrder(rows[i], rows[m]);
  }

  lemma {:induction false} KeptHas(rows: seq<Row>, cutoff: Time, k: int) returns (i: nat)
    requires 0 <= k < |rows| && !Expired(rows[k], cutoff)
    ensures i < |Kept(rows, cutoff)| && Kept(rows, cutoff)[i] == rows[k]
  {
    if k < |rows| - 1 {
      i := KeptHas(rows[..|rows| - 1], cutoff, k);
    } else {
      i := |Kept(rows, cutoff)| - 1;
    }
  }

  lemma PruneKeepsGood(j: Journal, keepDays: int)
    requires Good(j)
    ensures Good(Do(j, Prune(keepDays)))
  {
    var j' := Do(j, Prune(keepDays));
    var cutoff := Cutoff(j.table, keepDays);
    PruneKeepsOk(j.table, keepDays);
    assert j'.log == j.log;
    forall sig
      ensures Linked(j', sig) && Balanced(j', sig) && Seen(j', sig)
    {
      assert Linked(j, sig) && Balanced(j, sig) && Seen(j, sig);
      NewestAfterPrune(j.table, cutoff, sig);
      PruneSplitsTotal(Episodes, sig, j.table.rows, cutoff);
      PruneSplitsTotal(Reports, sig, j.table.rows, cutoff);
      PruneSplitsTotal(Openings, sig, j.table.rows, cutoff);
      PruneDropsNoOpening(sig, j.table.rows, cutoff);
      TotalOfConcat(Episodes, sig, j.archive, Dropped(j.table.rows, cutoff));
      TotalOfConcat(Reports, sig, j.archive, Dropped(j.table.rows, cutoff));
    }
  }

  lemma DoKeepsGood(j: Journal, s: Statement)
    requires Good(j)
    ensures Good(Do(j, s))
  {
    var j' := Do(j, s);
    ExecKeepsOk(j.table, s);
    if s.Prune? {
      PruneKeepsGood(j, s.keepDays);
    } else if Exec(j.table, s).row.Some? {
      CommitKeepsAlternates(j, s);
      CommitKeepsTimely(j, s);
      forall sig
        ensures Linked(j', sig) && Balanced(j', sig) && Seen(j', sig)
      {
        CommitKeepsLinked(j, s, sig);
        CommitKeepsSeen(j, s, sig);
        CommitKeepsBalanced(j, s, sig);
      }
    } else {
      assert j'.log == j.log && j'.archive == j.archive && j'.table.rows == j.table.rows;
      forall sig
        ensures Linked(j', sig) && Balanced(j', sig) && Seen(j', sig)
      {
        assert Linked(j, sig) && Balanced(j, sig) && Seen(j, sig);
      }
    }
  }

  // --- the theorems -------------------------------------------------------------

  /** Every state that any sequence of statements can reach is good. */
  lemma {:induction false} EveryRunIsGood(now: Time, ss: seq<Statement>)
    ensures Good(Run(Empty(now), ss))
  {
    if ss != [] {
      EveryRunIsGood(now, ss[..|ss| - 1]);
      DoKeepsGood(Run(Empty(now), ss[..|ss| - 1]), ss[|ss| - 1]);
    }
  }
}
