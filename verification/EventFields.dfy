/** What a statement writes, column by column: the rows of a table before and after
    it, against the report or the resolve it was given (webui/eventstore.py). */
module EventFields {
  import opened Common
  import opened EventTable

  // --- columns -----------------------------------------------------------------------------

  /** `(detail or "")[:limit] or None` */
  predicate IsClip(detail: Option<string>, limit: nat, d: Option<string>) {
    if detail == None || detail.value == "" then d == None
    else
      && d.Some? && d.value <= detail.value
      && |d.value| == if |detail.value| < limit then |detail.value| else limit
  }

  /** The signature is of the report's kind and subject, on its device. */
  predicate IsAbout(sig: Signature, r: Report) {
    && sig.kind == r.kind && sig.subject == r.subject
    && (r.deviceId != "" ==> sig.deviceKey == r.deviceId)
    && (r.deviceId == "" ==> sig.deviceKey == r.device)
  }

  /** What news always takes from the report. */
  predicate Tells(row: Row, r: Report) {
    && row.severity == r.severity && row.title == r.title && row.source == r.source && row.signalAt == r.signalAt
    && row.resolvedAt == None && row.resolvedBy == None && row.resolveDetail == None
  }

  /** What only a new episode takes from it; `detail` is the report's, clipped. */
  predicate Begins(row: Row, r: Report, detail: Option<string>) {
    && IsAbout(row.sig, r) && Tells(row, r) && row.detail == detail && row.ruleId == r.ruleId
    && (r.deviceId != "" ==> row.deviceId == Some(r.deviceId)) && (r.deviceId == "" ==> row.deviceId == None)
    && (r.device != "" ==> row.device == r.device) && (r.device == "" ==> row.device == "unknown")
    && row.count == 1 && row.reopenCount == 0 && row.reopenedAt == None
  }

  predicate SameEpisode(a: Row, b: Row) {
    && a.id == b.id && a.sig == b.sig && a.deviceId == b.deviceId && a.device == b.device
    && a.ruleId == b.ruleId && a.raisedAt == b.raisedAt
  }

  predicate SameResolve(a: Row, b: Row) {
    a.resolvedAt == b.resolvedAt && a.resolvedBy == b.resolvedBy && a.resolveDetail == b.resolveDetail
  }

  predicate SameTelling(a: Row, b: Row) {
    && a.severity == b.severity && a.title == b.title && a.source == b.source && a.signalAt == b.signalAt
    && a.reopenCount == b.reopenCount && a.reopenedAt == b.reopenedAt
  }

  /** A detail replaces the old one if there is one. */
  predicate TakesDetail(before: Row, row: Row, detail: Option<string>) {
    row.detail == if detail == None then before.detail else detail
  }

  predicate IsNewEpisode(row: Row, r: Report, detail: Option<string>, id: nat, now: Time) {
    Begins(row, r, detail) && row.id == id && row.raisedAt == now && row.lastSeenAt == now
  }

  predicate IsReopening(before: Row, row: Row, r: Report, detail: Option<string>, now: Time) {
    && SameEpisode(before, row) && Tells(row, r) && TakesDetail(before, row, detail)
    && row.reopenedAt == Some(now) && row.lastSeenAt == now
    && row.count == before.count + 1 && row.reopenCount == before.reopenCount + 1
  }

  /** A bump changes the count, the time last seen and the detail, and nothing else. */
  predicate IsBump(before: Row, row: Row, detail: Option<string>, now: Time) {
    && SameEpisode(before, row) && SameTelling(before, row) && SameResolve(before, row)
    && TakesDetail(before, row, detail) && row.lastSeenAt == now && row.count == before.count + 1
  }

  /** A resolve writes when, by whom and why, and nothing else. */
  predicate IsClosing(before: Row, row: Row, actor: string, note: Option<string>, now: Time) {
    && SameEpisode(before, row) && SameTelling(before, row)
    && row.detail == before.detail && row.lastSeenAt == before.lastSeenAt && row.count == before.count
    && row.resolvedAt == Some(now) && row.resolvedBy == Some(actor) && row.resolveDetail == note
  }

  // --- tables --------------------------------------------------------------------------------

  predicate IsOpenAt(t: Table, k: int, sig: Signature) {
    0 <= k < |t.rows| && t.rows[k].sig == sig && t.rows[k].resolvedAt == None
  }

  ghost predicate HasOpen(t: Table, sig: Signature) {
    exists k :: IsOpenAt(t, k, sig)
  }

  /** The newest row of the signature, closed less than `window` seconds ago. */
  ghost predicate IsRecentAt(t: Table, k: int, sig: Signature, window: int) {
    && 0 <= k < |t.rows| && t.rows[k].sig == sig
    && (forall i :: 0 <= i < |t.rows| && t.rows[i].sig == sig ==> t.rows[i].id <= t.rows[k].id)
    && t.rows[k].resolvedAt.Some? && t.rows[k].resolvedAt.value > t.now - window * 1_000_000
  }

  ghost predicate HasRecent(t: Table, sig: Signature, window: int) {
    exists k :: IsRecentAt(t, k, sig, window)
  }

  /** The newest row of the signature. */
  predicate IsNewestAt(t: Table, k: int, sig: Signature) {
    && 0 <= k < |t.rows| && t.rows[k].sig == sig
    && forall i :: 0 <= i < |t.rows| && t.rows[i].sig == sig ==> t.rows[i].id <= t.rows[k].id
  }

  predicate Replaces(t: Table, u: Table, k: int, row: Row) {
    0 <= k < |t.rows| && u.rows == t.rows[k := row] && u.nextId == t.nextId && u.now == t.now
  }

  /** The row of the report's signature, whatever its columns are called. */
  function SigOf(r: Report): (sig: Signature)
    ensures IsAbout(sig, r)
  {
    Signature(r.kind, if r.deviceId == "" then r.device else r.deviceId, r.subject)
  }

  // --- statements ------------------------------------------------------------------------------

  ghost predicate Bumps(t: Table, sig: Signature, detail: Option<string>, u: Table, row: Option<Row>) {
    if HasOpen(t, sig) then
      row.Some? && exists k :: IsOpenAt(t, k, sig) && Replaces(t, u, k, row.value)
                               && IsBump(t.rows[k], row.value, detail, t.now)
    else row == None && u == t
  }

  ghost predicate Reopens(t: Table, r: Report, detail: Option<string>, window: int, u: Table, row: Option<Row>) {
    if !HasOpen(t, SigOf(r)) && HasRecent(t, SigOf(r), window) then
      row.Some? && exists k :: IsRecentAt(t, k, SigOf(r), window) && Replaces(t, u, k, row.value)
                               && IsReopening(t.rows[k], row.value, r, detail, t.now)
    else row == None && u == t
  }

  ghost predicate Inserts(t: Table, r: Report, detail: Option<string>, u: Table, row: Option<Row>) {
    && u.now == t.now && u.nextId == t.nextId + 1
    && if HasOpen(t, SigOf(r)) then row == None && u.rows == t.rows
       else row.Some? && u.rows == t.rows + [row.value] && IsNewEpisode(row.value, r, detail, t.nextId, t.now)
  }

  ghost predicate Closes(t: Table, sig: Signature, actor: string, note: Option<string>, u: Table, row: Option<Row>) {
    if HasOpen(t, sig) then
      row.Some? && exists k :: IsOpenAt(t, k, sig) && Replaces(t, u, k, row.value)
                               && IsClosing(t.rows[k], row.value, actor, note, t.now)
    else row == None && u == t
  }

  /** What a statement does, in terms of the columns. */
  ghost predicate Writes(t: Table, s: Statement, u: Table, row: Option<Row>) {
    match s
    case Bump(sig, detail) => Bumps(t, sig, detail, u, row)
    case Reopen(r, window) => Reopens(t, r, r.detail, window, u, row)
    case Insert(r) => Inserts(t, r, r.detail, u, row)
    case Resolve(sig, actor, note) => Closes(t, sig, actor, note, u, row)
    case Prune(keepDays) =>
      && row == None && u.now == t.now && u.nextId == t.nextId
      && forall r :: r in u.rows <==>
                     r in t.rows && (r.resolvedAt.Some? ==> r.resolvedAt.value >= t.now - keepDays * 86_400_000_000)
    case Tick(elapsed) => row == None && u.rows == t.rows && u.nextId == t.nextId && u.now == t.now + elapsed
    case Read => row == None && u == t
  }

  lemma OpenIsFound(t: Table, sig: Signature)
    ensures HasOpen(t, sig) <==> LastIndex(t.rows, OpenOf(sig)) >= 0
    ensures HasOpen(t, sig) ==> IsOpenAt(t, LastIndex(t.rows, OpenOf(sig)), sig)
  {
    var k := LastIndex(t.rows, OpenOf(sig));
    assert k >= 0 ==> IsOpenAt(t, k, sig);
    if i :| IsOpenAt(t, i, sig) {
      assert Matches(OpenOf(sig), t.rows[i]);
    }
  }

  lemma RecentIsFound(t: Table, sig: Signature, window: int)
    requires Ok(t)
    ensures ReopenIndex(t, sig, window) >= 0 <==> !HasOpen(t, sig) && HasRecent(t, sig, window)
    ensures ReopenIndex(t, sig, window) >= 0 ==> IsRecentAt(t, ReopenIndex(t, sig, window), sig, window)
  {
    OpenIsFound(t, sig);
    OpenIsNewest(t, sig);
    ReopenPicksNewest(t, sig, window);
    var n := LastIndex(t.rows, AnyOf(sig));
    if n >= 0 {
      forall i | 0 <= i < |t.rows| && t.rows[i].sig == sig
        ensures t.rows[i].id <= t.rows[n].id
      {
        assert Matches(AnyOf(sig), t.rows[i]);
        assert i < n ==> InOrder(t.rows[i], t.rows[n]);
      }
    }
    assert ReopenIndex(t, sig, window) >= 0 ==> IsRecentAt(t, n, sig, window);
    if k :| IsRecentAt(t, k, sig, window) {
      assert Matches(AnyOf(sig), t.rows[k]);
      assert k < n ==> InOrder(t.rows[k], t.rows[n]);
    }
  }

  lemma NewestIsFound(t: Table, sig: Signature)
    requires Ok(t)
    ensures forall k :: IsNewestAt(t, k, sig) <==> k == LastIndex(t.rows, AnyOf(sig)) && k >= 0
  {
    var n := LastIndex(t.rows, AnyOf(sig));
    forall i | 0 <= i < |t.rows| && t.rows[i].sig == sig
      ensures i <= n && t.rows[i].id <= t.rows[n].id && (i < n ==> t.rows[i].id < t.rows[n].id)
    {
      assert Matches(AnyOf(sig), t.rows[i]);
      assert i < n ==> InOrder(t.rows[i], t.rows[n]);
    }
  }

  /** Every statement writes what it says, whichever row it finds. */
  lemma StatementWrites(t: Table, s: Statement)
    requires Ok(t)
    ensures Writes(t, s, Exec(t, s).table, Exec(t, s).row)
  {
    match s
    case Bump(_, _) => BumpWrites(t, s);
    case Reopen(_, _) => ReopenWrites(t, s);
    case Insert(r) =>
      assert r.Sig() == SigOf(r);
      OpenIsFound(t, r.Sig());
    case Resolve(_, _, _) => ResolveWrites(t, s);
    case Prune(keepDays) => KeptAre(t.rows, Cutoff(t, keepDays));
    case Tick(_) =>
    case Read =>
  }

  lemma BumpWrites(t: Table, s: Statement)
    requires s.Bump?
    ensures Bumps(t, s.sig, s.detail, Exec(t, s).table, Exec(t, s).row)
  {
    OpenIsFound(t, s.sig);
  }

  lemma ReopenWrites(t: Table, s: Statement)
    requires Ok(t) && s.Reopen?
    ensures Reopens(t, s.report, s.report.detail, s.window, Exec(t, s).table, Exec(t, s).row)
  {
    assert s.report.Sig() == SigOf(s.report);
    RecentIsFound(t, s.report.Sig(), s.window);
  }

  lemma ResolveWrites(t: Table, s: Statement)
    requires s.Resolve?
    ensures Closes(t, s.sig, s.actor, s.note, Exec(t, s).table, Exec(t, s).row)
  {
    OpenIsFound(t, s.sig);
  }

  // --- a whole report -----------------------------------------------------------------------------

  /** What is known of the row a report came back with, whoever interfered. */
  predicate Carries(row: Option<Row>, news: bool, r: Report, detail: Option<string>) {
    && (news ==> row.Some? && Tells(row.value, r) && (row.value.reopenCount == 0 ==> Begins(row.value, r, detail)))
    && (row.Some? ==>
          && IsAbout(row.value.sig, r) && row.value.resolvedAt == None
          && (detail.Some? ==> row.value.detail == detail))
  }

  /** One report on a table nobody else touches. */
  ghost predicate Reports(t: Table, r: Report, detail: Option<string>, window: int, u: Table, row: Option<Row>,
                          news: bool) {
    if HasOpen(t, SigOf(r)) then !news && Bumps(t, SigOf(r), detail, u, row)
    else if window > 0 && HasRecent(t, SigOf(r), window) then news && Reopens(t, r, detail, window, u, row)
    else news && Inserts(t, r, detail, u, row)
  }

  // --- which rows a call closes -----------------------------------------------------------------

  predicate HasId(r: Row, id: nat) {
    r.resolvedAt == None && r.id == id
  }

  /** Open and of this kind, device and rule, as far as they are given. */
  predicate IsWanted(r: Row, kind: Option<string>, deviceId: Option<string>, ruleId: Option<string>) {
    && r.resolvedAt == None
    && (kind.Some? && kind.value != "" ==> r.sig.kind == kind.value)
    && (deviceId.Some? && deviceId.value != "" ==> r.deviceId == deviceId)
    && (ruleId.Some? ==> r.ruleId == ruleId)
  }

  /** Open, of the kind, of the rule if one is given, and not reported for `ttl` seconds. */
  predicate IsStale(r: Row, kind: string, ttl: int, ruleId: Option<string>, now: Time) {
    && r.resolvedAt == None && r.sig.kind == kind && r.lastSeenAt < now - ttl * 1_000_000
    && (ruleId.Some? ==> r.ruleId == ruleId)
  }

  function WithId(t: Table, id: nat): set<int> {
    set i | 0 <= i < |t.rows| && HasId(t.rows[i], id)
  }

  function Wanted(t: Table, kind: Option<string>, deviceId: Option<string>, ruleId: Option<string>): set<int> {
    set i | 0 <= i < |t.rows| && IsWanted(t.rows[i], kind, deviceId, ruleId)
  }

  function Stale(t: Table, kind: string, ttl: int, ruleId: Option<string>): set<int> {
    set i | 0 <= i < |t.rows| && IsStale(t.rows[i], kind, ttl, ruleId, t.now)
  }

  /** Exactly the chosen rows have been closed, each announced once, as it is now. */
  ghost predicate ClosesJust(t: Table, u: Table, chosen: set<int>, actor: string, note: Option<string>,
                             told: seq<Row>) {
    && |u.rows| == |t.rows| && u.nextId == t.nextId && u.now == t.now
    && (forall i :: 0 <= i < |t.rows| ==>
          if i in chosen then IsClosing(t.rows[i], u.rows[i], actor, note, t.now) else u.rows[i] == t.rows[i])
    && |told| == |chosen| && forall r :: r in told ==> exists i :: i in chosen && 0 <= i < |u.rows| && u.rows[i] == r
  }

  /** Whoever interfered: what was announced is closed, by this actor, with this note. */
  predicate ToldAsClosed(r: Row, actor: string, note: Option<string>) {
    r.resolvedAt.Some? && r.resolvedBy == Some(actor) && r.resolveDetail == note
  }

  ghost predicate SaysHowLong(note: Option<string>, ttl: nat) {
    IsClip(Some("no further report for " + Decimal(ttl) + "s"), 2000, note)
  }

  /** Whoever interfered: what expire announced was stale when it began. */
  ghost predicate TellsOfStale(t: Table, kind: string, ttl: nat, ruleId: Option<string>, actor: string,
                               told: seq<Row>) {
    exists note :: SaysHowLong(note, ttl) &&
      forall r :: r in told ==>
        && ToldAsClosed(r, actor, note) && r.sig.kind == kind
        && exists i :: i in Stale(t, kind, ttl, ruleId) && t.rows[i].sig == r.sig
  }

  /** Nobody interfered: just the stale events are closed. */
  ghost predicate ExpiresJust(t: Table, u: Table, kind: string, ttl: nat, ruleId: Option<string>, actor: string,
                              told: seq<Row>) {
    exists note :: SaysHowLong(note, ttl) && ClosesJust(t, u, Stale(t, kind, ttl, ruleId), actor, note, told)
  }
}
