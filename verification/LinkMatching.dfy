/** The internal links of build_topology (webui/topology.py): a greedy matching of
    the half-views that two devices' LLDP tables give of one cable. */
module LinkMatching {
  import opened Common
  import opened Ordering
  import opened Drift

  /** One parsed LLDP neighbour. */
  datatype Neighbour = Neighbour(localPort: string, parent: Option<string>, remoteName: Option<string>, chassis: string,
                                 portId: Option<string>, remoteLabel: Option<string>)

  type Tables = map<string, seq<Neighbour>>   // device id -> neighbours, in table order
  type Members = map<string, map<string, string>>   // device id -> member port -> port-channel

  datatype End = End(device: string, port: string, lag: Option<string>)
  {
    function Port(): Pair {
      (device, port)
    }
  }

  datatype Link = Link(a: End, b: End)

  /** Each names the other's port. */
  predicate Corroborate(a: Neighbour, b: Neighbour) {
    a.remoteName == Some(b.localPort) && b.remoteName == Some(a.localPort)
  }

  /** _lag_for */
  function LagFor(members: Members, device: string, port: string, parent: Option<string>): Option<string> {
    if parent.Some? && parent.value != "" then parent
    else if device in members && port in members[device] then Some(members[device][port]) else None
  }

  ghost predicate Known(ids: seq<string>, tables: Tables) {
    && (forall i, j :: 0 <= i < j < |ids| ==> ids[i] != ids[j])
    && (forall id :: id in ids <==> id in tables)
  }

  // --- what a matching is ------------------------------------------------------------

  ghost predicate EndIs(members: Members, e: End, device: string, n: Neighbour) {
    e == End(device, n.localPort, LagFor(members, device, n.localPort, n.parent))
  }

  /** Both ends' tables name the link, on two different devices. */
  ghost predicate Corroborated(tables: Tables, members: Members, l: Link) {
    && l.a.device in tables && l.b.device in tables && l.a.device != l.b.device
    && exists n, m :: n in tables[l.a.device] && m in tables[l.b.device] && Corroborate(n, m)
                      && EndIs(members, l.a, l.a.device, n) && EndIs(members, l.b, l.b.device, m)
  }

  ghost predicate Sound(tables: Tables, members: Members, links: seq<Link>) {
    forall k :: 0 <= k < |links| ==> Corroborated(tables, members, links[k])
  }

  /** No (device, port) is an end of two links. */
  ghost predicate PortsOnce(links: seq<Link>) {
    forall i, j :: 0 <= i < j < |links| ==>
      links[i].a.Port() != links[j].a.Port() && links[i].a.Port() != links[j].b.Port()
      && links[i].b.Port() != links[j].a.Port() && links[i].b.Port() != links[j].b.Port()
  }

  ghost predicate ClaimedAre(links: seq<Link>, claimed: set<Pair>) {
    forall p :: p in claimed <==> exists k :: 0 <= k < |links| && (p == links[k].a.Port() || p == links[k].b.Port())
  }

  /** Everything the neighbour on another device could be matched with is taken. */
  ghost predicate NothingLeftFor(tables: Tables, claimed: set<Pair>, device: string, n: Neighbour) {
    (device, n.localPort) !in claimed ==>
      forall other, m :: other in tables && other != device && m in tables[other] && Corroborate(n, m) ==>
        (other, m.localPort) in claimed
  }

  ghost predicate Maximal(tables: Tables, claimed: set<Pair>) {
    forall device, n :: device in tables && n in tables[device] ==> NothingLeftFor(tables, claimed, device, n)
  }

  ghost predicate IsMatching(tables: Tables, members: Members, links: seq<Link>, claimed: set<Pair>) {
    Sound(tables, members, links) && PortsOnce(links) && ClaimedAre(links, claimed) && Maximal(tables, claimed)
  }

  // --- ... in terms of the tables -------------------------------------------------------

  /** The aggregate a table entry names, else the one its port is listed as a member of, else none. */
  ghost predicate IsLag(members: Members, device: string, n: Neighbour, lag: Option<string>) {
    && (n.parent != None && n.parent != Some("") ==> lag == n.parent)
    && (n.parent == None || n.parent == Some("") ==>
          match lag
          case Some(name) => IsMember(members, device, n.localPort, name)
          case None => forall name :: !IsMember(members, device, n.localPort, name))
  }

  predicate IsMember(members: Members, device: string, port: string, name: string) {
    device in members && port in members[device] && members[device][port] == name
  }

  /** The entry makes this end of a link, and names the port at the other end. */
  ghost predicate Makes(members: Members, n: Neighbour, e: End, far: End) {
    n.localPort == e.port && n.remoteName == Some(far.port) && IsLag(members, e.device, n, e.lag)
  }

  ghost predicate IsListed(tables: Tables, members: Members, e: End, far: End) {
    e.device in tables && exists n :: n in tables[e.device] && Makes(members, n, e, far)
  }

  /** Each end of a link is an entry of its device's table that names the other end's
      port, and no port is an end twice. */
  ghost predicate LinksAreListed(tables: Tables, members: Members, links: seq<Link>) {
    && (forall k :: 0 <= k < |links| ==>
          && links[k].a.device != links[k].b.device
          && IsListed(tables, members, links[k].a, links[k].b) && IsListed(tables, members, links[k].b, links[k].a))
    && (forall i, j, e, f :: 0 <= i < j < |links| && IsEndOf(links[i], e) && IsEndOf(links[j], f) ==>
          !SamePort(e, f))
  }

  predicate IsEndOf(l: Link, e: End) {
    e == l.a || e == l.b
  }

  predicate SamePort(e: End, f: End) {
    e.device == f.device && e.port == f.port
  }

  /** The port is an end of some link. */
  ghost predicate HasEnd(links: seq<Link>, device: string, port: string) {
    exists l, e :: l in links && IsEndOf(l, e) && e.device == device && e.port == port
  }

  /** Of two entries of different devices that name each other's ports, one port at least is an end of a link. */
  ghost predicate NoPairIsLeft(tables: Tables, links: seq<Link>) {
    forall d, e, n, m ::
      && d in tables && e in tables && d != e && n in tables[d] && m in tables[e]
      && n.remoteName == Some(m.localPort) && m.remoteName == Some(n.localPort) ==>
        HasEnd(links, d, n.localPort) || HasEnd(links, e, m.localPort)
  }

  lemma MatchingIsListed(tables: Tables, members: Members, links: seq<Link>, claimed: set<Pair>)
    requires IsMatching(tables, members, links, claimed)
    ensures LinksAreListed(tables, members, links) && NoPairIsLeft(tables, links)
  {
    forall k | 0 <= k < |links|
      ensures links[k].a.device != links[k].b.device
      ensures IsListed(tables, members, links[k].a, links[k].b) && IsListed(tables, members, links[k].b, links[k].a)
    {
      LinkIsListed(tables, members, links[k]);
    }
    EndsDiffer(links);
    MatchingLeavesNoPair(tables, links, claimed);
  }

  lemma EndsDiffer(links: seq<Link>)
    requires PortsOnce(links)
    ensures forall i, j, e, f :: 0 <= i < j < |links| && IsEndOf(links[i], e) && IsEndOf(links[j], f) ==>
              !SamePort(e, f)
  {
    forall i, j, e, f | 0 <= i < j < |links| && IsEndOf(links[i], e) && IsEndOf(links[j], f)
      ensures !SamePort(e, f)
    {
      assert e.Port() != f.Port();
    }
  }

  lemma MatchingLeavesNoPair(tables: Tables, links: seq<Link>, claimed: set<Pair>)
    requires ClaimedAre(links, claimed) && Maximal(tables, claimed)
    ensures NoPairIsLeft(tables, links)
  {
    forall d, e, n, m |
      && d in tables && e in tables && d != e && n in tables[d] && m in tables[e]
      && n.remoteName == Some(m.localPort) && m.remoteName == Some(n.localPort)
      ensures HasEnd(links, d, n.localPort) || HasEnd(links, e, m.localPort)
    {
      assert Corroborate(n, m) && NothingLeftFor(tables, claimed, d, n);
      ClaimedHasEnd(links, claimed, d, n.localPort);
      ClaimedHasEnd(links, claimed, e, m.localPort);
    }
  }

  lemma LinkIsListed(tables: Tables, members: Members, l: Link)
    requires Corroborated(tables, members, l)
    ensures l.a.device != l.b.device
    ensures IsListed(tables, members, l.a, l.b) && IsListed(tables, members, l.b, l.a)
  {
    var n, m :| n in tables[l.a.device] && m in tables[l.b.device] && Corroborate(n, m)
                && EndIs(members, l.a, l.a.device, n) && EndIs(members, l.b, l.b.device, m);
    assert Makes(members, n, l.a, l.b) && Makes(members, m, l.b, l.a);
  }

  lemma ClaimedHasEnd(links: seq<Link>, claimed: set<Pair>, device: string, port: string)
    requires ClaimedAre(links, claimed)
    ensures (device, port) in claimed <==> HasEnd(links, device, port)
  {
    if (device, port) in claimed {
      var k :| 0 <= k < |links| && ((device, port) == links[k].a.Port() || (device, port) == links[k].b.Port());
      assert links[k] in links && IsEndOf(links[k], links[k].a) && IsEndOf(links[k], links[k].b);
    }
    if l, e :| l in links && IsEndOf(l, e) && e.device == device && e.port == port {
      var k :| 0 <= k < |links| && links[k] == l;
      assert (device, port) == links[k].a.Port() || (device, port) == links[k].b.Port();
    }
  }

  // --- the greedy loops ----------------------------------------------------------------

  /** Links drawn so far, and the ports they use. */
  datatype Matched = Matched(links: seq<Link>, claimed: set<Pair>)

  const UNMATCHED := Matched([], {})

  predicate Fits(claimed: set<Pair>, other: string, a: Neighbour, b: Neighbour) {
    (other, b.localPort) !in claimed && Corroborate(a, b)
  }

  /** The first unclaimed neighbour of one device that corroborates `a`. */
  function FirstOn(other: string, table: seq<Neighbour>, claimed: set<Pair>, a: Neighbour): (found: Option<Neighbour>)
    ensures found.Some? ==> found.value in table && Fits(claimed, other, a, found.value)
    ensures found == None ==> forall b :: b in table ==> !Fits(claimed, other, a, b)
  {
    if table == [] then None
    else if Fits(claimed, other, a, table[0]) then Some(table[0])
    else
      assert forall b :: b in table ==> b == table[0] || b in table[1..];
      FirstOn(other, table[1..], claimed, a)
  }

  ghost predicate NoneBefore(other: string, table: seq<Neighbour>, claimed: set<Pair>, a: Neighbour, k: nat)
    requires k <= |table|
  {
    forall i :: 0 <= i < k ==> !Fits(claimed, other, a, table[i])
  }

  type Found = Option<(string, Neighbour)>

  function FirstIn(ids: seq<string>, tables: Tables, claimed: set<Pair>, device: string, a: Neighbour): (found: Found)
    requires forall id :: id in ids ==> id in tables
    ensures found.Some? ==>
              && found.value.0 in ids && found.value.0 != device && found.value.1 in tables[found.value.0]
              && Fits(claimed, found.value.0, a, found.value.1)
    ensures found == None ==>
              forall id, b :: id in ids && id != device && b in tables[id] ==> !Fits(claimed, id, a, b)
  {
    if ids == [] then None
    else if ids[0] != device && FirstOn(ids[0], tables[ids[0]], claimed, a).Some?
    then Some((ids[0], FirstOn(ids[0], tables[ids[0]], claimed, a).value))
    else
      assert forall id :: id in ids ==> id == ids[0] || id in ids[1..];
      FirstIn(ids[1..], tables, claimed, device, a)
  }

  ghost predicate NoDeviceBefore(ids: seq<string>, tables: Tables, claimed: set<Pair>, device: string, a: Neighbour,
                                 i: nat)
    requires i <= |ids|
  {
    forall k :: 0 <= k < i && ids[k] != device && ids[k] in tables ==>
      NoneBefore(ids[k], tables[ids[k]], claimed, a, |tables[ids[k]]|)
  }

  function LinkOf(members: Members, device: string, a: Neighbour, other: string, b: Neighbour): Link {
    Link(End(device, a.localPort, LagFor(members, device, a.localPort, a.parent)),
         End(other, b.localPort, LagFor(members, other, b.localPort, b.parent)))
  }

  function WithLink(m: Matched, l: Link): Matched {
    Matched(m.links + [l], m.claimed + {l.a.Port(), l.b.Port()})
  }

  function RowMatched(ids: seq<string>, tables: Tables, members: Members, device: string, a: Neighbour,
                      m: Matched): Matched
    requires Known(ids, tables)
  {
    if (device, a.localPort) in m.claimed then m
    else
      var found := FirstIn(ids, tables, m.claimed, device, a);
      if found == None then m else WithLink(m, LinkOf(members, device, a, found.value.0, found.value.1))
  }

  function RowsMatched(ids: seq<string>, tables: Tables, members: Members, device: string, rows: seq<Neighbour>,
                       m: Matched): Matched
    requires Known(ids, tables)
  {
    if rows == [] then m
    else
      var n := |rows| - 1;
      RowMatched(ids, tables, members, device, rows[n], RowsMatched(ids, tables, members, device, rows[..n], m))
  }

  /** After the first n devices. */
  function DevicesMatched(ids: seq<string>, tables: Tables, members: Members, n: nat): Matched
    requires Known(ids, tables) && n <= |ids|
  {
    if n == 0 then UNMATCHED
    else
      assert ids[n - 1] in ids;
      RowsMatched(ids, tables, members, ids[n - 1], tables[ids[n - 1]], DevicesMatched(ids, tables, members, n - 1))
  }

  /** What the loops of build_topology draw, for one order of devices and rows. */
  function Greedy(ids: seq<string>, tables: Tables, members: Members): Matched
    requires Known(ids, tables)
  {
    DevicesMatched(ids, tables, members, |ids|)
  }

  method FindOn(other: string, table: seq<Neighbour>, claimed: set<Pair>, a: Neighbour)
    returns (found: Option<Neighbour>)
    ensures found == FirstOn(other, table, claimed, a)
    ensures found.Some? ==>
              exists k :: 0 <= k < |table| && table[k] == found.value && NoneBefore(other, table, claimed, a, k)
    ensures found == None ==> NoneBefore(other, table, claimed, a, |table|)
  {
    for k := 0 to |table|
      invariant FirstOn(other, table, claimed, a) == FirstOn(other, table[k..], claimed, a)
      invariant NoneBefore(other, table, claimed, a, k)
    {
      assert table[k..][0] == table[k] && table[k..][1..] == table[k + 1..];
      if (other, table[k].localPort) in claimed {
        continue;
      }
      if Corroborate(a, table[k]) {
        return Some(table[k]);
      }
    }
    return None;
  }

  /** ... of any other device, in device order. */
  method Find(ids: seq<string>, tables: Tables, claimed: set<Pair>, device: string, a: Neighbour) returns (found: Found)
    requires Known(ids, tables)
    ensures found == FirstIn(ids, tables, claimed, device, a)
    ensures found.Some? ==>
              exists i :: 0 <= i < |ids| && ids[i] == found.value.0 &&
                          NoDeviceBefore(ids, tables, claimed, device, a, i)
    ensures found == None ==> NoDeviceBefore(ids, tables, claimed, device, a, |ids|)
  {
    for i := 0 to |ids|
      invariant FirstIn(ids, tables, claimed, device, a) == FirstIn(ids[i..], tables, claimed, device, a)
      invariant NoDeviceBefore(ids, tables, claimed, device, a, i)
    {
      assert ids[i..][0] == ids[i] && ids[i..][1..] == ids[i + 1..];
      if ids[i] == device {
        continue;
      }
      assert ids[i] in ids;
      var b := FindOn(ids[i], tables[ids[i]], claimed, a);
      if b.Some? {
        return Some((ids[i], b.value));
      }
    }
    return None;
  }

  /** The neighbours of one device, in table order. */
  method MatchDevice(ids: seq<string>, tables: Tables, members: Members, device: string, m0: Matched)
    returns (m: Matched)
    requires Known(ids, tables) && device in tables
    ensures m == RowsMatched(ids, tables, members, device, tables[device], m0)
    ensures IsPartial(tables, members, m0) ==>
              IsPartial(tables, members, m) && Grows(m0, m) && Done(tables, m.claimed, device, tables[device])
  {
    m := m0;
    var table := tables[device];
    for k := 0 to |table|
      invariant m == RowsMatched(ids, tables, members, device, table[..k], m0)
    {
      assert table[..k + 1][..k] == table[..k];
      var a := table[k];
      if (device, a.localPort) in m.claimed {
        continue;
      }
      var found := Find(ids, tables, m.claimed, device, a);
      if found.Some? {
        m := WithLink(m, LinkOf(members, device, a, found.value.0, found.value.1));
      }
    }
    assert table[..|table|] == table;
    if IsPartial(tables, members, m0) {
      RowsAreMatched(ids, tables, members, device, table, m0);
    }
  }

  /** The whole matching: whatever the order, a sound and maximal one. */
  method MatchLinks(ids: seq<string>, tables: Tables, members: Members) returns (links: seq<Link>, claimed: set<Pair>)
    requires Known(ids, tables)
    ensures IsMatching(tables, members, links, claimed)
    ensures Matched(links, claimed) == Greedy(ids, tables, members)
    ensures LinksAreListed(tables, members, links) && NoPairIsLeft(tables, links)
  {
    var m := UNMATCHED;
    for i := 0 to |ids|
      invariant m == DevicesMatched(ids, tables, members, i)
    {
      assert ids[i] in ids;
      m := MatchDevice(ids, tables, members, ids[i], m);
    }
    GreedyIsMatching(ids, tables, members);
    links, claimed := m.links, m.claimed;
    MatchingIsListed(tables, members, links, claimed);
  }

  // --- the greedy result is a matching ------------------------------------------------------

  ghost predicate IsPartial(tables: Tables, members: Members, m: Matched) {
    Sound(tables, members, m.links) && PortsOnce(m.links) && ClaimedAre(m.links, m.claimed)
  }

  ghost predicate Grows(m: Matched, more: Matched) {
    m.links <= more.links && m.claimed <= more.claimed
  }

  lemma LinkAdded(tables: Tables, members: Members, m: Matched, device: string, a: Neighbour, other: string,
                  b: Neighbour)
    requires IsPartial(tables, members, m)
    requires device in tables && other in tables && device != other && a in tables[device] && b in tables[other]
    requires (device, a.localPort) !in m.claimed && Fits(m.claimed, other, a, b)
    ensures IsPartial(tables, members, WithLink(m, LinkOf(members, device, a, other, b)))
  {
    var l := LinkOf(members, device, a, other, b);
    var links := m.links + [l];
    assert Corroborated(tables, members, l);
    forall p
      ensures p in m.claimed + {l.a.Port(), l.b.Port()} <==>
              exists k :: 0 <= k < |links| && (p == links[k].a.Port() || p == links[k].b.Port())
    {
      if p in m.claimed {
        var k :| 0 <= k < |m.links| && (p == m.links[k].a.Port() || p == m.links[k].b.Port());
        assert links[k] == m.links[k];
      }
      assert links[|m.links|] == l;
    }
  }

  lemma RowIsMatched(ids: seq<string>, tables: Tables, members: Members, device: string, a: Neighbour, m: Matched)
    requires Known(ids, tables) && device in tables && a in tables[device] && IsPartial(tables, members, m)
    ensures var more := RowMatched(ids, tables, members, device, a, m);
            IsPartial(tables, members, more) && Grows(m, more) && NothingLeftFor(tables, more.claimed, device, a)
  {
    var found := FirstIn(ids, tables, m.claimed, device, a);
    if (device, a.localPort) !in m.claimed && found.Some? {
      LinkAdded(tables, members, m, device, a, found.value.0, found.value.1);
    }
  }

  ghost predicate Done(tables: Tables, claimed: set<Pair>, device: string, rows: seq<Neighbour>) {
    forall n :: n in rows ==> NothingLeftFor(tables, claimed, device, n)
  }

  lemma {:induction false} RowsAreMatched(ids: seq<string>, tables: Tables, members: Members, device: string,
                                          rows: seq<Neighbour>, m: Matched)
    requires Known(ids, tables) && device in tables && (forall n :: n in rows ==> n in tables[device])
    requires IsPartial(tables, members, m)
    ensures var more := RowsMatched(ids, tables, members, device, rows, m);
            IsPartial(tables, members, more) && Grows(m, more) && Done(tables, more.claimed, device, rows)
  {
    if rows != [] {
      var front, last := rows[..|rows| - 1], rows[|rows| - 1];
      RowsAreMatched(ids, tables, members, device, front, m);
      var before := RowsMatched(ids, tables, members, device, front, m);
      RowIsMatched(ids, tables, members, device, last, before);
      var more := RowMatched(ids, tables, members, device, last, before);
      DoneIsStable(tables, before.claimed, more.claimed, device, front);
      assert forall n :: n in rows ==> n in front || n == last;
    }
  }

  lemma {:induction false} DevicesAreMatched(ids: seq<string>, tables: Tables, members: Members, n: nat)
    requires Known(ids, tables) && n <= |ids|
    ensures var m := DevicesMatched(ids, tables, members, n);
            IsPartial(tables, members, m) && DevicesDone(ids, tables, m.claimed, n)
  {
    if n > 0 {
      DevicesAreMatched(ids, tables, members, n - 1);
      OneMoreDevice(ids, tables, members, n - 1, DevicesMatched(ids, tables, members, n - 1));
    }
  }

  lemma OneMoreDevice(ids: seq<string>, tables: Tables, members: Members, n: nat, m: Matched)
    requires Known(ids, tables) && n < |ids| && ids[n] in tables && IsPartial(tables, members, m) &&
             DevicesDone(ids, tables, m.claimed, n)
    ensures var more := RowsMatched(ids, tables, members, ids[n], tables[ids[n]], m);
            IsPartial(tables, members, more) && DevicesDone(ids, tables, more.claimed, n + 1)
  {
    RowsAreMatched(ids, tables, members, ids[n], tables[ids[n]], m);
    DevicesStayDone(ids, tables, m.claimed, RowsMatched(ids, tables, members, ids[n], tables[ids[n]], m).claimed, n);
  }

  ghost predicate DevicesDone(ids: seq<string>, tables: Tables, claimed: set<Pair>, n: nat)
    requires n <= |ids|
  {
    forall k :: 0 <= k < n ==> ids[k] in tables && Done(tables, claimed, ids[k], tables[ids[k]])
  }

  lemma DevicesStayDone(ids: seq<string>, tables: Tables, before: set<Pair>, after: set<Pair>, n: nat)
    requires n <= |ids| && before <= after && DevicesDone(ids, tables, before, n)
    ensures DevicesDone(ids, tables, after, n)
  {
    forall k | 0 <= k < n
      ensures ids[k] in tables && Done(tables, after, ids[k], tables[ids[k]])
    {
      DoneIsStable(tables, before, after, ids[k], tables[ids[k]]);
    }
  }

  /** For every order of devices and rows the loops draw a sound, maximal matching. */
  lemma GreedyIsMatching(ids: seq<string>, tables: Tables, members: Members)
    requires Known(ids, tables)
    ensures IsMatching(tables, members, Greedy(ids, tables, members).links, Greedy(ids, tables, members).claimed)
  {
    DevicesAreMatched(ids, tables, members, |ids|);
    forall device, n | device in tables && n in tables[device]
      ensures NothingLeftFor(tables, Greedy(ids, tables, members).claimed, device, n)
    {
      assert device in ids;
    }
  }

  lemma DoneIsStable(tables: Tables, before: set<Pair>, after: set<Pair>, device: string, rows: seq<Neighbour>)
    requires before <= after && Done(tables, before, device, rows)
    ensures Done(tables, after, device, rows)
  {
    forall n | n in rows
      ensures NothingLeftFor(tables, after, device, n)
    {
      assert NothingLeftFor(tables, before, device, n);
    }
  }

  // --- order independence ----------------------------------------------------------------

  /** The two ports name each other. */
  ghost predicate Facing(tables: Tables, p: Pair, q: Pair) {
    && p.0 in tables && q.0 in tables && p.0 != q.0
    && exists n, m :: n in tables[p.0] && m in tables[q.0] && n.localPort == p.1 && m.localPort == q.1 &&
        Corroborate(n, m)
  }

  /** Every port faces at most one other. */
  ghost predicate Unambiguous(tables: Tables) {
    forall p, q, r :: Facing(tables, p, q) && Facing(tables, p, r) ==> q == r
  }

  function SigOf(l: Link): EdgeSig {
    InternalSig(l.a.Port(), l.b.Port())
  }

  lemma FacingIsSymmetric(tables: Tables, p: Pair, q: Pair)
    requires Facing(tables, p, q)
    ensures Facing(tables, q, p)
  {
    var n, m :| n in tables[p.0] && m in tables[q.0] && n.localPort == p.1 && m.localPort == q.1 && Corroborate(n, m);
    assert Corroborate(m, n);
  }

  lemma LinksFace(tables: Tables, members: Members, l: Link)
    requires Corroborated(tables, members, l)
    ensures Facing(tables, l.a.Port(), l.b.Port()) && Facing(tables, l.b.Port(), l.a.Port())
  {
    var n, m :| n in tables[l.a.device] && m in tables[l.b.device] && Corroborate(n, m)
                && EndIs(members, l.a, l.a.device, n) && EndIs(members, l.b, l.b.device, m);
    FacingIsSymmetric(tables, l.a.Port(), l.b.Port());
  }

  /** Some link has this signature. */
  ghost predicate Draws(links: seq<Link>, sig: EdgeSig) {
    exists k :: 0 <= k < |links| && SigOf(links[k]) == sig
  }

  /** When no port is ambiguous, the links are exactly the pairs of facing ports. */
  lemma LinksAreFacingPorts(tables: Tables, members: Members, links: seq<Link>, claimed: set<Pair>, p: Pair, q: Pair)
    requires IsMatching(tables, members, links, claimed) && Unambiguous(tables) && Facing(tables, p, q)
    ensures Draws(links, InternalSig(p, q))
  {
    FacingIsSymmetric(tables, p, q);
    var n, m :| n in tables[p.0] && m in tables[q.0] && n.localPort == p.1 && m.localPort == q.1 && Corroborate(n, m);
    assert NothingLeftFor(tables, claimed, p.0, n);
    assert (q.0, m.localPort) == q && (p.0, n.localPort) == p;
    var taken := if p in claimed then p else q;
    var k :| 0 <= k < |links| && (taken == links[k].a.Port() || taken == links[k].b.Port());
    LinksFace(tables, members, links[k]);
    SignatureIsTheUnorderedPair(p, q, links[k].a.Port(), links[k].b.Port());
  }

  /** The same facts, whatever the order of devices and table rows. */
  ghost predicate SameFacts(t1: Tables, t2: Tables) {
    t1.Keys == t2.Keys && forall d, n :: d in t1 ==> (n in t1[d] <==> n in t2[d])
  }

  /** Then the set of edge signatures is the same, too. */
  lemma SignaturesDoNotDependOnOrder(t1: Tables, t2: Tables, m1: Members, m2: Members,
                                     links1: seq<Link>, claimed1: set<Pair>, links2: seq<Link>, claimed2: set<Pair>)
    requires IsMatching(t1, m1, links1, claimed1) && IsMatching(t2, m2, links2, claimed2)
    requires SameFacts(t1, t2) && Unambiguous(t1)
    ensures forall sig :: Draws(links1, sig) <==> Draws(links2, sig)
  {
    assert SameFacts(t2, t1);
    forall p, q
      ensures Facing(t1, p, q) <==> Facing(t2, p, q)
    {
      if Facing(t1, p, q) {
        FacingIsAFact(t1, t2, p, q);
      }
      if Facing(t2, p, q) {
        FacingIsAFact(t2, t1, p, q);
      }
    }
    assert Unambiguous(t2);
    forall sig
      ensures Draws(links1, sig) <==> Draws(links2, sig)
    {
      if Draws(links1, sig) {
        DrawnInBoth(t1, m1, links1, t2, m2, links2, claimed2, sig);
      }
      if Draws(links2, sig) {
        DrawnInBoth(t2, m2, links2, t1, m1, links1, claimed1, sig);
      }
    }
  }

  lemma FacingIsAFact(t1: Tables, t2: Tables, p: Pair, q: Pair)
    requires SameFacts(t1, t2) && Facing(t1, p, q)
    ensures Facing(t2, p, q)
  {
    var n, m :| n in t1[p.0] && m in t1[q.0] && n.localPort == p.1 && m.localPort == q.1 && Corroborate(n, m);
    assert n in t2[p.0] && m in t2[q.0];
  }

  lemma DrawnInBoth(t1: Tables, m1: Members, links1: seq<Link>, t2: Tables, m2: Members, links2: seq<Link>,
                    claimed2: set<Pair>, sig: EdgeSig)
    requires Sound(t1, m1, links1) && SameFacts(t1, t2) && Draws(links1, sig)
    requires IsMatching(t2, m2, links2, claimed2) && Unambiguous(t2)
    ensures Draws(links2, sig)
  {
    var k :| 0 <= k < |links1| && SigOf(links1[k]) == sig;
    var p, q := links1[k].a.Port(), links1[k].b.Port();
    LinksFace(t1, m1, links1[k]);
    FacingIsAFact(t1, t2, p, q);
    LinksAreFacingPorts(t2, m2, links2, claimed2, p, q);
  }

  /** The claimed ports are then those that face another. */
  lemma ClaimedFace(tables: Tables, members: Members, links: seq<Link>, claimed: set<Pair>, p: Pair)
    requires IsMatching(tables, members, links, claimed) && Unambiguous(tables)
    ensures p in claimed <==> exists q :: Facing(tables, p, q)
  {
    if p in claimed {
      var k :| 0 <= k < |links| && (p == links[k].a.Port() || p == links[k].b.Port());
      LinksFace(tables, members, links[k]);
    }
    if q :| Facing(tables, p, q) {
      LinksAreFacingPorts(tables, members, links, claimed, p, q);
      var k :| 0 <= k < |links| && SigOf(links[k]) == InternalSig(p, q);
      SignatureIsTheUnorderedPair(links[k].a.Port(), links[k].b.Port(), p, q);
    }
  }

  lemma ClaimedDoNotDependOnOrder(ids1: seq<string>, t1: Tables, ids2: seq<string>, t2: Tables, members: Members)
    requires Known(ids1, t1) && Known(ids2, t2) && SameFacts(t1, t2) && Unambiguous(t1)
    ensures Greedy(ids1, t1, members).claimed == Greedy(ids2, t2, members).claimed
  {
    AmbiguityIsAFact(t1, t2);
    GreedyIsMatching(ids1, t1, members);
    GreedyIsMatching(ids2, t2, members);
    var m1, m2 := Greedy(ids1, t1, members), Greedy(ids2, t2, members);
    forall p
      ensures p in m1.claimed <==> p in m2.claimed
    {
      ClaimedFace(t1, members, m1.links, m1.claimed, p);
      ClaimedFace(t2, members, m2.links, m2.claimed, p);
      FacesInBoth(t1, t2, p);
    }
  }

  lemma FacesInBoth(t1: Tables, t2: Tables, p: Pair)
    requires SameFacts(t1, t2)
    ensures (exists q :: Facing(t1, p, q)) <==> exists q :: Facing(t2, p, q)
  {
    assert SameFacts(t2, t1);
    if q :| Facing(t1, p, q) {
      FacingIsAFact(t1, t2, p, q);
    }
    if q :| Facing(t2, p, q) {
      FacingIsAFact(t2, t1, p, q);
    }
  }

  // --- ambiguous ports ------------------------------------------------------------------------

  /** The same tables with the rows in another order. */
  ghost predicate Reordered(t1: Tables, t2: Tables) {
    t1.Keys == t2.Keys && forall d :: d in t1 ==> multiset(t1[d]) == multiset(t2[d])
  }

  lemma ReorderedIsSameFacts(t1: Tables, t2: Tables)
    requires Reordered(t1, t2)
    ensures SameFacts(t1, t2)
  {
    forall d, n | d in t1
      ensures n in t1[d] <==> n in t2[d]
    {
      assert n in t1[d] <==> n in multiset(t1[d]);
      assert n in t2[d] <==> n in multiset(t2[d]);
    }
  }

  lemma SameFactsFromBoth(t0: Tables, t1: Tables, t2: Tables)
    requires SameFacts(t0, t1) && SameFacts(t0, t2)
    ensures SameFacts(t1, t2)
  {
  }

  /** Whatever the order of devices and rows, the loops draw the same signatures. */
  ghost predicate OrderDoesNotMatter(tables: Tables, members: Members) {
    forall ids1, t1, ids2, t2 ::
      Known(ids1, t1) && Known(ids2, t2) && Reordered(tables, t1) && Reordered(tables, t2) ==>
        SameDrawn(Greedy(ids1, t1, members), Greedy(ids2, t2, members))
  }

  ghost predicate SameDrawn(m1: Matched, m2: Matched) {
    forall sig :: Draws(m1.links, sig) <==> Draws(m2.links, sig)
  }

  /** The signatures drawn do not depend on any order exactly when no port names, and
      is named by, two others. */
  lemma OrderDoesNotMatterIffUnambiguous(tables: Tables, members: Members)
    ensures OrderDoesNotMatter(tables, members) <==> Unambiguous(tables)
  {
    if Unambiguous(tables) {
      UnambiguousOrders(tables, members);
    } else {
      var p, q, r :| Facing(tables, p, q) && Facing(tables, p, r) && q != r;
      var ids1, t1 := OrderForLink(tables, members, p, q);
      var ids2, t2 := OrderForLink(tables, members, p, r);
      OnlyOneIsDrawn(ids1, t1, members, p, q, r);
      assert !SameDrawn(Greedy(ids1, t1, members), Greedy(ids2, t2, members));
    }
  }

  lemma UnambiguousOrders(tables: Tables, members: Members)
    requires Unambiguous(tables)
    ensures OrderDoesNotMatter(tables, members)
  {
    forall ids1, t1, ids2, t2 |
      Known(ids1, t1) && Known(ids2, t2) && Reordered(tables, t1) && Reordered(tables, t2)
      ensures SameDrawn(Greedy(ids1, t1, members), Greedy(ids2, t2, members))
    {
      GreedyOrders(tables, members, ids1, t1, ids2, t2);
    }
  }

  lemma GreedyOrders(tables: Tables, members: Members, ids1: seq<string>, t1: Tables, ids2: seq<string>, t2: Tables)
    requires Unambiguous(tables)
    requires Known(ids1, t1) && Known(ids2, t2) && Reordered(tables, t1) && Reordered(tables, t2)
    ensures SameDrawn(Greedy(ids1, t1, members), Greedy(ids2, t2, members))
  {
    var m1, m2 := Greedy(ids1, t1, members), Greedy(ids2, t2, members);
    GreedyIsMatching(ids1, t1, members);
    GreedyIsMatching(ids2, t2, members);
    ReorderedIsSameFacts(tables, t1);
    ReorderedIsSameFacts(tables, t2);
    SameFactsFromBoth(tables, t1, t2);
    AmbiguityIsAFact(tables, t1);
    SignaturesDoNotDependOnOrder(t1, t2, members, members, m1.links, m1.claimed, m2.links, m2.claimed);
  }

  lemma AmbiguityIsAFact(t1: Tables, t2: Tables)
    requires SameFacts(t1, t2) && Unambiguous(t1)
    ensures Unambiguous(t2)
  {
    assert SameFacts(t2, t1);
    forall p, q, r | Facing(t2, p, q) && Facing(t2, p, r)
      ensures q == r
    {
      FacingIsAFact(t2, t1, p, q);
      FacingIsAFact(t2, t1, p, r);
    }
  }

  lemma OnlyOneIsDrawn(ids: seq<string>, tables: Tables, members: Members, p: Pair, q: Pair, r: Pair)
    requires Known(ids, tables) && q != r && Draws(Greedy(ids, tables, members).links, InternalSig(p, q))
    ensures !Draws(Greedy(ids, tables, members).links, InternalSig(p, r))
  {
    GreedyIsMatching(ids, tables, members);
    var links := Greedy(ids, tables, members).links;
    if Draws(links, InternalSig(p, r)) {
      var i :| 0 <= i < |links| && SigOf(links[i]) == InternalSig(p, q);
      var j :| 0 <= j < |links| && SigOf(links[j]) == InternalSig(p, r);
      NotBoth(links, p, q, r, i, j);
    }
  }

  lemma NotBoth(links: seq<Link>, p: Pair, q: Pair, r: Pair, i: nat, j: nat)
    requires PortsOnce(links) && i < |links| && j < |links| && q != r && SigOf(links[i]) == InternalSig(p, q)
    ensures SigOf(links[j]) != InternalSig(p, r)
  {
    SignatureIsTheUnorderedPair(links[i].a.Port(), links[i].b.Port(), p, q);
    SignatureIsTheUnorderedPair(links[j].a.Port(), links[j].b.Port(), p, r);
  }

  // --- an order that draws a given link

  /** With the port's device first, its row first, and the wanted partner's device
      second, the first link drawn is the wanted one. */
  lemma OrderForLink(tables: Tables, members: Members, p: Pair, q: Pair) returns (ids: seq<string>, t: Tables)
    requires Facing(tables, p, q)
    ensures Known(ids, t) && Reordered(tables, t) && Draws(Greedy(ids, t, members).links, InternalSig(p, q))
  {
    var n, m :| n in tables[p.0] && m in tables[q.0] && n.localPort == p.1 && m.localPort == q.1 && Corroborate(n, m);
    t := RowFirst(tables, p.0, n);
    ids := DevicesFirst(tables.Keys, p.0, q.0);
    LinkIsDrawn(ids, t, members, p, q, m);
  }

  lemma RowFirst(tables: Tables, device: string, n: Neighbour) returns (t: Tables)
    requires device in tables && n in tables[device]
    ensures Reordered(tables, t) && t[device] != [] && t[device][0] == n
    ensures forall d :: d in tables && d != device ==> t[d] == tables[d]
  {
    var rows := tables[device];
    var i :| 0 <= i < |rows| && rows[i] == n;
    t := tables[device := [n] + rows[..i] + rows[i + 1..]];
    assert rows == rows[..i] + [n] + rows[i + 1..];
  }

  ghost predicate Lists(xs: seq<string>, all: set<string>) {
    (forall i, j :: 0 <= i < j < |xs| ==> xs[i] != xs[j]) && (forall x :: x in xs <==> x in all)
  }

  lemma {:induction false} Listing(all: set<string>) returns (xs: seq<string>)
    ensures Lists(xs, all)
    decreases |all|
  {
    xs := [];
    if all != {} {
      var x :| x in all;
      var rest := Listing(all - {x});
      xs := [x] + rest;
    }
  }

  lemma DevicesFirst(all: set<string>, a: string, b: string) returns (ids: seq<string>)
    requires a in all && b in all && a != b
    ensures Lists(ids, all) && |ids| >= 2 && ids[0] == a && ids[1] == b
  {
    var rest := Listing(all - {a, b});
    assert forall i :: 0 <= i < |rest| ==> rest[i] in rest;
    ids := [a, b] + rest;
  }

  lemma LinkIsDrawn(ids: seq<string>, t: Tables, members: Members, p: Pair, q: Pair, m: Neighbour)
    requires Known(ids, t) && |ids| >= 2 && ids[0] == p.0 && ids[1] == q.0 && p.0 in t && q.0 in t
    requires t[p.0] != [] && t[p.0][0].localPort == p.1 && m in t[q.0] && m.localPort == q.1 &&
             Corroborate(t[p.0][0], m)
    ensures Draws(Greedy(ids, t, members).links, InternalSig(p, q))
  {
    var a := t[p.0][0];
    var first := RowMatched(ids, t, members, p.0, a, UNMATCHED);
    FirstIsSecondDevice(ids, t, a, m);
    var l := first.links[0];
    assert l.a.Port() == p && l.b.Port() == q;
    RowsOfPrefix(ids, t, members, p.0, t[p.0], 1, UNMATCHED);
    assert t[p.0][..1] == [a];
    DevicesGrow(ids, t, members, 1, |ids|);
    assert Greedy(ids, t, members).links[0] == l;
  }

  lemma FirstIsSecondDevice(ids: seq<string>, t: Tables, a: Neighbour, m: Neighbour)
    requires Known(ids, t) && |ids| >= 2 && ids[0] in t && ids[1] in t && m in t[ids[1]] && Corroborate(a, m)
    ensures var found := FirstIn(ids, t, {}, ids[0], a);
            found.Some? && found.value.0 == ids[1] && a.remoteName == Some(found.value.1.localPort)
  {
    assert FirstIn(ids, t, {}, ids[0], a) == FirstIn(ids[1..], t, {}, ids[0], a);
    assert ids[1..][0] == ids[1];
    assert Fits({}, ids[1], a, m);
  }

  /** Later rows and devices only add links. */
  lemma {:induction false} RowsOfPrefix(ids: seq<string>, t: Tables, members: Members, device: string,
                                        rows: seq<Neighbour>, k: nat, m: Matched)
    requires Known(ids, t) && k <= |rows|
    ensures RowsMatched(ids, t, members, device, rows[..k], m).links <= RowsMatched(ids, t, members, device, rows,
              m).links
  {
    if k == |rows| {
      assert rows[..k] == rows;
    } else {
      var front := rows[..|rows| - 1];
      assert front[..k] == rows[..k];
      RowsOfPrefix(ids, t, members, device, front, k, m);
    }
  }

  lemma {:induction false} DevicesGrow(ids: seq<string>, t: Tables, members: Members, k: nat, n: nat)
    requires Known(ids, t) && k <= n <= |ids|
    ensures DevicesMatched(ids, t, members, k).links <= DevicesMatched(ids, t, members, n).links
  {
    if k < n {
      DevicesGrow(ids, t, members, k, n - 1);
      assert ids[n - 1] in ids;
      RowsOfPrefix(ids, t, members, ids[n - 1], t[ids[n - 1]], 0, DevicesMatched(ids, t, members, n - 1));
    }
  }

  // --- three devices that each call the port "1"

  function NamesOne(port: string): Neighbour {
    Neighbour(port, None, Some("1"), "", None, None)
  }

  const THREE: Tables := map["A" := [NamesOne("1")], "B" := [NamesOne("1")], "C" := [NamesOne("1")]]

  lemma ThreeAreKnown()
    ensures Known(["A", "B", "C"], THREE) && Known(["A", "C", "B"], THREE)
  {
  }

  /** Corroboration compares port names only, so three devices whose cabled port has
      the same name are enough: the link drawn depends on the order of the devices. */
  lemma SameNamesAreAmbiguous(members: Members)
    ensures Known(["A", "B", "C"], THREE) &&
            Draws(Greedy(["A", "B", "C"], THREE, members).links, InternalSig(("A", "1"), ("B", "1")))
    ensures Known(["A", "C", "B"], THREE) &&
            Draws(Greedy(["A", "C", "B"], THREE, members).links, InternalSig(("A", "1"), ("C", "1")))
    ensures !OrderDoesNotMatter(THREE, members)
  {
    var n := NamesOne("1");
    assert n in THREE["A"] && n in THREE["B"] && n in THREE["C"] && Corroborate(n, n);
    ThreeAreKnown();
    LinkIsDrawn(["A", "B", "C"], THREE, members, ("A", "1"), ("B", "1"), n);
    LinkIsDrawn(["A", "C", "B"], THREE, members, ("A", "1"), ("C", "1"), n);
    OnlyOneIsDrawn(["A", "B", "C"], THREE, members, ("A", "1"), ("B", "1"), ("C", "1"));
    OrderMatters(members, ["A", "B", "C"], ["A", "C", "B"], InternalSig(("A", "1"), ("C", "1")));
  }

  lemma OrderMatters(members: Members, ids1: seq<string>, ids2: seq<string>, sig: EdgeSig)
    requires Known(ids1, THREE) && Known(ids2, THREE)
    requires !Draws(Greedy(ids1, THREE, members).links, sig) && Draws(Greedy(ids2, THREE, members).links, sig)
    ensures !OrderDoesNotMatter(THREE, members)
  {
    assert Reordered(THREE, THREE);
    assert !SameDrawn(Greedy(ids1, THREE, members), Greedy(ids2, THREE, members));
  }
}
