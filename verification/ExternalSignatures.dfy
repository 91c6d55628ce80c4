/** The signatures of external edges (edge_signature of webui/topology.py) against the
    order of devices and table rows. */
module ExternalSignatures {
  import opened Common
  import opened Ordering
  import opened Grouping
  import opened Drift
  import opened LinkMatching
  import opened Discovery

  // --- the hosts as a function of the neighbours --------------------------------------------

  ghost function Grouped<K(!new), V(!new)>(xs: seq<V>, key: V -> K): (groups: seq<Group<K, V>>)
    ensures IsGrouping(xs, key, groups)
  {
    var ks := Uniques(Keys(xs, key));
    seq(|ks|, g requires 0 <= g < |ks| => Group(ks[g], ItemsWith(xs, key, ks[g])))
  }

  lemma OnlyOneGrouping<K(!new), V(!new)>(xs: seq<V>, key: V -> K, groups: seq<Group<K, V>>)
    requires IsGrouping(xs, key, groups)
    ensures groups == Grouped(xs, key)
  {
  }

  ghost function GroupsOf(left: seq<Item>, members: Members): seq<Aliases> {
    Grouped(left, ByKey(members))
  }

  ghost function HostsOf(left: seq<Item>, members: Members, ips: MacToIp): seq<Host> {
    Grouped(GroupsOf(left, members), ByIdentity(ips))
  }

  lemma HostsAre(left: seq<Item>, members: Members, ips: MacToIp, groups: seq<Aliases>, hosts: seq<Host>)
    requires AreHosts(left, members, ips, groups, hosts)
    ensures groups == GroupsOf(left, members) && hosts == HostsOf(left, members, ips)
  {
    OnlyOneGrouping(left, ByKey(members), groups);
    OnlyOneGrouping(groups, ByIdentity(ips), hosts);
  }

  /** edge_signature of an external edge: its first chassis id stands for the host. */
  predicate Signs(h: Host, key: GroupKey) {
    h.items != [] && h.key.0 == key.0 && h.key.1 == key.1 && h.items[0].key.2 == key.2
  }

  /** Some host has the signature (device, port, chassis id). */
  ghost predicate Signed(left: seq<Item>, members: Members, ips: MacToIp, key: GroupKey) {
    exists h :: h in HostsOf(left, members, ips) && Signs(h, key)
  }

  // --- what a group may be identified by --------------------------------------------------------

  function PortIp(ips: MacToIp, x: Item): Option<string> {
    if Truthy(x.n.portId) && Truthy(Get(ips, Lower(x.n.portId.value))) then Get(ips, Lower(x.n.portId.value)) else None
  }

  ghost predicate Has(left: seq<Item>, members: Members, x: Item, key: GroupKey) {
    x in left && KeyOf(members, x) == key
  }

  /** With these neighbours under one key, in some order, `first` among them first, the
      group goes by this address or chassis id. */
  ghost predicate GoesBy(left: seq<Item>, members: Members, ips: MacToIp, key: GroupKey, first: Item, id: string) {
    && Has(left, members, first, key)
    && if Lower(key.2) in ips then id == (if ips[Lower(key.2)] != "" then ips[Lower(key.2)] else key.2)
       else PortIp(ips, first) == Some(id) ||
            (id == key.2 && forall x :: Has(left, members, x, key) ==> PortIp(ips, x) == None)
  }

  /** Two chassis ids on one port that some order merges into one host. */
  ghost predicate Mergeable(left: seq<Item>, members: Members, ips: MacToIp, k1: GroupKey, k2: GroupKey) {
    && k1.0 == k2.0 && k1.1 == k2.1 && k1.2 != k2.2
    && exists x, y, id :: GoesBy(left, members, ips, k1, x, id) && GoesBy(left, members, ips, k2, y, id)
  }

  /** Every host has one chassis id, whatever the order. */
  ghost predicate OneChassisEach(left: seq<Item>, members: Members, ips: MacToIp) {
    forall k1, k2 :: !Mergeable(left, members, ips, k1, k2)
  }

  lemma {:induction false} PortIdIpIs(ips: MacToIp, items: seq<Item>)
    ensures PortIdIp(ips, items) == None ==> forall x :: x in items ==> PortIp(ips, x) == None
    ensures PortIdIp(ips, items).Some? ==> PortIdIp(ips, items).value != "" &&
                                           exists x :: x in items && PortIp(ips, x) == PortIdIp(ips, items)
  {
    if items != [] {
      PortIdIpIs(ips, items[1..]);
      assert items[0] in items && forall x :: x in items <==> x == items[0] || x in items[1..];
    }
  }

  lemma GroupIsOf(left: seq<Item>, members: Members, g: Aliases)
    requires g in GroupsOf(left, members)
    ensures g.items != [] && forall x :: x in g.items <==> Has(left, members, x, g.key)
  {
    var i :| 0 <= i < |GroupsOf(left, members)| && GroupsOf(left, members)[i] == g;
    GroupsAreNonempty(left, ByKey(members), GroupsOf(left, members));
  }

  /** A group goes by its identity. */
  lemma GroupGoesBy(left: seq<Item>, members: Members, ips: MacToIp, g: Aliases) returns (x: Item)
    requires g in GroupsOf(left, members)
    ensures GoesBy(left, members, ips, g.key, x, Identity(ips, g).2)
  {
    GroupIsOf(left, members, g);
    PortIdIpIs(ips, g.items);
    x := g.items[0];
    if Lower(g.key.2) !in ips && PortIdIp(ips, g.items).Some? {
      x :| x in g.items && PortIp(ips, x) == PortIdIp(ips, g.items);
    }
  }


  lemma HostIsOf(left: seq<Item>, members: Members, ips: MacToIp, h: Host)
    requires h in HostsOf(left, members, ips)
    ensures h.items != [] && h.items == ItemsWith(GroupsOf(left, members), ByIdentity(ips), h.key)
    ensures forall g :: g in h.items <==> g in GroupsOf(left, members) && Identity(ips, g) == h.key
  {
    var hosts := HostsOf(left, members, ips);
    var i :| 0 <= i < |hosts| && hosts[i] == h;
    GroupsAreNonempty(GroupsOf(left, members), ByIdentity(ips), hosts);
  }

  // --- one chassis each: the signatures are facts ------------------------------------------------

  ghost predicate Reported(left: seq<Item>, members: Members, key: GroupKey) {
    exists x :: Has(left, members, x, key)
  }

  lemma GroupOfKey(left: seq<Item>, members: Members, key: GroupKey) returns (g: Aliases)
    requires Reported(left, members, key)
    ensures g in GroupsOf(left, members) && g.key == key
  {
    var x :| Has(left, members, x, key);
    var i := GroupOf(left, ByKey(members), GroupsOf(left, members), x);
    g := GroupsOf(left, members)[i];
  }

  lemma HostOfGroup(left: seq<Item>, members: Members, ips: MacToIp, g: Aliases) returns (h: Host)
    requires g in GroupsOf(left, members)
    ensures h in HostsOf(left, members, ips) && h.key == Identity(ips, g) && g in h.items
  {
    var i := GroupOf(GroupsOf(left, members), ByIdentity(ips), HostsOf(left, members, ips), g);
    h := HostsOf(left, members, ips)[i];
  }

  lemma SignedIsReported(left: seq<Item>, members: Members, ips: MacToIp, key: GroupKey)
    requires Signed(left, members, ips, key)
    ensures Reported(left, members, key)
  {
    var h :| h in HostsOf(left, members, ips) && Signs(h, key);
    HostIsOf(left, members, ips, h);
    var g := h.items[0];
    assert g in h.items;
    GroupIsOf(left, members, g);
    assert g.items[0] in g.items && g.key == key;
  }

  lemma SameIdentityMerges(left: seq<Item>, members: Members, ips: MacToIp, g: Aliases, h: Aliases)
    requires g in GroupsOf(left, members) && h in GroupsOf(left, members)
    requires Identity(ips, g) == Identity(ips, h) && g.key != h.key
    ensures Mergeable(left, members, ips, g.key, h.key)
  {
    var x := GroupGoesBy(left, members, ips, g);
    var y := GroupGoesBy(left, members, ips, h);
  }

  lemma ReportedIsSigned(left: seq<Item>, members: Members, ips: MacToIp, key: GroupKey)
    requires OneChassisEach(left, members, ips) && Reported(left, members, key)
    ensures Signed(left, members, ips, key)
  {
    var g := GroupOfKey(left, members, key);
    var h := HostOfGroup(left, members, ips, g);
    var first := FirstOfHost(left, members, ips, h);
    if first.key != key {
      SameIdentityMerges(left, members, ips, g, first);
    }
    assert Signs(h, key);
  }

  lemma FirstOfHost(left: seq<Item>, members: Members, ips: MacToIp, h: Host) returns (first: Aliases)
    requires h in HostsOf(left, members, ips)
    ensures h.items != [] && first == h.items[0] && first in GroupsOf(left, members) && Identity(ips, first) == h.key
  {
    HostIsOf(left, members, ips, h);
    first := h.items[0];
    assert first in h.items;
  }

  // --- two chassis on one host: the first one signs ----------------------------------------------

  lemma {:induction false} FirstWith<K(!new), V(!new)>(xs: seq<V>, key: V -> K, k: K, i: nat)
    requires i < |xs| && key(xs[i]) == k && forall j :: 0 <= j < i ==> key(xs[j]) != k
    ensures ItemsWith(xs, key, k) != [] && ItemsWith(xs, key, k)[0] == xs[i]
  {
    var front := xs[..|xs| - 1];
    if i == |xs| - 1 {
      NoneWith(front, key, k);
    } else {
      FirstWith(front, key, k, i);
    }
  }

  lemma {:induction false} NoneWith<K(!new), V(!new)>(xs: seq<V>, key: V -> K, k: K)
    requires forall j :: 0 <= j < |xs| ==> key(xs[j]) != k
    ensures ItemsWith(xs, key, k) == []
  {
    if xs != [] {
      NoneWith(xs[..|xs| - 1], key, k);
    }
  }

  lemma {:induction false} FirstUnique<T(!new)>(xs: seq<T>)
    requires xs != []
    ensures Uniques(xs) != [] && Uniques(xs)[0] == xs[0]
  {
    if |xs| > 1 {
      FirstUnique(xs[..|xs| - 1]);
    }
  }

  /** The first neighbour's group is the first group, and it is the first of its host. */
  lemma FirstGroupLeads(left: seq<Item>, members: Members)
    requires left != []
    ensures GroupsOf(left, members) != [] && GroupsOf(left, members)[0].key == KeyOf(members, left[0])
  {
    FirstUnique(Keys(left, ByKey(members)));
  }

  lemma FirstDecides(left: seq<Item>, members: Members, ips: MacToIp, key: GroupKey, i: nat, id: string, g: Aliases)
    requires i < |left| && (forall j :: 0 <= j < i ==> KeyOf(members, left[j]) != key)
    requires GoesBy(left, members, ips, key, left[i], id) && g in GroupsOf(left, members) && g.key == key
    ensures Identity(ips, g) == (key.0, key.1, id)
  {
    GroupIsOf(left, members, g);
    FirstWith(left, ByKey(members), key, i);
    var k :| 0 <= k < |GroupsOf(left, members)| && GroupsOf(left, members)[k] == g;
    assert g.items[0] == left[i];
    PortIdIpIs(ips, g.items);
  }

  lemma FirstIsSigned(left: seq<Item>, members: Members, ips: MacToIp, k1: GroupKey, id: string)
    requires left != [] && GoesBy(left, members, ips, k1, left[0], id)
    ensures Signed(left, members, ips, k1)
  {
    FirstGroupLeads(left, members);
    var first := GroupsOf(left, members)[0];
    FirstDecides(left, members, ips, k1, 0, id, first);
    var h := HostOfGroup(left, members, ips, first);
    LeadsItsHost(left, members, ips, h);
    assert Signs(h, k1);
  }

  /** When two mergeable neighbours come first, the first of them signs for both. */
  lemma FirstSigns(left: seq<Item>, members: Members, ips: MacToIp, k1: GroupKey, k2: GroupKey, id: string)
    requires |left| >= 2 && k1.0 == k2.0 && k1.1 == k2.1 && k1.2 != k2.2
    requires GoesBy(left, members, ips, k1, left[0], id) && GoesBy(left, members, ips, k2, left[1], id)
    ensures Signed(left, members, ips, k1) && !Signed(left, members, ips, k2)
  {
    FirstIsSigned(left, members, ips, k1, id);
    if Signed(left, members, ips, k2) {
      var o :| o in HostsOf(left, members, ips) && Signs(o, k2);
      SecondDoesNotSign(left, members, ips, k1, k2, id, o);
    }
  }

  lemma SecondDoesNotSign(left: seq<Item>, members: Members, ips: MacToIp, k1: GroupKey, k2: GroupKey, id: string,
                          o: Host)
    requires |left| >= 2 && k1.0 == k2.0 && k1.1 == k2.1 && k1.2 != k2.2
    requires GoesBy(left, members, ips, k1, left[0], id) && GoesBy(left, members, ips, k2, left[1], id)
    requires o in HostsOf(left, members, ips)
    ensures !Signs(o, k2)
  {
    FirstGroupLeads(left, members);
    FirstDecides(left, members, ips, k1, 0, id, GroupsOf(left, members)[0]);
    var g := FirstOfHost(left, members, ips, o);
    GroupKeyIsHosts(left, members, ips, g);
    if Signs(o, k2) {
      FirstDecides(left, members, ips, k2, 1, id, g);
      LeadsItsHost(left, members, ips, o);
    }
  }

  lemma GroupKeyIsHosts(left: seq<Item>, members: Members, ips: MacToIp, g: Aliases)
    ensures Identity(ips, g).0 == g.key.0 && Identity(ips, g).1 == g.key.1
  {
  }

  lemma LeadsItsHost(left: seq<Item>, members: Members, ips: MacToIp, h: Host)
    requires GroupsOf(left, members) != [] && h in HostsOf(left, members, ips)
    requires Identity(ips, GroupsOf(left, members)[0]) == h.key
    ensures h.items != [] && h.items[0] == GroupsOf(left, members)[0]
  {
    HostIsOf(left, members, ips, h);
    FirstWith(GroupsOf(left, members), ByIdentity(ips), h.key, 0);
  }

  // --- over all orders of devices and rows --------------------------------------------------------

  /** The neighbours no link has claimed, in one order of devices and rows. */
  function LeftIn(ids: seq<string>, tables: Tables, claimed: set<Pair>): (left: seq<Item>)
    requires Known(ids, tables)
    ensures forall x :: x in left <==>
              x.device in tables && x.n in tables[x.device] && (x.device, x.n.localPort) !in claimed
  {
    var items := Items(ids, tables);
    assert forall x: Item :: x in items <==> Item(x.device, x.n) in items;
    Unclaimed(items, claimed)
  }

  ghost predicate SameElements(a: seq<Item>, b: seq<Item>) {
    forall x :: x in a <==> x in b
  }

  lemma OneChassisIsAFact(a: seq<Item>, b: seq<Item>, members: Members, ips: MacToIp)
    requires SameElements(a, b)
    ensures OneChassisEach(a, members, ips) ==> OneChassisEach(b, members, ips)
    ensures forall key :: Reported(a, members, key) <==> Reported(b, members, key)
    ensures forall key, x, id :: GoesBy(a, members, ips, key, x, id) <==> GoesBy(b, members, ips, key, x, id)
  {
    forall x, key
      ensures Has(a, members, x, key) <==> Has(b, members, x, key)
    {
    }
    forall key, x, id
      ensures GoesBy(a, members, ips, key, x, id) <==> GoesBy(b, members, ips, key, x, id)
    {
    }
    forall k1, k2 | OneChassisEach(a, members, ips)
      ensures !Mergeable(b, members, ips, k1, k2)
    {
      assert !Mergeable(a, members, ips, k1, k2);
    }
  }

  /** Whatever the order of devices and rows, the same external signatures are drawn. */
  ghost predicate ExternalOrderDoesNotMatter(tables: Tables, members: Members, ips: MacToIp, claimed: set<Pair>) {
    forall ids1, t1, ids2, t2 ::
      Known(ids1, t1) && Known(ids2, t2) && Reordered(tables, t1) && Reordered(tables, t2) ==>
        SameSigned(LeftIn(ids1, t1, claimed), LeftIn(ids2, t2, claimed), members, ips)
  }

  ghost predicate SameSigned(a: seq<Item>, b: seq<Item>, members: Members, ips: MacToIp) {
    forall key :: Signed(a, members, ips, key) <==> Signed(b, members, ips, key)
  }

  lemma SameLeft(tables: Tables, ids: seq<string>, ids1: seq<string>, t1: Tables, claimed: set<Pair>)
    requires Known(ids, tables) && Known(ids1, t1) && Reordered(tables, t1)
    ensures SameElements(LeftIn(ids, tables, claimed), LeftIn(ids1, t1, claimed))
  {
    ReorderedIsSameFacts(tables, t1);
  }

  lemma SignedIffReported(left: seq<Item>, members: Members, ips: MacToIp)
    requires OneChassisEach(left, members, ips)
    ensures forall key :: Signed(left, members, ips, key) <==> Reported(left, members, key)
  {
    forall key
      ensures Signed(left, members, ips, key) <==> Reported(left, members, key)
    {
      if Signed(left, members, ips, key) {
        SignedIsReported(left, members, ips, key);
      } else if Reported(left, members, key) {
        ReportedIsSigned(left, members, ips, key);
      }
    }
  }

  /** The signatures of external edges do not depend on any order exactly when no two
      chassis ids on one port can be merged into one host. */
  lemma ExternalOrderDoesNotMatterIff(ids: seq<string>, tables: Tables, members: Members, ips: MacToIp,
                                      claimed: set<Pair>)
    requires Known(ids, tables)
    ensures ExternalOrderDoesNotMatter(tables, members, ips, claimed) <==>
              OneChassisEach(LeftIn(ids, tables, claimed), members, ips)
  {
    if OneChassisEach(LeftIn(ids, tables, claimed), members, ips) {
      OneChassisOrders(ids, tables, members, ips, claimed);
    } else {
      MergedOrders(ids, tables, members, ips, claimed);
    }
  }

  lemma OneChassisOrders(ids: seq<string>, tables: Tables, members: Members, ips: MacToIp, claimed: set<Pair>)
    requires Known(ids, tables) && OneChassisEach(LeftIn(ids, tables, claimed), members, ips)
    ensures ExternalOrderDoesNotMatter(tables, members, ips, claimed)
  {
    forall ids1, t1, ids2, t2 |
      Known(ids1, t1) && Known(ids2, t2) && Reordered(tables, t1) && Reordered(tables, t2)
      ensures SameSigned(LeftIn(ids1, t1, claimed), LeftIn(ids2, t2, claimed), members, ips)
    {
      SignedIsAFact(ids, tables, ids1, t1, members, ips, claimed);
      SignedIsAFact(ids, tables, ids2, t2, members, ips, claimed);
    }
  }

  lemma SignedIsAFact(ids: seq<string>, tables: Tables, ids1: seq<string>, t1: Tables, members: Members,
                      ips: MacToIp, claimed: set<Pair>)
    requires Known(ids, tables) && OneChassisEach(LeftIn(ids, tables, claimed), members, ips)
    requires Known(ids1, t1) && Reordered(tables, t1)
    ensures forall key :: Signed(LeftIn(ids1, t1, claimed), members, ips, key) <==>
                          Reported(LeftIn(ids, tables, claimed), members, key)
  {
    SameLeft(tables, ids, ids1, t1, claimed);
    OneChassisIsAFact(LeftIn(ids, tables, claimed), LeftIn(ids1, t1, claimed), members, ips);
    SignedIffReported(LeftIn(ids1, t1, claimed), members, ips);
  }

  lemma MergedOrders(ids: seq<string>, tables: Tables, members: Members, ips: MacToIp, claimed: set<Pair>)
    requires Known(ids, tables) && !OneChassisEach(LeftIn(ids, tables, claimed), members, ips)
    ensures !ExternalOrderDoesNotMatter(tables, members, ips, claimed)
  {
    var left := LeftIn(ids, tables, claimed);
    var k1, k2 :| Mergeable(left, members, ips, k1, k2);
    var x, y, id :| GoesBy(left, members, ips, k1, x, id) && GoesBy(left, members, ips, k2, y, id);
    var ids1, t1 := OrderThatSigns(ids, tables, members, ips, claimed, k1, k2, x, y, id);
    var ids2, t2 := OrderThatSigns(ids, tables, members, ips, claimed, k2, k1, y, x, id);
    assert !SameSigned(LeftIn(ids1, t1, claimed), LeftIn(ids2, t2, claimed), members, ips);
  }

  lemma OrderThatSigns(ids: seq<string>, tables: Tables, members: Members, ips: MacToIp, claimed: set<Pair>,
                       k1: GroupKey, k2: GroupKey, x: Item, y: Item, id: string) returns (ids1: seq<string>, t1: Tables)
    requires Known(ids, tables) && k1.0 == k2.0 && k1.1 == k2.1 && k1.2 != k2.2
    requires GoesBy(LeftIn(ids, tables, claimed), members, ips, k1, x, id)
    requires GoesBy(LeftIn(ids, tables, claimed), members, ips, k2, y, id)
    ensures Known(ids1, t1) && Reordered(tables, t1)
    ensures Signed(LeftIn(ids1, t1, claimed), members, ips, k1) && !Signed(LeftIn(ids1, t1, claimed), members, ips, k2)
  {
    ids1, t1 := OrderWithFirst(ids, tables, claimed, x, y);
    OneChassisIsAFact(LeftIn(ids, tables, claimed), LeftIn(ids1, t1, claimed), members, ips);
    FirstSigns(LeftIn(ids1, t1, claimed), members, ips, k1, k2, id);
  }

  /** What edge_signature reads off the edges drawn for the hosts. */
  lemma EdgesAreSigned(left: seq<Item>, members: Members, ips: MacToIp, groups: seq<Aliases>, hosts: seq<Host>,
                       key: GroupKey)
    requires AreHosts(left, members, ips, groups, hosts)
    ensures Signed(left, members, ips, key) <==> exists h :: h in hosts && IsSignedBy(ips, h, key)
  {
    HostsAre(left, members, ips, groups, hosts);
    if Signed(left, members, ips, key) {
      var h :| h in HostsOf(left, members, ips) && Signs(h, key);
      assert h in hosts && IsSignedBy(ips, h, key);
    }
    if h :| h in hosts && IsSignedBy(ips, h, key) {
      assert h in HostsOf(left, members, ips) && Signs(h, key);
    }
  }

  predicate IsSignedBy(ips: MacToIp, h: Host, key: GroupKey) {
    h.items != [] && var e := EdgeOf(ips, h, {}, {}); (e.device, e.port, e.chassis) == key
  }

  /** What neither pass can confuse: no port faces two others, and no two chassis ids
      on an unclaimed port can be one host.  Then any two ways to go through the same
      tables draw the same links and the same external edges, by signature. */
  lemma TheDrawingDoesNotDependOnOrder(ids1: seq<string>, t1: Tables, ids2: seq<string>, t2: Tables,
                                       members: Members, ips: MacToIp)
    requires Known(ids1, t1) && Known(ids2, t2) && Reordered(t1, t2) && Unambiguous(t1)
    requires OneChassisEach(LeftIn(ids1, t1, Greedy(ids1, t1, members).claimed), members, ips)
    ensures SameDrawn(Greedy(ids1, t1, members), Greedy(ids2, t2, members))
    ensures SameSigned(LeftIn(ids1, t1, Greedy(ids1, t1, members).claimed),
                       LeftIn(ids2, t2, Greedy(ids2, t2, members).claimed), members, ips)
  {
    assert Reordered(t1, t1);
    GreedyOrders(t1, members, ids1, t1, ids2, t2);
    ReorderedIsSameFacts(t1, t2);
    ClaimedDoNotDependOnOrder(ids1, t1, ids2, t2, members);
    ExternalOrderDoesNotMatterIff(ids1, t1, members, ips, Greedy(ids1, t1, members).claimed);
  }

  // --- an order with two given neighbours of a device first

  lemma OrderWithFirst(ids: seq<string>, tables: Tables, claimed: set<Pair>, x: Item, y: Item)
    returns (ids1: seq<string>, t1: Tables)
    requires Known(ids, tables) && x in LeftIn(ids, tables, claimed) && y in LeftIn(ids, tables, claimed)
    requires x != y && x.device == y.device
    ensures Known(ids1, t1) && Reordered(tables, t1) &&
            SameElements(LeftIn(ids, tables, claimed), LeftIn(ids1, t1, claimed))
    ensures |LeftIn(ids1, t1, claimed)| >= 2 && LeftIn(ids1, t1, claimed)[0] == x && LeftIn(ids1, t1, claimed)[1] == y
  {
    var d := x.device;
    t1 := TwoRowsFirst(tables, d, x.n, y.n);
    ids1 := DeviceFirst(tables.Keys, d);
    SameLeft(tables, ids, ids1, t1, claimed);
    TheyLead(ids1, t1, claimed, x, y);
  }

  lemma TheyLead(ids: seq<string>, tables: Tables, claimed: set<Pair>, x: Item, y: Item)
    requires Known(ids, tables) && ids != [] && x.device == y.device == ids[0] && ids[0] in tables
    requires |tables[ids[0]]| >= 2 && tables[ids[0]][0] == x.n && tables[ids[0]][1] == y.n
    requires (x.device, x.n.localPort) !in claimed && (y.device, y.n.localPort) !in claimed
    ensures var left := LeftIn(ids, tables, claimed); |left| >= 2 && left[0] == x && left[1] == y
  {
    TheyComeFirst(ids, tables, x, y);
    UnclaimedStart(Items(ids, tables), claimed);
  }

  lemma TheyComeFirst(ids: seq<string>, tables: Tables, x: Item, y: Item)
    requires (forall id :: id in ids ==> id in tables) && ids != [] && x.device == y.device == ids[0] &&
             ids[0] in tables
    requires |tables[ids[0]]| >= 2 && tables[ids[0]][0] == x.n && tables[ids[0]][1] == y.n
    ensures |Items(ids, tables)| >= 2 && Items(ids, tables)[0] == x && Items(ids, tables)[1] == y
  {
    ItemsStart(ids, tables, |ids|);
  }

  lemma TwoRowsFirst(tables: Tables, d: string, n: Neighbour, m: Neighbour) returns (t: Tables)
    requires d in tables && n in tables[d] && m in tables[d] && n != m
    ensures Reordered(tables, t) && |t[d]| >= 2 && t[d][0] == n && t[d][1] == m
  {
    var t0 := RowFirst(tables, d, m);
    ReorderedIsSameFacts(tables, t0);
    t := RowFirst2(t0, d, n);
  }

  /** ... as RowFirst, keeping what was first second. */
  lemma RowFirst2(tables: Tables, device: string, n: Neighbour) returns (t: Tables)
    requires device in tables && n in tables[device] && tables[device] != [] && tables[device][0] != n
    ensures Reordered(tables, t) && |t[device]| >= 2 && t[device][0] == n && t[device][1] == tables[device][0]
    ensures forall d :: d in tables && d != device ==> t[d] == tables[d]
  {
    var rows := tables[device];
    var i :| 0 <= i < |rows| && rows[i] == n;
    t := tables[device := [n] + rows[..i] + rows[i + 1..]];
    assert rows == rows[..i] + [n] + rows[i + 1..];
  }

  lemma DeviceFirst(all: set<string>, d: string) returns (ids: seq<string>)
    requires d in all
    ensures Lists(ids, all) && ids != [] && ids[0] == d
  {
    var rest := Listing(all - {d});
    assert forall i :: 0 <= i < |rest| ==> rest[i] in rest;
    ids := [d] + rest;
  }

  lemma {:induction false} ItemsOfAt(device: string, table: seq<Neighbour>)
    ensures |ItemsOf(device, table)| == |table|
    ensures forall i :: 0 <= i < |table| ==> ItemsOf(device, table)[i] == Item(device, table[i])
  {
    if table != [] {
      ItemsOfAt(device, table[..|table| - 1]);
    }
  }

  /** All neighbours start with those of the first device. */
  lemma {:induction false} ItemsStart(ids: seq<string>, tables: Tables, n: nat)
    requires 0 < n <= |ids| && forall id :: id in ids ==> id in tables
    ensures ids[0] in tables && ItemsOf(ids[0], tables[ids[0]]) <= Items(ids[..n], tables)
    ensures n == |ids| ==> StartsWithItems(Items(ids, tables), ids[0], tables[ids[0]])
  {
    assert ids[0] in ids && ids[n - 1] in ids;
    assert ids[..n][..n - 1] == ids[..n - 1];
    if n > 1 {
      ItemsStart(ids, tables, n - 1);
    } else {
      assert ids[..0] == [];
    }
    if n == |ids| {
      assert ids[..n] == ids;
      ItemsOfAt(ids[0], tables[ids[0]]);
    }
  }

  ghost predicate StartsWithItems(items: seq<Item>, device: string, table: seq<Neighbour>) {
    |table| <= |items| && forall i :: 0 <= i < |table| ==> items[i] == Item(device, table[i])
  }

  lemma {:induction false} UnclaimedStart(items: seq<Item>, claimed: set<Pair>)
    requires |items| >= 2
    requires (items[0].device, items[0].n.localPort) !in claimed && (items[1].device, items[1].n.localPort) !in claimed
    ensures |Unclaimed(items, claimed)| >= 2 && Unclaimed(items, claimed)[0] == items[0] &&
            Unclaimed(items, claimed)[1] == items[1]
  {
    if |items| > 2 {
      UnclaimedStart(items[..|items| - 1], claimed);
    } else {
      assert items[..1][..0] == [] && Unclaimed(items[..1], claimed) == items[..1];
    }
  }
}
