/** What build_topology (webui/topology.py) draws, said of the fields of the tables it
    is given and of the edges it returns. */
module TopologyFields {
  import opened Common
  import opened Ordering
  import opened Grouping
  import opened LinkMatching
  import opened Discovery

  type MacTables = map<string, seq<MacRow>>

  // --- the neighbours no link accounts for ----------------------------------------------

  /** The same text with its ASCII capitals made small. */
  ghost predicate IsLowerOf(lower: string, s: string) {
    |lower| == |s| && forall i :: 0 <= i < |s| ==> IsLowerChar(lower[i], s[i])
  }

  predicate IsLowerChar(lower: char, c: char) {
    if 'A' <= c <= 'Z' then lower as int == c as int + 32 else lower == c
  }

  /** A port is drawn as the aggregate it is a member of, if it is one, else as itself. */
  ghost predicate StandsFor(members: Members, device: string, port: string, logical: string) {
    || IsMember(members, device, port, logical)
    || (port == logical && forall name :: !IsMember(members, device, port, name))
  }

  /** The device lists the neighbour on a port of no link, and that port is drawn as `port`. */
  ghost predicate IsExternal(tables: Tables, members: Members, links: seq<Link>, device: string, port: string,
                             n: Neighbour) {
    device in tables && n in tables[device] && IsFree(members, links, device, port, n)
  }

  ghost predicate IsFree(members: Members, links: seq<Link>, device: string, port: string, n: Neighbour) {
    !HasEnd(links, device, n.localPort) && StandsFor(members, device, n.localPort, port)
  }

  /** Its chassis id, or its port id if it has one, in lower case. */
  ghost predicate HasMac(n: Neighbour, mac: string) {
    IsLowerOf(mac, n.chassis) || (n.portId.Some? && n.portId.value != "" && IsLowerOf(mac, n.portId.value))
  }

  /** LLDP shows the MAC on the port. */
  ghost predicate LldpShows(tables: Tables, members: Members, links: seq<Link>, device: string, port: string,
                            mac: string) {
    exists n :: IsExternal(tables, members, links, device, port, n) && HasMac(n, mac)
  }

  // --- the hosts they are drawn as -----------------------------------------------------------

  /** The address that ARP has for its port id. */
  ghost predicate HasPortAddress(ips: MacToIp, n: Neighbour, ip: string) {
    n.portId.Some? && n.portId.value != "" && ip != "" &&
    exists mac :: IsLowerOf(mac, n.portId.value) && mac in ips && ips[mac] == ip
  }

  ghost predicate IsAmong(members: Members, links: seq<Link>, device: string, port: string, chassis: string,
                          n: Neighbour) {
    IsFree(members, links, device, port, n) && n.chassis == chassis
  }

  /** Row i is the first of the chassis on the port whose port id has an address. */
  ghost predicate IsFirstWithAddress(rows: seq<Neighbour>, members: Members, links: seq<Link>, ips: MacToIp,
                                     device: string, port: string, chassis: string, i: int, ip: string) {
    && 0 <= i < |rows| && IsAmong(members, links, device, port, chassis, rows[i]) && HasPortAddress(ips, rows[i], ip)
    && forall j, other :: 0 <= j < i && IsAmong(members, links, device, port, chassis, rows[j]) ==>
         !HasPortAddress(ips, rows[j], other)
  }

  ghost predicate NoneHasAddress(rows: seq<Neighbour>, members: Members, links: seq<Link>, ips: MacToIp,
                                 device: string, port: string, chassis: string) {
    forall n, ip :: n in rows && IsAmong(members, links, device, port, chassis, n) ==> !HasPortAddress(ips, n, ip)
  }

  /** The address of a chassis on a port: its own, else that of the first port id that has one. */
  ghost predicate HasAddress(rows: seq<Neighbour>, members: Members, links: seq<Link>, ips: MacToIp,
                             device: string, port: string, chassis: string, address: Option<string>) {
    && (forall mac :: IsLowerOf(mac, chassis) && mac in ips ==> address == Some(ips[mac]))
    && ((forall mac :: IsLowerOf(mac, chassis) ==> mac !in ips) ==>
          match address
          case Some(ip) => exists i :: IsFirstWithAddress(rows, members, links, ips, device, port, chassis, i, ip)
          case None => NoneHasAddress(rows, members, links, ips, device, port, chassis))
  }

  /** What a chassis is told apart by: its address if it has one, else its id. */
  ghost predicate IsKnownAs(rows: seq<Neighbour>, members: Members, links: seq<Link>, ips: MacToIp,
                            device: string, port: string, chassis: string, name: string) {
    exists address ::
      && HasAddress(rows, members, links, ips, device, port, chassis, address)
      && name == if address != None && address != Some("") then address.value else chassis
  }

  /** The neighbour is drawn as part of the edge. */
  ghost predicate IsPartOf(tables: Tables, members: Members, links: seq<Link>, ips: MacToIp, e: External,
                           name: string, n: Neighbour) {
    && IsExternal(tables, members, links, e.device, e.port, n)
    && IsKnownAs(tables[e.device], members, links, ips, e.device, e.port, n.chassis, name)
  }

  predicate NamesIt(e: External, x: string) {
    x == e.shown || x == e.chassis || x in e.alsoKnownAs
  }

  predicate IsName(n: Neighbour, x: string) {
    x == n.chassis || (x != "" && n.remoteLabel == Some(x))
  }

  predicate HasLabel(n: Neighbour) {
    n.remoteLabel != None && n.remoteLabel != Some("")
  }

  /** The edge shows exactly the neighbours that are known as `name`: their ports, chassis ids and labels. */
  ghost predicate IsEdgeOf(tables: Tables, members: Members, links: seq<Link>, ips: MacToIp, e: External,
                           name: string) {
    && e.device in tables
    && HasAddress(tables[e.device], members, links, ips, e.device, e.port, e.chassis, e.remoteIp)
    && (exists n :: IsPartOf(tables, members, links, ips, e, name, n) && n.chassis == e.chassis)
    && ShowsPorts(tables, members, links, ips, e, name) && ShowsNames(tables, members, links, ips, e, name)
    && ShowsALabel(tables, members, links, ips, e, name)
  }

  ghost predicate ShowsPorts(tables: Tables, members: Members, links: seq<Link>, ips: MacToIp, e: External,
                             name: string) {
    forall p :: p in e.memberPorts <==>
      exists n :: IsPartOf(tables, members, links, ips, e, name, n) && n.localPort == p
  }

  ghost predicate ShowsNames(tables: Tables, members: Members, links: seq<Link>, ips: MacToIp, e: External,
                             name: string) {
    forall x :: NamesIt(e, x) <==>
      exists n :: IsPartOf(tables, members, links, ips, e, name, n) && IsName(n, x)
  }

  /** The edge is shown by a label of one of its neighbours, if any has one. */
  ghost predicate ShowsALabel(tables: Tables, members: Members, links: seq<Link>, ips: MacToIp, e: External,
                              name: string) {
    if exists n :: IsPartOf(tables, members, links, ips, e, name, n) && HasLabel(n)
    then
      e.shown != "" && exists n :: IsPartOf(tables, members, links, ips, e, name, n) && n.remoteLabel == Some(e.shown)
    else e.shown == e.chassis
  }

  /** ... and is marked as seen in the MAC table exactly when the table lists a MAC that LLDP shows on the port. */
  ghost predicate IsMarked(tables: Tables, members: Members, links: seq<Link>, macTables: MacTables, e: External) {
    e.seenInMacTable <==>
    e.device in macTables && exists mac :: MacRow(mac, e.port) in macTables[e.device] &&
                                           LldpShows(tables, members, links, e.device, e.port, mac)
  }

  /** One edge for each name on each port, and one for each neighbour that no link accounts for. */
  ghost predicate AreEdgesOf(tables: Tables, members: Members, links: seq<Link>, ips: MacToIp, macTables: MacTables,
                             externals: seq<External>, names: seq<string>) {
    && |names| == |externals|
    && (forall k :: 0 <= k < |externals| ==>
          && IsEdgeOf(tables, members, links, ips, externals[k], names[k])
          && IsMarked(tables, members, links, macTables, externals[k]))
    && (forall i, j :: 0 <= i < j < |externals| ==>
          (externals[i].device, externals[i].port, names[i]) != (externals[j].device, externals[j].port, names[j]))
    && (forall d, port, n :: IsExternal(tables, members, links, d, port, n) ==>
          exists k :: 0 <= k < |externals| && externals[k].device == d && externals[k].port == port &&
                      IsPartOf(tables, members, links, ips, externals[k], names[k], n))
  }

  // --- the rows of the MAC tables ----------------------------------------------------------------

  predicate IsAggregateName(name: string) {
    "Po " <= name || "Port-channel" <= name || "ae" <= name
  }

  /** The name of an aggregate that some link is a member of. */
  ghost predicate IsUplink(links: seq<Link>, device: string, name: string) {
    exists l, e :: l in links && IsEndOf(l, e) && e.device == device && e.lag == Some(name)
  }

  ghost predicate ShowsAddress(externals: seq<External>, device: string, port: string, ip: string) {
    ip != "" && exists e :: e in externals && e.device == device && e.port == port && e.remoteIp == Some(ip)
  }

  /** The row is transit traffic of a drawn link, or of a neighbour or address drawn on its port. */
  ghost predicate IsExplained(tables: Tables, members: Members, links: seq<Link>, externals: seq<External>,
                              ips: MacToIp, device: string, r: MacRow) {
    || HasEnd(links, device, r.interface)
    || (IsAggregateName(r.interface) && IsUplink(links, device, r.interface))
    || LldpShows(tables, members, links, device, r.interface, r.mac)
    || (r.mac in ips && ShowsAddress(externals, device, r.interface, ips[r.mac]))
  }

  /** The row is in exactly one edge, and that edge is on its port. */
  ghost predicate DrawnOnce(edges: seq<MacEdge>, r: MacRow) {
    exists k :: DrawnAt(edges, r, k) && forall j :: DrawnAt(edges, r, j) ==> j == k
  }

  ghost predicate DrawnAt(edges: seq<MacEdge>, r: MacRow, k: int) {
    0 <= k < |edges| && edges[k].port == r.interface && r.mac in edges[k].macs
  }

  /** Every MAC table row is in exactly one MAC edge of its port, unless the links or
      the LLDP hosts of the same drawing explain it; then it is in none. */
  ghost predicate EveryRowIsAccountedFor(tables: Tables, members: Members, links: seq<Link>, externals: seq<External>,
                                         ips: MacToIp, macTables: MacTables, macEdges: map<string, seq<MacEdge>>) {
    macEdges.Keys == macTables.Keys &&
    forall d, r :: d in macTables && r in macTables[d] ==>
      if IsExplained(tables, members, links, externals, ips, d, r)
      then forall k :: !DrawnAt(macEdges[d], r, k)
      else DrawnOnce(macEdges[d], r)
  }

  /** What a MAC is told apart by: its address if it has one, else itself. */
  predicate MacIsKnownAs(ips: MacToIp, mac: string, name: string) {
    || (mac in ips && ips[mac] != "" && name == ips[mac])
    || ((mac !in ips || ips[mac] == "") && name == mac)
  }

  /** The edge is made of rows of the device's table, all known as the same. */
  ghost predicate IsMadeOfRows(ips: MacToIp, device: string, rows: seq<MacRow>, e: MacEdge) {
    && e.device == device && e.macs != [] && (e.ip == None <==> e.macs[0] !in ips)
    && (e.macs[0] in ips ==> e.ip == Some(ips[e.macs[0]]))
    && forall mac :: mac in e.macs ==> MacRow(mac, e.port) in rows && MacIsKnownAs(ips, mac, e.identity)
  }

  ghost predicate MacEdgesAreMadeOfRows(ips: MacToIp, macTables: MacTables, macEdges: map<string, seq<MacEdge>>) {
    forall d :: d in macEdges && d in macTables ==>
      && (forall k :: 0 <= k < |macEdges[d]| ==> IsMadeOfRows(ips, d, macTables[d], macEdges[d][k]))
      && (forall i, j :: 0 <= i < j < |macEdges[d]| ==>
            macEdges[d][i].port != macEdges[d][j].port || macEdges[d][i].identity != macEdges[d][j].identity)
  }

  // --- transit traffic ----------------------------------------------------------------------------

  /** Whatever entry of the port a link is made from, the aggregate is the one it
      names, or it names none and its port is a member of this one. */
  ghost predicate IsMemberEnd(tables: Tables, members: Members, e: End, aggregate: string) {
    e.device in tables && forall n :: n in tables[e.device] && n.localPort == e.port ==>
      || n.parent == Some(aggregate)
      || ((n.parent == None || n.parent == Some("")) && IsMember(members, e.device, e.port, aggregate))
  }

  /** Nothing is drawn as a host on the end of a link, nor on the aggregate it is a member of. */
  ghost predicate NoTransitIsDrawn(tables: Tables, members: Members, links: seq<Link>,
                                   macEdges: map<string, seq<MacEdge>>) {
    forall l, e, k :: l in links && IsEndOf(l, e) && e.device in macEdges && 0 <= k < |macEdges[e.device]| ==>
      && macEdges[e.device][k].port != e.port
      && (IsAggregateName(macEdges[e.device][k].port) ==>
            !IsMemberEnd(tables, members, e, macEdges[e.device][k].port))
  }

  lemma TransitIsNotDrawn(tables: Tables, members: Members, links: seq<Link>, externals: seq<External>, ips: MacToIp,
                          macTables: MacTables, macEdges: map<string, seq<MacEdge>>)
    requires LinksAreListed(tables, members, links) && MacEdgesAreMadeOfRows(ips, macTables, macEdges)
    requires EveryRowIsAccountedFor(tables, members, links, externals, ips, macTables, macEdges)
    ensures NoTransitIsDrawn(tables, members, links, macEdges)
  {
    forall l, e, k | l in links && IsEndOf(l, e) && e.device in macEdges && 0 <= k < |macEdges[e.device]|
      ensures macEdges[e.device][k].port != e.port
      ensures IsAggregateName(macEdges[e.device][k].port) ==>
                !IsMemberEnd(tables, members, e, macEdges[e.device][k].port)
    {
      var edge := macEdges[e.device][k];
      assert IsMadeOfRows(ips, e.device, macTables[e.device], edge);
      var mac := edge.macs[0];
      assert DrawnAt(macEdges[e.device], MacRow(mac, edge.port), k);
      assert !IsExplained(tables, members, links, externals, ips, e.device, MacRow(mac, edge.port));
      if IsAggregateName(edge.port) && IsMemberEnd(tables, members, e, edge.port) {
        MemberEndHasLag(tables, members, links, l, e, edge.port);
      }
    }
  }

  lemma MemberEndHasLag(tables: Tables, members: Members, links: seq<Link>, l: Link, e: End, aggregate: string)
    requires LinksAreListed(tables, members, links) && l in links && IsEndOf(l, e)
    requires IsMemberEnd(tables, members, e, aggregate) && aggregate != ""
    ensures e.lag == Some(aggregate)
  {
    var k :| 0 <= k < |links| && links[k] == l;
    var far := if e == l.a then l.b else l.a;
    var n :| n in tables[e.device] && Makes(members, n, e, far);
  }

  // --- groups of neighbours ------------------------------------------------------------------------

  lemma {:induction false} LowerIs(l: string, s: string)
    ensures IsLowerOf(l, s) <==> l == Lower(s)
  {
    if s != [] && l != [] {
      LowerIs(l[1..], s[1..]);
      assert l == [l[0]] + l[1..];
      assert |l| == |s| ==> forall i :: 0 <= i < |s| - 1 ==> l[1..][i] == l[i + 1] && s[1..][i] == s[i + 1];
      assert IsLowerOf(l[1..], s[1..]) && IsLowerChar(l[0], s[0]) ==>
          forall i :: 0 <= i < |s| && i > 0 ==> l[i] == l[1..][i - 1] && s[i] == s[1..][i - 1];
    }
  }

  lemma LogicalPortIs(members: Members, device: string, port: string, logical: string)
    ensures StandsFor(members, device, port, logical) <==> LogicalPort(members, device, port) == logical
  {
    if device in members && port in members[device] {
      assert IsMember(members, device, port, members[device][port]);
    }
  }

  /** The neighbours of a group, off the table of its device. */
  ghost function Picked(rows: seq<Neighbour>, members: Members, claimed: set<Pair>, key: GroupKey): seq<Item> {
    if rows == [] then []
    else
      var x := Item(key.0, rows[|rows| - 1]);
      Picked(rows[..|rows| - 1], members, claimed, key) +
      if (x.device, x.n.localPort) !in claimed && KeyOf(members, x) == key then [x] else []
  }

  ghost function Taken(items: seq<Item>, members: Members, claimed: set<Pair>, key: GroupKey): seq<Item> {
    ItemsWith(Unclaimed(items, claimed), ByKey(members), key)
  }

  lemma TakenMore(items: seq<Item>, x: Item, members: Members, claimed: set<Pair>, key: GroupKey)
    ensures Taken(items + [x], members, claimed, key) ==
            Taken(items, members, claimed, key) +
            if (x.device, x.n.localPort) !in claimed && KeyOf(members, x) == key then [x] else []
  {
    assert (items + [x])[..|items|] == items;
    var left := Unclaimed(items, claimed);
    assert (left + [x])[..|left|] == left && (left + [x])[|left|] == x;
    if (x.device, x.n.localPort) !in claimed {
      assert Unclaimed(items + [x], claimed) == left + [x];
    } else {
      assert left + [] == left;
      var taken := ItemsWith(left, ByKey(members), key);
      assert taken + [] == taken;
    }
  }

  lemma {:induction false} TakenOfTable(items: seq<Item>, device: string, rows: seq<Neighbour>, members: Members,
                                        claimed: set<Pair>, key: GroupKey)
    ensures Taken(items + ItemsOf(device, rows), members, claimed, key) ==
            Taken(items, members, claimed, key) + if device == key.0 then Picked(rows, members, claimed, key) else []
  {
    if rows == [] {
      assert items + ItemsOf(device, rows) == items;
    } else {
      var front, x := rows[..|rows| - 1], Item(device, rows[|rows| - 1]);
      TakenOfTable(items, device, front, members, claimed, key);
      Reassociate(items, ItemsOf(device, front), [x]);
      TakenMore(items + ItemsOf(device, front), x, members, claimed, key);
    }
  }

  lemma {:induction false} TakenOfTables(ids: seq<string>, tables: Tables, members: Members, claimed: set<Pair>,
                                         key: GroupKey)
    requires forall i, j :: 0 <= i < j < |ids| ==> ids[i] != ids[j]
    requires forall id :: id in ids ==> id in tables
    ensures Taken(Items(ids, tables), members, claimed, key) ==
            if key.0 in ids then Picked(tables[key.0], members, claimed, key) else []
  {
    if ids != [] {
      var front, last := ids[..|ids| - 1], ids[|ids| - 1];
      TakenOfTables(front, tables, members, claimed, key);
      TakenOfTable(Items(front, tables), last, tables[last], members, claimed, key);
      assert forall id :: id in ids <==> id in front || id == last;
    }
  }

  // --- addresses -----------------------------------------------------------------------------------

  lemma {:induction false} PortIdIpOfOneMore(ips: MacToIp, items: seq<Item>, x: Item)
    ensures PortIdIp(ips, items + [x]) ==
            if PortIdIp(ips, items) != None then PortIdIp(ips, items) else PortIdIp(ips, [x])
  {
    if items != [] {
      assert (items + [x])[1..] == items[1..] + [x];
      PortIdIpOfOneMore(ips, items[1..], x);
    }
  }

  lemma PortAddressIs(ips: MacToIp, x: Item)
    ensures match PortIdIp(ips, [x])
            case Some(ip) => forall other :: HasPortAddress(ips, x.n, other) <==> other == ip
            case None => forall other :: !HasPortAddress(ips, x.n, other)
  {
    if x.n.portId.Some? {
      forall mac
        ensures IsLowerOf(mac, x.n.portId.value) <==> mac == Lower(x.n.portId.value)
      {
        LowerIs(mac, x.n.portId.value);
      }
    }
  }

  lemma AmongIs(members: Members, links: seq<Link>, claimed: set<Pair>, key: GroupKey, n: Neighbour)
    requires ClaimedAre(links, claimed)
    ensures IsAmong(members, links, key.0, key.1, key.2, n) <==>
            (key.0, n.localPort) !in claimed && KeyOf(members, Item(key.0, n)) == key
  {
    ClaimedHasEnd(links, claimed, key.0, n.localPort);
    LogicalPortIs(members, key.0, n.localPort, key.1);
  }

  ghost predicate AddressIs(address: Option<string>, rows: seq<Neighbour>, members: Members, links: seq<Link>,
                            ips: MacToIp, key: GroupKey) {
    match address
    case Some(ip) => exists i :: IsFirstWithAddress(rows, members, links, ips, key.0, key.1, key.2, i, ip)
    case None => NoneHasAddress(rows, members, links, ips, key.0, key.1, key.2)
  }

  lemma {:induction false} PickedAddress(rows: seq<Neighbour>, members: Members, links: seq<Link>, claimed: set<Pair>,
                                         ips: MacToIp, key: GroupKey)
    requires ClaimedAre(links, claimed)
    ensures AddressIs(PortIdIp(ips, Picked(rows, members, claimed, key)), rows, members, links, ips, key)
  {
    if rows != [] {
      var front, n := rows[..|rows| - 1], rows[|rows| - 1];
      PickedAddress(front, members, links, claimed, ips, key);
      assert front + [n] == rows;
      PickedOneMore(front, n, members, links, claimed, ips, key);
    }
  }

  lemma PickedOneMore(front: seq<Neighbour>, n: Neighbour, members: Members, links: seq<Link>, claimed: set<Pair>,
                      ips: MacToIp, key: GroupKey)
    requires ClaimedAre(links, claimed)
    requires AddressIs(PortIdIp(ips, Picked(front, members, claimed, key)), front, members, links, ips, key)
    ensures AddressIs(PortIdIp(ips, Picked(front + [n], members, claimed, key)), front + [n], members, links, ips, key)
  {
    var x := Item(key.0, n);
    assert (front + [n])[..|front|] == front;
    var picked := Picked(front, members, claimed, key);
    AmongIs(members, links, claimed, key, n);
    PortAddressIs(ips, x);
    PortIdIpOfOneMore(ips, picked, x);
    AddressOfOneMore(PortIdIp(ips, picked), front, n, members, links, ips, key);
    if IsAmong(members, links, key.0, key.1, key.2, n) {
      assert Picked(front + [n], members, claimed, key) == picked + [x];
    } else {
      assert Picked(front + [n], members, claimed, key) == picked;
    }
  }

  lemma AddressOfOneMore(before: Option<string>, front: seq<Neighbour>, n: Neighbour, members: Members,
                         links: seq<Link>, ips: MacToIp, key: GroupKey)
    requires AddressIs(before, front, members, links, ips, key)
    ensures before.Some? ==> AddressIs(before, front + [n], members, links, ips, key)
    ensures before == None ==> forall ip ::
              IsAmong(members, links, key.0, key.1, key.2, n) && HasPortAddress(ips, n, ip) ==>
                AddressIs(Some(ip), front + [n], members, links, ips, key)
    ensures before == None && (forall ip :: IsAmong(members, links, key.0, key.1, key.2, n) ==>
                                 !HasPortAddress(ips, n, ip)) ==>
              AddressIs(None, front + [n], members, links, ips, key)
  {
    var rows := front + [n];
    match before
    case Some(ip) =>
      var i :| IsFirstWithAddress(front, members, links, ips, key.0, key.1, key.2, i, ip);
      assert forall j :: 0 <= j <= i ==> rows[j] == front[j];
      assert IsFirstWithAddress(rows, members, links, ips, key.0, key.1, key.2, i, ip);
    case None =>
      assert forall j :: 0 <= j < |front| ==> rows[j] == front[j] && front[j] in front;
      forall ip | IsAmong(members, links, key.0, key.1, key.2, n) && HasPortAddress(ips, n, ip)
        ensures AddressIs(Some(ip), rows, members, links, ips, key)
      {
        assert IsFirstWithAddress(rows, members, links, ips, key.0, key.1, key.2, |front|, ip);
      }
  }

  /** The address of a group is that of its chassis. */
  lemma GroupAddress(ids: seq<string>, tables: Tables, members: Members, links: seq<Link>, claimed: set<Pair>,
                     ips: MacToIp, g: Aliases)
    requires Known(ids, tables) && ClaimedAre(links, claimed) && g.key.0 in tables
    requires g.items == Taken(Items(ids, tables), members, claimed, g.key)
    ensures HasAddress(tables[g.key.0], members, links, ips, g.key.0, g.key.1, g.key.2, ResolvedIp(ips, g))
  {
    TakenOfTables(ids, tables, members, claimed, g.key);
    PickedAddress(tables[g.key.0], members, links, claimed, ips, g.key);
    forall mac
      ensures IsLowerOf(mac, g.key.2) <==> mac == Lower(g.key.2)
    {
      LowerIs(mac, g.key.2);
    }
  }

  lemma AddressIsOne(rows: seq<Neighbour>, members: Members, links: seq<Link>, ips: MacToIp, device: string,
                     port: string, chassis: string, a: Option<string>, b: Option<string>)
    requires HasAddress(rows, members, links, ips, device, port, chassis, a)
    requires HasAddress(rows, members, links, ips, device, port, chassis, b)
    ensures a == b
  {
    if forall mac :: IsLowerOf(mac, chassis) ==> mac !in ips {
      if a.Some? && b.Some? {
        var i :| IsFirstWithAddress(rows, members, links, ips, device, port, chassis, i, a.value);
        var j :| IsFirstWithAddress(rows, members, links, ips, device, port, chassis, j, b.value);
        assert i == j;
        PortAddressIs(ips, Item(device, rows[i]));
      }
    }
  }

  /** A chassis is known as the identity of its group, and as nothing else. */
  lemma GroupIsKnownAs(ids: seq<string>, tables: Tables, members: Members, links: seq<Link>, claimed: set<Pair>,
                       ips: MacToIp, g: Aliases, name: string)
    requires Known(ids, tables) && ClaimedAre(links, claimed) && g.key.0 in tables
    requires g.items == Taken(Items(ids, tables), members, claimed, g.key)
    ensures IsKnownAs(tables[g.key.0], members, links, ips, g.key.0, g.key.1, g.key.2, name) <==>
            name == Identity(ips, g).2
  {
    var rows := tables[g.key.0];
    GroupAddress(ids, tables, members, links, claimed, ips, g);
    if IsKnownAs(rows, members, links, ips, g.key.0, g.key.1, g.key.2, name) {
      var address :| HasAddress(rows, members, links, ips, g.key.0, g.key.1, g.key.2, address) &&
                     name == if address != None && address != Some("") then address.value else g.key.2;
      AddressIsOne(rows, members, links, ips, g.key.0, g.key.1, g.key.2, address, ResolvedIp(ips, g));
    }
  }
}
