/** The external nodes of build_topology (webui/topology.py): neighbours no known
    device answers for, grouped and merged into hosts, and the MAC-table hosts that
    LLDP did not show. */
module Discovery {
  import opened Common
  import opened Ordering
  import opened Grouping
  import opened LinkMatching

  type MacToIp = map<string, string>

  /** A neighbour with the device that reported it. */
  datatype Item = Item(device: string, n: Neighbour)

  type GroupKey = (string, string, string)   // device, logical port, chassis id
  type HostKey = (string, string, string)    // device, logical port, resolved ip or chassis id
  type Aliases = Group<GroupKey, Item>
  type Host = Group<HostKey, Aliases>

  /** ASCII lower case. */
  function Lower(s: string): string {
    if s == [] then []
    else (if 'A' <= s[0] <= 'Z' then [(s[0] as int - 'A' as int + 'a' as int) as char] else [s[0]]) + Lower(s[1..])
  }

  function Get(m: MacToIp, mac: string): Option<string> {
    if mac in m then Some(m[mac]) else None
  }

  /** Python's truth of an optional string. */
  predicate Truthy(s: Option<string>) {
    s.Some? && s.value != ""
  }

  // --- merge_mac_to_ip -----------------------------------------------------------------

  datatype ArpRow = ArpRow(mac: string, ip: string)

  /** The first row for a MAC, over all devices in order, decides. */
  method MergeMacToIp(rows: seq<ArpRow>) returns (m: MacToIp)
    ensures forall mac :: mac in m <==> exists i :: 0 <= i < |rows| && rows[i].mac == mac
    ensures forall i :: 0 <= i < |rows| && (forall j :: 0 <= j < i ==> rows[j].mac != rows[i].mac) ==>
              m[rows[i].mac] == rows[i].ip
  {
    m := map[];
    for i := 0 to |rows|
      invariant forall mac :: mac in m <==> exists k :: 0 <= k < i && rows[k].mac == mac
      invariant forall k :: 0 <= k < i && (forall j :: 0 <= j < k ==> rows[j].mac != rows[k].mac) ==>
                  m[rows[k].mac] == rows[k].ip
    {
      if rows[i].mac !in m {
        m := m[rows[i].mac := rows[i].ip];
      }
    }
  }

  // --- external neighbours ----------------------------------------------------------------

  /** All neighbours, device by device, in table order. */
  function Items(ids: seq<string>, tables: Tables): (items: seq<Item>)
    requires forall id :: id in ids ==> id in tables
    ensures forall d, n :: Item(d, n) in items <==> d in ids && n in tables[d]
  {
    if ids == [] then []
    else
      var last := ids[|ids| - 1];
      assert forall id :: id in ids <==> id in ids[..|ids| - 1] || id == last;
      Items(ids[..|ids| - 1], tables) + ItemsOf(last, tables[last])
  }

  function ItemsOf(device: string, table: seq<Neighbour>): (items: seq<Item>)
    ensures forall x :: x in items <==> x.device == device && x.n in table
  {
    if table == [] then []
    else
      var last := table[|table| - 1];
      assert forall n :: n in table <==> n in table[..|table| - 1] || n == last;
      ItemsOf(device, table[..|table| - 1]) + [Item(device, last)]
  }

  function Unclaimed(items: seq<Item>, claimed: set<Pair>): (left: seq<Item>)
    ensures forall x :: x in left <==> x in items && (x.device, x.n.localPort) !in claimed
  {
    if items == [] then []
    else
      var last := items[|items| - 1];
      assert forall x :: x in items <==> x in items[..|items| - 1] || x == last;
      Unclaimed(items[..|items| - 1], claimed) + if (last.device, last.n.localPort) in claimed then [] else [last]
  }

  /** A port-channel stands for its member ports. */
  function LogicalPort(members: Members, device: string, port: string): string {
    if device in members && port in members[device] then members[device][port] else port
  }

  function KeyOf(members: Members, x: Item): GroupKey {
    (x.device, LogicalPort(members, x.device, x.n.localPort), x.n.chassis)
  }

  /** _resolve_group_ip: the chassis id's address, else the first port id's. */
  function ResolvedIp(ips: MacToIp, g: Aliases): Option<string> {
    if Lower(g.key.2) in ips then Some(ips[Lower(g.key.2)]) else PortIdIp(ips, g.items)
  }

  function PortIdIp(ips: MacToIp, items: seq<Item>): Option<string> {
    if items == [] then None
    else if Truthy(items[0].n.portId) && Truthy(Get(ips, Lower(items[0].n.portId.value)))
    then Get(ips, Lower(items[0].n.portId.value))
    else PortIdIp(ips, items[1..])
  }

  function Identity(ips: MacToIp, g: Aliases): HostKey {
    (g.key.0, g.key.1, if Truthy(ResolvedIp(ips, g)) then ResolvedIp(ips, g).value else g.key.2)
  }

  datatype External = External(device: string, port: string, memberPorts: set<string>, chassis: string,
                               remoteIp: Option<string>, shown: string, alsoKnownAs: seq<string>,
                               seenInMacTable: bool)

  function ChassisIds(groups: seq<Aliases>): (ids: seq<string>)
    ensures |ids| == |groups| && forall i :: 0 <= i < |ids| ==> ids[i] == groups[i].key.2
  {
    if groups == [] then [] else ChassisIds(groups[..|groups| - 1]) + [groups[|groups| - 1].key.2]
  }

  function Labels(items: seq<Item>): seq<string> {
    if items == [] then []
    else
      var l := items[|items| - 1].n.remoteLabel;
      Labels(items[..|items| - 1]) + if Truthy(l) then [l.value] else []
  }

  function AllLabels(groups: seq<Aliases>): seq<string> {
    if groups == [] then [] else AllLabels(groups[..|groups| - 1]) + Labels(groups[|groups| - 1].items)
  }

  function MemberPorts(groups: seq<Aliases>): set<string> {
    set g, x | 0 <= g < |groups| && x in groups[g].items :: x.n.localPort
  }

  function PortIds(items: seq<Item>): set<string> {
    if items == [] then {}
    else
      var last := items[|items| - 1];
      PortIds(items[..|items| - 1]) + if Truthy(last.n.portId) then {Lower(last.n.portId.value)} else {}
  }

  /** The MACs LLDP accounts for on one logical port: chassis and port ids. */
  function LldpMacs(groups: seq<Aliases>, device: string, port: string): set<string> {
    if groups == [] then {}
    else
      var g := groups[|groups| - 1];
      LldpMacs(groups[..|groups| - 1], device, port) +
      if g.key.0 == device && g.key.1 == port then {Lower(g.key.2)} + PortIds(g.items) else {}
  }

  /** The addresses LLDP hosts occupy on one logical port. */
  function LldpIps(ips: MacToIp, hosts: seq<Host>, device: string, port: string): set<string> {
    if hosts == [] then {}
    else
      var h := hosts[|hosts| - 1];
      LldpIps(ips, hosts[..|hosts| - 1], device, port) +
      if h.key.0 == device && h.key.1 == port && h.items != [] && Truthy(ResolvedIp(ips, h.items[0]))
      then {ResolvedIp(ips, h.items[0]).value} else {}
  }

  /** The edge drawn for a host. */
  function EdgeOf(ips: MacToIp, h: Host, tableMacs: set<string>, lldpMacs: set<string>): External
    requires h.items != []
  {
    var labels := AllLabels(h.items);
    var chassis := ChassisIds(h.items);
    External(h.key.0, h.key.1, MemberPorts(h.items), chassis[0], ResolvedIp(ips, h.items[0]),
             if labels != [] then labels[0] else chassis[0],
             Uniques((if labels == [] then [] else labels[1..]) + chassis[1..]),
             tableMacs * lldpMacs != {})
  }

  function ByKey(members: Members): Item -> GroupKey {
    x => KeyOf(members, x)
  }

  function ByIdentity(ips: MacToIp): Aliases -> HostKey {
    g => Identity(ips, g)
  }

  /** The groups of aliases, and the hosts they merge into. */
  ghost predicate AreHosts(left: seq<Item>, members: Members, ips: MacToIp, groups: seq<Aliases>, hosts: seq<Host>) {
    IsGrouping(left, ByKey(members), groups) && IsGrouping(groups, ByIdentity(ips), hosts)
  }

  /** The two groupings of the LLDP pass. */
  method GroupHosts(ids: seq<string>, tables: Tables, members: Members, ips: MacToIp, claimed: set<Pair>)
    returns (groups: seq<Aliases>, hosts: seq<Host>)
    requires Known(ids, tables)
    ensures AreHosts(Unclaimed(Items(ids, tables), claimed), members, ips, groups, hosts)
  {
    groups := GroupBy(Unclaimed(Items(ids, tables), claimed), ByKey(members));
    hosts := GroupBy(groups, ByIdentity(ips));
  }

  ghost predicate Shows(h: Host, device: string, port: string, chassis: string) {
    h.key.0 == device && h.key.1 == port && chassis in ChassisIds(h.items)
  }

  /** The group of aliases a host shows a chassis id from. */
  lemma ShownFromGroup(left: seq<Item>, members: Members, ips: MacToIp, groups: seq<Aliases>, hosts: seq<Host>,
                       h: nat, device: string, port: string, chassis: string) returns (g: nat)
    requires AreHosts(left, members, ips, groups, hosts) && h < |hosts| && Shows(hosts[h], device, port, chassis)
    ensures g < |groups| && groups[g].key == (device, port, chassis) && Identity(ips, groups[g]) == hosts[h].key
  {
    var k :| 0 <= k < |ChassisIds(hosts[h].items)| && ChassisIds(hosts[h].items)[k] == chassis;
    var shown := hosts[h].items[k];
    assert shown in hosts[h].items;
    MemberOf(groups, ByIdentity(ips), hosts, h, shown);
    g :| 0 <= g < |groups| && groups[g] == shown;
  }

  /** A chassis id on a logical port is shown by one host only. */
  lemma ShownOnce(left: seq<Item>, members: Members, ips: MacToIp, groups: seq<Aliases>, hosts: seq<Host>,
                  h: nat, i: nat, device: string, port: string, chassis: string)
    requires AreHosts(left, members, ips, groups, hosts) && h < |hosts| && i < |hosts|
    requires Shows(hosts[h], device, port, chassis) && Shows(hosts[i], device, port, chassis)
    ensures h == i
  {
    var g := ShownFromGroup(left, members, ips, groups, hosts, h, device, port, chassis);
    var j := ShownFromGroup(left, members, ips, groups, hosts, i, device, port, chassis);
    KeyDecides(left, ByKey(members), groups, g, j);
    KeyDecides(groups, ByIdentity(ips), hosts, h, i);
  }

  lemma ShownSomewhere(left: seq<Item>, members: Members, ips: MacToIp, groups: seq<Aliases>, hosts: seq<Host>, x: Item)
    requires AreHosts(left, members, ips, groups, hosts) && x in left
    ensures exists h :: 0 <= h < |hosts| && Shows(hosts[h], x.device, LogicalPort(members, x.device, x.n.localPort),
                                                  x.n.chassis)
                        && x.n.localPort in MemberPorts(hosts[h].items)
  {
    var g := GroupOf(left, ByKey(members), groups, x);
    assert groups[g] in groups;
    var h := GroupOf(groups, ByIdentity(ips), hosts, groups[g]);
    HostHasGroup(hosts[h], groups[g], x);
  }

  /** Every neighbour on an unclaimed port is shown by exactly one host of its
      device and logical port, with its own port among the host's members. */
  lemma EveryNeighbourIsDrawnOnce(ids: seq<string>, tables: Tables, members: Members, ips: MacToIp, claimed: set<Pair>,
                                  groups: seq<Aliases>, hosts: seq<Host>, d: string, n: Neighbour)
    requires Known(ids, tables) && d in tables && n in tables[d] && (d, n.localPort) !in claimed
    requires AreHosts(Unclaimed(Items(ids, tables), claimed), members, ips, groups, hosts)
    ensures var port := LogicalPort(members, d, n.localPort);
            && (exists h ::
                  0 <= h < |hosts| && Shows(hosts[h], d, port, n.chassis) && n.localPort in MemberPorts(hosts[h].items))
            && (forall h, i :: 0 <= h < i < |hosts| ==>
                !(Shows(hosts[h], d, port, n.chassis) && Shows(hosts[i], d, port, n.chassis)))
  {
    var left := Unclaimed(Items(ids, tables), claimed);
    var port := LogicalPort(members, d, n.localPort);
    ShownSomewhere(left, members, ips, groups, hosts, Item(d, n));
    forall h, i | 0 <= h < i < |hosts|
      ensures !(Shows(hosts[h], d, port, n.chassis) && Shows(hosts[i], d, port, n.chassis))
    {
      if Shows(hosts[h], d, port, n.chassis) && Shows(hosts[i], d, port, n.chassis) {
        ShownOnce(left, members, ips, groups, hosts, h, i, d, port, n.chassis);
      }
    }
  }

  /** ... and no host shows anything else. */
  lemma NothingIsInvented(ids: seq<string>, tables: Tables, members: Members, ips: MacToIp, claimed: set<Pair>,
                          groups: seq<Aliases>, hosts: seq<Host>, h: nat, d: string, port: string, chassis: string)
    requires Known(ids, tables) && AreHosts(Unclaimed(Items(ids, tables), claimed), members, ips, groups, hosts)
    requires h < |hosts| && Shows(hosts[h], d, port, chassis)
    ensures d in tables
    ensures exists n ::
              n in tables[d] && (d, n.localPort) !in claimed &&
              LogicalPort(members, d, n.localPort) == port && n.chassis == chassis
  {
    var left := Unclaimed(Items(ids, tables), claimed);
    var g := ShownFromGroup(left, members, ips, groups, hosts, h, d, port, chassis);
    GroupsAreNonempty(left, ByKey(members), groups);
    var x := groups[g].items[0];
    MemberOf(left, ByKey(members), groups, g, x);
    assert KeyOf(members, x) == (d, port, chassis) && x in Items(ids, tables);
    assert Item(x.device, x.n) == x;
  }

  lemma HostHasGroup(h: Host, g: Aliases, x: Item)
    requires g in h.items && x in g.items
    ensures g.key.2 in ChassisIds(h.items) && x.n.localPort in MemberPorts(h.items)
  {
    var k :| 0 <= k < |h.items| && h.items[k] == g;
    assert ChassisIds(h.items)[k] == g.key.2;
  }

  lemma EdgeNamesEveryChassis(ips: MacToIp, h: Host, tableMacs: set<string>, lldpMacs: set<string>, chassis: string)
    requires h.items != [] && chassis in ChassisIds(h.items)
    ensures var e := EdgeOf(ips, h, tableMacs, lldpMacs); e.chassis == chassis || chassis in e.alsoKnownAs
  {
    var ids := ChassisIds(h.items);
    assert ids == [ids[0]] + ids[1..];
  }

  // --- MAC-table hosts ------------------------------------------------------------------------

  datatype MacRow = MacRow(mac: string, interface: string)

  /** What the MAC pass must not draw again. */
  datatype Covered = Covered(claimed: set<Pair>, uplinks: set<Pair>, lldpMacs: map<Pair, set<string>>,
                             lldpIps: map<Pair, set<string>>)

  predicate StartsWith(s: string, prefix: string) {
    |s| >= |prefix| && s[..|prefix|] == prefix
  }

  /** _is_aggregate_interface */
  predicate IsAggregate(name: string) {
    StartsWith(name, "Po ") || StartsWith(name, "Port-channel") || StartsWith(name, "ae")
  }

  function At(m: map<Pair, set<string>>, p: Pair): set<string> {
    if p in m then m[p] else {}
  }

  /** The reasons for which a row is not drawn. */
  predicate Suppressed(c: Covered, ips: MacToIp, device: string, r: MacRow) {
    || (device, r.interface) in c.claimed
    || (IsAggregate(r.interface) && (device, r.interface) in c.uplinks)
    || r.mac in At(c.lldpMacs, (device, r.interface))
    || (Truthy(Get(ips, r.mac)) && ips[r.mac] in At(c.lldpIps, (device, r.interface)))
  }

  /** The identity of a MAC: its address if it has one, else itself. */
  function MacIdentity(ips: MacToIp, mac: string): string {
    if Truthy(Get(ips, mac)) then ips[mac] else mac
  }

  datatype MacEdge = MacEdge(device: string, port: string, identity: string, macs: seq<string>, ip: Option<string>)
  {
    function Chassis(): string
      requires macs != []
    {
      macs[0]
    }

    function Shown(): string
      requires macs != []
    {
      if Truthy(ip) then ip.value else macs[0]
    }

    function AlsoKnownAs(): seq<string>
      requires macs != []
    {
      macs[1..]
    }
  }

  function Macs(rows: seq<MacRow>): (macs: seq<string>)
    ensures |macs| == |rows| && forall i :: 0 <= i < |rows| ==> macs[i] == rows[i].mac
  {
    if rows == [] then [] else Macs(rows[..|rows| - 1]) + [rows[|rows| - 1].mac]
  }

  ghost predicate FromRow(c: Covered, ips: MacToIp, rows: seq<MacRow>, e: MacEdge, mac: string) {
    MacRow(mac, e.port) in rows && !Suppressed(c, ips, e.device, MacRow(mac, e.port)) &&
        MacIdentity(ips, mac) == e.identity
  }

  /** The edges drawn for one device's rows: nothing suppressed, everything else,
      one edge per port and identity. */
  ghost predicate Draws(c: Covered, ips: MacToIp, device: string, rows: seq<MacRow>, edges: seq<MacEdge>) {
    && WellMade(ips, device, edges)
    && AllFromRows(c, ips, rows, edges)
    && (forall r :: r in rows && !Suppressed(c, ips, device, r) ==> Drawn(edges, r))
  }

  function Drawable(c: Covered, ips: MacToIp, device: string, rows: seq<MacRow>): (left: seq<MacRow>)
    ensures forall r :: r in left <==> r in rows && !Suppressed(c, ips, device, r)
  {
    if rows == [] then []
    else
      var last := rows[|rows| - 1];
      assert forall r :: r in rows <==> r in rows[..|rows| - 1] || r == last;
      Drawable(c, ips, device, rows[..|rows| - 1]) + if Suppressed(c, ips, device, last) then [] else [last]
  }

  function ByPort(): MacRow -> string {
    (r: MacRow) => r.interface
  }

  function ByMacIdentity(ips: MacToIp): string -> string {
    mac => MacIdentity(ips, mac)
  }

  /** The hosts on one port: MACs with the same identity together. */
  method PortEdges(ips: MacToIp, device: string, port: string, macs: seq<string>) returns (edges: seq<MacEdge>)
    ensures forall k :: 0 <= k < |edges| ==> edges[k].device == device && edges[k].port == port
    ensures forall k, mac :: 0 <= k < |edges| && mac in edges[k].macs ==>
              mac in macs && MacIdentity(ips, mac) == edges[k].identity
    ensures forall mac :: mac in macs ==> exists k :: 0 <= k < |edges| && mac in edges[k].macs
    ensures WellMade(ips, device, edges)
  {
    var hosts := GroupBy(macs, ByMacIdentity(ips));
    GroupsAreNonempty(macs, ByMacIdentity(ips), hosts);
    edges := [];
    for g := 0 to |hosts|
      invariant |edges| == g && forall k :: 0 <= k < g ==> edges[k] == MacEdgeOf(ips, device, port, hosts[k])
    {
      var e := MacEdgeOf(ips, device, port, hosts[g]);
      edges := edges + [e];
    }
    EdgesAreWellMade(ips, device, port, macs, hosts, edges);
    EdgesShareOutMacs(ips, device, port, macs, hosts, edges);
  }

  ghost predicate AreEdges(ips: MacToIp, device: string, port: string, hosts: seq<Group<string, string>>,
                           edges: seq<MacEdge>) {
    |edges| == |hosts| && forall k :: 0 <= k < |hosts| ==>
      hosts[k].items != [] && edges[k] == MacEdgeOf(ips, device, port, hosts[k])
  }

  function MacEdgeOf(ips: MacToIp, device: string, port: string, host: Group<string, string>): MacEdge
    requires host.items != []
  {
    MacEdge(device, port, host.key, host.items, Get(ips, host.items[0]))
  }

  lemma EdgesAreWellMade(ips: MacToIp, device: string, port: string, macs: seq<string>,
                         hosts: seq<Group<string, string>>, edges: seq<MacEdge>)
    requires IsGrouping(macs, ByMacIdentity(ips), hosts) && AreEdges(ips, device, port, hosts, edges)
    ensures WellMade(ips, device, edges)
  {
    KeysDiffer(macs, ByMacIdentity(ips), hosts);
  }

  lemma EdgesShareOutMacs(ips: MacToIp, device: string, port: string, macs: seq<string>,
                          hosts: seq<Group<string, string>>, edges: seq<MacEdge>)
    requires IsGrouping(macs, ByMacIdentity(ips), hosts) && AreEdges(ips, device, port, hosts, edges)
    ensures forall k, mac :: 0 <= k < |edges| && mac in edges[k].macs ==>
              mac in macs && MacIdentity(ips, mac) == edges[k].identity
    ensures forall mac :: mac in macs ==> exists k :: 0 <= k < |edges| && mac in edges[k].macs
  {
    forall k, mac | 0 <= k < |edges| && mac in edges[k].macs
      ensures mac in macs && MacIdentity(ips, mac) == edges[k].identity
    {
      MemberOf(macs, ByMacIdentity(ips), hosts, k, mac);
    }
    forall mac | mac in macs
      ensures exists k :: 0 <= k < |edges| && mac in edges[k].macs
    {
      var g := GroupOf(macs, ByMacIdentity(ips), hosts, mac);
      assert mac in edges[g].macs;
    }
  }

  /** _mac_table_hosts for one device. */
  method DeviceEdges(c: Covered, ips: MacToIp, device: string, rows: seq<MacRow>) returns (edges: seq<MacEdge>)
    ensures Draws(c, ips, device, rows, edges)
  {
    var left := Drawable(c, ips, device, rows);
    var ports := GroupBy(left, ByPort());
    edges := [];
    for g := 0 to |ports|
      invariant WellMade(ips, device, edges)
      invariant PortsFrom(edges, ports, g)
      invariant AllFromRows(c, ips, rows, edges)
      invariant AllDrawn(edges, ports, g)
    {
      var more := PortEdges(ips, device, ports[g].key, Macs(ports[g].items));
      PortEdgesComeFromRows(c, ips, device, rows, ports, g, more);
      PortRowsAreOfPort(c, ips, device, rows, ports, g);
      FromRowsMore(c, ips, rows, edges, more);
      DrawnMore(edges, more, ports, g);
      MadeMore(ips, device, left, ports, g, edges, more);
      edges := edges + more;
    }
    EveryRowIsDrawn(c, ips, device, rows, ports, edges);
  }

  lemma EveryRowIsDrawn(c: Covered, ips: MacToIp, device: string, rows: seq<MacRow>,
                        ports: seq<Group<string, MacRow>>, edges: seq<MacEdge>)
    requires IsGrouping(Drawable(c, ips, device, rows), ByPort(), ports) && AllDrawn(edges, ports, |ports|)
    ensures forall r :: r in rows && !Suppressed(c, ips, device, r) ==> Drawn(edges, r)
  {
    forall r | r in rows && !Suppressed(c, ips, device, r)
      ensures Drawn(edges, r)
    {
      var g := GroupOf(Drawable(c, ips, device, rows), ByPort(), ports, r);
    }
  }

  ghost predicate PortsFrom(edges: seq<MacEdge>, ports: seq<Group<string, MacRow>>, g: nat)
    requires g <= |ports|
  {
    forall k :: 0 <= k < |edges| ==> AmongFirst(ports, g, edges[k].port)
  }

  ghost predicate AmongFirst(ports: seq<Group<string, MacRow>>, g: nat, port: string)
    requires g <= |ports|
  {
    exists h :: 0 <= h < g && ports[h].key == port
  }

  ghost predicate AllFromRows(c: Covered, ips: MacToIp, rows: seq<MacRow>, edges: seq<MacEdge>) {
    forall k, mac :: 0 <= k < |edges| && mac in edges[k].macs ==> FromRow(c, ips, rows, edges[k], mac)
  }

  ghost predicate AllDrawn(edges: seq<MacEdge>, ports: seq<Group<string, MacRow>>, g: nat)
    requires g <= |ports|
  {
    forall h, r :: 0 <= h < g && r in ports[h].items ==> Drawn(edges, r)
  }

  ghost predicate WellMade(ips: MacToIp, device: string, edges: seq<MacEdge>) {
    && (forall k :: 0 <= k < |edges| ==>
          edges[k].device == device && edges[k].macs != [] && edges[k].ip == Get(ips, edges[k].macs[0]))
    && (forall i, j :: 0 <= i < j < |edges| ==>
          edges[i].port != edges[j].port || edges[i].identity != edges[j].identity)
  }

  lemma PortRowsAreDrawable(c: Covered, ips: MacToIp, device: string, rows: seq<MacRow>,
                            ports: seq<Group<string, MacRow>>, g: nat, r: MacRow)
    requires IsGrouping(Drawable(c, ips, device, rows), ByPort(), ports) && g < |ports| && r in ports[g].items
    ensures r.interface == ports[g].key && r in rows && !Suppressed(c, ips, device, r)
  {
    MemberOf(Drawable(c, ips, device, rows), ByPort(), ports, g, r);
  }

  lemma PortRowsAreOfPort(c: Covered, ips: MacToIp, device: string, rows: seq<MacRow>,
                          ports: seq<Group<string, MacRow>>, g: nat)
    requires IsGrouping(Drawable(c, ips, device, rows), ByPort(), ports) && g < |ports|
    ensures forall r :: r in ports[g].items ==> r.interface == ports[g].key
  {
    forall r | r in ports[g].items
      ensures r.interface == ports[g].key
    {
      PortRowsAreDrawable(c, ips, device, rows, ports, g, r);
    }
  }

  lemma RowOfMac(items: seq<MacRow>, mac: string) returns (r: MacRow)
    requires mac in Macs(items)
    ensures r in items && r.mac == mac
  {
    var i :| 0 <= i < |Macs(items)| && Macs(items)[i] == mac;
    r := items[i];
  }

  lemma PortEdgesComeFromRows(c: Covered, ips: MacToIp, device: string, rows: seq<MacRow>,
                              ports: seq<Group<string, MacRow>>, g: nat, more: seq<MacEdge>)
    requires IsGrouping(Drawable(c, ips, device, rows), ByPort(), ports) && g < |ports|
    requires forall k :: 0 <= k < |more| ==> more[k].device == device && more[k].port == ports[g].key
    requires forall k, mac :: 0 <= k < |more| && mac in more[k].macs ==>
               mac in Macs(ports[g].items) && MacIdentity(ips, mac) == more[k].identity
    ensures AllFromRows(c, ips, rows, more)
  {
    forall k, mac | 0 <= k < |more| && mac in more[k].macs
      ensures FromRow(c, ips, rows, more[k], mac)
    {
      PortEdgeComesFromRow(c, ips, device, rows, ports, g, more[k], mac);
    }
  }

  lemma PortEdgeComesFromRow(c: Covered, ips: MacToIp, device: string, rows: seq<MacRow>,
                             ports: seq<Group<string, MacRow>>, g: nat, e: MacEdge, mac: string)
    requires IsGrouping(Drawable(c, ips, device, rows), ByPort(), ports) && g < |ports|
    requires e.device == device && e.port == ports[g].key && mac in Macs(ports[g].items) &&
             MacIdentity(ips, mac) == e.identity
    ensures FromRow(c, ips, rows, e, mac)
  {
    var r := RowOfMac(ports[g].items, mac);
    PortRowsAreDrawable(c, ips, device, rows, ports, g, r);
    assert r == MacRow(mac, e.port);
  }

  lemma FromRowsMore(c: Covered, ips: MacToIp, rows: seq<MacRow>, edges: seq<MacEdge>, more: seq<MacEdge>)
    requires AllFromRows(c, ips, rows, edges) && AllFromRows(c, ips, rows, more)
    ensures AllFromRows(c, ips, rows, edges + more)
  {
  }

  lemma MadeMore(ips: MacToIp, device: string, left: seq<MacRow>, ports: seq<Group<string, MacRow>>, g: nat,
                 edges: seq<MacEdge>, more: seq<MacEdge>)
    requires IsGrouping(left, ByPort(), ports) && g < |ports|
    requires WellMade(ips, device, edges) && PortsFrom(edges, ports, g)
    requires WellMade(ips, device, more) && forall k :: 0 <= k < |more| ==> more[k].port == ports[g].key
    ensures WellMade(ips, device, edges + more)
    ensures PortsFrom(edges + more, ports, g + 1)
  {
    KeysDiffer(left, ByPort(), ports);
    forall i, j | 0 <= i < |edges| && 0 <= j < |more|
      ensures edges[i].port != more[j].port
    {
      assert AmongFirst(ports, g, edges[i].port);
      var h :| 0 <= h < g && ports[h].key == edges[i].port;
      assert ports[h].key != ports[g].key;
    }
    var all := edges + more;
    forall k | 0 <= k < |all|
      ensures all[k].device == device && all[k].macs != [] && all[k].ip == Get(ips, all[k].macs[0])
    {
      assert all[k] == if k < |edges| then edges[k] else more[k - |edges|];
    }
    forall i, j | 0 <= i < j < |all|
      ensures all[i].port != all[j].port || all[i].identity != all[j].identity
    {
      assert all[i] == if i < |edges| then edges[i] else more[i - |edges|];
      assert all[j] == if j < |edges| then edges[j] else more[j - |edges|];
    }
    forall k | 0 <= k < |all|
      ensures AmongFirst(ports, g + 1, all[k].port)
    {
      assert all[k] == if k < |edges| then edges[k] else more[k - |edges|];
      if k < |edges| {
        assert AmongFirst(ports, g, edges[k].port);
      } else {
        assert ports[g].key == all[k].port;
      }
    }
  }

  ghost predicate Drawn(edges: seq<MacEdge>, r: MacRow) {
    exists k :: 0 <= k < |edges| && edges[k].port == r.interface && r.mac in edges[k].macs
  }

  lemma DrawnMore(edges: seq<MacEdge>, more: seq<MacEdge>, ports: seq<Group<string, MacRow>>, g: nat)
    requires g < |ports| && AllDrawn(edges, ports, g)
    requires forall mac :: mac in Macs(ports[g].items) ==> exists k :: 0 <= k < |more| && mac in more[k].macs
    requires forall k :: 0 <= k < |more| ==> more[k].port == ports[g].key
    requires forall r :: r in ports[g].items ==> r.interface == ports[g].key
    ensures AllDrawn(edges + more, ports, g + 1)
  {
    forall h, r | 0 <= h < g + 1 && r in ports[h].items
      ensures Drawn(edges + more, r)
    {
      if h < g {
        assert Drawn(edges, r);
        var k :| 0 <= k < |edges| && edges[k].port == r.interface && r.mac in edges[k].macs;
        assert (edges + more)[k] == edges[k];
      } else {
        var i :| 0 <= i < |ports[g].items| && ports[g].items[i] == r;
        assert Macs(ports[g].items)[i] == r.mac;
        assert r.mac in Macs(ports[g].items);
        var k :| 0 <= k < |more| && r.mac in more[k].macs;
        assert (edges + more)[|edges| + k] == more[k];
      }
    }
  }

  /** Every row is either suppressed or in exactly one edge of its port, and two
      drawn MACs of a port share an edge exactly when they have one identity. */
  lemma EveryMacIsDrawnOnceOrSuppressed(c: Covered, ips: MacToIp, device: string, rows: seq<MacRow>,
                                        edges: seq<MacEdge>)
    requires Draws(c, ips, device, rows, edges)
    ensures forall r :: r in rows ==> (Suppressed(c, ips, device, r) <==> !Drawn(edges, r))
    ensures forall i, j, a, b | 0 <= i < |edges| && 0 <= j < |edges| && edges[i].port == edges[j].port
                                && a in edges[i].macs && b in edges[j].macs ::
              i == j <==> MacIdentity(ips, a) == MacIdentity(ips, b)
  {
    forall r | r in rows && Drawn(edges, r)
      ensures !Suppressed(c, ips, device, r)
    {
      var k :| 0 <= k < |edges| && edges[k].port == r.interface && r.mac in edges[k].macs;
      assert FromRow(c, ips, rows, edges[k], r.mac);
      assert MacRow(r.mac, edges[k].port) == r;
    }
    forall i, j, a, b | 0 <= i < |edges| && 0 <= j < |edges| && edges[i].port == edges[j].port
                        && a in edges[i].macs && b in edges[j].macs
      ensures i == j <==> MacIdentity(ips, a) == MacIdentity(ips, b)
    {
      assert FromRow(c, ips, rows, edges[i], a) && FromRow(c, ips, rows, edges[j], b);
    }
  }

  /** An edge is labelled with its identity, and names every MAC it stands for. */
  lemma EdgeNamesEveryMac(c: Covered, ips: MacToIp, device: string, rows: seq<MacRow>, edges: seq<MacEdge>, e: MacEdge)
    requires Draws(c, ips, device, rows, edges) && e in edges
    ensures e.macs != [] && e.Shown() == e.identity
    ensures forall mac :: mac in e.macs <==> mac == e.Chassis() || mac in e.AlsoKnownAs()
  {
    var k :| 0 <= k < |edges| && edges[k] == e;
    assert e.macs[0] in e.macs;
    assert FromRow(c, ips, rows, edges[k], e.macs[0]);
    assert e.macs == [e.macs[0]] + e.macs[1..];
  }
}
