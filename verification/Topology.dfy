/** build_topology of webui/topology.py as a whole: the links, the hosts LLDP shows
    beside them, and the hosts only the MAC tables show. */
module Topology {
  import opened Common
  import opened Ordering
  import opened Grouping
  import opened LinkMatching
  import opened Discovery
  import opened TopologyFields

  // --- what LLDP has shown already ----------------------------------------------------------

  /** confirmed_uplink_aggregates */
  function Uplinks(links: seq<Link>): set<Pair> {
    if links == [] then {}
    else
      var l := links[|links| - 1];
      Uplinks(links[..|links| - 1]) + LagOf(l.a) + LagOf(l.b)
  }

  function LagOf(e: End): set<Pair> {
    if Truthy(e.lag) then {(e.device, e.lag.value)} else {}
  }

  function Add(m: map<Pair, set<string>>, p: Pair, more: set<string>): map<Pair, set<string>> {
    m[p := At(m, p) + more]
  }

  method CollectMacs(groups: seq<Aliases>) returns (m: map<Pair, set<string>>)
    ensures forall d, p :: At(m, (d, p)) == LldpMacs(groups, d, p)
    ensures forall d, p, mac :: mac in At(m, (d, p)) <==> AnyNames(groups, d, p, mac)
  {
    m := map[];
    for g := 0 to |groups|
      invariant forall d, p :: At(m, (d, p)) == LldpMacs(groups[..g], d, p)
    {
      assert groups[..g + 1][..g] == groups[..g];
      m := Add(m, (groups[g].key.0, groups[g].key.1), {Lower(groups[g].key.2)} + PortIds(groups[g].items));
    }
    assert groups[..|groups|] == groups;
    LldpMacsAre(groups);
  }

  method CollectIps(ips: MacToIp, hosts: seq<Host>) returns (m: map<Pair, set<string>>)
    ensures forall d, p :: At(m, (d, p)) == LldpIps(ips, hosts, d, p)
    ensures forall d, p, ip :: ip in At(m, (d, p)) <==> AnyIsAt(ips, hosts, d, p, ip)
  {
    m := map[];
    for h := 0 to |hosts|
      invariant forall d, p :: At(m, (d, p)) == LldpIps(ips, hosts[..h], d, p)
    {
      assert hosts[..h + 1][..h] == hosts[..h];
      if hosts[h].items != [] && Truthy(ResolvedIp(ips, hosts[h].items[0])) {
        m := Add(m, (hosts[h].key.0, hosts[h].key.1), {ResolvedIp(ips, hosts[h].items[0]).value});
      }
    }
    assert hosts[..|hosts|] == hosts;
    LldpIpsAre(ips, hosts);
  }

  // --- ... and what that means ------------------------------------------------------------------

  /** The MAC is the chassis id, or the port id of one of the neighbours, in lower case. */
  ghost predicate Names(g: Aliases, mac: string) {
    mac == Lower(g.key.2) || exists x :: x in g.items && Truthy(x.n.portId) && mac == Lower(x.n.portId.value)
  }

  ghost predicate NamesOn(g: Aliases, device: string, port: string, mac: string) {
    g.key.0 == device && g.key.1 == port && Names(g, mac)
  }

  ghost predicate AnyNames(groups: seq<Aliases>, device: string, port: string, mac: string) {
    exists g :: g in groups && NamesOn(g, device, port, mac)
  }

  lemma {:induction false} PortIdsAre(items: seq<Item>, mac: string)
    ensures mac in PortIds(items) <==> exists x :: x in items && Truthy(x.n.portId) && mac == Lower(x.n.portId.value)
  {
    if items != [] {
      var front, last := items[..|items| - 1], items[|items| - 1];
      PortIdsAre(front, mac);
      assert forall x :: x in items <==> x in front || x == last;
    }
  }

  lemma {:induction false} LldpMacIs(groups: seq<Aliases>, device: string, port: string, mac: string)
    ensures mac in LldpMacs(groups, device, port) <==> AnyNames(groups, device, port, mac)
  {
    if groups != [] {
      var front, last := groups[..|groups| - 1], groups[|groups| - 1];
      LldpMacIs(front, device, port, mac);
      PortIdsAre(last.items, mac);
      assert last in groups && forall g :: g in groups <==> g in front || g == last;
    }
  }

  lemma LldpMacsAre(groups: seq<Aliases>)
    ensures forall d, p, mac :: mac in LldpMacs(groups, d, p) <==> AnyNames(groups, d, p, mac)
  {
    forall d, p, mac
      ensures mac in LldpMacs(groups, d, p) <==> AnyNames(groups, d, p, mac)
    {
      LldpMacIs(groups, d, p, mac);
    }
  }

  /** The host is drawn with this address. */
  predicate IsAt(ips: MacToIp, h: Host, device: string, port: string, ip: string) {
    h.key.0 == device && h.key.1 == port && h.items != [] && ip != "" && ResolvedIp(ips, h.items[0]) == Some(ip)
  }

  ghost predicate AnyIsAt(ips: MacToIp, hosts: seq<Host>, device: string, port: string, ip: string) {
    exists h :: h in hosts && IsAt(ips, h, device, port, ip)
  }

  lemma {:induction false} LldpIpIs(ips: MacToIp, hosts: seq<Host>, device: string, port: string, ip: string)
    ensures ip in LldpIps(ips, hosts, device, port) <==> AnyIsAt(ips, hosts, device, port, ip)
  {
    if hosts != [] {
      var front, last := hosts[..|hosts| - 1], hosts[|hosts| - 1];
      LldpIpIs(ips, front, device, port, ip);
      assert last in hosts && forall h :: h in hosts <==> h in front || h == last;
    }
  }

  lemma LldpIpsAre(ips: MacToIp, hosts: seq<Host>)
    ensures forall d, p, ip :: ip in LldpIps(ips, hosts, d, p) <==> AnyIsAt(ips, hosts, d, p, ip)
  {
    forall d, p, ip
      ensures ip in LldpIps(ips, hosts, d, p) <==> AnyIsAt(ips, hosts, d, p, ip)
    {
      LldpIpIs(ips, hosts, d, p, ip);
    }
  }

  lemma {:induction false} UplinksAre(links: seq<Link>, device: string, lag: string)
    requires lag != ""
    ensures (device, lag) in Uplinks(links) <==> IsUplink(links, device, lag)
  {
    if links != [] {
      var front, last := links[..|links| - 1], links[|links| - 1];
      UplinksAre(front, device, lag);
      assert forall l :: l in links <==> l in front || l == last;
      assert IsEndOf(last, last.a) && IsEndOf(last, last.b);
    }
  }

  // --- the hosts drawn for a set of tables --------------------------------------------------------

  ghost predicate AreHostsOf(ids: seq<string>, tables: Tables, members: Members, links: seq<Link>, claimed: set<Pair>,
                             ips: MacToIp, groups: seq<Aliases>, hosts: seq<Host>) {
    && Known(ids, tables) && ClaimedAre(links, claimed)
    && AreHosts(Unclaimed(Items(ids, tables), claimed), members, ips, groups, hosts)
  }

  lemma ExternalIsLeft(ids: seq<string>, tables: Tables, members: Members, links: seq<Link>, claimed: set<Pair>,
                       device: string, port: string, n: Neighbour)
    requires Known(ids, tables) && ClaimedAre(links, claimed)
    ensures IsExternal(tables, members, links, device, port, n) <==>
            Item(device, n) in Unclaimed(Items(ids, tables), claimed) &&
            LogicalPort(members, device, n.localPort) == port
  {
    ClaimedHasEnd(links, claimed, device, n.localPort);
    LogicalPortIs(members, device, n.localPort, port);
  }

  /** A group holds the neighbours of its device, port and chassis. */
  lemma GroupHolds(ids: seq<string>, tables: Tables, members: Members, links: seq<Link>, claimed: set<Pair>,
                   ips: MacToIp, groups: seq<Aliases>, hosts: seq<Host>, g: Aliases)
    requires AreHostsOf(ids, tables, members, links, claimed, ips, groups, hosts) && g in groups
    ensures g.items == Taken(Items(ids, tables), members, claimed, g.key) && g.items != [] && g.key.0 in tables
    ensures forall x :: x in g.items <==>
              x.device == g.key.0 && IsExternal(tables, members, links, g.key.0, g.key.1, x.n) && x.n.chassis == g.key.2
  {
    var left := Unclaimed(Items(ids, tables), claimed);
    var k :| 0 <= k < |groups| && groups[k] == g;
    GroupsAreNonempty(left, ByKey(members), groups);
    forall x
      ensures x in g.items <==>
              x.device == g.key.0 && IsExternal(tables, members, links, g.key.0, g.key.1, x.n) && x.n.chassis == g.key.2
    {
      ExternalIsLeft(ids, tables, members, links, claimed, g.key.0, g.key.1, x.n);
      assert x in g.items <==> x in left && KeyOf(members, x) == g.key;
      assert x.device == g.key.0 ==> x == Item(g.key.0, x.n);
    }
    assert g.items[0] in g.items;
  }

  lemma GroupOfExternal(ids: seq<string>, tables: Tables, members: Members, links: seq<Link>, claimed: set<Pair>,
                        ips: MacToIp, groups: seq<Aliases>, hosts: seq<Host>, device: string, port: string,
                        n: Neighbour) returns (g: Aliases)
    requires AreHostsOf(ids, tables, members, links, claimed, ips, groups, hosts)
    requires IsExternal(tables, members, links, device, port, n)
    ensures g in groups && g.key == (device, port, n.chassis) && Item(device, n) in g.items
  {
    ExternalIsLeft(ids, tables, members, links, claimed, device, port, n);
    var k := GroupOf(Unclaimed(Items(ids, tables), claimed), ByKey(members), groups, Item(device, n));
    g := groups[k];
  }

  lemma NamesAreShown(ids: seq<string>, tables: Tables, members: Members, links: seq<Link>, claimed: set<Pair>,
                      ips: MacToIp, groups: seq<Aliases>, hosts: seq<Host>, device: string, port: string, mac: string)
    requires AreHostsOf(ids, tables, members, links, claimed, ips, groups, hosts)
    ensures AnyNames(groups, device, port, mac) <==> LldpShows(tables, members, links, device, port, mac)
  {
    if AnyNames(groups, device, port, mac) {
      var g :| g in groups && NamesOn(g, device, port, mac);
      GroupHolds(ids, tables, members, links, claimed, ips, groups, hosts, g);
      var x := g.items[0];
      if mac != Lower(g.key.2) {
        x :| x in g.items && Truthy(x.n.portId) && mac == Lower(x.n.portId.value);
        LowerIs(mac, x.n.portId.value);
      } else {
        LowerIs(mac, g.key.2);
      }
      assert x in g.items && HasMac(x.n, mac);
    }
    if n :| IsExternal(tables, members, links, device, port, n) && HasMac(n, mac) {
      var g := GroupOfExternal(ids, tables, members, links, claimed, ips, groups, hosts, device, port, n);
      LowerIs(mac, n.chassis);
      if n.portId.Some? {
        LowerIs(mac, n.portId.value);
      }
      assert Item(device, n) in g.items && NamesOn(g, device, port, mac);
    }
  }

  // --- why a MAC is not drawn ----------------------------------------------------------------------

  /** What the LLDP pass tells the MAC pass. */
  ghost predicate Covers(c: Covered, links: seq<Link>, claimed: set<Pair>, ips: MacToIp, groups: seq<Aliases>,
                         hosts: seq<Host>) {
    && c.claimed == claimed
    && c.uplinks == Uplinks(links)
    && (forall d, p, mac :: mac in At(c.lldpMacs, (d, p)) <==> AnyNames(groups, d, p, mac))
    && (forall d, p, ip :: ip in At(c.lldpIps, (d, p)) <==> AnyIsAt(ips, hosts, d, p, ip))
  }

  lemma AggregatesAre(name: string)
    ensures IsAggregate(name) <==> IsAggregateName(name)
    ensures IsAggregate(name) ==> name != ""
  {
  }

  lemma AddressesAreShown(ips: MacToIp, macTables: MacTables, groups: seq<Aliases>, hosts: seq<Host>,
                          externals: seq<External>, device: string, port: string, ip: string)
    requires AreExternals(ips, macTables, groups, hosts, externals)
    ensures AnyIsAt(ips, hosts, device, port, ip) <==> ShowsAddress(externals, device, port, ip)
  {
    if AnyIsAt(ips, hosts, device, port, ip) {
      var h :| h in hosts && IsAt(ips, h, device, port, ip);
      var k :| 0 <= k < |hosts| && hosts[k] == h;
      ExternalShows(ips, macTables, groups, hosts, externals, k);
      assert externals[k] in externals;
    }
    if ShowsAddress(externals, device, port, ip) {
      var e :| e in externals && e.device == device && e.port == port && e.remoteIp == Some(ip);
      var k :| 0 <= k < |externals| && externals[k] == e;
      ExternalShows(ips, macTables, groups, hosts, externals, k);
      assert hosts[k] in hosts;
    }
  }

  lemma ExternalShows(ips: MacToIp, macTables: MacTables, groups: seq<Aliases>, hosts: seq<Host>,
                      externals: seq<External>, k: nat)
    requires AreExternals(ips, macTables, groups, hosts, externals) && k < |hosts|
    ensures hosts[k].items != [] && externals[k].device == hosts[k].key.0 && externals[k].port == hosts[k].key.1
    ensures externals[k].remoteIp == ResolvedIp(ips, hosts[k].items[0])
  {
  }

  /** A row is kept back exactly when the drawing explains it otherwise. */
  lemma SuppressedIffExplained(c: Covered, ids: seq<string>, tables: Tables, members: Members, links: seq<Link>,
                               claimed: set<Pair>, ips: MacToIp, groups: seq<Aliases>, hosts: seq<Host>,
                               macTables: MacTables, externals: seq<External>, device: string, r: MacRow)
    requires AreHostsOf(ids, tables, members, links, claimed, ips, groups, hosts) &&
             Covers(c, links, claimed, ips, groups, hosts)
    requires AreExternals(ips, macTables, groups, hosts, externals)
    ensures Suppressed(c, ips, device, r) <==> IsExplained(tables, members, links, externals, ips, device, r)
  {
    ClaimedHasEnd(links, claimed, device, r.interface);
    NamesAreShown(ids, tables, members, links, claimed, ips, groups, hosts, device, r.interface, r.mac);
    if r.mac in ips {
      AddressesAreShown(ips, macTables, groups, hosts, externals, device, r.interface, ips[r.mac]);
    }
    AggregatesAre(r.interface);
    if IsAggregate(r.interface) {
      UplinksAre(links, device, r.interface);
    }
  }

  lemma RowIsAccountedFor(c: Covered, ids: seq<string>, tables: Tables, members: Members, links: seq<Link>,
                          claimed: set<Pair>, ips: MacToIp, groups: seq<Aliases>, hosts: seq<Host>,
                          macTables: MacTables, externals: seq<External>, device: string, edges: seq<MacEdge>,
                          r: MacRow)
    requires AreHostsOf(ids, tables, members, links, claimed, ips, groups, hosts) &&
             Covers(c, links, claimed, ips, groups, hosts)
    requires AreExternals(ips, macTables, groups, hosts, externals)
    requires device in macTables && Discovery.Draws(c, ips, device, macTables[device], edges) && r in macTables[device]
    ensures if IsExplained(tables, members, links, externals, ips, device, r)
            then forall k :: !DrawnAt(edges, r, k)
            else DrawnOnce(edges, r)
  {
    SuppressedIffExplained(c, ids, tables, members, links, claimed, ips, groups, hosts, macTables, externals, device,
                           r);
    EveryMacIsDrawnOnceOrSuppressed(c, ips, device, macTables[device], edges);
    if Drawn(edges, r) {
      var k :| 0 <= k < |edges| && edges[k].port == r.interface && r.mac in edges[k].macs;
      assert DrawnAt(edges, r, k);
    }
    if k :| DrawnAt(edges, r, k) {
      assert Drawn(edges, r);
    }
  }

  lemma EdgesAreMadeOfRows(c: Covered, ips: MacToIp, device: string, rows: seq<MacRow>, edges: seq<MacEdge>)
    requires Discovery.Draws(c, ips, device, rows, edges)
    ensures forall k :: 0 <= k < |edges| ==> IsMadeOfRows(ips, device, rows, edges[k])
    ensures forall i, j :: 0 <= i < j < |edges| ==>
              edges[i].port != edges[j].port || edges[i].identity != edges[j].identity
  {
    forall k | 0 <= k < |edges|
      ensures IsMadeOfRows(ips, device, rows, edges[k])
    {
      forall mac | mac in edges[k].macs
        ensures MacRow(mac, edges[k].port) in rows && MacIsKnownAs(ips, mac, edges[k].identity)
      {
        assert FromRow(c, ips, rows, edges[k], mac);
      }
    }
  }

  // --- the drawing ------------------------------------------------------------------------------------

  /** The MACs a device's table lists on a port. */
  function TableMacs(macTables: MacTables, device: string, port: string): set<string> {
    if device in macTables
    then set r | r in macTables[device] && r.interface == port :: r.mac
    else {}
  }

  function ExternalOf(ips: MacToIp, macTables: MacTables, groups: seq<Aliases>, h: Host): External
    requires h.items != []
  {
    EdgeOf(ips, h, TableMacs(macTables, h.key.0, h.key.1), LldpMacs(groups, h.key.0, h.key.1))
  }

  ghost predicate AreExternals(ips: MacToIp, macTables: MacTables, groups: seq<Aliases>, hosts: seq<Host>,
                               externals: seq<External>) {
    |externals| == |hosts| &&
    forall h :: 0 <= h < |hosts| ==>
      hosts[h].items != [] && externals[h] == ExternalOf(ips, macTables, groups, hosts[h])
  }

  method DrawHosts(ips: MacToIp, macTables: MacTables, groups: seq<Aliases>, hosts: seq<Host>)
    returns (externals: seq<External>)
    requires forall h :: 0 <= h < |hosts| ==> hosts[h].items != []
    ensures AreExternals(ips, macTables, groups, hosts, externals)
  {
    externals := [];
    for h := 0 to |hosts|
      invariant |externals| == h
      invariant forall k :: 0 <= k < h ==> externals[k] == ExternalOf(ips, macTables, groups, hosts[k])
    {
      var e := ExternalOf(ips, macTables, groups, hosts[h]);
      externals := externals + [e];
    }
  }

  method DrawMacTables(c: Covered, ips: MacToIp, macTables: MacTables) returns (macEdges: map<string, seq<MacEdge>>)
    ensures macEdges.Keys == macTables.Keys
    ensures forall d :: d in macTables ==> Discovery.Draws(c, ips, d, macTables[d], macEdges[d])
  {
    macEdges := map[];
    var left := macTables.Keys;
    while left != {}
      invariant left <= macTables.Keys && macEdges.Keys == macTables.Keys - left
      invariant forall d :: d in macEdges ==> Discovery.Draws(c, ips, d, macTables[d], macEdges[d])
      decreases left
    {
      var d :| d in left;
      var edges := DeviceEdges(c, ips, d, macTables[d]);
      macEdges := macEdges[d := edges];
      left := left - {d};
    }
  }

  /** An edge is marked as seen in the MAC table exactly when the table lists, on its
      port, a MAC that LLDP shows there. */
  lemma SeenIffAHostIsListed(ids: seq<string>, tables: Tables, members: Members, links: seq<Link>, claimed: set<Pair>,
                             ips: MacToIp, groups: seq<Aliases>, hosts: seq<Host>, macTables: MacTables, h: Host)
    requires AreHostsOf(ids, tables, members, links, claimed, ips, groups, hosts) && h.items != []
    ensures IsMarked(tables, members, links, macTables, ExternalOf(ips, macTables, groups, h))
  {
    var d, port := h.key.0, h.key.1;
    var both := TableMacs(macTables, d, port) * LldpMacs(groups, d, port);
    LldpMacsAre(groups);
    if both != {} {
      var mac :| mac in both;
      NamesAreShown(ids, tables, members, links, claimed, ips, groups, hosts, d, port, mac);
      assert MacRow(mac, port) in macTables[d];
    }
    if d in macTables {
      if mac :| MacRow(mac, port) in macTables[d] && LldpShows(tables, members, links, d, port, mac) {
        NamesAreShown(ids, tables, members, links, claimed, ips, groups, hosts, d, port, mac);
        assert MacRow(mac, port).interface == port;
        assert mac in both;
      }
    }
  }

  // --- what an edge shows ---------------------------------------------------------------------------

  lemma HostHolds(left: seq<Item>, members: Members, ips: MacToIp, groups: seq<Aliases>, hosts: seq<Host>, k: nat,
                  g: Aliases)
    requires AreHosts(left, members, ips, groups, hosts) && k < |hosts|
    ensures g in hosts[k].items <==> g in groups && Identity(ips, g) == hosts[k].key
  {
  }

  /** The neighbours an edge is drawn for are those of the groups of its host. */
  lemma PartsAre(ids: seq<string>, tables: Tables, members: Members, links: seq<Link>, claimed: set<Pair>,
                 ips: MacToIp, groups: seq<Aliases>, hosts: seq<Host>, k: nat, e: External, n: Neighbour)
    requires AreHostsOf(ids, tables, members, links, claimed, ips, groups, hosts) && k < |hosts|
    requires e.device == hosts[k].key.0 && e.port == hosts[k].key.1
    ensures IsPartOf(tables, members, links, ips, e, hosts[k].key.2, n) <==>
            exists g :: g in hosts[k].items && Item(e.device, n) in g.items
  {
    var left := Unclaimed(Items(ids, tables), claimed);
    if IsPartOf(tables, members, links, ips, e, hosts[k].key.2, n) {
      var g := GroupOfExternal(ids, tables, members, links, claimed, ips, groups, hosts, e.device, e.port, n);
      GroupHolds(ids, tables, members, links, claimed, ips, groups, hosts, g);
      GroupIsKnownAs(ids, tables, members, links, claimed, ips, g, hosts[k].key.2);
      HostHolds(left, members, ips, groups, hosts, k, g);
    }
    if g :| g in hosts[k].items && Item(e.device, n) in g.items {
      HostHolds(left, members, ips, groups, hosts, k, g);
      GroupHolds(ids, tables, members, links, claimed, ips, groups, hosts, g);
      GroupIsKnownAs(ids, tables, members, links, claimed, ips, g, hosts[k].key.2);
    }
  }

  lemma {:induction false} LabelsAre(items: seq<Item>, x: string)
    ensures x in Labels(items) <==> x != "" && exists i :: i in items && i.n.remoteLabel == Some(x)
  {
    if items != [] {
      LabelsAre(items[..|items| - 1], x);
      assert forall i :: i in items <==> i in items[..|items| - 1] || i == items[|items| - 1];
    }
  }

  lemma {:induction false} AllLabelsAre(groups: seq<Aliases>, x: string)
    ensures x in AllLabels(groups) <==> exists g :: g in groups && x in Labels(g.items)
  {
    if groups != [] {
      AllLabelsAre(groups[..|groups| - 1], x);
      assert forall g :: g in groups <==> g in groups[..|groups| - 1] || g == groups[|groups| - 1];
    }
  }

  lemma NamesOfEdge(ips: MacToIp, h: Host, tableMacs: set<string>, lldpMacs: set<string>, x: string)
    requires h.items != []
    ensures var e := EdgeOf(ips, h, tableMacs, lldpMacs);
            && (x == e.shown || x == e.chassis || x in e.alsoKnownAs <==>
                x in AllLabels(h.items) || x in ChassisIds(h.items))
            && (AllLabels(h.items) == [] ==> e.shown == e.chassis)
            && (AllLabels(h.items) != [] ==> e.shown in AllLabels(h.items))
  {
    var labels, chassis := AllLabels(h.items), ChassisIds(h.items);
    assert chassis == [chassis[0]] + chassis[1..];
    assert labels != [] ==> labels == [labels[0]] + labels[1..];
  }

  lemma LabelIsOfPart(ids: seq<string>, tables: Tables, members: Members, links: seq<Link>, claimed: set<Pair>,
                      ips: MacToIp, groups: seq<Aliases>, hosts: seq<Host>, k: nat, e: External, x: string)
    requires AreHostsOf(ids, tables, members, links, claimed, ips, groups, hosts) && k < |hosts|
    requires e.device == hosts[k].key.0 && e.port == hosts[k].key.1
    ensures x in AllLabels(hosts[k].items) <==>
            x != "" && exists n :: IsPartOf(tables, members, links, ips, e, hosts[k].key.2, n) &&
                                   n.remoteLabel == Some(x)
  {
    AllLabelsAre(hosts[k].items, x);
    if g :| g in hosts[k].items && x in Labels(g.items) {
      LabelsAre(g.items, x);
      var i :| i in g.items && i.n.remoteLabel == Some(x);
      HostHolds(Unclaimed(Items(ids, tables), claimed), members, ips, groups, hosts, k, g);
      GroupHolds(ids, tables, members, links, claimed, ips, groups, hosts, g);
      assert i == Item(e.device, i.n);
      PartsAre(ids, tables, members, links, claimed, ips, groups, hosts, k, e, i.n);
    }
    if x != "" {
      if n :| IsPartOf(tables, members, links, ips, e, hosts[k].key.2, n) && n.remoteLabel == Some(x) {
        PartsAre(ids, tables, members, links, claimed, ips, groups, hosts, k, e, n);
        var g :| g in hosts[k].items && Item(e.device, n) in g.items;
        LabelsAre(g.items, x);
      }
    }
  }

  lemma ChassisIsOfPart(ids: seq<string>, tables: Tables, members: Members, links: seq<Link>, claimed: set<Pair>,
                        ips: MacToIp, groups: seq<Aliases>, hosts: seq<Host>, k: nat, e: External, x: string)
    requires AreHostsOf(ids, tables, members, links, claimed, ips, groups, hosts) && k < |hosts|
    requires e.device == hosts[k].key.0 && e.port == hosts[k].key.1
    ensures x in ChassisIds(hosts[k].items) <==>
            exists n :: IsPartOf(tables, members, links, ips, e, hosts[k].key.2, n) && n.chassis == x
  {
    var left := Unclaimed(Items(ids, tables), claimed);
    if x in ChassisIds(hosts[k].items) {
      var i :| 0 <= i < |hosts[k].items| && ChassisIds(hosts[k].items)[i] == x;
      var g := hosts[k].items[i];
      assert g in hosts[k].items;
      HostHolds(left, members, ips, groups, hosts, k, g);
      GroupHolds(ids, tables, members, links, claimed, ips, groups, hosts, g);
      var first := g.items[0];
      assert first in g.items && first == Item(e.device, first.n);
      PartsAre(ids, tables, members, links, claimed, ips, groups, hosts, k, e, first.n);
    }
    if n :| IsPartOf(tables, members, links, ips, e, hosts[k].key.2, n) && n.chassis == x {
      PartsAre(ids, tables, members, links, claimed, ips, groups, hosts, k, e, n);
      var g :| g in hosts[k].items && Item(e.device, n) in g.items;
      HostHolds(left, members, ips, groups, hosts, k, g);
      GroupHolds(ids, tables, members, links, claimed, ips, groups, hosts, g);
      var i :| 0 <= i < |hosts[k].items| && hosts[k].items[i] == g;
      assert ChassisIds(hosts[k].items)[i] == x;
    }
  }

  predicate HasPort(g: Aliases, p: string) {
    exists x :: x in g.items && x.n.localPort == p
  }

  lemma MemberPortsAre(groups: seq<Aliases>, p: string)
    ensures p in MemberPorts(groups) <==> exists g :: g in groups && HasPort(g, p)
  {
    if p in MemberPorts(groups) {
      var i, x :| 0 <= i < |groups| && x in groups[i].items && x.n.localPort == p;
      assert groups[i] in groups && HasPort(groups[i], p);
    }
    if g :| g in groups && HasPort(g, p) {
      var i :| 0 <= i < |groups| && groups[i] == g;
      var x :| x in groups[i].items && x.n.localPort == p;
    }
  }

  lemma PortIsOfPart(ids: seq<string>, tables: Tables, members: Members, links: seq<Link>, claimed: set<Pair>,
                     ips: MacToIp, groups: seq<Aliases>, hosts: seq<Host>, k: nat, e: External, p: string)
    requires AreHostsOf(ids, tables, members, links, claimed, ips, groups, hosts) && k < |hosts|
    requires e.device == hosts[k].key.0 && e.port == hosts[k].key.1
    ensures p in MemberPorts(hosts[k].items) <==>
            exists n :: IsPartOf(tables, members, links, ips, e, hosts[k].key.2, n) && n.localPort == p
  {
    MemberPortsAre(hosts[k].items, p);
    if g :| g in hosts[k].items && HasPort(g, p) {
      HostHolds(Unclaimed(Items(ids, tables), claimed), members, ips, groups, hosts, k, g);
      GroupHolds(ids, tables, members, links, claimed, ips, groups, hosts, g);
      var x :| x in g.items && x.n.localPort == p;
      assert x == Item(e.device, x.n);
      PartsAre(ids, tables, members, links, claimed, ips, groups, hosts, k, e, x.n);
    }
    if n :| IsPartOf(tables, members, links, ips, e, hosts[k].key.2, n) && n.localPort == p {
      PartsAre(ids, tables, members, links, claimed, ips, groups, hosts, k, e, n);
      var g :| g in hosts[k].items && Item(e.device, n) in g.items;
      assert HasPort(g, p);
    }
  }

  lemma AddressOfEdge(ids: seq<string>, tables: Tables, members: Members, links: seq<Link>, claimed: set<Pair>,
                      ips: MacToIp, groups: seq<Aliases>, hosts: seq<Host>, k: nat)
    requires AreHostsOf(ids, tables, members, links, claimed, ips, groups, hosts) && k < |hosts| && hosts[k].items != []
    ensures var d, port, g := hosts[k].key.0, hosts[k].key.1, hosts[k].items[0];
            && d in tables && g.key.0 == d && g.key.1 == port
            && HasAddress(tables[d], members, links, ips, d, port, g.key.2, ResolvedIp(ips, g))
  {
    var g := hosts[k].items[0];
    assert g in hosts[k].items;
    HostHolds(Unclaimed(Items(ids, tables), claimed), members, ips, groups, hosts, k, g);
    GroupHolds(ids, tables, members, links, claimed, ips, groups, hosts, g);
    GroupAddress(ids, tables, members, links, claimed, ips, g);
  }

  lemma EdgeIs(ids: seq<string>, tables: Tables, members: Members, links: seq<Link>, claimed: set<Pair>,
               ips: MacToIp, macTables: MacTables, groups: seq<Aliases>, hosts: seq<Host>, k: nat)
    requires AreHostsOf(ids, tables, members, links, claimed, ips, groups, hosts) && k < |hosts| && hosts[k].items != []
    ensures IsEdgeOf(tables, members, links, ips, ExternalOf(ips, macTables, groups, hosts[k]), hosts[k].key.2)
  {
    var e := ExternalOf(ips, macTables, groups, hosts[k]);
    AddressOfEdge(ids, tables, members, links, claimed, ips, groups, hosts, k);
    assert e.chassis == ChassisIds(hosts[k].items)[0];
    ChassisIsOfPart(ids, tables, members, links, claimed, ips, groups, hosts, k, e, e.chassis);
    PortsOfEdge(ids, tables, members, links, claimed, ips, macTables, groups, hosts, k);
    NamesOfParts(ids, tables, members, links, claimed, ips, macTables, groups, hosts, k);
    LabelShown(ids, tables, members, links, claimed, ips, macTables, groups, hosts, k);
  }

  lemma PortsOfEdge(ids: seq<string>, tables: Tables, members: Members, links: seq<Link>, claimed: set<Pair>,
                    ips: MacToIp, macTables: MacTables, groups: seq<Aliases>, hosts: seq<Host>, k: nat)
    requires AreHostsOf(ids, tables, members, links, claimed, ips, groups, hosts) && k < |hosts| && hosts[k].items != []
    ensures ShowsPorts(tables, members, links, ips, ExternalOf(ips, macTables, groups, hosts[k]), hosts[k].key.2)
  {
    var e := ExternalOf(ips, macTables, groups, hosts[k]);
    forall p
      ensures p in e.memberPorts <==>
              exists n :: IsPartOf(tables, members, links, ips, e, hosts[k].key.2, n) && n.localPort == p
    {
      PortIsOfPart(ids, tables, members, links, claimed, ips, groups, hosts, k, e, p);
    }
  }

  lemma NamesOfParts(ids: seq<string>, tables: Tables, members: Members, links: seq<Link>, claimed: set<Pair>,
                     ips: MacToIp, macTables: MacTables, groups: seq<Aliases>, hosts: seq<Host>, k: nat)
    requires AreHostsOf(ids, tables, members, links, claimed, ips, groups, hosts) && k < |hosts| && hosts[k].items != []
    ensures ShowsNames(tables, members, links, ips, ExternalOf(ips, macTables, groups, hosts[k]), hosts[k].key.2)
  {
    var e := ExternalOf(ips, macTables, groups, hosts[k]);
    forall x
      ensures NamesIt(e, x) <==>
              exists n :: IsPartOf(tables, members, links, ips, e, hosts[k].key.2, n) && IsName(n, x)
    {
      NameIsOfPart(ids, tables, members, links, claimed, ips, macTables, groups, hosts, k, x);
    }
  }

  lemma NameIsOfPart(ids: seq<string>, tables: Tables, members: Members, links: seq<Link>, claimed: set<Pair>,
                     ips: MacToIp, macTables: MacTables, groups: seq<Aliases>, hosts: seq<Host>, k: nat, x: string)
    requires AreHostsOf(ids, tables, members, links, claimed, ips, groups, hosts) && k < |hosts| && hosts[k].items != []
    ensures var e := ExternalOf(ips, macTables, groups, hosts[k]);
            NamesIt(e, x) <==>
            exists n :: IsPartOf(tables, members, links, ips, e, hosts[k].key.2, n) && IsName(n, x)
  {
    var h := hosts[k];
    var e := ExternalOf(ips, macTables, groups, h);
    NamesOfEdge(ips, h, TableMacs(macTables, h.key.0, h.key.1), LldpMacs(groups, h.key.0, h.key.1), x);
    LabelIsOfPart(ids, tables, members, links, claimed, ips, groups, hosts, k, e, x);
    ChassisIsOfPart(ids, tables, members, links, claimed, ips, groups, hosts, k, e, x);
  }

  lemma LabelShown(ids: seq<string>, tables: Tables, members: Members, links: seq<Link>, claimed: set<Pair>,
                   ips: MacToIp, macTables: MacTables, groups: seq<Aliases>, hosts: seq<Host>, k: nat)
    requires AreHostsOf(ids, tables, members, links, claimed, ips, groups, hosts) && k < |hosts| && hosts[k].items != []
    ensures var e := ExternalOf(ips, macTables, groups, hosts[k]);
            ShowsALabel(tables, members, links, ips, e, hosts[k].key.2)
  {
    var h, name := hosts[k], hosts[k].key.2;
    var e := ExternalOf(ips, macTables, groups, h);
    var labels := AllLabels(h.items);
    NamesOfEdge(ips, h, TableMacs(macTables, h.key.0, h.key.1), LldpMacs(groups, h.key.0, h.key.1), e.shown);
    LabelIsOfPart(ids, tables, members, links, claimed, ips, groups, hosts, k, e, e.shown);
    forall n | IsPartOf(tables, members, links, ips, e, name, n) && HasLabel(n)
      ensures labels != []
    {
      LabelIsOfPart(ids, tables, members, links, claimed, ips, groups, hosts, k, e, n.remoteLabel.value);
    }
  }

  lemma AllAreEdges(ids: seq<string>, tables: Tables, members: Members, links: seq<Link>, claimed: set<Pair>,
                    ips: MacToIp, macTables: MacTables, groups: seq<Aliases>, hosts: seq<Host>,
                    externals: seq<External>) returns (names: seq<string>)
    requires AreHostsOf(ids, tables, members, links, claimed, ips, groups, hosts)
    requires AreExternals(ips, macTables, groups, hosts, externals)
    ensures AreEdgesOf(tables, members, links, ips, macTables, externals, names)
  {
    names := seq(|hosts|, k requires 0 <= k < |hosts| => hosts[k].key.2);
    forall k | 0 <= k < |externals|
      ensures IsEdgeOf(tables, members, links, ips, externals[k], names[k])
      ensures IsMarked(tables, members, links, macTables, externals[k])
    {
      EdgeIs(ids, tables, members, links, claimed, ips, macTables, groups, hosts, k);
      SeenIffAHostIsListed(ids, tables, members, links, claimed, ips, groups, hosts, macTables, hosts[k]);
    }
    KeysDiffer(groups, ByIdentity(ips), hosts);
    forall d, port, n | IsExternal(tables, members, links, d, port, n)
      ensures exists k :: 0 <= k < |externals| && externals[k].device == d && externals[k].port == port &&
                          IsPartOf(tables, members, links, ips, externals[k], names[k], n)
    {
      var k := EdgeOfExternal(ids, tables, members, links, claimed, ips, macTables, groups, hosts, d, port, n);
    }
  }

  lemma EdgeOfExternal(ids: seq<string>, tables: Tables, members: Members, links: seq<Link>, claimed: set<Pair>,
                       ips: MacToIp, macTables: MacTables, groups: seq<Aliases>, hosts: seq<Host>,
                       d: string, port: string, n: Neighbour) returns (k: nat)
    requires AreHostsOf(ids, tables, members, links, claimed, ips, groups, hosts)
    requires IsExternal(tables, members, links, d, port, n)
    ensures k < |hosts| && hosts[k].key.0 == d && hosts[k].key.1 == port && hosts[k].items != []
    ensures IsPartOf(tables, members, links, ips, ExternalOf(ips, macTables, groups, hosts[k]), hosts[k].key.2, n)
  {
    var g := GroupOfExternal(ids, tables, members, links, claimed, ips, groups, hosts, d, port, n);
    k := GroupOf(groups, ByIdentity(ips), hosts, g);
    PartsAre(ids, tables, members, links, claimed, ips, groups, hosts, k,
             ExternalOf(ips, macTables, groups, hosts[k]), n);
  }

  /** build_topology: the links, then the LLDP hosts, then what the MAC tables add. */
  method BuildTopology(ids: seq<string>, tables: Tables, members: Members, ips: MacToIp, macTables: MacTables)
    returns (links: seq<Link>, externals: seq<External>, macEdges: map<string, seq<MacEdge>>,
             ghost claimed: set<Pair>, ghost groups: seq<Aliases>, ghost hosts: seq<Host>)
    requires Known(ids, tables)
    ensures IsMatching(tables, members, links, claimed) && Matched(links, claimed) == Greedy(ids, tables, members)
    ensures AreHosts(Unclaimed(Items(ids, tables), claimed), members, ips, groups, hosts)
    ensures AreExternals(ips, macTables, groups, hosts, externals)
    ensures LinksAreListed(tables, members, links) && NoPairIsLeft(tables, links)
    ensures exists names :: AreEdgesOf(tables, members, links, ips, macTables, externals, names)
    ensures EveryRowIsAccountedFor(tables, members, links, externals, ips, macTables, macEdges)
    ensures MacEdgesAreMadeOfRows(ips, macTables, macEdges)
    ensures NoTransitIsDrawn(tables, members, links, macEdges)
  {
    var taken, aliases, nodes;
    links, taken := MatchLinks(ids, tables, members);
    aliases, nodes := GroupHosts(ids, tables, members, ips, taken);
    claimed, groups, hosts := taken, aliases, nodes;
    GroupsAreNonempty(groups, ByIdentity(ips), hosts);
    externals := DrawHosts(ips, macTables, aliases, nodes);
    var lldpMacs := CollectMacs(aliases);
    var lldpIps := CollectIps(ips, nodes);
    var c := Covered(taken, Uplinks(links), lldpMacs, lldpIps);
    macEdges := DrawMacTables(c, ips, macTables);
    ghost var names := AllAreEdges(ids, tables, members, links, claimed, ips, macTables, groups, hosts, externals);
    AllAreAccountedFor(c, ids, tables, members, links, claimed, ips, groups, hosts, macTables, externals, macEdges);
    TransitIsNotDrawn(tables, members, links, externals, ips, macTables, macEdges);
  }

  lemma AllAreAccountedFor(c: Covered, ids: seq<string>, tables: Tables, members: Members, links: seq<Link>,
                           claimed: set<Pair>, ips: MacToIp, groups: seq<Aliases>, hosts: seq<Host>,
                           macTables: MacTables, externals: seq<External>, macEdges: map<string, seq<MacEdge>>)
    requires AreHostsOf(ids, tables, members, links, claimed, ips, groups, hosts) &&
             Covers(c, links, claimed, ips, groups, hosts)
    requires AreExternals(ips, macTables, groups, hosts, externals)
    requires macEdges.Keys == macTables.Keys && forall d :: d in macTables ==>
               Discovery.Draws(c, ips, d, macTables[d], macEdges[d])
    ensures EveryRowIsAccountedFor(tables, members, links, externals, ips, macTables, macEdges)
    ensures MacEdgesAreMadeOfRows(ips, macTables, macEdges)
  {
    forall d, r | d in macTables && r in macTables[d]
      ensures if IsExplained(tables, members, links, externals, ips, d, r)
              then forall k :: !DrawnAt(macEdges[d], r, k)
              else DrawnOnce(macEdges[d], r)
    {
      RowIsAccountedFor(c, ids, tables, members, links, claimed, ips, groups, hosts, macTables, externals, d,
                        macEdges[d], r);
    }
    forall d | d in macTables
      ensures forall k :: 0 <= k < |macEdges[d]| ==> IsMadeOfRows(ips, d, macTables[d], macEdges[d][k])
      ensures forall i, j :: 0 <= i < j < |macEdges[d]| ==>
                macEdges[d][i].port != macEdges[d][j].port || macEdges[d][i].identity != macEdges[d][j].identity
    {
      EdgesAreMadeOfRows(c, ips, d, macTables[d], macEdges[d]);
    }
  }
}
