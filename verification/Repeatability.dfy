/**
  * Running hydration a second time: it succeeds if the first run did, and nothing changes except that gateways list
  * their neighbors once more.
  */
module Repeatability {
  import opened Net
  import opened WiringModel
  import opened Store
  import opened Sorting
  import opened Ranking
  import opened Allocator
  import opened HydrationShape
  import opened HydrationFits
  import opened OrderIndependence

  // ---- Lists that are already in order ---------------------------------------------------

  /** A list with the names and ranks of a sorted list is the sorting of every permutation of it. */
  lemma {:induction false} SortIs<T>(sorted: seq<Object<T>>, items: seq<Object<T>>, l: seq<Object<T>>, rank: T -> nat)
    requires Sorted(sorted, rank) && |items| == |sorted| && multiset(l) == multiset(items) && DistinctNames(items)
    requires forall i :: 0 <= i < |items| ==> items[i].name == sorted[i].name && rank(items[i].spec) == rank(sorted[i].spec)
    ensures Sort(l, rank) == items
  {
    forall i, j | 0 <= i < j < |items|
      ensures Before(items[i], items[j], rank)
    {
      assert Before(sorted[i], sorted[j], rank);
    }
    DistinctReordered(items, l);
    SortOrderIndependent(l, items, rank);
    SortOfSorted(items, rank);
  }

  // ---- Switches ----------------------------------------------------------------------------

  lemma {:induction false} SameFirst(a: seq<Switch>, b: seq<Switch>, g: Name, n: nat)
    requires SwitchesSame(a, b) && n <= |a|
    ensures FirstInGroup(a, g, n) == FirstInGroup(b, g, n)
  {
    if n > 0 {
      SameFirst(a, b, g, n - 1);
      assert SameSwitch(a[n - 1], b[n - 1]);
    }
  }

  lemma {:induction false} SameLead(a: seq<Switch>, b: seq<Switch>, i: nat)
    requires SwitchesSame(a, b) && i < |a|
    ensures Leads(a, i) <==> Leads(b, i)
    ensures Leader(a, i) == Leader(b, i)
  {
    assert SameSwitch(a[i], b[i]);
    if a[i].spec.red.MCLAG? {
      SameFirst(a, b, a[i].spec.red.group, i);
    }
  }

  lemma {:induction false} SameOwners(a: seq<Switch>, b: seq<Switch>, n: nat)
    requires SwitchesSame(a, b) && n <= |a|
    ensures Owners(a, n) == Owners(b, n)
  {
    if n > 0 {
      SameOwners(a, b, n - 1);
      SameLead(a, b, n - 1);
      assert SameSwitch(a[n - 1], b[n - 1]);
    }
  }

  lemma {:induction false} AssignedSame(f: FabConfig, hosts: nat, sws: seq<Switch>)
    ensures SwitchesSame(sws, AssignedSwitches(f, hosts, sws))
  {
    hide AssignedASN, AssignedVtep;
  }

  /** A switch that has been assigned is assigned the same values again. */
  lemma {:induction false} SwitchAgain(f: FabConfig, hosts: nat, sws: seq<Switch>, i: nat)
    requires i < |sws|
    ensures AssignedSwitch(f, hosts, AssignedSwitches(f, hosts, sws), i) == AssignedSwitches(f, hosts, sws)[i]
  {
    var now, l := AssignedSwitches(f, hosts, sws), Leader(sws, i);
    AssignedSame(f, hosts, sws);
    SameLead(sws, now, i);
    SameOwners(sws, now, l);
    LeaderLeads(sws, i);
    assert SameSwitch(sws[l], now[l]);
    assert now[l] == AssignedSwitch(f, hosts, sws, l);
  }

  lemma {:induction false} SwitchesAgain(f: FabConfig, w: Wiring)
    requires Valid(w)
    ensures Sort(Hydrated(f, w).switches, SwitchRank) == NewSwitches(f, w)
    ensures NewSwitches(f, Hydrated(f, w)) == NewSwitches(f, w)
    ensures Owners(NewSwitches(f, w), |w.switches|) == Owners(Sort(w.switches, SwitchRank), |w.switches|)
  {
    hide AssignedSwitch, AssignedASN, AssignedVtep, Hydrated, DistinctNames, Sorted, SwitchesSame, Owners;
    var hosts, sorted, items := |w.controls| + |w.nodes|, Sort(w.switches, SwitchRank), NewSwitches(f, w);
    HydratedObjects(f, w);
    SortSorts(w.switches, SwitchRank);
    AssignedSame(f, hosts, sorted);
    SwitchesSameNames(sorted, items);
    SortIs(sorted, items, Hydrated(f, w).switches, SwitchRank);
    SameOwners(sorted, items, |items|);
    HydratedHosts(f, w);
    var again := NewSwitches(f, Hydrated(f, w));
    forall i | 0 <= i < |items|
      ensures again[i] == items[i]
    {
      SwitchAgain(f, hosts, sorted, i);
    }
    assert again == items;
  }

  lemma {:induction false} SwitchesSameNames(a: seq<Switch>, b: seq<Switch>)
    requires SwitchesSame(a, b)
    ensures forall i :: 0 <= i < |a| ==> b[i].name == a[i].name && SwitchRank(b[i].spec) == SwitchRank(a[i].spec)
  {
    forall i | 0 <= i < |a|
      ensures b[i].name == a[i].name && SwitchRank(b[i].spec) == SwitchRank(a[i].spec)
    {
      assert SameSwitch(a[i], b[i]);
    }
  }

  lemma {:induction false} HydratedHosts(f: FabConfig, w: Wiring)
    ensures |Hydrated(f, w).controls| == |w.controls| && |Hydrated(f, w).nodes| == |w.nodes|
  {
  }

  // ---- Hosts and connections ---------------------------------------------------------------

  lemma {:induction false} HostsAgain(f: FabConfig, w: Wiring)
    requires Valid(w)
    ensures Hydrated(f, Hydrated(f, w)).controls == Hydrated(f, w).controls
    ensures Hydrated(f, Hydrated(f, w)).nodes == Hydrated(f, w).nodes
  {
    hide MgmtAt;
    SortSorts(w.controls, ByName);
    var sorted, items := Sort(w.controls, ByName), Hydrated(f, w).controls;
    assert items == AssignedHosts(f, sorted, 0);
    DistinctTransfer(sorted, items);
    SortIs(sorted, items, items, ByName);
  }

  lemma {:induction false} ConnsSameOf(f: FabConfig, conns: seq<Conn>)
    ensures ConnsSame(conns, AssignedConns(f, conns))
    ensures forall i :: 0 <= i < |conns| ==> AssignedConns(f, conns)[i].name == conns[i].name
  {
    forall i | 0 <= i < |conns|
      ensures SameConn(conns[i], AssignedConns(f, conns)[i])
    {
      assert AssignedConns(f, conns)[i] == AssignedConn(f, conns, i);
    }
  }

  lemma {:induction false} ConnAgain(f: FabConfig, conns: seq<Conn>, c: nat)
    requires c < |conns|
    ensures AssignedConn(f, AssignedConns(f, conns), c) == AssignedConns(f, conns)[c]
  {
    var now := AssignedConns(f, conns);
    ConnsSameOf(f, conns);
    CountSame(conns, now, c);
    if conns[c].spec.kind != OtherConn {
      var m, links := LinkCount(conns, c), conns[c].spec.links;
      LinksAgain(f, links, m);
    }
  }

  lemma {:induction false} LinksAgain(f: FabConfig, links: seq<Link>, m: nat)
    ensures LinksAt(f, LinksAt(f, links, m), m) == LinksAt(f, links, m)
  {
    var once := LinksAt(f, links, m);
    var twice := LinksAt(f, once, m);
    forall i | 0 <= i < |links|
      ensures twice[i] == once[i]
    {
      assert once[i] == LinkAt(f, links[i], m + i);
    }
  }

  lemma {:induction false} ConnsAgain(f: FabConfig, w: Wiring)
    requires Valid(w)
    ensures NewConns(f, Hydrated(f, w)) == NewConns(f, w)
  {
    hide AssignedConn, Hydrated;
    var sorted, items := Sort(w.conns, ByName), NewConns(f, w);
    HydratedObjects(f, w);
    SortSorts(w.conns, ByName);
    ConnsSameOf(f, sorted);
    SortIs(sorted, items, Hydrated(f, w).conns, ByName);
    var again := NewConns(f, Hydrated(f, w));
    forall c | 0 <= c < |items|
      ensures again[c] == items[c]
    {
      ConnAgain(f, sorted, c);
    }
    assert again == items;
  }

  /** Storing the same items into a list that already holds them changes nothing. */
  lemma {:induction false} StoredTwice<T>(l: seq<Object<T>>, items: seq<Object<T>>)
    requires DistinctNames(items) && multiset(l) == multiset(items)
    ensures PutAll(l, items) == l
  {
    SameMembers(l, items);
    forall i | 0 <= i < |l|
      ensures PutAll(l, items)[i] == l[i]
    {
      var j :| 0 <= j < |items| && items[j] == l[i];
      PutAllAt(l, items, i);
    }
  }

  // ---- Gateways ----------------------------------------------------------------------------

  /** The link ends on a port of the gateway. */
  predicate Touches(name: Name, ports: set<Name>, l: Link) {
    l.far.port.device == name && l.far.port.port in ports
  }

  /** The neighbors the links add to a gateway. */
  function NeighborsOf(sws: seq<Switch>, name: Name, ports: set<Name>, links: seq<Link>): seq<Neighbor> {
    if |links| == 0 then []
    else
      var before, l := NeighborsOf(sws, name, ports, links[..|links| - 1]), links[|links| - 1];
      if Touches(name, ports, l) then before + [Neighbor(l.far.port.port, AddrOf(l.near.ip), SwitchASN(sws, l.near.port.device))] else before
  }

  /** The address text of the last link on a port, if any. */
  function LastOn(name: Name, port: Name, links: seq<Link>): Option<Text> {
    if |links| == 0 then None
    else if links[|links| - 1].far.port == Port(name, port) then Some(links[|links| - 1].far.ip)
    else LastOn(name, port, links[..|links| - 1])
  }

  function SetUp(i: Interface, ip: Option<Text>): Interface {
    if ip.Some? then i.(ips := [ip.value], mtu := FABRIC_MTU) else i
  }

  /** What the links do to a gateway: each port carries the last link's address, and neighbors are appended. */
  lemma {:induction false} LinksEffect(sws: seq<Switch>, g: Gateway, links: seq<Link>)
    ensures var r := WithLinks(sws, g, links);
      && r.name == g.name
      && r.spec == g.spec.(interfaces := r.spec.interfaces, neighbors := r.spec.neighbors)
      && r.spec.neighbors == g.spec.neighbors + NeighborsOf(sws, g.name, g.spec.interfaces.Keys, links)
      && r.spec.interfaces.Keys == g.spec.interfaces.Keys
      && forall p :: p in g.spec.interfaces ==> r.spec.interfaces[p] == SetUp(g.spec.interfaces[p], LastOn(g.name, p, links))
  {
    hide SwitchASN, AddrOf;
    if |links| > 0 {
      LinksEffect(sws, g, links[..|links| - 1]);
    }
  }

  /** The same links again only append the same neighbors again. */
  lemma {:induction false} LinksAgainEffect(sws: seq<Switch>, g: Gateway, a: Gateway, links: seq<Link>)
    requires a.name == g.name && a.spec.interfaces == WithLinks(sws, g, links).spec.interfaces
    ensures WithLinks(sws, a, links) ==
      a.(spec := a.spec.(neighbors := a.spec.neighbors + NeighborsOf(sws, g.name, g.spec.interfaces.Keys, links)))
  {
    hide WithLinks, NeighborsOf, LastOn;
    LinksEffect(sws, g, links);
    LinksEffect(sws, a, links);
    assert WithLinks(sws, a, links).spec.interfaces == a.spec.interfaces;
  }

  /** A gateway after one run and after two. */
  ghost predicate OnlyMoreNeighbors(more: seq<Neighbor>, once: Gateway, twice: Gateway) {
    twice == once.(spec := once.spec.(neighbors := once.spec.neighbors + more))
  }

  lemma {:induction false} GatewayAgain(f: FabConfig, switches: nat, owners: nat, sws: seq<Switch>, g: Gateway, links: seq<Link>, r: nat)
    ensures var once := AssignedGateway(f, switches, owners, WithLinks(sws, g, links), r);
      OnlyMoreNeighbors(NeighborsOf(sws, g.name, g.spec.interfaces.Keys, links), once,
                        AssignedGateway(f, switches, owners, WithLinks(sws, once, links), r))
  {
    hide WithLinks, NeighborsOf;
    var once := AssignedGateway(f, switches, owners, WithLinks(sws, g, links), r);
    LinksAgainEffect(sws, g, once, links);
  }

  /** The gateways a second run assigns, in allocation order. */
  lemma {:induction false} SecondGateways(f: FabConfig, w: Wiring)
    requires Valid(w)
    ensures NewGateways(f, Hydrated(f, w)) ==
      AssignedGateways(f, |w.switches|, OwnerCount(w), AllWithLinks(NewSwitches(f, w), NewGateways(f, w), NewGatewayLinks(f, w)))
    ensures LinkedGateways(f, Hydrated(f, w)) == AllWithLinks(NewSwitches(f, w), Hydrated(f, w).gateways, NewGatewayLinks(f, w))
  {
    hide WithLinks, AssignedSwitches, AssignedConns, GatewayLinks, AssignedGateway, Hydrated, Owners;
    var h, items, links := Hydrated(f, w), NewGateways(f, w), NewGatewayLinks(f, w);
    SwitchesAgain(f, w);
    ConnsAgain(f, w);
    HydratedObjects(f, w);
    var again := AllWithLinks(NewSwitches(f, w), items, links);
    LinkedReordered(NewSwitches(f, w), items, h.gateways, links);
    LinkedDistinctNames(w.gateways, LinkedGateways(f, w));
    SortSorts(LinkedGateways(f, w), ByName);
    AssignedNames(f, |w.switches|, OwnerCount(w), Sort(LinkedGateways(f, w), ByName));
    SortIs(Sort(LinkedGateways(f, w), ByName), again, LinkedGateways(f, h), ByName);
  }

  lemma {:induction false} LinkedDistinctNames(was: seq<Gateway>, now: seq<Gateway>)
    requires DistinctNames(was) && |was| == |now| && forall i :: 0 <= i < |now| ==> now[i].name == was[i].name
    ensures DistinctNames(now)
  {
    DistinctTransfer(was, now);
  }

  lemma {:induction false} AssignedNames(f: FabConfig, switches: nat, owners: nat, gws: seq<Gateway>)
    ensures forall i :: 0 <= i < |gws| ==> AssignedGateways(f, switches, owners, gws)[i].name == gws[i].name
  {
  }

  /** Gateway i after the second run is gateway i after the first with its own neighbors listed again. */
  lemma {:induction false} GatewaysAgain(f: FabConfig, w: Wiring, i: nat)
    requires Valid(w) && i < |w.gateways|
    ensures OnlyMoreNeighbors(
      NeighborsOf(NewSwitches(f, w), w.gateways[i].name, w.gateways[i].spec.interfaces.Keys, NewGatewayLinks(f, w)),
      Hydrated(f, w).gateways[i], Hydrated(f, Hydrated(f, w)).gateways[i])
  {
    hide WithLinks, AssignedSwitches, AssignedConns, GatewayLinks, AssignedGateway, NeighborsOf, Owners, OnlyMoreNeighbors;
    var h, sws, links := Hydrated(f, w), NewSwitches(f, w), NewGatewayLinks(f, w);
    var linked := LinkedGateways(f, w);
    var sorted := Sort(linked, ByName);
    LinkedDistinctNames(w.gateways, linked);
    SortSorts(linked, ByName);
    AssignedNames(f, |w.switches|, OwnerCount(w), sorted);
    var rank := StoredBack(linked, sorted, NewGateways(f, w));
    var r := rank[i];
    assert sorted[r] == linked[i] == WithLinks(sws, w.gateways[i], links);
    assert h.gateways[i] == NewGateways(f, w)[r] == AssignedGateway(f, |w.switches|, OwnerCount(w), sorted[r], r);
    SecondAt(f, w, i, r);
    GatewayAgain(f, |w.switches|, OwnerCount(w), sws, w.gateways[i], links, r);
  }

  lemma {:induction false} SecondAt(f: FabConfig, w: Wiring, i: nat, r: nat)
    requires Valid(w) && i < |w.gateways| && r < |NewGateways(f, w)|
    requires Hydrated(f, w).gateways[i] == NewGateways(f, w)[r]
    ensures |NewGateways(f, w)| == |w.gateways|
    ensures Hydrated(f, Hydrated(f, w)).gateways[i] ==
      AssignedGateway(f, |w.switches|, OwnerCount(w), WithLinks(NewSwitches(f, w), NewGateways(f, w)[r], NewGatewayLinks(f, w)), r)
  {
    hide WithLinks, AssignedSwitches, AssignedConns, GatewayLinks, AssignedGateway, Owners;
    var h, items := Hydrated(f, w), NewGateways(f, w);
    SecondGateways(f, w);
    HydratedObjects(f, w);
    var linked, again := LinkedGateways(f, h), NewGateways(f, h);
    var mid := AllWithLinks(NewSwitches(f, w), items, NewGatewayLinks(f, w));
    AssignedNames(f, |w.switches|, OwnerCount(w), mid);
    LinkedDistinctNames(items, again);
    assert again[r].name == items[r].name == linked[i].name;
    PutAllAt(linked, again, i);
  }

  // ---- The whole run -------------------------------------------------------------------------

  /** What lets the first run succeed lets the second: all lookups are of things the first run has kept. */
  lemma {:induction false} HydratableTwice(f: FabConfig, w: Wiring)
    requires Valid(w) && Hydratable(f, w)
    ensures Valid(Hydrated(f, w)) && Hydratable(f, Hydrated(f, w))
  {
    hide AssignedSwitch, AssignedConn, WithLinks, Hydrated, Resolves, DistinctNames, SameSwitch, SameConn, NewGateways;
    HydratedKeepsShape(f, w);
    HydratedValid(f, w);
    SwitchesAgain(f, w);
    ConnsAgain(f, w);
    SameRoles(w.switches, Hydrated(f, w).switches);
    var sws, links := NewSwitches(f, w), NewGatewayLinks(f, w);
    forall k | 0 <= k < |links|
      ensures Resolves(sws, Hydrated(f, w).gateways, links[k])
    {
      ResolvesKept(sws, w.gateways, Hydrated(f, w).gateways, links[k]);
    }
  }

  lemma {:induction false} SameRoles(a: seq<Switch>, b: seq<Switch>)
    requires SwitchesSame(a, b) && RolesValid(a)
    ensures RolesValid(b)
  {
    forall i | 0 <= i < |b|
      ensures ValidRole(b[i])
    {
      assert SameSwitch(a[i], b[i]);
    }
  }

  lemma {:induction false} FindKept(a: seq<Gateway>, b: seq<Gateway>, name: Name, i: nat)
    requires GatewaysSame(a, b) && i <= |a|
    ensures FindFrom(b, name, i) == FindFrom(a, name, i)
    decreases |a| - i
  {
    if i < |a| {
      assert SameGateway(a[i], b[i]);
      FindKept(a, b, name, i + 1);
    }
  }

  lemma {:induction false} ResolvesKept(sws: seq<Switch>, a: seq<Gateway>, b: seq<Gateway>, l: Link)
    requires GatewaysSame(a, b) && Resolves(sws, a, l)
    ensures Resolves(sws, b, l)
  {
    FindKept(a, b, l.far.port.device, 0);
    var g := Find(a, l.far.port.device).value;
    assert SameGateway(a[g], b[g]);
  }

  lemma {:induction false} HydratedValid(f: FabConfig, w: Wiring)
    requires Valid(w)
    ensures Valid(Hydrated(f, w))
  {
    hide AssignedSwitch, AssignedConn, WithLinks, AssignedHost, Hydrated, SameSwitch, SameConn, SameGateway;
    HydratedKeepsShape(f, w);
    var h := Hydrated(f, w);
    SameNames(w, h);
    DistinctTransfer(w.switches, h.switches);
    DistinctTransfer(w.conns, h.conns);
    DistinctTransfer(w.gateways, h.gateways);
    ControlsDistinct(f, w);
  }

  lemma {:induction false} ControlsDistinct(f: FabConfig, w: Wiring)
    requires DistinctNames(w.controls)
    ensures DistinctNames(Hydrated(f, w).controls)
  {
    SortSorts(w.controls, ByName);
    DistinctTransfer(Sort(w.controls, ByName), Hydrated(f, w).controls);
  }

  lemma {:induction false} SameNames(a: Wiring, b: Wiring)
    requires SameShape(a, b)
    ensures |a.switches| == |b.switches| && forall i :: 0 <= i < |a.switches| ==> a.switches[i].name == b.switches[i].name
    ensures |a.conns| == |b.conns| && forall i :: 0 <= i < |a.conns| ==> a.conns[i].name == b.conns[i].name
    ensures |a.gateways| == |b.gateways| && forall i :: 0 <= i < |a.gateways| ==> a.gateways[i].name == b.gateways[i].name
  {
    assert forall i :: 0 <= i < |a.switches| ==> SameSwitch(a.switches[i], b.switches[i]);
    assert forall i :: 0 <= i < |a.conns| ==> SameConn(a.conns[i], b.conns[i]);
    assert forall i :: 0 <= i < |a.gateways| ==> SameGateway(a.gateways[i], b.gateways[i]);
  }

  /** A second run of hydration on its own result succeeds if the first did, and leaves every object as it is, apart from the gateways' neighbor lists. */
  lemma {:induction false} HydrateTwice(f: FabConfig, w: Wiring)
    requires Valid(w)
    ensures Valid(Hydrated(f, w)) && (Hydratable(f, w) ==> Hydratable(f, Hydrated(f, w)))
    ensures var once := Hydrated(f, w);
      var twice := Hydrated(f, once);
      && twice.(gateways := once.gateways) == once
      && |twice.gateways| == |once.gateways| == |w.gateways|
      && forall i :: 0 <= i < |w.gateways| ==> OnlyMoreNeighbors(
           NeighborsOf(NewSwitches(f, w), w.gateways[i].name, w.gateways[i].spec.interfaces.Keys, NewGatewayLinks(f, w)),
           once.gateways[i], twice.gateways[i])
  {
    hide OnlyMoreNeighbors, NeighborsOf, NewGateways, LinkedGateways, AssignedHosts, PutAll, Hydratable, Valid;
    var once := Hydrated(f, w);
    HydratedValid(f, w);
    if Hydratable(f, w) {
      HydratableTwice(f, w);
    }
    HostsAgain(f, w);
    SwitchesAgain(f, w);
    ConnsAgain(f, w);
    HydratedObjects(f, w);
    StoredTwice(once.switches, NewSwitches(f, w));
    StoredTwice(once.conns, NewConns(f, w));
    HydratedSizes(f, w);
    HydratedSizes(f, once);
    forall i | 0 <= i < |w.gateways|
      ensures OnlyMoreNeighbors(
        NeighborsOf(NewSwitches(f, w), w.gateways[i].name, w.gateways[i].spec.interfaces.Keys, NewGatewayLinks(f, w)),
        once.gateways[i], Hydrated(f, once).gateways[i])
    {
      GatewaysAgain(f, w, i);
    }
  }

  lemma {:induction false} HydratedSizes(f: FabConfig, w: Wiring)
    ensures |Hydrated(f, w).gateways| == |w.gateways|
  {
  }
}
