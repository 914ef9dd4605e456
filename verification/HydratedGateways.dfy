/** What gateways have after hydration, field by field: numbers, addresses, MAC octets, interfaces and neighbors. */
module HydratedGateways {
  import opened Net
  import opened WiringModel
  import opened Store
  import opened Sorting
  import opened Allocator
  import opened HydrationShape
  import opened HydrationFits
  import opened Repeatability
  import opened HydratedAddresses
  import Ranking
  import FitHosts
  import OrderIndependence

  // ---- Numbers and addresses ------------------------------------------------------------------------------

  ghost function GatewayMade(f: FabConfig, w: Wiring, i: nat, r: nat): Gateway
    requires i < |w.gateways|
  {
    AssignedGateway(f, |w.switches|, OwnerCount(w), WithLinks(NewSwitches(f, w), w.gateways[i], NewGatewayLinks(f, w)), r)
  }

  lemma {:induction false} GatewaysPlaced(f: FabConfig, w: Wiring) returns (place: seq<nat>)
    requires Valid(w)
    ensures |place| == |Hydrated(f, w).gateways| == |w.gateways|
    ensures forall i :: 0 <= i < |place| ==> place[i] < |w.gateways| && Hydrated(f, w).gateways[i] == GatewayMade(f, w, i, place[i])
    ensures forall i, j :: 0 <= i < |place| && 0 <= j < |place| ==> (w.gateways[i].name < w.gateways[j].name <==> place[i] < place[j])
  {
    hide WithLinks, AssignedSwitches, AssignedConns, GatewayLinks, AssignedGateway, Owners, Sorted;
    var linked := LinkedGateways(f, w);
    var sorted := Sort(linked, ByName);
    LinkedDistinctNames(w.gateways, linked);
    SortSorts(linked, ByName);
    AssignedNames(f, |w.switches|, OwnerCount(w), sorted);
    place := Ranking.StoredBack(linked, sorted, NewGateways(f, w));
    NamesIncrease(sorted);
    forall i | 0 <= i < |place|
      ensures place[i] < |w.gateways| && sorted[place[i]] == linked[i]
      ensures Hydrated(f, w).gateways[i] == AssignedGateway(f, |w.switches|, OwnerCount(w), linked[i], place[i])
    {
      assert Hydrated(f, w).gateways[i] == NewGateways(f, w)[place[i]];
    }
    forall i, j | 0 <= i < |place| && 0 <= j < |place|
      ensures w.gateways[i].name < w.gateways[j].name <==> place[i] < place[j]
    {
      assert sorted[place[i]].name == w.gateways[i].name && sorted[place[j]].name == w.gateways[j].name;
    }
  }

  lemma {:induction false} NamesIncrease<T>(sorted: seq<Object<T>>)
    requires Sorted(sorted, ByName)
    ensures forall r, q :: 0 <= r < |sorted| && 0 <= q < |sorted| ==> (sorted[r].name < sorted[q].name <==> r < q)
  {
    forall i, j | 0 <= i < j < |sorted|
      ensures sorted[i].name < sorted[j].name
    {
      assert Before(sorted[i], sorted[j], ByName);
    }
  }

  /** Every gateway gets a MAC octet of its own, from 1 to 254, in the order of the names. */
  lemma {:induction false} OctetsApart(f: FabConfig, w: Wiring)
    requires Valid(w) && Hydratable(f, w)
    ensures var g := Hydrated(f, w).gateways;
      && |g| == |w.gateways|
      && (forall i :: 0 <= i < |g| ==> g[i].name == w.gateways[i].name && 1 <= g[i].spec.macOctet <= 254)
      && (forall i, j :: 0 <= i < |g| && 0 <= j < |g| ==> (g[i].name < g[j].name <==> g[i].spec.macOctet < g[j].spec.macOctet))
      && (forall i, j :: 0 <= i < j < |g| ==> g[i].spec.macOctet != g[j].spec.macOctet)
  {
    hide Hydrated, WithLinks, NewSwitches, NewGatewayLinks;
    var place := GatewaysPlaced(f, w);
    DistinctPairs(w.gateways, |w.gateways|);
  }

  /** The r-th gateway has the r-th protocol address behind the switches and the r-th VTEP address behind the leaves. */
  predicate GatewayHas(f: FabConfig, switches: nat, owners: nat, g: Gateway, r: nat) {
    && g.spec.asn == f.gatewayASN && g.spec.macOctet == r + 1 && g.spec.vtepMTU == 9036
    && At(g.spec.protocolIP, Masked(f.protocol) + switches + r, 32)
    && At(g.spec.vtep, Masked(f.vtep) + owners + r, 32)
  }

  lemma {:induction false} GatewayPools(f: FabConfig, w: Wiring)
    requires Fits(f, w)
    ensures |w.switches| + |w.gateways| <= Size(f.protocol) && OwnerCount(w) + |w.gateways| <= Size(f.vtep)
  {
  }

  lemma {:induction false} GatewaysAddressed(f: FabConfig, w: Wiring) returns (place: seq<nat>)
    requires Valid(w) && Fits(f, w)
    ensures var g := Hydrated(f, w).gateways;
      && |place| == |g| == |w.gateways|
      && (forall i :: 0 <= i < |g| ==> place[i] < |g| && g[i].name == w.gateways[i].name && GatewayHas(f, |w.switches|, OwnerCount(w), g[i], place[i]))
      && (forall i, j :: 0 <= i < |g| && 0 <= j < |g| ==> (g[i].name < g[j].name <==> place[i] < place[j]))
  {
    hide Hydrated, WithLinks, NewSwitches, NewGatewayLinks, Fits, OwnerCount;
    place := GatewaysPlaced(f, w);
    GatewayPools(f, w);
    forall i | 0 <= i < |place|
      ensures GatewayHas(f, |w.switches|, OwnerCount(w), Hydrated(f, w).gateways[i], place[i])
    {
      FitHosts.PoolHolds(f.protocol, |w.switches| + place[i], 32);
      FitHosts.PoolHolds(f.vtep, OwnerCount(w) + place[i], 32);
      ContainsRange(f.protocol, f.protocol.addr);
      ContainsRange(f.vtep, f.vtep.addr);
    }
  }

  // ---- Gateway links in the hydrated wiring --------------------------------------------------------------------

  /** The link is one of a gateway connection. */
  predicate LinkOf(conns: seq<Conn>, l: Link) {
    exists c :: 0 <= c < |conns| && conns[c].spec.kind == GatewayConn && l in conns[c].spec.links
  }

  lemma {:induction false} GatewayLinkMembers(conns: seq<Conn>, n: nat, l: Link)
    requires n <= |conns|
    ensures l in GatewayLinks(conns, n) <==> exists c :: 0 <= c < n && conns[c].spec.kind == GatewayConn && l in conns[c].spec.links
    ensures n == |conns| ==> (l in GatewayLinks(conns, n) <==> LinkOf(conns, l))
  {
    if n > 0 {
      GatewayLinkMembers(conns, n - 1, l);
    }
  }

  lemma {:induction false} LinkReordered(a: seq<Conn>, b: seq<Conn>, l: Link)
    requires multiset(a) == multiset(b) && LinkOf(a, l)
    ensures LinkOf(b, l)
  {
    SameMembers(a, b);
    var c :| 0 <= c < |a| && a[c].spec.kind == GatewayConn && l in a[c].spec.links;
    var d :| 0 <= d < |b| && b[d] == a[c];
  }

  /** The links that are resolved are those that the hydrated connections hold. */
  lemma {:induction false} ResolvedLinks(f: FabConfig, w: Wiring, l: Link)
    requires Valid(w)
    ensures l in NewGatewayLinks(f, w) <==> LinkOf(Hydrated(f, w).conns, l)
  {
    var items, now := NewConns(f, w), Hydrated(f, w).conns;
    hide Hydrated, NewConns, GatewayLinks, Valid;
    GatewayLinkMembers(items, |items|, l);
    hide LinkOf;
    OrderIndependence.HydratedObjects(f, w);
    if LinkOf(items, l) {
      LinkReordered(items, now, l);
    }
    if LinkOf(now, l) {
      LinkReordered(now, items, l);
    }
  }

  /** The switch a resolved link ends on, as hydration leaves it. */
  lemma {:induction false} ResolvedSwitch(f: FabConfig, w: Wiring, l: Link) returns (s: Switch)
    requires Valid(w) && Hydratable(f, w) && l in NewGatewayLinks(f, w)
    ensures s in Hydrated(f, w).switches && s.name == l.near.port.device
    ensures s.spec.asn == SwitchASN(NewSwitches(f, w), l.near.port.device) != 0 && l.near.ip.Cidr?
    ensures Find(w.gateways, l.far.port.device).Some?
    ensures l.far.port.port in w.gateways[Find(w.gateways, l.far.port.device).value].spec.interfaces
  {
    hide Hydrated, AssignedSwitches, NewGatewayLinks, DistinctNames;
    var links := NewGatewayLinks(f, w);
    var k :| 0 <= k < |links| && links[k] == l;
    assert Resolves(NewSwitches(f, w), w.gateways, links[k]);
    s := NewSwitches(f, w)[Find(NewSwitches(f, w), l.near.port.device).value];
    OrderIndependence.HydratedObjects(f, w);
    SameMembers(NewSwitches(f, w), Hydrated(f, w).switches);
  }

  // ---- Neighbors ------------------------------------------------------------------------------------------------

  /** The neighbor is the switch end of a link to the gateway. */
  predicate Announces(nb: Neighbor, name: Name, l: Link, s: Switch) {
    && l.far.port == Port(name, nb.source)
    && l.near.port.device == s.name
    && l.near.ip.Cidr? && l.near.ip.addr == nb.ip
    && s.spec.asn == nb.asn && nb.asn != 0
  }

  /** The neighbor stands for some gateway link and its switch. */
  ghost predicate Accounted(h: Wiring, name: Name, nb: Neighbor) {
    exists l, s :: LinkOf(h.conns, l) && s in h.switches && Announces(nb, name, l, s)
  }

  /** The link is announced by one of these neighbors. */
  predicate Announced(h: Wiring, name: Name, l: Link, nbs: seq<Neighbor>) {
    exists n, s :: 0 <= n < |nbs| && s in h.switches && Announces(nbs[n], name, l, s)
  }

  function NeighborAt(sws: seq<Switch>, l: Link): Neighbor {
    Neighbor(l.far.port.port, AddrOf(l.near.ip), SwitchASN(sws, l.near.port.device))
  }

  lemma {:induction false} NeighborFrom(sws: seq<Switch>, name: Name, ports: set<Name>, links: seq<Link>, nb: Neighbor)
    ensures nb in NeighborsOf(sws, name, ports, links) <==> exists l :: l in links && Touches(name, ports, l) && nb == NeighborAt(sws, l)
  {
    if |links| > 0 {
      var rest, last := links[..|links| - 1], links[|links| - 1];
      NeighborFrom(sws, name, ports, rest, nb);
      assert links == rest + [last];
    }
  }

  /** What a run appends to a gateway's neighbors: exactly one for the switch end of each link to it. */
  lemma {:induction false} NeighborsAppended(f: FabConfig, w: Wiring, i: nat)
    requires Valid(w) && Hydratable(f, w) && i < |w.gateways|
    ensures |Hydrated(f, w).gateways| == |w.gateways|
    ensures var h := Hydrated(f, w);
      var was, now := w.gateways[i].spec.neighbors, h.gateways[i].spec.neighbors;
      && was <= now
      && (forall n :: |was| <= n < |now| ==> Accounted(h, w.gateways[i].name, now[n]))
      && (forall l :: LinkOf(h.conns, l) && l.far.port.device == w.gateways[i].name ==> Announced(h, w.gateways[i].name, l, now[|was|..]))
  {
    hide Hydrated, NewSwitches, NewGatewayLinks, Hydratable, DistinctNames, LinkOf, WithLinks, SwitchASN, NeighborsOf;
    var h, g, sws, links := Hydrated(f, w), w.gateways[i], NewSwitches(f, w), NewGatewayLinks(f, w);
    var place := GatewaysPlaced(f, w);
    LinksEffect(sws, g, links);
    var more := NeighborsOf(sws, g.name, g.spec.interfaces.Keys, links);
    var was, now := g.spec.neighbors, h.gateways[i].spec.neighbors;
    assert now == was + more;
    forall n | |was| <= n < |now|
      ensures Accounted(h, g.name, now[n])
    {
      assert now[n] in more;
      NeighborFrom(sws, g.name, g.spec.interfaces.Keys, links, now[n]);
      var l :| l in links && Touches(g.name, g.spec.interfaces.Keys, l) && now[n] == NeighborAt(sws, l);
      var s := ResolvedSwitch(f, w, l);
      ResolvedLinks(f, w, l);
      assert Announces(now[n], g.name, l, s);
    }
    forall l | LinkOf(h.conns, l) && l.far.port.device == g.name
      ensures Announced(h, g.name, l, now[|was|..])
    {
      ResolvedLinks(f, w, l);
      var s := ResolvedSwitch(f, w, l);
      FindUnique(w.gateways, i);
      var nb := NeighborAt(sws, l);
      NeighborFrom(sws, g.name, g.spec.interfaces.Keys, links, nb);
      var k :| 0 <= k < |more| && more[k] == nb;
      assert now[|was|..] == more && Announces(more[k], g.name, l, s);
    }
  }

  // ---- No neighbor twice ---------------------------------------------------------------------------------------------

  /** Near ends of the links at increasing addresses. */
  predicate Climbs(links: seq<Link>) {
    forall i, j :: 0 <= i < j < |links| ==> links[i].near.ip.Cidr? && links[j].near.ip.Cidr? && links[i].near.ip.addr < links[j].near.ip.addr
  }

  predicate Under(links: seq<Link>, limit: nat) {
    forall i :: 0 <= i < |links| ==> links[i].near.ip.Cidr? && links[i].near.ip.addr < limit
  }

  lemma {:induction false} OwnLinksHave(f: FabConfig, w: Wiring, sorted: seq<Conn>, c: nat)
    requires Valid(w) && Fits(f, w) && sorted == Sort(w.conns, ByName) && c < |sorted|
    ensures var own := OwnGatewayLinks(AssignedConn(f, sorted, c));
      && LinkCount(sorted, c) + |own| <= LinkCount(sorted, c + 1)
      && forall k :: 0 <= k < |own| ==> LinkHas(f, own[k], LinkCount(sorted, c) + k)
  {
    hide Fits, Valid, LinkHas;
    ConnAt(f, w, sorted, c);
  }

  lemma {:induction false} NoLinksClimb()
    ensures Climbs([])
  {
  }

  lemma {:induction false} GatewayLinksClimb(f: FabConfig, w: Wiring, sorted: seq<Conn>, n: nat)
    requires Valid(w) && Fits(f, w) && sorted == Sort(w.conns, ByName) && n <= |sorted|
    ensures var l := GatewayLinks(AssignedConns(f, sorted), n);
      Climbs(l) && Under(l, Masked(f.fabric) + 2 * LinkCount(sorted, n))
  {
    hide Fits, AssignedConn, OwnGatewayLinks, Valid, Climbs, LinkHas;
    if n > 0 {
      GatewayLinksClimb(f, w, sorted, n - 1);
      OwnLinksHave(f, w, sorted, n - 1);
      var m, before, own := LinkCount(sorted, n - 1), GatewayLinks(AssignedConns(f, sorted), n - 1), OwnGatewayLinks(AssignedConn(f, sorted, n - 1));
      assert AssignedConns(f, sorted)[n - 1] == AssignedConn(f, sorted, n - 1);
      ClimbOn(f, before, own, m);
    } else {
      NoLinksClimb();
    }
  }

  lemma {:induction false} ClimbOn(f: FabConfig, before: seq<Link>, own: seq<Link>, m: nat)
    requires Climbs(before) && Under(before, Masked(f.fabric) + 2 * m) && forall k :: 0 <= k < |own| ==> LinkHas(f, own[k], m + k)
    ensures Climbs(before + own) && Under(before + own, Masked(f.fabric) + 2 * (m + |own|))
  {
    forall i, j | 0 <= i < j < |before + own|
      ensures (before + own)[i].near.ip.Cidr? && (before + own)[j].near.ip.Cidr? && (before + own)[i].near.ip.addr < (before + own)[j].near.ip.addr
    {
      assert i >= |before| ==> LinkHas(f, own[i - |before|], m + (i - |before|));
      assert j >= |before| ==> LinkHas(f, own[j - |before|], m + (j - |before|));
    }
  }

  predicate FromLink(links: seq<Link>, ip: U32) {
    exists k :: 0 <= k < |links| && AddrOf(links[k].near.ip) == ip
  }

  lemma {:induction false} FromLonger(rest: seq<Link>, last: Link, ip: U32)
    requires Climbs(rest + [last]) && FromLink(rest, ip)
    ensures FromLink(rest + [last], ip) && ip < AddrOf(last.near.ip)
  {
    var k :| 0 <= k < |rest| && AddrOf(rest[k].near.ip) == ip;
    assert (rest + [last])[k] == rest[k] && (rest + [last])[|rest|] == last;
  }

  /** Neighbors at increasing addresses, each that of a link. */
  predicate ClimbFrom(links: seq<Link>, nbs: seq<Neighbor>) {
    && (forall i, j :: 0 <= i < j < |nbs| ==> nbs[i].ip < nbs[j].ip)
    && (forall i :: 0 <= i < |nbs| ==> FromLink(links, nbs[i].ip))
  }

  lemma {:induction false} ClimbLonger(rest: seq<Link>, last: Link, nbs: seq<Neighbor>, nb: Neighbor)
    requires Climbs(rest + [last]) && ClimbFrom(rest, nbs) && nb.ip == AddrOf(last.near.ip)
    ensures ClimbFrom(rest + [last], nbs) && ClimbFrom(rest + [last], nbs + [nb])
  {
    hide Climbs, FromLink;
    forall i | 0 <= i < |nbs|
      ensures nbs[i].ip < nb.ip && FromLink(rest + [last], nbs[i].ip)
    {
      FromLonger(rest, last, nbs[i].ip);
    }
    LastFrom(rest + [last]);
  }

  lemma {:induction false} NeighborsClimb(sws: seq<Switch>, name: Name, ports: set<Name>, links: seq<Link>)
    requires Climbs(links)
    ensures ClimbFrom(links, NeighborsOf(sws, name, ports, links))
  {
    hide SwitchASN, ClimbFrom;
    if |links| > 0 {
      var rest, last := links[..|links| - 1], links[|links| - 1];
      assert links == rest + [last];
      assert Climbs(rest) && Climbs(rest + [last]);
      NeighborsClimb(sws, name, ports, rest);
      ClimbLonger(rest, last, NeighborsOf(sws, name, ports, rest), NeighborAt(sws, last));
    } else {
      NoneClimb(links);
    }
  }

  lemma {:induction false} NoneClimb(links: seq<Link>)
    ensures ClimbFrom(links, [])
  {
  }

  lemma {:induction false} LastFrom(links: seq<Link>)
    requires |links| > 0
    ensures FromLink(links, AddrOf(links[|links| - 1].near.ip))
  {
  }

  /** The neighbors a run appends have increasing addresses, so none is listed twice. */
  lemma {:induction false} NeighborsApart(f: FabConfig, w: Wiring, i: nat)
    requires Valid(w) && Fits(f, w) && i < |w.gateways|
    ensures |Hydrated(f, w).gateways| == |w.gateways|
    ensures var was, now := w.gateways[i].spec.neighbors, Hydrated(f, w).gateways[i].spec.neighbors;
      was <= now && forall m, n :: |was| <= m < n < |now| ==> now[m].ip < now[n].ip
  {
    hide Hydrated, NewSwitches, DistinctNames, WithLinks, SwitchASN, NeighborsOf, Fits, Climbs, Under;
    var g, sws, links := w.gateways[i], NewSwitches(f, w), NewGatewayLinks(f, w);
    var place := GatewaysPlaced(f, w);
    LinksEffect(sws, g, links);
    GatewayLinksClimb(f, w, Sort(w.conns, ByName), |w.conns|);
    NeighborsClimb(sws, g.name, g.spec.interfaces.Keys, links);
    assert Hydrated(f, w).gateways[i].spec.neighbors == g.spec.neighbors + NeighborsOf(sws, g.name, g.spec.interfaces.Keys, links);
  }

  // ---- Interfaces ---------------------------------------------------------------------------------------------------

  lemma {:induction false} LastOnFrom(name: Name, port: Name, links: seq<Link>)
    ensures LastOn(name, port, links).Some? ==> exists l :: l in links && l.far.port == Port(name, port) && LastOn(name, port, links).value == l.far.ip
    ensures LastOn(name, port, links).None? ==> forall l :: l in links ==> l.far.port != Port(name, port)
  {
    if |links| > 0 {
      var rest, last := links[..|links| - 1], links[|links| - 1];
      LastOnFrom(name, port, rest);
      assert links == rest + [last];
    }
  }

  /** An interface with a link has the address of one of its links, and MTU 9100; the others are left alone. */
  lemma {:induction false} InterfacesSet(f: FabConfig, w: Wiring, i: nat, p: Name)
    requires Valid(w) && i < |w.gateways| && p in w.gateways[i].spec.interfaces
    ensures |Hydrated(f, w).gateways| == |w.gateways| && p in Hydrated(f, w).gateways[i].spec.interfaces
    ensures var h := Hydrated(f, w);
      var was, now := w.gateways[i].spec.interfaces[p], h.gateways[i].spec.interfaces[p];
      if exists l :: LinkOf(h.conns, l) && l.far.port == Port(w.gateways[i].name, p) then
        now.device == was.device && now.mtu == 9100 &&
        exists l :: LinkOf(h.conns, l) && l.far.port == Port(w.gateways[i].name, p) && now.ips == [l.far.ip]
      else now == was
  {
    hide Hydrated, NewSwitches, NewGatewayLinks, DistinctNames, LinkOf, WithLinks, NeighborsOf, LastOn;
    var g, links := w.gateways[i], NewGatewayLinks(f, w);
    var place := GatewaysPlaced(f, w);
    LinksEffect(NewSwitches(f, w), g, links);
    LastOnFrom(g.name, p, links);
    forall l
      ensures l in links <==> LinkOf(Hydrated(f, w).conns, l)
    {
      ResolvedLinks(f, w, l);
    }
  }
}
