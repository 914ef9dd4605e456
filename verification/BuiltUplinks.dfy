/** Hydrating a generated topology gives every gateway interface the address of its own link, and no other. */
module BuiltUplinks {
  import opened Store
  import opened Net
  import opened Topology
  import opened TopologyNames
  import opened TopologyBuilder
  import opened BuiltWiring
  import opened Allocator
  import opened Repeatability
  import Sorting
  import Ranking
  import HydrationFits
  import HydrationShape
  import OrderIndependence
  import W = WiringModel

  predicate IsUplink(c: W.Conn) {
    c.spec.kind == W.GatewayConn && |c.spec.links| == 1
  }

  function UplinkPort(c: W.Conn): W.Port
    requires IsUplink(c)
  {
    c.spec.links[0].far.port
  }

  predicate Apart(c: W.Conn, d: W.Conn) {
    IsUplink(c) && IsUplink(d) ==> UplinkPort(c) != UplinkPort(d)
  }

  /** Gateway connections have one link each, no two to the same interface. */
  predicate UplinksApart(conns: seq<W.Conn>) {
    && (forall c :: 0 <= c < |conns| && conns[c].spec.kind == W.GatewayConn ==> IsUplink(conns[c]))
    && (forall c, d :: 0 <= c < d < |conns| ==> Apart(conns[c], conns[d]))
  }

  // ---- What is generated ---------------------------------------------------------------------------------------

  lemma {:induction false} UplinkOnce(settings: Params, p: Params, i: nat, j: nat)
    requires Prepared(settings) == Some(p) && NoOverflow(p) && i < j < |AllShapes(p)|
    requires AllShapes(p)[i].GatewayShape? && AllShapes(p)[j].GatewayShape?
    ensures AllShapes(p)[i].gateway != AllShapes(p)[j].gateway || AllShapes(p)[i].port != AllShapes(p)[j].port
  {
    hide AllShapes, Prepared;
    var l := AllShapes(p);
    OneUplink(settings, p, l[i]);
    OneUplink(settings, p, l[j]);
    if l[i] == l[j] {
      CountedTwice(l, i, j);
      UplinksExact(settings, p, l[i]);
    }
  }

  lemma {:induction false} GeneratedApart(settings: Params, p: Params, w: W.Wiring, conns: seq<Conn>, name: Shape -> Name)
    requires Prepared(settings) == Some(p) && NoOverflow(p) && Generated(p, w, conns, name)
    ensures UplinksApart(w.conns)
  {
    hide AllShapes, Prepared, NoOverflow, AllSwitches, AllGateways, Injective;
    forall i | 0 <= i < |w.conns| && w.conns[i].spec.kind == W.GatewayConn
      ensures IsUplink(w.conns[i])
    {
      assert IsObject(w.conns[i], conns[i], name);
    }
    forall i, j | 0 <= i < j < |w.conns|
      ensures Apart(w.conns[i], w.conns[j])
    {
      assert IsObject(w.conns[i], conns[i], name) && IsObject(w.conns[j], conns[j], name);
      assert Shapes(conns)[i] == conns[i].shape && Shapes(conns)[j] == conns[j].shape;
      if IsUplink(w.conns[i]) && IsUplink(w.conns[j]) {
        UplinkOnce(settings, p, i, j);
      }
    }
  }

  lemma {:induction false} ApartReordered(a: seq<W.Conn>, b: seq<W.Conn>)
    requires UplinksApart(a) && multiset(a) == multiset(b) && DistinctNames(b)
    ensures UplinksApart(b)
  {
    Sorting.SameMembers(a, b);
    DistinctPairs(b, |b|);
    forall i, j | 0 <= i < j < |b|
      ensures Apart(b[i], b[j])
    {
      var k :| 0 <= k < |a| && a[k] == b[i];
      var l :| 0 <= l < |a| && a[l] == b[j];
      assert k != l;
      if k < l {
        assert Apart(a[k], a[l]);
      } else {
        assert Apart(a[l], a[k]);
      }
    }
  }

  // ---- What is hydrated ----------------------------------------------------------------------------------------

  lemma {:induction false} AssignedApart(f: W.FabConfig, conns: seq<W.Conn>)
    requires UplinksApart(conns)
    ensures UplinksApart(AssignedConns(f, conns))
  {
    hide UplinkPort;
    var now := AssignedConns(f, conns);
    forall c | 0 <= c < |conns|
      ensures IsUplink(now[c]) <==> IsUplink(conns[c])
      ensures now[c].spec.kind == W.GatewayConn ==> IsUplink(now[c])
      ensures IsUplink(now[c]) ==> UplinkPort(now[c]) == UplinkPort(conns[c])
    {
      assert now[c] == AssignedConn(f, conns, c);
      SamePort(f, conns, c);
    }
    forall c, d | 0 <= c < d < |conns|
      ensures Apart(now[c], now[d])
    {
      assert Apart(conns[c], conns[d]);
    }
  }

  lemma {:induction false} SamePort(f: W.FabConfig, conns: seq<W.Conn>, c: nat)
    requires c < |conns|
    ensures IsUplink(AssignedConn(f, conns, c)) <==> IsUplink(conns[c])
    ensures IsUplink(conns[c]) ==> UplinkPort(AssignedConn(f, conns, c)) == UplinkPort(conns[c])
  {
    if IsUplink(conns[c]) {
      var m := W.LinkCount(conns, c);
      assert LinksAt(f, conns[c].spec.links, m)[0] == LinkAt(f, conns[c].spec.links[0], m);
    }
  }

  /** The last link on an interface is the only one. */
  lemma {:induction false} LastUplink(conns: seq<W.Conn>, n: nat, c: nat)
    requires UplinksApart(conns) && c < n <= |conns| && IsUplink(conns[c])
    ensures LastOn(UplinkPort(conns[c]).device, UplinkPort(conns[c]).port, GatewayLinks(conns, n)) == Some(conns[c].spec.links[0].far.ip)
  {
    var before, own := GatewayLinks(conns, n - 1), OwnGatewayLinks(conns[n - 1]);
    if own == [] {
      assert GatewayLinks(conns, n) == before;
    } else {
      assert IsUplink(conns[n - 1]) && own == [conns[n - 1].spec.links[0]];
      assert GatewayLinks(conns, n)[..|before|] == before;
    }
    if c < n - 1 {
      LastUplink(conns, n - 1, c);
      assert Apart(conns[c], conns[n - 1]);
    }
  }

  /** After a run a gateway's interfaces are as its links leave them. */
  lemma {:induction false} HydratedInterfaces(f: W.FabConfig, w: W.Wiring, i: nat)
    requires Valid(w) && i < |w.gateways|
    ensures |Hydrated(f, w).gateways| == |w.gateways|
    ensures Hydrated(f, w).gateways[i].spec.interfaces == WithLinks(NewSwitches(f, w), w.gateways[i], NewGatewayLinks(f, w)).spec.interfaces
  {
    hide WithLinks, AssignedSwitches, AssignedConns, GatewayLinks, Owners;
    var linked := LinkedGateways(f, w);
    var sorted := Sorting.Sort(linked, Sorting.ByName);
    LinkedDistinctNames(w.gateways, linked);
    Sorting.SortSorts(linked, Sorting.ByName);
    AssignedNames(f, |w.switches|, HydrationFits.OwnerCount(w), sorted);
    var rank := Ranking.StoredBack(linked, sorted, NewGateways(f, w));
    assert sorted[rank[i]] == linked[i];
    assert Hydrated(f, w).gateways[i] == NewGateways(f, w)[rank[i]];
  }

  lemma {:induction false} ApartKept(a: seq<W.Conn>, b: seq<W.Conn>)
    requires UplinksApart(a) && HydrationShape.ConnsSame(a, b)
    ensures UplinksApart(b)
  {
    forall c | 0 <= c < |b|
      ensures IsUplink(b[c]) <==> IsUplink(a[c])
      ensures b[c].spec.kind == W.GatewayConn ==> IsUplink(b[c])
      ensures IsUplink(b[c]) ==> UplinkPort(b[c]) == UplinkPort(a[c])
    {
      UplinkKept(a[c], b[c]);
    }
    forall c, d | 0 <= c < d < |b|
      ensures Apart(b[c], b[d])
    {
      assert Apart(a[c], a[d]);
    }
  }

  lemma {:induction false} UplinkKept(c: W.Conn, d: W.Conn)
    requires HydrationShape.SameConn(c, d)
    ensures IsUplink(c) <==> IsUplink(d)
    ensures IsUplink(c) ==> UplinkPort(d) == UplinkPort(c)
  {
    assert IsUplink(c) ==> HydrationShape.SameLink(c.spec.links[0], d.spec.links[0]);
  }

  /** Each interface of each gateway has a connection of its own. */
  lemma {:induction false} UplinkBuilt(settings: Params, p: Params, w: W.Wiring, conns: seq<Conn>, name: Shape -> Name, g: nat, k: nat)
    returns (c: nat)
    requires Prepared(settings) == Some(p) && NoOverflow(p) && Generated(p, w, conns, name)
    requires g < p.gateways && 1 <= k <= p.uplinks
    ensures c < |w.conns| && IsUplink(w.conns[c]) && UplinkPort(w.conns[c]) == W.Port(GatewayName(g), k)
  {
    hide AllShapes, Prepared, NoOverflow, AllSwitches, AllGateways, Injective;
    var x := GatewayShape(UplinkOf(p, k), g, k);
    UplinksExact(settings, p, x);
    assert x in multiset(AllShapes(p));
    c :| 0 <= c < |AllShapes(p)| && AllShapes(p)[c] == x;
    assert Shapes(conns)[c] == conns[c].shape;
    assert IsObject(w.conns[c], conns[c], name);
  }

  lemma {:induction false} LastOnInterface(f: W.FabConfig, w: W.Wiring, c: nat)
    requires Valid(w) && UplinksApart(w.conns) && c < |Hydrated(f, w).conns| && IsUplink(Hydrated(f, w).conns[c])
    ensures var d := Hydrated(f, w).conns[c];
      LastOn(UplinkPort(d).device, UplinkPort(d).port, NewGatewayLinks(f, w)) == Some(d.spec.links[0].far.ip)
  {
    var sorted, items, d := Sorting.Sort(w.conns, Sorting.ByName), NewConns(f, w), Hydrated(f, w).conns[c];
    hide Hydrated, AssignedConn, UplinksApart, DistinctNames, UplinkPort, LastOn;
    Sorting.SortSorts(w.conns, Sorting.ByName);
    ApartReordered(w.conns, sorted);
    AssignedApart(f, sorted);
    OrderIndependence.HydratedObjects(f, w);
    Sorting.SameMembers(Hydrated(f, w).conns, items);
    var k :| 0 <= k < |items| && items[k] == d;
    LastUplink(items, |items|, k);
  }

  /** The interface of a gateway is as the last connection to it leaves it. */
  lemma {:induction false} InterfaceFrom(f: W.FabConfig, w: W.Wiring, g: nat, c: nat)
    requires Valid(w) && UplinksApart(w.conns) && g < |w.gateways| && c < |Hydrated(f, w).conns|
    requires var d := Hydrated(f, w).conns[c];
      IsUplink(d) && UplinkPort(d).device == w.gateways[g].name && UplinkPort(d).port in w.gateways[g].spec.interfaces
    ensures |Hydrated(f, w).gateways| == |w.gateways| && Hydrated(f, w).gateways[g].name == w.gateways[g].name
    ensures var d, gw := Hydrated(f, w).conns[c], Hydrated(f, w).gateways[g];
      UplinkPort(d).port in gw.spec.interfaces && gw.spec.interfaces[UplinkPort(d).port].ips == [d.spec.links[0].far.ip]
  {
    hide Hydrated, UplinksApart, WithLinks, DistinctNames, UplinkPort, IsUplink, LastOn, NeighborsOf, NewSwitches, NewGatewayLinks;
    HydrationShape.HydratedKeepsShape(f, w);
    assert HydrationShape.SameGateway(w.gateways[g], Hydrated(f, w).gateways[g]);
    LastOnInterface(f, w, c);
    HydratedInterfaces(f, w, g);
    LinksEffect(NewSwitches(f, w), w.gateways[g], NewGatewayLinks(f, w));
  }

  /** No interface address is overwritten: exactly one connection reaches an interface, and the interface has that one's address. */
  lemma {:induction false} InterfaceKeepsAddress(f: W.FabConfig, settings: Params, p: Params, w: W.Wiring, conns: seq<Conn>, name: Shape -> Name,
                                                 g: nat, k: nat) returns (c: nat)
    requires Prepared(settings) == Some(p) && NoOverflow(p) && Generated(p, w, conns, name) && Valid(w)
    requires g < p.gateways && 1 <= k <= p.uplinks
    ensures var h := Hydrated(f, w);
      && c < |h.conns| && IsUplink(h.conns[c]) && UplinkPort(h.conns[c]) == W.Port(GatewayName(g), k)
      && (forall d :: 0 <= d < |h.conns| && d != c && IsUplink(h.conns[d]) ==> UplinkPort(h.conns[d]) != UplinkPort(h.conns[c]))
      && g < |h.gateways| && h.gateways[g].name == GatewayName(g) && k in h.gateways[g].spec.interfaces
      && h.gateways[g].spec.interfaces[k].ips == [h.conns[c].spec.links[0].far.ip]
  {
    c := UplinkBuilt(settings, p, w, conns, name, g, k);
    assert w.gateways[g] == GatewayObject(g, Interfaces(p.uplinks));
    var h := Hydrated(f, w);
    hide AllShapes, Prepared, NoOverflow, Generated, Hydrated, UplinkPort, IsUplink, UplinksApart, AllSwitches, AllGateways, DistinctNames;
    GeneratedApart(settings, p, w, conns, name);
    HydrationShape.HydratedKeepsShape(f, w);
    ApartKept(w.conns, h.conns);
    assert HydrationShape.SameConn(w.conns[c], h.conns[c]);
    UplinkKept(w.conns[c], h.conns[c]);
    InterfaceFrom(f, w, g, c);
    OnlyUplink(h.conns, c);
  }

  lemma {:induction false} OnlyUplink(conns: seq<W.Conn>, c: nat)
    requires UplinksApart(conns) && c < |conns| && IsUplink(conns[c])
    ensures forall d :: 0 <= d < |conns| && d != c && IsUplink(conns[d]) ==> UplinkPort(conns[d]) != UplinkPort(conns[c])
  {
    forall d | 0 <= d < |conns| && d != c && IsUplink(conns[d])
      ensures UplinkPort(conns[d]) != UplinkPort(conns[c])
    {
      if d < c {
        assert Apart(conns[d], conns[c]);
      } else {
        assert Apart(conns[c], conns[d]);
      }
    }
  }
}
