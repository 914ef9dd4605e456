/** When a hydration run ends without an error, read off the wiring. */
module HydrationRuns {
  import opened Net
  import opened WiringModel
  import opened Store
  import opened Sorting
  import opened Allocator
  import opened HydratedGateways
  import OrderIndependence

  /** The gateway end of the link is an interface of a gateway. */
  predicate EndsAtInterface(gws: seq<Gateway>, l: Link) {
    exists i :: 0 <= i < |gws| && gws[i].name == l.far.port.device && l.far.port.port in gws[i].spec.interfaces
  }

  /** The switch end has an address, and its switch an ASN. */
  predicate EndsAtPeer(sws: seq<Switch>, l: Link) {
    l.near.ip.Cidr? && exists i :: 0 <= i < |sws| && sws[i].name == l.near.port.device && sws[i].spec.asn != 0
  }

  lemma {:induction false} FoundAt<T>(l: seq<Object<T>>, name: Name)
    requires DistinctNames(l)
    ensures forall i :: 0 <= i < |l| && l[i].name == name ==> Find(l, name) == Some(i)
  {
    forall i | 0 <= i < |l| && l[i].name == name
      ensures Find(l, name) == Some(i)
    {
      FindUnique(l, i);
    }
  }

  lemma {:induction false} ResolvesIff(sws: seq<Switch>, gws: seq<Gateway>, l: Link)
    requires DistinctNames(sws) && DistinctNames(gws)
    ensures Resolves(sws, gws, l) <==> EndsAtInterface(gws, l) && EndsAtPeer(sws, l)
  {
    hide DistinctNames;
    FoundAt(sws, l.near.port.device);
    FoundAt(gws, l.far.port.device);
  }

  lemma {:induction false} PeersMoved(a: seq<Switch>, b: seq<Switch>, l: Link)
    requires multiset(a) == multiset(b)
    ensures EndsAtPeer(a, l) ==> EndsAtPeer(b, l)
  {
    SameMembers(a, b);
    if EndsAtPeer(a, l) {
      var i :| 0 <= i < |a| && a[i].name == l.near.port.device && a[i].spec.asn != 0;
      var j :| 0 <= j < |b| && b[j] == a[i];
    }
  }

  lemma {:induction false} LinkResolvesIff(f: FabConfig, w: Wiring, l: Link)
    requires Valid(w)
    ensures l in NewGatewayLinks(f, w) <==> LinkOf(Hydrated(f, w).conns, l)
    ensures Resolves(NewSwitches(f, w), w.gateways, l) <==> EndsAtInterface(w.gateways, l) && EndsAtPeer(Hydrated(f, w).switches, l)
  {
    NewNamesDistinct(f, w);
    hide Hydrated, NewSwitches, NewGatewayLinks, DistinctNames, Resolves, LinkOf, EndsAtInterface, EndsAtPeer;
    OrderIndependence.HydratedObjects(f, w);
    ResolvedLinks(f, w, l);
    ResolvesIff(NewSwitches(f, w), w.gateways, l);
    PeersMoved(NewSwitches(f, w), Hydrated(f, w).switches, l);
    PeersMoved(Hydrated(f, w).switches, NewSwitches(f, w), l);
  }

  /** The links that are walked all resolve exactly when those of the hydrated connections have what they need. */
  lemma {:induction false} LinksResolveIff(f: FabConfig, w: Wiring)
    requires Valid(w)
    ensures AllResolve(NewSwitches(f, w), w.gateways, NewGatewayLinks(f, w)) <==> LinksEnd(w, Hydrated(f, w))
  {
    hide Valid, Hydrated, NewSwitches, NewGatewayLinks, Resolves, LinkOf, EndsAtInterface, EndsAtPeer;
    var sws, links, h := NewSwitches(f, w), NewGatewayLinks(f, w), Hydrated(f, w);
    if AllResolve(sws, w.gateways, links) {
      forall l | LinkOf(h.conns, l)
        ensures EndsAtInterface(w.gateways, l) && EndsAtPeer(h.switches, l)
      {
        LinkResolvesIff(f, w, l);
        var k :| 0 <= k < |links| && links[k] == l;
        assert Resolves(sws, w.gateways, links[k]);
      }
    }
    if LinksEnd(w, h) {
      forall k | 0 <= k < |links|
        ensures Resolves(sws, w.gateways, links[k])
      {
        LinkResolvesIff(f, w, links[k]);
      }
    }
  }

  /** Every gateway link of the hydrated connections ends at an interface and at a peer. */
  ghost predicate LinksEnd(w: Wiring, h: Wiring) {
    forall l :: LinkOf(h.conns, l) ==> EndsAtInterface(w.gateways, l) && EndsAtPeer(h.switches, l)
  }

  lemma {:induction false} NewNamesDistinct(f: FabConfig, w: Wiring)
    requires Valid(w)
    ensures DistinctNames(NewSwitches(f, w))
  {
    var sorted := Sort(w.switches, SwitchRank);
    SortSorts(w.switches, SwitchRank);
    DistinctTransfer(sorted, NewSwitches(f, w));
  }

  /** A run ends without an error exactly when the VIP is the first address behind the base of the management subnet, every
      switch is a spine or a leaf, there are at most 254 gateways, and every gateway link ends at an interface and at a peer. */
  lemma {:induction false} RunsIff(f: FabConfig, w: Wiring)
    requires Valid(w)
    ensures Hydratable(f, w) <==>
      && f.vip == Masked(f.mgmt) + 1
      && (forall i :: 0 <= i < |w.switches| ==> w.switches[i].spec.role in {Spine, BorderLeaf, MixedLeaf, ServerLeaf})
      && |w.gateways| <= 254
      && LinksEnd(w, Hydrated(f, w))
  {
    hide Hydrated, NewSwitches, NewGatewayLinks, AllResolve, LinksEnd, DistinctNames;
    LinksResolveIff(f, w);
  }
}
