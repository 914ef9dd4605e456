/**
  * Hydration does not depend on the order in which the API lists its objects: it succeeds for one listing iff it does
  * for another, and leaves the same objects.
  */
module OrderIndependence {
  import opened Net
  import opened WiringModel
  import opened Store
  import opened Sorting
  import opened Ranking
  import opened Allocator
  import opened HydrationFits

  /** The same objects, listed in another order; nodes arrive sorted. */
  ghost predicate Reordered(a: Wiring, b: Wiring) {
    && multiset(a.controls) == multiset(b.controls) && a.nodes == b.nodes
    && multiset(a.switches) == multiset(b.switches)
    && multiset(a.conns) == multiset(b.conns)
    && multiset(a.gateways) == multiset(b.gateways)
  }

  lemma {:induction false} DistinctReordered<T>(a: seq<Object<T>>, b: seq<Object<T>>)
    requires DistinctNames(a) && multiset(a) == multiset(b)
    ensures DistinctNames(b) && |a| == |b|
  {
    assert |a| == |multiset(a)| == |multiset(b)| == |b|;
    DistinctPairs(a, |a|);
    DistinctPermutation(a, b);
    DistinctPairs(b, |b|);
  }

  lemma {:induction false} InRest<T>(b: seq<Object<T>>, k: nat, x: Object<T>)
    requires k < |b| && x in b && x != b[k]
    ensures x in b[..k] + b[k + 1..]
  {
    var j :| 0 <= j < |b| && b[j] == x;
    assert (b[..k] + b[k + 1..])[if j < k then j else j - 1] == x;
  }

  lemma {:induction false} DistinctTail<T>(a: seq<Object<T>>)
    requires Distinct(a) && |a| > 0
    ensures Distinct(a[1..]) && a[0] !in a[1..]
  {
  }

  /** Lists of distinct objects with the same members are permutations of each other. */
  lemma {:induction false} MembersDecide<T>(a: seq<Object<T>>, b: seq<Object<T>>)
    requires Distinct(a) && Distinct(b) && |a| == |b|
    requires forall i :: 0 <= i < |a| ==> a[i] in b
    ensures multiset(a) == multiset(b)
  {
    hide Distinct;
    if |a| > 0 {
      var k :| 0 <= k < |b| && b[k] == a[0];
      var tail, c := a[1..], b[..k] + b[k + 1..];
      DistinctTail(a);
      DistinctRest(b, k);
      forall i | 0 <= i < |tail|
        ensures tail[i] in c
      {
        assert tail[i] == a[i + 1];
        InRest(b, k, tail[i]);
      }
      MembersDecide(tail, c);
      TailOfMultiset(a);
      DropAt(b, k);
      assert a[0] in multiset(a) && b[k] in multiset(b);
      assert multiset(a) == multiset(tail) + multiset{a[0]};
      assert multiset(b) == multiset(c) + multiset{a[0]};
    } else {
      assert a == b == [];
    }
  }

  lemma {:induction false} DistinctRest<T>(b: seq<Object<T>>, k: nat)
    requires Distinct(b) && k < |b|
    ensures Distinct(b[..k] + b[k + 1..])
  {
    var c := b[..k] + b[k + 1..];
    assert forall i :: 0 <= i < |c| ==> c[i] == b[if i < k then i else i + 1];
  }

  /** Storing a sorted copy back keeps exactly the sorted copy's objects. */
  lemma {:induction false} RankedSame<T>(now: seq<Object<T>>, items: seq<Object<T>>, rank: seq<nat>)
    requires Ranks(now, items, rank) && DistinctNames(items)
    ensures multiset(now) == multiset(items)
  {
    DistinctPairs(items, |items|);
    forall i, j | 0 <= i < j < |now|
      ensures now[i].name != now[j].name
    {
      assert rank[i] != rank[j];
      assert now[i] == items[rank[i]] && now[j] == items[rank[j]];
    }
    forall i | 0 <= i < |now|
      ensures now[i] in items
    {
      assert items[rank[i]] == now[i];
    }
    MembersDecide(now, items);
  }

  /** A gateway that lists the same interfaces answers the lookups of a link the same way. */
  lemma {:induction false} ResolvesReordered(sws: seq<Switch>, a: seq<Gateway>, b: seq<Gateway>, l: Link)
    requires DistinctNames(a) && DistinctNames(b) && forall i :: 0 <= i < |a| ==> a[i] in b
    ensures Resolves(sws, a, l) ==> Resolves(sws, b, l)
  {
    var r := Find(a, l.far.port.device);
    if r.Some? {
      var j :| 0 <= j < |b| && b[j] == a[r.value];
      FindUnique(b, j);
    }
  }

  lemma {:induction false} AllResolveReordered(sws: seq<Switch>, a: seq<Gateway>, b: seq<Gateway>, links: seq<Link>)
    requires DistinctNames(a) && multiset(a) == multiset(b)
    ensures AllResolve(sws, a, links) <==> AllResolve(sws, b, links)
  {
    DistinctReordered(a, b);
    SameMembers(a, b);
    forall k | 0 <= k < |links|
      ensures Resolves(sws, a, links[k]) <==> Resolves(sws, b, links[k])
    {
      ResolvesReordered(sws, a, b, links[k]);
      ResolvesReordered(sws, b, a, links[k]);
    }
  }

  lemma {:induction false} LinkedReordered(sws: seq<Switch>, a: seq<Gateway>, b: seq<Gateway>, links: seq<Link>)
    requires DistinctNames(a) && multiset(a) == multiset(b)
    ensures multiset(AllWithLinks(sws, a, links)) == multiset(AllWithLinks(sws, b, links))
    ensures DistinctNames(AllWithLinks(sws, a, links))
  {
    hide WithLinks;
    DistinctReordered(a, b);
    SameMembers(a, b);
    var x, y := AllWithLinks(sws, a, links), AllWithLinks(sws, b, links);
    DistinctTransfer(a, x);
    DistinctTransfer(b, y);
    DistinctPairs(x, |x|);
    DistinctPairs(y, |y|);
    forall i | 0 <= i < |x|
      ensures x[i] in y
    {
      var j :| 0 <= j < |b| && b[j] == a[i];
      assert y[j] == x[i];
    }
    MembersDecide(x, y);
  }

  lemma {:induction false} SameNewObjects(f: FabConfig, a: Wiring, b: Wiring)
    requires Valid(a) && Reordered(a, b)
    ensures Valid(b)
    ensures NewSwitches(f, a) == NewSwitches(f, b) && NewConns(f, a) == NewConns(f, b)
    ensures NewGatewayLinks(f, a) == NewGatewayLinks(f, b)
    ensures NewGateways(f, a) == NewGateways(f, b)
    ensures Sort(a.controls, ByName) == Sort(b.controls, ByName)
  {
    hide DistinctNames, AssignedSwitches, AssignedConns, AssignedGateways, AllWithLinks, GatewayLinks, Owners;
    DistinctReordered(a.controls, b.controls);
    DistinctReordered(a.switches, b.switches);
    DistinctReordered(a.conns, b.conns);
    DistinctReordered(a.gateways, b.gateways);
    SortOrderIndependent(a.controls, b.controls, ByName);
    SortOrderIndependent(a.switches, b.switches, SwitchRank);
    SortOrderIndependent(a.conns, b.conns, ByName);
    LinkedReordered(NewSwitches(f, a), a.gateways, b.gateways, NewGatewayLinks(f, a));
    LinkedReordered(NewSwitches(f, a), b.gateways, a.gateways, NewGatewayLinks(f, a));
    SortOrderIndependent(LinkedGateways(f, a), LinkedGateways(f, b), ByName);
  }

  /** The objects after a run are the sorted, assigned ones. */
  lemma {:induction false} HydratedObjects(f: FabConfig, w: Wiring)
    requires Valid(w)
    ensures var h := Hydrated(f, w);
      && multiset(h.switches) == multiset(NewSwitches(f, w))
      && multiset(h.conns) == multiset(NewConns(f, w))
      && multiset(h.gateways) == multiset(NewGateways(f, w))
    ensures DistinctNames(NewSwitches(f, w)) && DistinctNames(NewConns(f, w)) && DistinctNames(NewGateways(f, w))
  {
    hide Ranks, Hydrated;
    NewDistinct(f, w);
    var s := SwitchRanks(f, w);
    RankedSame(Hydrated(f, w).switches, NewSwitches(f, w), s);
    var c := ConnRanks(f, w);
    RankedSame(Hydrated(f, w).conns, NewConns(f, w), c);
    var g := GatewayRanks(f, w);
    RankedSame(Hydrated(f, w).gateways, NewGateways(f, w), g);
  }

  lemma {:induction false} NewDistinct(f: FabConfig, w: Wiring)
    requires Valid(w)
    ensures DistinctNames(NewSwitches(f, w)) && DistinctNames(NewConns(f, w)) && DistinctNames(NewGateways(f, w))
  {
    hide AssignedVtep, AssignedASN, LinksAt, WithLinks;
    var linked := LinkedGateways(f, w);
    DistinctTransfer(w.gateways, linked);
    SortSorts(w.switches, SwitchRank);
    SortSorts(w.conns, ByName);
    SortSorts(linked, ByName);
    DistinctTransfer(Sort(w.switches, SwitchRank), NewSwitches(f, w));
    DistinctTransfer(Sort(w.conns, ByName), NewConns(f, w));
    DistinctTransfer(Sort(linked, ByName), NewGateways(f, w));
  }

  /** Reordering the listed objects gives the same objects after the run, and the same success. */
  lemma {:induction false} OrderIndependent(f: FabConfig, a: Wiring, b: Wiring)
    requires Valid(a) && Reordered(a, b)
    ensures Hydratable(f, a) <==> Hydratable(f, b)
    ensures Reordered(Hydrated(f, a), Hydrated(f, b)) && Hydrated(f, a).controls == Hydrated(f, b).controls
  {
    hide NewSwitches, NewConns, NewGatewayLinks, NewGateways, LinkedGateways, AllResolve, Valid, DistinctNames;
    SameNewObjects(f, a, b);
    HydratedObjects(f, a);
    HydratedObjects(f, b);
    SameSizes(a, b);
    GatewaysResolve(f, a, b);
    RolesReordered(a.switches, b.switches);
    RolesReordered(b.switches, a.switches);
  }

  lemma {:induction false} SameSizes(a: Wiring, b: Wiring)
    requires Reordered(a, b)
    ensures |a.controls| == |b.controls| && |a.gateways| == |b.gateways|
  {
    assert |a.controls| == |multiset(a.controls)| == |multiset(b.controls)| == |b.controls|;
    assert |a.gateways| == |multiset(a.gateways)| == |multiset(b.gateways)| == |b.gateways|;
  }

  lemma {:induction false} GatewaysResolve(f: FabConfig, a: Wiring, b: Wiring)
    requires Valid(a) && Reordered(a, b)
    ensures AllResolve(NewSwitches(f, a), a.gateways, NewGatewayLinks(f, a)) <==>
            AllResolve(NewSwitches(f, a), b.gateways, NewGatewayLinks(f, a))
  {
    AllResolveReordered(NewSwitches(f, a), a.gateways, b.gateways, NewGatewayLinks(f, a));
  }

  lemma {:induction false} RolesReordered(a: seq<Switch>, b: seq<Switch>)
    requires multiset(a) == multiset(b)
    ensures RolesValid(a) ==> RolesValid(b)
  {
    SameMembers(a, b);
  }
}
