/** The addresses and numbers that hosts, switches and links have after hydration, field by field. */
module HydratedAddresses {
  import opened Net
  import opened WiringModel
  import opened Store
  import opened Sorting
  import opened Ranking
  import opened Allocator
  import opened HydrationShape
  import opened HydrationFits
  import Checker
  import FitHosts
  import FitSwitches
  import FitLinks
  import OrderIndependence

  predicate At(t: Text, addr: nat, bits: nat) {
    t.Cidr? && t.addr == addr && t.bits == bits
  }

  /** The k-th host has the k-th address behind the four that follow the VIP, and the k-th pair of the dummy subnet. */
  predicate HostHas(f: FabConfig, h: Host, k: nat) {
    && At(h.spec.mgmt, f.vip + 4 + k, f.mgmt.bits)
    && At(h.spec.dummy, Masked(f.dummy) + 2 * k, 31)
  }

  lemma {:induction false} HostAt(f: FabConfig, w: Wiring, h: Host, k: nat)
    requires Fits(f, w) && k < |w.controls| + |w.nodes|
    ensures HostHas(f, AssignedHost(f, h, k), k) && AssignedHost(f, h, k).name == h.name
  {
    hide Fits;
    MgmtBound(f, w);
    FitHosts.MgmtHolds(f, k);
    FitHosts.PoolHolds(f.dummy, 2 * k, 31);
    ContainsRange(f.dummy, f.dummy.addr);
  }

  lemma {:induction false} MgmtBound(f: FabConfig, w: Wiring)
    requires Fits(f, w) && |w.controls| + |w.nodes| + |w.switches| > 0
    ensures f.vip + 4 + |w.controls| + |w.nodes| + |w.switches| - 1 < f.dhcpStart && 2 * (|w.controls| + |w.nodes|) <= Size(f.dummy)
    ensures Checker.ConfigOk(f) && V4(f.vip) == Next(V4(Masked(f.mgmt)))
  {
  }

  /** Controls in the order of their names, then nodes as they are listed. */
  lemma {:induction false} HostsAddressed(f: FabConfig, w: Wiring)
    requires Valid(w) && Fits(f, w)
    ensures var h := Hydrated(f, w);
      && |h.controls| == |w.controls| && |h.nodes| == |w.nodes|
      && (forall i, j :: 0 <= i < j < |h.controls| ==> h.controls[i].name < h.controls[j].name)
      && (forall k :: 0 <= k < |w.controls| ==> HostHas(f, h.controls[k], k))
      && (forall k :: 0 <= k < |w.nodes| ==> h.nodes[k].name == w.nodes[k].name && HostHas(f, h.nodes[k], |w.controls| + k))
  {
    hide Fits, HostHas, AssignedHost, NewSwitches, NewConns, NewGateways, LinkedGateways;
    var h, sorted := Hydrated(f, w), Sort(w.controls, ByName);
    SortSorts(w.controls, ByName);
    forall k | 0 <= k < |w.controls|
      ensures HostHas(f, h.controls[k], k) && h.controls[k].name == sorted[k].name
    {
      HostAt(f, w, sorted[k], k);
    }
    forall k | 0 <= k < |w.nodes|
      ensures HostHas(f, h.nodes[k], |w.controls| + k) && h.nodes[k].name == w.nodes[k].name
    {
      HostAt(f, w, w.nodes[k], |w.controls| + k);
    }
    forall i, j | 0 <= i < j < |h.controls|
      ensures h.controls[i].name < h.controls[j].name
    {
      assert Before(sorted[i], sorted[j], ByName);
    }
  }

  // ---- Switches ---------------------------------------------------------------------------------------------

  /** Spines come first, then leaves by the name of their role; switches of one role by their own names. */
  predicate Precedes(a: Switch, b: Switch) {
    match a.spec.role
    case Spine => b.spec.role == Spine ==> a.name < b.name
    case BorderLeaf => b.spec.role == MixedLeaf || b.spec.role == ServerLeaf || (b.spec.role == BorderLeaf && a.name < b.name)
    case MixedLeaf => b.spec.role == ServerLeaf || (b.spec.role == MixedLeaf && a.name < b.name)
    case ServerLeaf => b.spec.role == ServerLeaf && a.name < b.name
    case _ => false
  }

  /** The r-th switch has the r-th management address behind the hosts, and the r-th protocol address. */
  predicate SwitchHas(f: FabConfig, hosts: nat, s: Switch, r: nat) {
    && At(s.spec.ip, f.vip + 4 + hosts + r, f.mgmt.bits)
    && At(s.spec.protocolIP, Masked(f.protocol) + r, 32)
    && (s.spec.role == Spine ==> s.spec.asn == f.spineASN)
  }

  lemma {:induction false} OwnersGrowTo(sws: seq<Switch>, i: nat, n: nat)
    requires i <= n <= |sws|
    ensures Owners(sws, i) <= Owners(sws, n)
    ensures i < n && IsLeaf(sws[i]) && Leads(sws, i) ==> Owners(sws, i) < Owners(sws, n)
  {
    if i < n {
      OwnersGrowTo(sws, i, n - 1);
    }
  }

  /** A leaf's ASN and VTEP address stand at one offset in their pools. */
  predicate LeafHas(f: FabConfig, s: Switch, k: nat) {
    s.spec.asn == f.leafASNStart + k && At(s.spec.vtep, Masked(f.vtep) + k, 32)
  }

  lemma {:induction false} SwitchAtRank(f: FabConfig, w: Wiring, sws: seq<Switch>, r: nat)
    requires Valid(w) && Fits(f, w) && sws == Sort(w.switches, SwitchRank) && r < |sws|
    ensures SwitchHas(f, |w.controls| + |w.nodes|, AssignedSwitch(f, |w.controls| + |w.nodes|, sws, r), r)
  {
    hide WellFormed, PoolsFit, AssignedVtep, RolesValid;
    MgmtBound(f, w);
    SpinesOnly(f, w);
    FitHosts.MgmtHolds(f, |w.controls| + |w.nodes| + r);
    FitHosts.PoolHolds(f.protocol, r, 32);
    ProtoBound(f, w);
    ContainsRange(f.mgmt, f.dhcpStart);
    SpineLeads(f, w, sws, r);
  }

  lemma {:induction false} ProtoBound(f: FabConfig, w: Wiring)
    requires Fits(f, w)
    ensures |w.switches| + |w.gateways| <= Size(f.protocol) && Masked(f.protocol) + Size(f.protocol) <= ADDRS
  {
    ContainsRange(f.protocol, f.protocol.addr);
  }

  lemma {:induction false} SpinesOnly(f: FabConfig, w: Wiring)
    requires Valid(w) && Fits(f, w)
    ensures var sws := Sort(w.switches, SwitchRank);
      FitSwitches.SpinesFirst(sws) && RolesValid(sws) && FitSwitches.LeafLed(sws)
  {
    SortedSpinesFirst(w.switches);
  }

  lemma {:induction false} SpineLeads(f: FabConfig, w: Wiring, sws: seq<Switch>, r: nat)
    requires sws == Sort(w.switches, SwitchRank) && r < |sws| && FitSwitches.SpinesFirst(sws) && RolesValid(sws)
    ensures sws[r].spec.role == Spine ==> AssignedASN(f, sws, r) == f.spineASN
  {
    LeaderLeads(sws, r);
    assert ValidRole(sws[Leader(sws, r)]);
  }

  /** Every switch has a place in the order, and its addresses stand at that place. */
  lemma {:induction false} SwitchesAddressed(f: FabConfig, w: Wiring) returns (place: seq<nat>)
    requires Valid(w) && Fits(f, w)
    ensures var h := Hydrated(f, w);
      && |place| == |h.switches| == |w.switches|
      && (forall i :: 0 <= i < |w.switches| ==> place[i] < |w.switches| && h.switches[i].name == w.switches[i].name)
      && (forall i :: 0 <= i < |w.switches| ==> SwitchHas(f, |w.controls| + |w.nodes|, h.switches[i], place[i]))
      && (forall i, j :: 0 <= i < |w.switches| && 0 <= j < |w.switches| && i != j ==>
           (place[i] < place[j] <==> Precedes(h.switches[i], h.switches[j])))
  {
    hide Fits, SwitchHas, Hydrated, Ranks, AssignedSwitch, DistinctNames, Sorted, Precedes;
    var hosts, sws, h := |w.controls| + |w.nodes|, Sort(w.switches, SwitchRank), Hydrated(f, w);
    SortSorts(w.switches, SwitchRank);
    HydratedKeepsShape(f, w);
    place := SwitchRanks(f, w);
    RankedAs(h.switches, AssignedSwitches(f, hosts, sws), place);
    SpinesOnly(f, w);
    forall i | 0 <= i < |w.switches|
      ensures SwitchHas(f, hosts, h.switches[i], place[i]) && h.switches[i].name == w.switches[i].name
      ensures SameSwitch(sws[place[i]], h.switches[i])
    {
      SwitchAtRank(f, w, sws, place[i]);
      assert SameSwitch(w.switches[i], h.switches[i]);
    }
    forall i, j | 0 <= i < |w.switches| && 0 <= j < |w.switches| && i != j
      ensures place[i] < place[j] <==> Precedes(h.switches[i], h.switches[j])
    {
      PlacesOrdered(sws, place[i], place[j], h.switches[i], h.switches[j]);
    }
  }

  lemma {:induction false} RankedAs<T>(now: seq<Object<T>>, items: seq<Object<T>>, rank: seq<nat>)
    requires Ranks(now, items, rank)
    ensures |rank| == |now| == |items|
    ensures forall i :: 0 <= i < |rank| ==> rank[i] < |items| && now[i] == items[rank[i]]
    ensures forall i, j :: 0 <= i < |rank| && 0 <= j < |rank| && i != j ==> rank[i] != rank[j]
  {
  }

  lemma {:induction false} PlacesOrdered(sws: seq<Switch>, r: nat, q: nat, a: Switch, b: Switch)
    requires Sorted(sws, SwitchRank) && RolesValid(sws) && r < |sws| && q < |sws| && r != q
    requires SameSwitch(sws[r], a) && SameSwitch(sws[q], b)
    ensures r < q <==> Precedes(a, b)
  {
    assert ValidRole(sws[r]) && ValidRole(sws[q]);
    if r < q {
      assert Before(sws[r], sws[q], SwitchRank);
    } else {
      assert Before(sws[q], sws[r], SwitchRank);
    }
  }

  // ---- Leaves -------------------------------------------------------------------------------------------------

  lemma {:induction false} LeafAtRank(f: FabConfig, w: Wiring, sws: seq<Switch>, r: nat)
    requires Valid(w) && Fits(f, w) && sws == Sort(w.switches, SwitchRank) && r < |sws| && IsLeaf(sws[r])
    ensures LeafHas(f, AssignedSwitch(f, |w.controls| + |w.nodes|, sws, r), Owners(sws, Leader(sws, r)))
    ensures Owners(sws, Leader(sws, r)) < OwnerCount(w)
  {
    hide WellFormed, PoolsFit, RolesValid, FitSwitches.SpinesFirst, FitSwitches.LeafLed;
    SpinesOnly(f, w);
    var l := Leader(sws, r);
    LeaderLeads(sws, r);
    LedByLeaf(sws, r);
    OwnersGrowTo(sws, l, |sws|);
    LeafPools(f, w);
    FitHosts.PoolHolds(f.vtep, Owners(sws, l), 32);
    StepsWithoutWrap(f.leafASNStart, Owners(sws, l));
  }

  lemma {:induction false} LedByLeaf(sws: seq<Switch>, r: nat)
    requires FitSwitches.LeafLed(sws) && r < |sws| && IsLeaf(sws[r])
    ensures IsLeaf(sws[Leader(sws, r)])
  {
  }

  lemma {:induction false} LeafPools(f: FabConfig, w: Wiring)
    requires Fits(f, w)
    ensures OwnerCount(w) + |w.gateways| <= Size(f.vtep)
    ensures OwnerCount(w) > 0 ==> f.leafASNStart > 0 && f.leafASNStart + OwnerCount(w) - 1 <= f.leafASNEnd
  {
  }

  predicate Standalone(s: Switch) {
    IsLeaf(s) && !s.spec.red.MCLAG?
  }

  /** Leaves take consecutive ASNs and VTEP addresses, one offset a group; standalone leaves in their order. */
  lemma {:induction false} LeavesNumbered(f: FabConfig, w: Wiring) returns (offset: seq<nat>)
    requires Valid(w) && Fits(f, w)
    ensures var h := Hydrated(f, w);
      && |offset| == |h.switches| == |w.switches|
      && (forall i :: 0 <= i < |w.switches| && IsLeaf(h.switches[i]) ==> LeafHas(f, h.switches[i], offset[i]) && offset[i] < OwnerCount(w))
      && (forall i, j :: 0 <= i < |w.switches| && 0 <= j < |w.switches| && i != j && Standalone(h.switches[i]) && Standalone(h.switches[j]) ==>
           (Precedes(h.switches[i], h.switches[j]) ==> offset[i] < offset[j]))
  {
    hide Fits, LeafHas, Hydrated, Ranks, AssignedSwitch, DistinctNames, Sorted, Precedes, Owners, Leader;
    var hosts, sws, h := |w.controls| + |w.nodes|, Sort(w.switches, SwitchRank), Hydrated(f, w);
    SortSorts(w.switches, SwitchRank);
    var place := SwitchRanks(f, w);
    RankedAs(h.switches, AssignedSwitches(f, hosts, sws), place);
    SpinesOnly(f, w);
    forall i | 0 <= i < |w.switches|
      ensures SameSwitch(sws[place[i]], h.switches[i])
    {
      HydratedKeepsShape(f, w);
      assert SameSwitch(w.switches[i], h.switches[i]);
    }
    offset := seq(|w.switches|, i requires 0 <= i < |w.switches| => Owners(sws, Leader(sws, place[i])));
    forall i | 0 <= i < |w.switches| && IsLeaf(h.switches[i])
      ensures LeafHas(f, h.switches[i], offset[i]) && offset[i] < OwnerCount(w)
    {
      LeafAtRank(f, w, sws, place[i]);
    }
    forall i, j | 0 <= i < |w.switches| && 0 <= j < |w.switches| && i != j
        && Standalone(h.switches[i]) && Standalone(h.switches[j]) && Precedes(h.switches[i], h.switches[j])
      ensures offset[i] < offset[j]
    {
      PlacesOrdered(sws, place[i], place[j], h.switches[i], h.switches[j]);
      StandaloneLeads(sws, place[i]);
      StandaloneLeads(sws, place[j]);
      OwnersGrowTo(sws, place[i], place[j]);
    }
  }

  lemma {:induction false} StandaloneLeads(sws: seq<Switch>, r: nat)
    requires r < |sws| && !sws[r].spec.red.MCLAG?
    ensures Leads(sws, r) && Leader(sws, r) == r
  {
  }

  // ---- Links ----------------------------------------------------------------------------------------------------

  /** Link number m: the near end at the even address of the m-th pair, the far end at the odd one. */
  predicate LinkHas(f: FabConfig, l: Link, m: nat) {
    At(l.near.ip, Masked(f.fabric) + 2 * m, 31) && At(l.far.ip, Masked(f.fabric) + 2 * m + 1, 31)
  }

  /** The connection as it was, its links numbered from the given one on; connections of other kinds are left alone. */
  predicate ConnHas(f: FabConfig, was: Conn, now: Conn, first: nat) {
    && now.name == was.name && now.spec.kind == was.spec.kind && |now.spec.links| == |was.spec.links|
    && (was.spec.kind == OtherConn ==> now == was)
    && (was.spec.kind != OtherConn ==> forall k :: 0 <= k < |now.spec.links| ==> LinkHas(f, now.spec.links[k], first + k))
  }

  /** The numbers of a connection's links come before those of a connection with a larger name. */
  predicate NumberedByName(a: Conn, first: nat, b: Conn, next: nat) {
    a.spec.kind != OtherConn && a.name < b.name ==> first + |a.spec.links| <= next
  }

  /** The number of each connection's first link. */
  lemma {:induction false} LinksAddressed(f: FabConfig, w: Wiring) returns (first: seq<nat>)
    requires Valid(w) && Fits(f, w)
    ensures |first| == |Hydrated(f, w).conns| == |w.conns|
    ensures forall c :: 0 <= c < |w.conns| ==> ConnHas(f, w.conns[c], Hydrated(f, w).conns[c], first[c])
    ensures forall c, d :: 0 <= c < |w.conns| && 0 <= d < |w.conns| ==> NumberedByName(w.conns[c], first[c], w.conns[d], first[d])
  {
    hide Fits, ConnHas, Hydrated, Valid, AssignedConn, Sorted, LinkCount, NumberedByName;
    var sorted := Sort(w.conns, ByName);
    var place := ConnsPlaced(f, w);
    first := seq(|w.conns|, c requires 0 <= c < |w.conns| => LinkCount(sorted, place[c]));
    forall c | 0 <= c < |w.conns|
      ensures ConnHas(f, w.conns[c], Hydrated(f, w).conns[c], first[c])
    {
      ConnAt(f, w, sorted, place[c]);
    }
    forall c, d | 0 <= c < |w.conns| && 0 <= d < |w.conns|
      ensures NumberedByName(w.conns[c], first[c], w.conns[d], first[d])
    {
      CountBehind(sorted, place[c], place[d]);
    }
  }

  lemma {:induction false} CountBehind(sorted: seq<Conn>, r: nat, q: nat)
    requires r < |sorted| && q < |sorted| && Sorted(sorted, ByName)
    ensures NumberedByName(sorted[r], LinkCount(sorted, r), sorted[q], LinkCount(sorted, q))
  {
    if sorted[r].name < sorted[q].name {
      NamesPlaced(sorted, r, q);
      FitLinks.CountGrows(sorted, r, q);
    }
  }

  lemma {:induction false} ConnsPlaced(f: FabConfig, w: Wiring) returns (place: seq<nat>)
    requires Valid(w)
    ensures var sorted, h := Sort(w.conns, ByName), Hydrated(f, w);
      && |place| == |h.conns| == |w.conns| == |sorted| && Sorted(sorted, ByName)
      && forall c :: 0 <= c < |place| ==> place[c] < |sorted| && h.conns[c] == AssignedConn(f, sorted, place[c]) && sorted[place[c]] == w.conns[c]
  {
    hide Hydrated, Ranks, AssignedConn, DistinctNames, Sorted;
    var sorted, h := Sort(w.conns, ByName), Hydrated(f, w);
    SortSorts(w.conns, ByName);
    ConnNames(f, sorted);
    place := StoredBack(w.conns, sorted, NewConns(f, w));
    HydratedConns(f, w);
    RankedAs(h.conns, NewConns(f, w), place);
  }

  lemma {:induction false} HydratedConns(f: FabConfig, w: Wiring)
    ensures Hydrated(f, w).conns == PutAll(w.conns, NewConns(f, w))
  {
  }

  lemma {:induction false} ConnNames(f: FabConfig, conns: seq<Conn>)
    ensures forall i :: 0 <= i < |conns| ==> AssignedConns(f, conns)[i].name == conns[i].name
  {
  }

  lemma {:induction false} NamesPlaced(sorted: seq<Conn>, r: nat, q: nat)
    requires Sorted(sorted, ByName) && r < |sorted| && q < |sorted| && sorted[r].name < sorted[q].name
    ensures r < q
  {
    forall i, j | 0 <= i < j < |sorted|
      ensures sorted[i].name < sorted[j].name
    {
      assert Before(sorted[i], sorted[j], ByName);
    }
  }

  lemma {:induction false} ConnAt(f: FabConfig, w: Wiring, sorted: seq<Conn>, c: nat)
    requires Valid(w) && Fits(f, w) && sorted == Sort(w.conns, ByName) && c < |sorted|
    ensures ConnHas(f, sorted[c], AssignedConn(f, sorted, c), LinkCount(sorted, c))
  {
    hide WellFormed, PoolsFit;
    if sorted[c].spec.kind != OtherConn {
      LinkPool(f, w);
      FitLinks.CountGrows(sorted, c, |sorted|);
      var m, links := LinkCount(sorted, c), sorted[c].spec.links;
      forall k | 0 <= k < |links|
        ensures LinkHas(f, LinksAt(f, links, m)[k], m + k)
      {
        LinkAtNumber(f, links[k], m + k);
      }
    }
  }

  lemma {:induction false} LinkPool(f: FabConfig, w: Wiring)
    requires Valid(w) && Fits(f, w)
    ensures 2 * LinkCount(Sort(w.conns, ByName), |w.conns|) <= Size(f.fabric)
  {
    CountPermuted(Sort(w.conns, ByName), w.conns);
  }

  lemma {:induction false} LinkAtNumber(f: FabConfig, l: Link, m: nat)
    requires 2 * m + 2 <= Size(f.fabric)
    ensures LinkHas(f, LinkAt(f, l, m), m)
  {
    FitHosts.PoolHolds(f.fabric, 2 * m, 31);
    FitHosts.PoolHolds(f.fabric, 2 * m + 1, 31);
  }
}
