/** When hydration works: the allocator and the checker agree exactly when every pool is large enough. */
module HydrationFits {
  import opened Net
  import opened WiringModel
  import opened Store
  import opened Sorting
  import opened Ranking
  import opened Checker
  import opened Allocator
  import opened HydrationShape
  import opened FitHosts
  import opened FitSwitches
  import opened FitLinks
  import opened FitGateways

  // ---- What the gateway links need ---------------------------------------------------

  predicate Named<T>(l: seq<Object<T>>, name: Name) {
    exists i :: 0 <= i < |l| && l[i].name == name
  }

  lemma {:induction false} FindIff<T>(l: seq<Object<T>>, name: Name)
    ensures Find(l, name).Some? <==> Named(l, name)
  {
    FindFromMisses(l, name, 0);
  }

  /** Both ports of a gateway link exist. */
  predicate LinkKnown(w: Wiring, l: Link) {
    && Named(w.switches, l.near.port.device)
    && Find(w.gateways, l.far.port.device).Some?
    && l.far.port.port in w.gateways[Find(w.gateways, l.far.port.device).value].spec.interfaces
  }

  predicate ConnKnown(w: Wiring, c: Conn) {
    c.spec.kind == GatewayConn ==> forall i :: 0 <= i < |c.spec.links| ==> LinkKnown(w, c.spec.links[i])
  }

  predicate ConnsKnown(w: Wiring, conns: seq<Conn>) {
    KnownUpTo(w, conns, |conns|)
  }

  predicate KnownUpTo(w: Wiring, conns: seq<Conn>, n: nat)
    requires n <= |conns|
  {
    forall c :: 0 <= c < n ==> ConnKnown(w, conns[c])
  }

  /** The switches a gateway link is resolved against have the names of the wiring's switches. */
  ghost predicate SameNames(items: seq<Switch>, sws: seq<Switch>) {
    forall name: Name :: Named(items, name) <==> Named(sws, name)
  }

  predicate AsnsSet(items: seq<Switch>) {
    forall i :: 0 <= i < |items| ==> items[i].spec.asn != 0
  }

  lemma {:induction false} LinkResolves(f: FabConfig, w: Wiring, items: seq<Switch>, l: Link, m: nat)
    requires SameNames(items, w.switches)
    ensures Resolves(items, w.gateways, LinkAt(f, l, m)) ==> LinkKnown(w, l)
    ensures LinkKnown(w, l) && AsnsSet(items) && 2 * m < Size(f.fabric) ==> Resolves(items, w.gateways, LinkAt(f, l, m))
  {
    FindIff(items, l.near.port.device);
    PoolHolds(f.fabric, 2 * m, 31);
    assert Named(items, l.near.port.device) <==> Named(w.switches, l.near.port.device);
  }

  lemma {:induction false} ConnResolvesIff(f: FabConfig, w: Wiring, items: seq<Switch>, conns: seq<Conn>, c: nat)
    requires SameNames(items, w.switches) && c < |conns|
    ensures AllResolve(items, w.gateways, OwnGatewayLinks(AssignedConn(f, conns, c))) ==> ConnKnown(w, conns[c])
    ensures ConnKnown(w, conns[c]) && AsnsSet(items) && LinksFit(f, LinkCount(conns, c + 1)) ==>
      AllResolve(items, w.gateways, OwnGatewayLinks(AssignedConn(f, conns, c)))
  {
    if conns[c].spec.kind == GatewayConn {
      var m, links := LinkCount(conns, c), conns[c].spec.links;
      var own := OwnGatewayLinks(AssignedConn(f, conns, c));
      assert own == LinksAt(f, links, m);
      assert LinkCount(conns, c + 1) == m + |links|;
      forall i | 0 <= i < |links|
        ensures Resolves(items, w.gateways, own[i]) ==> LinkKnown(w, links[i])
        ensures LinkKnown(w, links[i]) && AsnsSet(items) && LinksFit(f, m + |links|) ==> Resolves(items, w.gateways, own[i])
      {
        LinkResolves(f, w, items, links[i], m + i);
      }
    }
  }

  lemma {:induction false} LinksResolveIff(f: FabConfig, w: Wiring, items: seq<Switch>, conns: seq<Conn>, n: nat)
    requires SameNames(items, w.switches) && n <= |conns|
    ensures AllResolve(items, w.gateways, GatewayLinks(AssignedConns(f, conns), n)) ==> KnownUpTo(w, conns, n)
    ensures KnownUpTo(w, conns, n) && AsnsSet(items) && LinksFit(f, LinkCount(conns, n)) ==>
      AllResolve(items, w.gateways, GatewayLinks(AssignedConns(f, conns), n))
  {
    hide Resolves, ConnKnown, AssignedConn, Addressed, OwnGatewayLinks;
    if n > 0 {
      var target := AssignedConns(f, conns);
      LinksResolveIff(f, w, items, conns, n - 1);
      ConnResolvesIff(f, w, items, conns, n - 1);
      assert target[n - 1] == AssignedConn(f, conns, n - 1);
      ResolveConcat(items, w.gateways, GatewayLinks(target, n - 1), OwnGatewayLinks(target[n - 1]));
      CountGrows(conns, n - 1, n);
    }
  }

  /** Gateway links resolve iff their ports exist, once switches have ASNs and the fabric pool holds all links. */
  lemma {:induction false} ResolveIff(f: FabConfig, w: Wiring)
    requires Valid(w)
    ensures AllResolve(NewSwitches(f, w), w.gateways, NewGatewayLinks(f, w)) ==> ConnsKnown(w, w.conns)
    ensures ConnsKnown(w, w.conns) && AsnsSet(NewSwitches(f, w)) && LinksFit(f, LinkCount(w.conns, |w.conns|)) ==>
      AllResolve(NewSwitches(f, w), w.gateways, NewGatewayLinks(f, w))
  {
    var items, sorted := NewSwitches(f, w), Sort(w.conns, ByName);
    NamesKept(f, w);
    LinksResolveIff(f, w, items, sorted, |sorted|);
    CountPermuted(sorted, w.conns);
    SameMembers(sorted, w.conns);
    KnownMembers(w, sorted, w.conns);
    KnownMembers(w, w.conns, sorted);
  }

  lemma {:induction false} KnownMembers(w: Wiring, a: seq<Conn>, b: seq<Conn>)
    requires forall i :: 0 <= i < |b| ==> b[i] in a
    ensures ConnsKnown(w, a) ==> ConnsKnown(w, b)
  {
  }

  lemma {:induction false} NamesKept(f: FabConfig, w: Wiring)
    ensures SameNames(NewSwitches(f, w), w.switches)
  {
    var sorted, items := Sort(w.switches, SwitchRank), NewSwitches(f, w);
    SameMembers(sorted, w.switches);
    forall name: Name
      ensures Named(items, name) <==> Named(w.switches, name)
    {
      if Named(items, name) {
        var i :| 0 <= i < |items| && items[i].name == name;
        assert sorted[i] in w.switches;
      }
      if Named(w.switches, name) {
        var i :| 0 <= i < |w.switches| && w.switches[i].name == name;
        var j :| 0 <= j < |sorted| && sorted[j] == w.switches[i];
        assert items[j].name == name;
      }
    }
  }

  // ---- Counting links in any order -----------------------------------------------------

  lemma {:induction false} CountConcat(a: seq<Conn>, b: seq<Conn>, n: nat)
    requires n <= |b|
    ensures LinkCount(a + b, |a| + n) == LinkCount(a, |a|) + LinkCount(b, n)
  {
    if n > 0 {
      CountConcat(a, b, n - 1);
    } else {
      CountPrefix(a, b, |a|);
    }
  }

  lemma {:induction false} CountPrefix(a: seq<Conn>, b: seq<Conn>, n: nat)
    requires n <= |a|
    ensures LinkCount(a + b, n) == LinkCount(a, n)
  {
    if n > 0 {
      CountPrefix(a, b, n - 1);
    }
  }

  lemma {:induction false} CountWithout(b: seq<Conn>, k: nat)
    requires k < |b|
    ensures LinkCount(b, |b|) == LinkCount(b[..k] + b[k + 1..], |b| - 1) + |Addressed(b[k])|
  {
    var head, tail := b[..k], b[k + 1..];
    assert b == (head + [b[k]]) + tail;
    CountConcat(head + [b[k]], tail, |tail|);
    CountConcat(head, [b[k]], 1);
    CountConcat(head, tail, |tail|);
    assert LinkCount([b[k]], 1) == LinkCount([b[k]], 0) + |Addressed(b[k])|;
  }

  lemma {:induction false} CountPermuted(a: seq<Conn>, b: seq<Conn>)
    requires multiset(a) == multiset(b)
    ensures |a| == |b| && LinkCount(a, |a|) == LinkCount(b, |b|)
    decreases |a|
  {
    hide LinkCount;
    assert |a| == |multiset(a)| == |multiset(b)| == |b|;
    if |a| > 0 {
      assert a[0] in multiset(a);
      var k :| 0 <= k < |b| && b[k] == a[0];
      CountWithout(a, 0);
      CountWithout(b, k);
      DropAt(a, 0);
      DropAt(b, k);
      CountPermuted(a[..0] + a[1..], b[..k] + b[k + 1..]);
    }
  }

  lemma {:induction false} CountSame(a: seq<Conn>, b: seq<Conn>, n: nat)
    requires ConnsSame(a, b) && n <= |a|
    ensures LinkCount(a, n) == LinkCount(b, n)
  {
    if n > 0 {
      CountSame(a, b, n - 1);
      assert SameConn(a[n - 1], b[n - 1]);
    }
  }

  // ---- One part at a time --------------------------------------------------------------

  ghost predicate Addressable(f: FabConfig) {
    ConfigOk(f) && V4(f.vip) == Next(V4(Masked(f.mgmt)))
  }

  lemma {:induction false} HostPart(f: FabConfig, w: Wiring)
    requires Addressable(f)
    ensures var h := Hosts(Hydrated(f, w));
      && |h| == |w.controls| + |w.nodes| && HostsAssigned(f, h)
      && (HostsSound(f, h) && HostsSet(h) <==> MgmtFits(f, |h|) && DummyFits(f, |h|))
      && TakenByHosts(f, |h|, {f.vip} + Used(HostMgmt(h)))
  {
    hide HostsSound, HostsSet, TakenByHosts, MgmtFits, DummyFits, NewSwitches, NewConns, NewGateways, LinkedGateways, ConfigOk;
    var h := Hosts(Hydrated(f, w));
    assert HostsAssigned(f, h);
    HostsIff(f, h);
    HostsTake(f, h);
  }

  lemma {:induction false} SortedSpinesFirst(sws: seq<Switch>)
    requires DistinctNames(sws) && RolesValid(sws)
    ensures SpinesFirst(Sort(sws, SwitchRank)) && RolesValid(Sort(sws, SwitchRank))
  {
    SortSorts(sws, SwitchRank);
    RolesSorted(sws);
    var s := Sort(sws, SwitchRank);
    forall i, j | 0 <= i < j < |s| && s[j].spec.role == Spine
      ensures s[i].spec.role == Spine
    {
      assert Before(s[i], s[j], SwitchRank);
    }
  }

  lemma {:induction false} SwitchNamesKept(f: FabConfig, hosts: nat, sws: seq<Switch>)
    ensures forall i :: 0 <= i < |sws| ==> AssignedSwitches(f, hosts, sws)[i].name == sws[i].name
  {
    hide AssignedASN, AssignedVtep, MgmtAt, ProtoAt;
  }

  lemma {:induction false} SwitchRanks(f: FabConfig, w: Wiring) returns (rank: seq<nat>)
    requires Valid(w)
    ensures Ranks(Hydrated(f, w).switches, AssignedSwitches(f, |w.controls| + |w.nodes|, Sort(w.switches, SwitchRank)), rank)
    ensures forall i :: 0 <= i < |rank| ==> Sort(w.switches, SwitchRank)[rank[i]] == w.switches[i]
  {
    hide PutAll, Ranks, DistinctNames, Sorted, AssignedSwitch;
    SortSorts(w.switches, SwitchRank);
    SwitchNamesKept(f, |w.controls| + |w.nodes|, Sort(w.switches, SwitchRank));
    var sorted := Sort(w.switches, SwitchRank);
    var items := AssignedSwitches(f, |w.controls| + |w.nodes|, sorted);
    rank := StoredBack(w.switches, sorted, items);
    assert Hydrated(f, w).switches == PutAll(w.switches, items);
  }

  lemma {:induction false} SwitchPart(f: FabConfig, w: Wiring, taken: set<U32>)
    requires Valid(w) && Addressable(f) && RolesValid(w.switches)
    requires TakenByHosts(f, |w.controls| + |w.nodes|, taken)
    ensures var now := Hydrated(f, w).switches;
      SwitchesSound(f, taken, now) && SwitchesSet(now) <==> SwitchesFit(f, |w.controls| + |w.nodes|, Sort(w.switches, SwitchRank))
  {
    hide SwitchesSound, SwitchesSet, SwitchesFit, TakenByHosts, SpinesFirst, RolesValid, Ranks, ConfigOk, Hydrated, AssignedSwitches, DistinctNames;
    SortedSpinesFirst(w.switches);
    var rank := SwitchRanks(f, w);
    SwitchesIff(f, |w.controls| + |w.nodes|, Sort(w.switches, SwitchRank), Hydrated(f, w).switches, rank, taken);
  }

  lemma {:induction false} ConnRanks(f: FabConfig, w: Wiring) returns (rank: seq<nat>)
    requires Valid(w)
    ensures Ranks(Hydrated(f, w).conns, NewConns(f, w), rank)
  {
    SortSorts(w.conns, ByName);
    rank := StoredBack(w.conns, Sort(w.conns, ByName), NewConns(f, w));
  }

  lemma {:induction false} LinkPart(f: FabConfig, w: Wiring)
    requires Valid(w)
    ensures var l := AllLinks(Hydrated(f, w).conns);
      && |l| == LinkCount(w.conns, |w.conns|)
      && (LinksSound(f, l) && LinksSet(l) <==> LinksFit(f, LinkCount(w.conns, |w.conns|)))
  {
    var rank := ConnRanks(f, w);
    var sorted, now, target := Sort(w.conns, ByName), Hydrated(f, w).conns, NewConns(f, w);
    LinksIff(f, sorted, now, rank);
    CountPermuted(sorted, w.conns);
    assert target[..|target|] == target;
    ConnsKeepShape(f, w.conns, now);
    CountSame(w.conns, now, |now|);
    LinksCounted(now, |now|);
  }

  /** No switch's protocol address reaches those of the gateways, and no leaf's VTEP address does. */
  lemma {:induction false} SwitchesTake(f: FabConfig, hosts: nat, sws: seq<Switch>, now: seq<Switch>, rank: seq<nat>)
    requires Ranks(now, AssignedSwitches(f, hosts, sws), rank) && LeafLed(sws)
    ensures TakenBelow(f.protocol, Used(SwitchProtos(now)), |sws|)
    ensures TakenBelow(f.vtep, Used(LeafVteps(now)), Owners(sws, |sws|))
  {
    forall a | a in Used(SwitchProtos(now))
      ensures a < Masked(f.protocol) + |sws|
    {
      var i :| 0 <= i < |now| && SwitchProtos(now)[i].Cidr? && SwitchProtos(now)[i].addr == a;
      assert now[i] == AssignedSwitch(f, hosts, sws, rank[i]);
      PoolHolds(f.protocol, rank[i], 32);
    }
    forall a | a in Used(LeafVteps(now))
      ensures a < Masked(f.vtep) + Owners(sws, |sws|)
    {
      var i :| 0 <= i < |now| && LeafVteps(now)[i].Cidr? && LeafVteps(now)[i].addr == a;
      assert now[i] == AssignedSwitch(f, hosts, sws, rank[i]);
      var l := Leader(sws, rank[i]);
      LeaderLeads(sws, rank[i]);
      OwnersGrow(sws, l, |sws|);
      PoolHolds(f.vtep, Owners(sws, l), 32);
    }
  }

  lemma {:induction false} GatewayRanks(f: FabConfig, w: Wiring) returns (rank: seq<nat>)
    requires Valid(w)
    ensures Ranks(Hydrated(f, w).gateways, NewGateways(f, w), rank)
  {
    var linked := LinkedGateways(f, w);
    DistinctTransfer(w.gateways, linked);
    SortSorts(linked, ByName);
    rank := StoredBack(linked, Sort(linked, ByName), NewGateways(f, w));
  }

  lemma {:induction false} GatewayPart(f: FabConfig, w: Wiring)
    requires Valid(w) && LeafLed(Sort(w.switches, SwitchRank))
    ensures var h := Hydrated(f, w);
      var sws := Sort(w.switches, SwitchRank);
      GatewaysSound(f, Used(SwitchProtos(h.switches)), Used(LeafVteps(h.switches)), h.gateways) && GatewaysSet(h.gateways)
      <==> GatewaysFit(f, |sws|, Owners(sws, |sws|), |w.gateways|)
  {
    hide GatewaysSound, GatewaysSet, GatewaysFit, LeafLed, Ranks, TakenBelow, Used;
    var sws, h := Sort(w.switches, SwitchRank), Hydrated(f, w);
    var s := SwitchRanks(f, w);
    SwitchesTake(f, |w.controls| + |w.nodes|, sws, h.switches, s);
    var g := GatewayRanks(f, w);
    GatewaysIff(f, |sws|, Owners(sws, |sws|), Sort(LinkedGateways(f, w), ByName), h.gateways, g,
                Used(SwitchProtos(h.switches)), Used(LeafVteps(h.switches)));
  }

  // ---- The whole -------------------------------------------------------------------------

  /** How many leaf ASNs and VTEP addresses the switches take. */
  ghost function OwnerCount(w: Wiring): nat {
    Owners(Sort(w.switches, SwitchRank), |w.switches|)
  }

  /** The configuration and the wiring are well formed. */
  ghost predicate WellFormed(f: FabConfig, w: Wiring) {
    && ConfigOk(f)
    && V4(f.vip) == Next(V4(Masked(f.mgmt)))
    && RolesValid(w.switches)
    && SpinesFit(f, Sort(w.switches, SwitchRank))
    && LeafLed(Sort(w.switches, SwitchRank))
    && (|w.gateways| > 0 ==> f.gatewayASN > 0)
    && ConnsKnown(w, w.conns)
  }

  /** Every pool holds what is taken from it. */
  ghost predicate PoolsFit(f: FabConfig, w: Wiring) {
    var hosts, switches, gateways := |w.controls| + |w.nodes|, |w.switches|, |w.gateways|;
    && MgmtFits(f, hosts + switches)
    && DummyFits(f, hosts)
    && switches + gateways <= Size(f.protocol)
    && OwnerCount(w) + gateways <= Size(f.vtep)
    && AsnFits(f, OwnerCount(w))
    && LinksFit(f, LinkCount(w.conns, |w.conns|))
    && gateways <= MAX_VTEP_MACS
  }

  ghost predicate Fits(f: FabConfig, w: Wiring) {
    WellFormed(f, w) && PoolsFit(f, w) && !Empty(w)
  }

  lemma {:induction false} EmptyKept(f: FabConfig, w: Wiring)
    requires Valid(w)
    ensures Empty(Hydrated(f, w)) <==> Empty(w)
  {
    LinkPart(f, w);
    LinksCounted(w.conns, |w.conns|);
  }

  lemma {:induction false} FitMeansHydratable(f: FabConfig, w: Wiring)
    requires Valid(w) && WellFormed(f, w) && PoolsFit(f, w)
    ensures Hydratable(f, w)
  {
    var sws := Sort(w.switches, SwitchRank);
    SortedSpinesFirst(w.switches);
    forall i | 0 <= i < |sws|
      ensures NewSwitches(f, w)[i].spec.asn != 0
    {
      FitMeansAlone(f, |w.controls| + |w.nodes|, sws, i);
    }
    ResolveIff(f, w);
  }

  /** Sound, complete and not empty is the same as the three parts below the gateways, and the gateways. */
  lemma {:induction false} PartsIff(f: FabConfig, w: Wiring)
    requires Valid(w) && Addressable(f) && RolesValid(w.switches)
    ensures var hosts := |w.controls| + |w.nodes|;
      Sound(f, Hydrated(f, w)) && AllSet(Hydrated(f, w)) <==>
        && MgmtFits(f, hosts) && DummyFits(f, hosts)
        && SwitchesFit(f, hosts, Sort(w.switches, SwitchRank))
        && LinksFit(f, LinkCount(w.conns, |w.conns|))
        && GatewaysFit(f, |w.switches|, OwnerCount(w), |w.gateways|)
  {
    HostPart(f, w);
    SwitchPart(f, w, {f.vip} + Used(HostMgmt(Hosts(Hydrated(f, w)))));
    LinkPart(f, w);
    if LeafLed(Sort(w.switches, SwitchRank)) {
      GatewayPart(f, w);
    }
  }

  lemma {:induction false} SoundConfig(f: FabConfig, w: Wiring)
    ensures Sound(f, w) ==> ConfigOk(f)
  {
  }

  /** Allocator meets checker: a run succeeds and the checker then answers Full iff the wiring fits. */
  lemma {:induction false} AllocatorMeetsChecker(f: FabConfig, w: Wiring)
    requires Valid(w)
    ensures Hydratable(f, w) && Check(f, Hydrated(f, w)) == Ok(Full) <==> Fits(f, w)
  {
    hide Sound, AllSet, ConnsKnown, DummyFits, AsnFits, LinksFit, SpinesFit, LeafLed, RolesValid, Hydrated, AllResolve, WiringTally, Empty;
    hide Valid, StatusOf, AllUnset, NewSwitches, NewGatewayLinks, Masked, Size, LinkCount;
    StatusMeaning(Hydrated(f, w));
    EmptyKept(f, w);
    SoundConfig(f, Hydrated(f, w));
    if Addressable(f) && RolesValid(w.switches) {
      PartsIff(f, w);
    }
    if Hydratable(f, w) && Check(f, Hydrated(f, w)) == Ok(Full) {
      ResolveIff(f, w);
    }
    if Fits(f, w) {
      FitMeansHydratable(f, w);
    }
  }
}
