/** When a Full answer of the checker guarantees that no two leaves share a VTEP address by accident. */
module VtepUniqueness {
  import opened Net
  import opened WiringModel
  import opened Store
  import opened Sorting
  import opened Ranking
  import opened Checker
  import opened Allocator
  import opened HydrationShape
  import opened FitHosts
  import opened FitSwitches
  import opened HydrationFits
  import opened Consistency
  import OwnerCounting

  /** Leaves share a VTEP address exactly when they are MCLAG peers. */
  predicate VtepsApart(sws: seq<Switch>) {
    forall i, j :: 0 <= i < j < |sws| && IsLeaf(sws[i]) && IsLeaf(sws[j]) ==>
      (sws[i].spec.vtep == sws[j].spec.vtep <==> Peers(sws[i], sws[j]))
  }

  /** A leaf that is the first listed leaf of its MCLAG group. */
  predicate FirstOfGroup(sws: seq<Switch>, r: nat)
    requires r < |sws|
  {
    IsLeaf(sws[r]) && sws[r].spec.red.MCLAG? && forall k :: 0 <= k < r && IsLeaf(sws[k]) ==> !Peers(sws[k], sws[r])
  }

  predicate ExposedAt(sws: seq<Switch>, e: nat, r: nat) {
    e < r < |sws| && IsLeaf(sws[e]) && FirstOfGroup(sws, r)
  }

  /** Some MCLAG group's first leaf is listed behind another leaf. */
  ghost predicate Exposed(sws: seq<Switch>) {
    exists e: nat, r: nat :: ExposedAt(sws, e, r)
  }

  // ---- Not exposed: unique --------------------------------------------------------------

  lemma {:induction false} RootIsFirst(sws: seq<Switch>, j: nat)
    requires j < |sws| && IsLeaf(sws[j]) && sws[j].spec.red.MCLAG? && LeavesSet(sws)
    ensures FirstOfGroup(sws, Root(sws, j))
  {
    var r, g := Root(sws, j), sws[j].spec.red.group;
    RootIsRoot(sws, j);
    ReferenceMisses(sws, g, j);
    forall k | 0 <= k < r && IsLeaf(sws[k])
      ensures !Peers(sws[k], sws[r])
    {
      assert !Registers(sws[k], g);
    }
  }

  lemma {:induction false} StandaloneDiffers(f: FabConfig, sws: seq<Switch>, i: nat, j: nat)
    requires UnderlaySound(f, sws) && i < j < |sws| && IsLeaf(sws[i]) && IsLeaf(sws[j]) && !sws[j].spec.red.MCLAG?
    requires SwitchOk(f, sws[i]) && SwitchOk(f, sws[j])
    ensures sws[i].spec.vtep != sws[j].spec.vtep
  {
    RootShares(f, sws, j);
    assert LeafVteps(sws)[i] == sws[i].spec.vtep && LeafVteps(sws)[j] == sws[j].spec.vtep;
  }

  /** Unless exposed, all leaves with a group are in the same one. */
  lemma {:induction false} OneGroup(sws: seq<Switch>, i: nat, j: nat)
    requires LeavesSet(sws) && !Exposed(sws) && i < j < |sws|
    requires IsLeaf(sws[i]) && IsLeaf(sws[j]) && sws[i].spec.red.MCLAG? && sws[j].spec.red.MCLAG?
    ensures Peers(sws[i], sws[j])
  {
    var a, b := Root(sws, i), Root(sws, j);
    RootIsRoot(sws, i);
    RootIsRoot(sws, j);
    RootIsFirst(sws, i);
    RootIsFirst(sws, j);
    assert !ExposedAt(sws, a, b) && !ExposedAt(sws, b, a);
  }

  lemma {:induction false} GroupDiffers(f: FabConfig, sws: seq<Switch>, i: nat, j: nat)
    requires UnderlaySound(f, sws) && i < j < |sws| && IsLeaf(sws[i]) && IsLeaf(sws[j]) && sws[j].spec.red.MCLAG?
    requires forall k :: 0 <= k < |sws| ==> SwitchOk(f, sws[k])
    requires !Exposed(sws)
    ensures Peers(sws[i], sws[j]) || sws[i].spec.vtep != sws[j].spec.vtep
  {
    if sws[i].spec.red.MCLAG? {
      OneGroup(sws, i, j);
    } else {
      var r := Root(sws, j);
      RootIsRoot(sws, j);
      RootIsFirst(sws, j);
      RootShares(f, sws, j);
      assert !ExposedAt(sws, i, r);
      StandaloneDiffers(f, sws, r, i);
    }
  }

  lemma {:induction false} NotExposedApart(f: FabConfig, w: Wiring)
    requires Check(f, w) == Ok(Full) && !Exposed(w.switches)
    ensures VtepsApart(w.switches)
  {
    hide Check, UnderlaySound, SwitchOk, Exposed;
    FullUnderlay(f, w);
    var sws := w.switches;
    forall i, j | 0 <= i < j < |sws| && IsLeaf(sws[i]) && IsLeaf(sws[j])
      ensures sws[i].spec.vtep == sws[j].spec.vtep <==> Peers(sws[i], sws[j])
    {
      LeafPair(f, sws, i, j);
      if !Peers(sws[i], sws[j]) {
        if sws[j].spec.red.MCLAG? {
          GroupDiffers(f, sws, i, j);
        } else {
          StandaloneDiffers(f, sws, i, j);
        }
      }
    }
  }

  // ---- Exposed: a wiring the checker calls Full with a shared address --------------------

  /** The wiring with an MCLAG group moved onto another leaf's VTEP address. */
  function Moved(sws: seq<Switch>, e: nat, r: nat): (m: seq<Switch>)
    requires e < |sws| && r < |sws|
    ensures |m| == |sws|
    ensures forall i {:trigger m[i]} :: 0 <= i < |sws| ==> m[i] == MovedSwitch(sws, e, r, i)
  {
    seq(|sws|, i requires 0 <= i < |sws| => MovedSwitch(sws, e, r, i))
  }

  function MovedSwitch(sws: seq<Switch>, e: nat, r: nat, i: nat): Switch
    requires e < |sws| && r < |sws| && i < |sws|
  {
    if IsLeaf(sws[i]) && Peers(sws[i], sws[r]) then sws[i].(spec := sws[i].spec.(vtep := sws[e].spec.vtep)) else sws[i]
  }

  lemma {:induction false} SameReference(a: seq<Switch>, b: seq<Switch>, g: Name, n: nat)
    requires n <= |a| == |b| && forall i :: 0 <= i < n ==> (Registers(a[i], g) <==> Registers(b[i], g))
    ensures Reference(a, g, n) == Reference(b, g, n)
  {
    if n > 0 {
      SameReference(a, b, g, n - 1);
    }
  }

  lemma {:induction false} MovedReference(sws: seq<Switch>, e: nat, r: nat, g: Name, n: nat)
    requires ExposedAt(sws, e, r) && LeavesSet(sws) && n <= |sws|
    ensures Reference(Moved(sws, e, r), g, n) == Reference(sws, g, n)
  {
    SameReference(sws, Moved(sws, e, r), g, n);
  }

  lemma {:induction false} MovedAsnSound(f: FabConfig, sws: seq<Switch>, e: nat, r: nat, i: nat)
    requires ExposedAt(sws, e, r) && UnderlaySound(f, sws) && i < |sws|
    ensures AsnSound(f, Moved(sws, e, r), i)
  {
    assert AsnSound(f, sws, i);
    if sws[i].spec.red.MCLAG? {
      MovedReference(sws, e, r, sws[i].spec.red.group, i);
    }
  }

  lemma {:induction false} MovedVtepSound(f: FabConfig, sws: seq<Switch>, e: nat, r: nat, i: nat)
    requires ExposedAt(sws, e, r) && UnderlaySound(f, sws) && i < |sws|
    requires forall k :: 0 <= k < |sws| ==> SwitchOk(f, sws[k])
    ensures VtepSound(Moved(sws, e, r), i)
  {
    assert VtepSound(sws, i);
    if IsLeaf(sws[i]) {
      if sws[i].spec.red.MCLAG? {
        MovedReference(sws, e, r, sws[i].spec.red.group, i);
      } else {
        var col, m := LeafVteps(Moved(sws, e, r)), Moved(sws, e, r);
        forall j | 0 <= j < i && col[j].Cidr?
          ensures col[j].addr != sws[i].spec.vtep.addr
        {
          var k := if Peers(sws[j], sws[r]) then e else j;
          assert k < i && IsLeaf(sws[k]) && col[j] == sws[k].spec.vtep;
          StandaloneDiffers(f, sws, k, i);
        }
      }
    }
  }

  lemma {:induction false} MovedSwitchesSound(f: FabConfig, taken: set<U32>, sws: seq<Switch>, e: nat, r: nat)
    requires SwitchesSound(f, taken, sws) && SwitchesSet(sws) && ExposedAt(sws, e, r)
    ensures SwitchesSound(f, taken, Moved(sws, e, r)) && SwitchesSet(Moved(sws, e, r))
    ensures SwitchProtos(Moved(sws, e, r)) == SwitchProtos(sws)
    ensures Used(LeafVteps(Moved(sws, e, r))) <= Used(LeafVteps(sws))
  {
    var m := Moved(sws, e, r);
    forall k | 0 <= k < |sws|
      ensures SwitchOk(f, sws[k]) && AsnSound(f, sws, k) && VtepSound(sws, k) && SwitchSet(sws[k])
      ensures FreshAt(taken, SwitchIPs(sws), k) && FreshAt({}, SwitchProtos(sws), k)
    {
      assert SwitchSoundAt(f, taken, sws, k);
    }
    assert UnderlaySound(f, sws);
    MovedColumns(sws, e, r);
    forall i | 0 <= i < |sws|
      ensures SwitchSoundAt(f, taken, m, i) && SwitchSet(m[i])
    {
      MovedAsnSound(f, sws, e, r, i);
      MovedVtepSound(f, sws, e, r, i);
      assert SwitchOk(f, sws[i]) && SwitchOk(f, sws[e]);
    }
  }

  lemma {:induction false} MovedColumns(sws: seq<Switch>, e: nat, r: nat)
    requires e < |sws| && r < |sws| && IsLeaf(sws[e])
    ensures SwitchIPs(Moved(sws, e, r)) == SwitchIPs(sws) && SwitchProtos(Moved(sws, e, r)) == SwitchProtos(sws)
    ensures Used(LeafVteps(Moved(sws, e, r))) <= Used(LeafVteps(sws))
  {
    var col, was := LeafVteps(Moved(sws, e, r)), LeafVteps(sws);
    forall a | a in Used(col)
      ensures a in Used(was)
    {
      var i :| 0 <= i < |col| && col[i].Cidr? && col[i].addr == a;
      var k := if IsLeaf(sws[i]) && Peers(sws[i], sws[r]) then e else i;
      assert was[k] == col[i];
    }
  }

  lemma {:induction false} FewerTaken(f: FabConfig, protos: set<U32>, some: set<U32>, all: set<U32>, g: seq<Gateway>)
    requires GatewaysSound(f, protos, all, g) && some <= all
    ensures GatewaysSound(f, protos, some, g)
  {
    forall i | 0 <= i < |g|
      ensures GatewaySoundAt(f, protos, some, g, i)
    {
      assert GatewaySoundAt(f, protos, all, g, i);
    }
  }

  lemma {:induction false} MovedFull(f: FabConfig, w: Wiring, e: nat, r: nat)
    requires Check(f, w) == Ok(Full) && e < r < |w.switches| && ExposedAt(w.switches, e, r)
    ensures Check(f, w.(switches := Moved(w.switches, e, r))) == Ok(Full)
  {
    hide HostsSound, SwitchesSound, LinksSound, GatewaysSound, HostsSet, SwitchesSet, LinksSet, GatewaysSet, WiringTally, ExposedAt;
    hide Used, AllLinks;
    var w' := w.(switches := Moved(w.switches, e, r));
    StatusMeaning(w);
    StatusMeaning(w');
    assert Hosts(w') == Hosts(w);
    MovedSwitchesSound(f, {f.vip} + Used(HostMgmt(Hosts(w))), w.switches, e, r);
    FewerTaken(f, Used(SwitchProtos(w.switches)), Used(LeafVteps(w'.switches)), Used(LeafVteps(w.switches)), w.gateways);
  }

  /** A wiring of the same shape that the checker calls Full although two unrelated leaves share a VTEP address. */
  lemma {:induction false} ExposedShares(f: FabConfig, w: Wiring) returns (w': Wiring)
    requires Check(f, w) == Ok(Full) && Exposed(w.switches)
    ensures SameShape(w, w') && Check(f, w') == Ok(Full) && !VtepsApart(w'.switches)
  {
    hide Check;
    var sws := w.switches;
    var e: nat, r: nat :| ExposedAt(sws, e, r);
    w' := w.(switches := Moved(sws, e, r));
    MovedFull(f, w, e, r);
    SameShapeReflexive(w);
    assert w'.switches[e].spec.vtep == w'.switches[r].spec.vtep && !Peers(w'.switches[e], w'.switches[r]);
  }

  lemma {:induction false} ExposedShape(a: seq<Switch>, b: seq<Switch>)
    requires SwitchesSame(a, b) && Exposed(b)
    ensures Exposed(a)
  {
    var e: nat, r: nat :| ExposedAt(b, e, r);
    assert forall k :: 0 <= k < |a| ==> SameSwitch(a[k], b[k]);
    assert ExposedAt(a, e, r);
  }

  /** Full guarantees VTEP addresses that tell groups apart exactly when no MCLAG group starts behind another leaf. */
  lemma {:induction false} VtepsGuaranteed(f: FabConfig, w: Wiring)
    requires Check(f, w) == Ok(Full)
    ensures (forall w' :: SameShape(w, w') && Check(f, w') == Ok(Full) ==> VtepsApart(w'.switches)) <==> !Exposed(w.switches)
  {
    hide Check, Exposed, VtepsApart, SwitchesSame, ConnsSame, GatewaysSame;
    if Exposed(w.switches) {
      var w' := ExposedShares(f, w);
    } else {
      forall w' | SameShape(w, w') && Check(f, w') == Ok(Full)
        ensures VtepsApart(w'.switches)
      {
        if Exposed(w'.switches) {
          ExposedShape(w.switches, w'.switches);
        }
        NotExposedApart(f, w');
      }
    }
  }

  /** The allocator never shares a VTEP address outside an MCLAG group. */
  lemma {:induction false} HydratedVtepsApart(f: FabConfig, w: Wiring)
    requires Valid(w) && Fits(f, w)
    ensures VtepsApart(Hydrated(f, w).switches)
  {
    hide Ranks, SpinesFirst, SpinesFit, LeafLed, AloneOk, Hydrated, ConfigOk, RolesValid, DistinctNames, Empty, ConnsKnown, AssignedSwitches;
    hide MgmtFits, DummyFits, AsnFits;
    var hosts, sws, now := |w.controls| + |w.nodes|, Sort(w.switches, SwitchRank), Hydrated(f, w).switches;
    SortedSpinesFirst(w.switches);
    var rank := SwitchRanks(f, w);
    FitListed(f, hosts, sws, now, rank, w);
    forall i, j | 0 <= i < j < |now| && IsLeaf(now[i]) && IsLeaf(now[j])
      ensures now[i].spec.vtep == now[j].spec.vtep <==> Peers(now[i], now[j])
    {
      ListedPair(f, hosts, sws, now, rank, i, j);
    }
  }

  lemma {:induction false} FitListed(f: FabConfig, hosts: nat, sws: seq<Switch>, now: seq<Switch>, rank: seq<nat>, w: Wiring)
    requires Fits(f, w) && hosts == |w.controls| + |w.nodes| && sws == Sort(w.switches, SwitchRank)
    requires SpinesFirst(sws) && RolesValid(sws) && Ranks(now, AssignedSwitches(f, hosts, sws), rank)
    ensures Listed(f, hosts, sws, now, rank) && LeafLed(sws) && AsnFits(f, Owners(sws, |sws|))
  {
    hide Ranks, AloneOk, Empty, ConnsKnown, AssignedSwitches, SpinesFirst, RolesValid, SpinesFit, LeafLed;
    forall r | 0 <= r < |sws|
      ensures AloneOk(f, hosts, sws, r)
    {
      FitMeansAlone(f, hosts, sws, r);
    }
  }

  // ---- An instance ---------------------------------------------------------------------------------------------

  /** The c-th block of 65536 addresses. */
  function Block(c: nat): Prefix
    requires c < 0x1_0000
  {
    PrefixRaw.Prefix(c * 0x1_0000, 16)
  }

  lemma {:induction false} BlockIs(c: nat)
    requires c < 0x1_0000
    ensures Size(Block(c)) == 0x1_0000 && Masked(Block(c)) == c * 0x1_0000
  {
    assert Pow2(8) == 256;
    assert Pow2(16) == 0x1_0000;
    MaskAligned(c, 16);
  }

  function LeafOf(name: Name, red: Redundancy): Switch {
    Object(name, SwitchSpec(ServerLeaf, red, Unset, Unset, 0, Unset))
  }

  /** A standalone leaf, listed before the two leaves of an MCLAG group. */
  const LONE_FIRST := Wiring([], [], [LeafOf(0, NoRedundancy), LeafOf(1, MCLAG(0)), LeafOf(2, MCLAG(0))], [], [])

  const POOLS := FabConfig(Block(1), 0x1_0001, 0x1_0100, 0x1_0200, Block(2), Block(3), Block(4), Block(5), 65100, 65101, 65200, 65300)

  lemma {:induction false} LoneFirstShape()
    ensures Valid(LONE_FIRST) && Exposed(LONE_FIRST.switches) && OwnerCounting.MclagOnLeaves(LONE_FIRST.switches)
  {
    var sws := LONE_FIRST.switches;
    DistinctPairs(sws, 3);
    assert ExposedAt(sws, 0, 1);
  }

  lemma {:induction false} PoolsLarge()
    ensures ConfigOk(POOLS) && V4(POOLS.vip) == Next(V4(Masked(POOLS.mgmt)))
    ensures Size(POOLS.dummy) == Size(POOLS.vtep) == Size(POOLS.protocol) == Size(POOLS.fabric) == 0x1_0000
  {
    BlockIs(1);
    BlockIs(2);
    BlockIs(3);
    BlockIs(4);
    BlockIs(5);
    ContainsRange(POOLS.mgmt, POOLS.dhcpStart);
    ContainsRange(POOLS.mgmt, POOLS.dhcpEnd);
  }

  lemma {:induction false} LoneFirstWellFormed()
    ensures WellFormed(POOLS, LONE_FIRST)
  {
    hide ConfigOk, Size, Masked, Leader, Leads, Owners;
    var w := LONE_FIRST;
    PoolsLarge();
    LoneFirstShape();
    OwnerCounting.OwnersCounted(w);
    var sorted := Sort(w.switches, SwitchRank);
    SameMembers(sorted, w.switches);
    forall i | 0 <= i < |sorted|
      ensures sorted[i].spec.role == ServerLeaf
    {
      assert sorted[i] in w.switches;
    }
  }

  lemma {:induction false} LoneFirstFits()
    ensures Fits(POOLS, LONE_FIRST)
  {
    hide WellFormed, Size, Masked, Owners;
    LoneFirstWellFormed();
    PoolsLarge();
    AtMostAll(LONE_FIRST);
  }

  lemma {:induction false} AtMostAll(w: Wiring)
    ensures OwnerCount(w) <= |w.switches|
  {
  }

  /** The checker answers Full for a wiring in which a standalone leaf has the VTEP address of an MCLAG group. */
  lemma {:induction false} SharedButFull() returns (w: Wiring)
    ensures SameShape(LONE_FIRST, w) && Check(POOLS, w) == Ok(Full) && !VtepsApart(w.switches)
  {
    hide Check, Fits, Hydratable, VtepsApart, Exposed, SameSwitch, SameConn, SameGateway;
    LoneFirstShape();
    LoneFirstFits();
    AllocatorMeetsChecker(POOLS, LONE_FIRST);
    var h := Hydrated(POOLS, LONE_FIRST);
    HydratedKeepsShape(POOLS, LONE_FIRST);
    SameSwitched(LONE_FIRST.switches, h.switches);
    ExposedShape(h.switches, LONE_FIRST.switches);
    w := ExposedShares(POOLS, h);
    SameShapes(LONE_FIRST, h, w);
  }

  lemma {:induction false} SameSwitched(a: seq<Switch>, b: seq<Switch>)
    requires SwitchesSame(a, b)
    ensures SwitchesSame(b, a)
  {
    assert forall i :: 0 <= i < |a| ==> SameSwitch(a[i], b[i]);
  }

  lemma {:induction false} SameShapes(a: Wiring, b: Wiring, c: Wiring)
    requires SameShape(a, b) && SameShape(b, c)
    ensures SameShape(a, c)
  {
    assert forall i :: 0 <= i < |a.switches| ==> SameSwitch(a.switches[i], b.switches[i]) && SameSwitch(b.switches[i], c.switches[i]);
    assert forall i :: 0 <= i < |a.gateways| ==> SameGateway(a.gateways[i], b.gateways[i]) && SameGateway(b.gateways[i], c.gateways[i]);
    forall i | 0 <= i < |a.conns|
      ensures SameConn(a.conns[i], c.conns[i])
    {
      assert SameConn(a.conns[i], b.conns[i]) && SameConn(b.conns[i], c.conns[i]);
      forall k | 0 <= k < |a.conns[i].spec.links|
        ensures SameLink(a.conns[i].spec.links[k], c.conns[i].spec.links[k])
      {
        assert SameLink(a.conns[i].spec.links[k], b.conns[i].spec.links[k]);
      }
    }
  }
}
