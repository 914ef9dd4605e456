/** What a Full answer of the checker guarantees about the whole wiring. */
module Consistency {
  import opened Net
  import opened WiringModel
  import opened Store
  import opened Checker
  import opened FitSwitches

  // ---- Columns -------------------------------------------------------------------------

  predicate AllCidr(col: seq<Text>) {
    forall i :: 0 <= i < |col| ==> col[i].Cidr?
  }

  /** The addresses of a column are pairwise distinct and none of them is taken. */
  predicate Apart(taken: set<U32>, col: seq<Text>)
    requires AllCidr(col)
  {
    && (forall i, j :: 0 <= i < j < |col| ==> col[i].addr != col[j].addr)
    && (forall i :: 0 <= i < |col| ==> col[i].addr !in taken)
  }

  lemma {:induction false} FreshApart(taken: set<U32>, col: seq<Text>)
    requires AllCidr(col)
    ensures AllFresh(taken, col) <==> Apart(taken, col)
  {
    if AllFresh(taken, col) {
      forall i, j | 0 <= i < j < |col|
        ensures col[i].addr != col[j].addr
      {
        assert FreshAt(taken, col, j);
        assert col[i].addr in UsedUpTo(col, j);
      }
      forall i | 0 <= i < |col|
        ensures col[i].addr !in taken
      {
        assert FreshAt(taken, col, i);
      }
    }
  }

  lemma {:induction false} ConcatApart(taken: set<U32>, a: seq<Text>, b: seq<Text>)
    requires AllCidr(a) && AllCidr(b) && Apart(taken, a) && Apart(taken + Used(a), b)
    ensures AllCidr(a + b) && Apart(taken, a + b)
  {
    forall i, j | 0 <= i < j < |a + b|
      ensures (a + b)[i].addr != (a + b)[j].addr
    {
      if i < |a| <= j {
        assert a[i].addr in Used(a);
        assert b[j - |a|].addr !in taken + Used(a);
      }
    }
  }

  // ---- Management and protocol addresses -----------------------------------------------

  /** The addresses on the management network, except the VIP. */
  function MgmtColumn(w: Wiring): seq<Text> {
    HostMgmt(Hosts(w)) + SwitchIPs(w.switches)
  }

  function ProtoColumn(w: Wiring): seq<Text> {
    SwitchProtos(w.switches) + GatewayProtos(w.gateways)
  }

  predicate FullySound(f: FabConfig, w: Wiring) {
    Sound(f, w) && AllSet(w)
  }

  lemma {:induction false} HostColumns(f: FabConfig, w: Wiring)
    requires FullySound(f, w)
    ensures AllCidr(HostMgmt(Hosts(w))) && Apart({f.vip}, HostMgmt(Hosts(w)))
    ensures forall i :: 0 <= i < |Hosts(w)| ==> InMgmt(f, HostMgmt(Hosts(w))[i].addr)
    ensures AllCidr(HostDummy(Hosts(w))) && Apart({}, HostDummy(Hosts(w)))
  {
    hide SwitchesSound, LinksSound, GatewaysSound, SwitchesSet, LinksSet, GatewaysSet;
    var h := Hosts(w);
    forall i | 0 <= i < |h|
      ensures HostMgmt(h)[i].Cidr? && InMgmt(f, HostMgmt(h)[i].addr) && HostDummy(h)[i].Cidr?
      ensures FreshAt({f.vip}, HostMgmt(h), i) && FreshAt({}, HostDummy(h), i)
    {
      assert HostSoundAt(f, h, i);
    }
    FreshApart({f.vip}, HostMgmt(h));
    FreshApart({}, HostDummy(h));
  }

  lemma {:induction false} SwitchColumns(f: FabConfig, w: Wiring)
    requires FullySound(f, w)
    ensures AllCidr(SwitchIPs(w.switches)) && Apart({f.vip} + Used(HostMgmt(Hosts(w))), SwitchIPs(w.switches))
    ensures forall i :: 0 <= i < |w.switches| ==> InMgmt(f, SwitchIPs(w.switches)[i].addr)
    ensures AllCidr(SwitchProtos(w.switches)) && Apart({}, SwitchProtos(w.switches))
  {
    hide HostsSound, LinksSound, GatewaysSound, HostsSet, LinksSet, GatewaysSet, AsnSound, VtepSound;
    var s := w.switches;
    var taken := {f.vip} + Used(HostMgmt(Hosts(w)));
    forall i | 0 <= i < |s|
      ensures SwitchIPs(s)[i].Cidr? && InMgmt(f, SwitchIPs(s)[i].addr) && SwitchProtos(s)[i].Cidr?
      ensures FreshAt(taken, SwitchIPs(s), i) && FreshAt({}, SwitchProtos(s), i)
    {
      assert SwitchSoundAt(f, taken, s, i) && SwitchSet(s[i]);
    }
    FreshApart(taken, SwitchIPs(s));
    FreshApart({}, SwitchProtos(s));
  }

  lemma {:induction false} GatewayColumns(f: FabConfig, w: Wiring)
    requires FullySound(f, w)
    ensures AllCidr(GatewayProtos(w.gateways)) && Apart(Used(SwitchProtos(w.switches)), GatewayProtos(w.gateways))
    ensures AllCidr(GatewayVteps(w.gateways)) && Apart(Used(LeafVteps(w.switches)), GatewayVteps(w.gateways))
  {
    hide HostsSound, LinksSound, SwitchesSound, HostsSet, LinksSet, SwitchesSet;
    var g := w.gateways;
    var protos, vteps := Used(SwitchProtos(w.switches)), Used(LeafVteps(w.switches));
    forall i | 0 <= i < |g|
      ensures GatewayProtos(g)[i].Cidr? && GatewayVteps(g)[i].Cidr?
      ensures FreshAt(protos, GatewayProtos(g), i) && FreshAt(vteps, GatewayVteps(g), i)
    {
      assert GatewaySoundAt(f, protos, vteps, g, i);
    }
    FreshApart(protos, GatewayProtos(g));
    FreshApart(vteps, GatewayVteps(g));
  }

  /** Management addresses: all below the DHCP range, pairwise distinct, none is the VIP. */
  lemma {:induction false} MgmtConsistent(f: FabConfig, w: Wiring)
    requires Check(f, w) == Ok(Full)
    ensures var col := MgmtColumn(w);
      && |col| == |w.controls| + |w.nodes| + |w.switches|
      && AllCidr(col) && Apart({f.vip}, col)
      && forall i :: 0 <= i < |col| ==> Contains(f.mgmt, col[i].addr) && col[i].addr < f.dhcpStart
  {
    hide Sound, AllSet, WiringTally;
    StatusMeaning(w);
    HostColumns(f, w);
    SwitchColumns(f, w);
    ConcatApart({f.vip}, HostMgmt(Hosts(w)), SwitchIPs(w.switches));
  }

  /** Protocol addresses are pairwise distinct over switches and gateways. */
  lemma {:induction false} ProtoConsistent(f: FabConfig, w: Wiring)
    requires Check(f, w) == Ok(Full)
    ensures var col := ProtoColumn(w);
      |col| == |w.switches| + |w.gateways| && AllCidr(col) && Apart({}, col)
  {
    hide Sound, AllSet, WiringTally;
    StatusMeaning(w);
    SwitchColumns(f, w);
    GatewayColumns(f, w);
    assert {} + Used(SwitchProtos(w.switches)) == Used(SwitchProtos(w.switches));
    ConcatApart({}, SwitchProtos(w.switches), GatewayProtos(w.gateways));
  }

  // ---- Links -----------------------------------------------------------------------------

  /** The two addresses of the /31 that a lies in. */
  function Block31(a: U32): set<nat> {
    {Mask(a, 1), Mask(a, 1) + 1}
  }

  predicate OwnsBlock(l: Link) {
    Complete(l) && l.near.ip.Cidr? && l.far.ip.Cidr? && EndAddrs(l) == Block31(l.near.ip.addr)
  }

  lemma {:induction false} UsedContains(l: seq<Link>, k: nat, m: nat)
    requires k < m <= |l|
    ensures EndAddrs(l[k]) <= LinkUsed(l, m)
  {
    if k < m - 1 {
      UsedContains(l, k, m - 1);
    }
  }

  lemma {:induction false} LinkOwns(f: FabConfig, l: seq<Link>, m: nat)
    requires m < |l| && LinkSoundAt(f, l, m) && Complete(l[m])
    ensures OwnsBlock(l[m])
  {
    var a, b := l[m].near.ip.addr, l[m].far.ip.addr;
    MaskRange(a, a, 1);
    MaskRange(b, a, 1);
    assert Pow2(1) == 2 * Pow2(0) && Pow2(0) == 1;
  }

  /** Each link owns its whole /31: both addresses are on it and no other link has either. */
  lemma {:induction false} LinksConsistent(f: FabConfig, w: Wiring)
    requires Check(f, w) == Ok(Full)
    ensures var l := AllLinks(w.conns);
      && (forall m :: 0 <= m < |l| ==> OwnsBlock(l[m]))
      && (forall k, m :: 0 <= k < m < |l| ==> EndAddrs(l[k]) * EndAddrs(l[m]) == {})
  {
    hide HostsSound, SwitchesSound, GatewaysSound, HostsSet, SwitchesSet, GatewaysSet, WiringTally, AllLinks;
    StatusMeaning(w);
    var l := AllLinks(w.conns);
    forall m | 0 <= m < |l|
      ensures OwnsBlock(l[m])
    {
      assert LinkSoundAt(f, l, m);
      LinkOwns(f, l, m);
    }
    forall k, m | 0 <= k < m < |l|
      ensures EndAddrs(l[k]) * EndAddrs(l[m]) == {}
    {
      assert LinkSoundAt(f, l, m) && OwnsBlock(l[m]);
      UsedContains(l, k, m);
    }
  }

  // ---- Leaves ----------------------------------------------------------------------------

  predicate LeavesSet(sws: seq<Switch>) {
    forall i :: 0 <= i < |sws| && IsLeaf(sws[i]) ==> sws[i].spec.asn > 0 && sws[i].spec.vtep != Unset
  }

  predicate UnderlaySound(f: FabConfig, sws: seq<Switch>) {
    LeavesSet(sws) && forall i :: 0 <= i < |sws| ==> AsnSound(f, sws, i) && VtepSound(sws, i)
  }

  /** The leaf whose ASN and VTEP address the checker compares a leaf with: itself, or its group's first leaf. */
  function Root(sws: seq<Switch>, i: nat): (r: nat)
    requires i < |sws|
    ensures r <= i
  {
    if sws[i].spec.red.MCLAG? && Reference(sws, sws[i].spec.red.group, i).Some?
    then Reference(sws, sws[i].spec.red.group, i).value else i
  }

  lemma {:induction false} ReferenceStays(sws: seq<Switch>, g: Name, i: nat, n: nat)
    requires i <= n <= |sws| && Reference(sws, g, i).Some?
    ensures Reference(sws, g, n) == Reference(sws, g, i)
  {
    if i < n {
      ReferenceStays(sws, g, i, n - 1);
    }
  }

  lemma {:induction false} NoReference(sws: seq<Switch>, g: Name, n: nat)
    requires n <= |sws| && forall j :: 0 <= j < n ==> !Registers(sws[j], g)
    ensures Reference(sws, g, n).None?
  {
    if n > 0 {
      NoReference(sws, g, n - 1);
    }
  }

  /** The root of a leaf is a leaf, is its own root, and is the leaf itself or its MCLAG peer. */
  lemma {:induction false} RootIsRoot(sws: seq<Switch>, i: nat)
    requires i < |sws| && IsLeaf(sws[i])
    ensures IsLeaf(sws[Root(sws, i)]) && Root(sws, Root(sws, i)) == Root(sws, i)
    ensures Root(sws, i) == i || Peers(sws[Root(sws, i)], sws[i])
  {
    if Root(sws, i) < i {
      var g, r := sws[i].spec.red.group, Root(sws, i);
      ReferenceMisses(sws, g, i);
      NoReference(sws, g, r);
    }
  }

  /** Leaves have the same root iff they are MCLAG peers. */
  lemma {:induction false} SameRoot(sws: seq<Switch>, i: nat, j: nat)
    requires i < j < |sws| && IsLeaf(sws[i]) && IsLeaf(sws[j]) && LeavesSet(sws)
    ensures Root(sws, i) == Root(sws, j) <==> Peers(sws[i], sws[j])
  {
    RootIsRoot(sws, i);
    RootIsRoot(sws, j);
    if Peers(sws[i], sws[j]) {
      var g := sws[i].spec.red.group;
      if Reference(sws, g, i).Some? {
        ReferenceStays(sws, g, i, j);
      } else {
        assert Reference(sws, g, i + 1) == Some(i);
        ReferenceStays(sws, g, i + 1, j);
      }
    }
  }

  lemma {:induction false} RootShares(f: FabConfig, sws: seq<Switch>, i: nat)
    requires UnderlaySound(f, sws) && i < |sws| && IsLeaf(sws[i])
    ensures sws[i].spec.asn == sws[Root(sws, i)].spec.asn
    ensures sws[i].spec.vtep == sws[Root(sws, i)].spec.vtep
    ensures Root(sws, i) == i ==> FreshLeafASN(sws, i)
    ensures !sws[i].spec.red.MCLAG? ==> FreshAt({}, LeafVteps(sws), i)
  {
    assert AsnSound(f, sws, i) && VtepSound(sws, i);
  }

  /** Two leaves share an ASN iff they are MCLAG peers, and peers share a VTEP address. */
  lemma {:induction false} LeafPair(f: FabConfig, sws: seq<Switch>, i: nat, j: nat)
    requires UnderlaySound(f, sws) && i < j < |sws| && IsLeaf(sws[i]) && IsLeaf(sws[j])
    ensures sws[i].spec.asn == sws[j].spec.asn <==> Peers(sws[i], sws[j])
    ensures Peers(sws[i], sws[j]) ==> sws[i].spec.vtep == sws[j].spec.vtep
  {
    RootIsRoot(sws, i);
    RootIsRoot(sws, j);
    SameRoot(sws, i, j);
    RootShares(f, sws, i);
    RootShares(f, sws, j);
    var a, b := Root(sws, i), Root(sws, j);
    RootShares(f, sws, a);
    RootShares(f, sws, b);
  }

  lemma {:induction false} FullUnderlay(f: FabConfig, w: Wiring)
    requires Check(f, w) == Ok(Full)
    ensures UnderlaySound(f, w.switches)
    ensures forall i :: 0 <= i < |w.switches| ==> SwitchOk(f, w.switches[i])
  {
    hide HostsSound, LinksSound, GatewaysSound, HostsSet, LinksSet, GatewaysSet, WiringTally, AsnSound, VtepSound;
    StatusMeaning(w);
    var taken := {f.vip} + Used(HostMgmt(Hosts(w)));
    forall i | 0 <= i < |w.switches|
      ensures AsnSound(f, w.switches, i) && VtepSound(w.switches, i) && SwitchOk(f, w.switches[i]) && SwitchSet(w.switches[i])
    {
      assert SwitchSoundAt(f, taken, w.switches, i);
    }
  }

  /** Leaf ASNs identify MCLAG groups, and peers share a VTEP address that a standalone leaf shares with no earlier leaf. */
  lemma {:induction false} LeavesConsistent(f: FabConfig, w: Wiring, i: nat, j: nat)
    requires Check(f, w) == Ok(Full)
    requires i < j < |w.switches| && IsLeaf(w.switches[i]) && IsLeaf(w.switches[j])
    ensures w.switches[i].spec.asn == w.switches[j].spec.asn <==> Peers(w.switches[i], w.switches[j])
    ensures Peers(w.switches[i], w.switches[j]) ==> w.switches[i].spec.vtep == w.switches[j].spec.vtep
    ensures !w.switches[j].spec.red.MCLAG? ==> w.switches[i].spec.vtep != w.switches[j].spec.vtep
  {
    hide Check;
    FullUnderlay(f, w);
    LeafPair(f, w.switches, i, j);
    RootShares(f, w.switches, j);
    assert SwitchOk(f, w.switches[i]) && SwitchOk(f, w.switches[j]);
    assert LeafVteps(w.switches)[i] == w.switches[i].spec.vtep && LeafVteps(w.switches)[j] == w.switches[j].spec.vtep;
  }

  /** Gateway VTEP addresses are distinct from each other and from every leaf's. */
  lemma {:induction false} GatewayVtepsConsistent(f: FabConfig, w: Wiring)
    requires Check(f, w) == Ok(Full)
    ensures AllCidr(GatewayVteps(w.gateways)) && Apart(Used(LeafVteps(w.switches)), GatewayVteps(w.gateways))
    ensures forall i :: 0 <= i < |w.switches| && IsLeaf(w.switches[i]) ==>
      w.switches[i].spec.vtep.Cidr? && w.switches[i].spec.vtep.addr in Used(LeafVteps(w.switches))
  {
    hide Sound, AllSet, WiringTally;
    StatusMeaning(w);
    GatewayColumns(f, w);
    FullUnderlay(f, w);
    forall i | 0 <= i < |w.switches| && IsLeaf(w.switches[i])
      ensures w.switches[i].spec.vtep.Cidr? && w.switches[i].spec.vtep.addr in Used(LeafVteps(w.switches))
    {
      assert SwitchOk(f, w.switches[i]);
      assert LeafVteps(w.switches)[i] == w.switches[i].spec.vtep;
    }
  }
}
