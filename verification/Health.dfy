/**
  * What the fields of the objects must satisfy for the checker not to object, and that each of its checks comes down to
  * just that: hosts, switches, gateways and links in turn.
  */
module Health {
  import opened Net
  import opened WiringModel
  import opened Store
  import opened Checker
  import FitLinks
  import FitSwitches

  // ---- What the fields must satisfy -----------------------------------------------------------------------

  predicate IsSet(t: Text) {
    t != Unset
  }

  /** An address of the prefix with the given length. */
  predicate In(p: Prefix, t: Text, bits: nat) {
    t.Cidr? && t.bits == bits && Masked(p) <= t.addr < Masked(p) + Size(p)
  }

  predicate Managed(f: FabConfig, t: Text) {
    t.Cidr? && Masked(f.mgmt) <= t.addr < Masked(f.mgmt) + Size(f.mgmt) && t.addr < f.dhcpStart && t.addr != f.vip
  }

  /** Two texts that are not the same address. */
  predicate Differ(a: Text, b: Text) {
    a.Cidr? && b.Cidr? ==> a.addr != b.addr
  }

  predicate HostHealthy(f: FabConfig, h: Host) {
    IsSet(h.spec.mgmt) ==> Managed(f, h.spec.mgmt) && In(f.dummy, h.spec.dummy, 31)
  }

  predicate HostsApart(a: Host, b: Host) {
    IsSet(a.spec.mgmt) && IsSet(b.spec.mgmt) ==> Differ(a.spec.mgmt, b.spec.mgmt) && Differ(a.spec.dummy, b.spec.dummy)
  }

  predicate SwitchHealthy(f: FabConfig, s: Switch) {
    && (s.spec.role == Spine || s.spec.role == BorderLeaf || s.spec.role == MixedLeaf || s.spec.role == ServerLeaf)
    && (IsSet(s.spec.ip) ==> Managed(f, s.spec.ip))
    && (IsSet(s.spec.protocolIP) ==> In(f.protocol, s.spec.protocolIP, 32))
    && (IsSet(s.spec.vtep) ==> s.spec.role != Spine && In(f.vtep, s.spec.vtep, 32))
    && (s.spec.asn != 0 ==> if s.spec.role == Spine then s.spec.asn == f.spineASN else f.leafASNStart <= s.spec.asn <= f.leafASNEnd)
  }

  predicate SwitchesApart(a: Switch, b: Switch) {
    Differ(a.spec.ip, b.spec.ip) && Differ(a.spec.protocolIP, b.spec.protocolIP)
  }

  /** A leaf of the MCLAG group that has an ASN or a VTEP address. */
  predicate Shown(s: Switch, group: Name) {
    s.spec.role != Spine && s.spec.red == MCLAG(group) && (s.spec.asn != 0 || IsSet(s.spec.vtep))
  }

  /** The group's first such leaf. */
  predicate FirstShown(sws: seq<Switch>, j: nat, group: Name) {
    j < |sws| && Shown(sws[j], group) && forall k :: 0 <= k < j ==> !Shown(sws[k], group)
  }

  predicate NoneShown(sws: seq<Switch>, i: nat, group: Name)
    requires i <= |sws|
  {
    forall k :: 0 <= k < i ==> !Shown(sws[k], group)
  }

  /** The switch has a peer whose values it must share. */
  predicate Follows(sws: seq<Switch>, i: nat)
    requires i < |sws|
  {
    sws[i].spec.red.MCLAG? && !NoneShown(sws, i, sws[i].spec.red.group)
  }

  /** A leaf has the ASN of its group's first leaf, or one that no earlier leaf has. */
  predicate AsnHealthy(sws: seq<Switch>, i: nat)
    requires i < |sws|
  {
    sws[i].spec.role != Spine && sws[i].spec.asn != 0 ==>
      if Follows(sws, i)
      then forall j :: 0 <= j < i && FirstShown(sws, j, sws[i].spec.red.group) ==> sws[j].spec.asn == sws[i].spec.asn
      else forall j :: 0 <= j < i && sws[j].spec.role != Spine ==> sws[j].spec.asn != sws[i].spec.asn
  }

  /** Likewise its VTEP address, except that the first leaf of a group is not compared with anyone once it has an ASN. */
  predicate VtepHealthy(sws: seq<Switch>, i: nat)
    requires i < |sws|
  {
    sws[i].spec.role != Spine && IsSet(sws[i].spec.vtep) ==>
      if Follows(sws, i)
      then forall j :: 0 <= j < i && FirstShown(sws, j, sws[i].spec.red.group) ==> sws[j].spec.vtep == sws[i].spec.vtep
      else (sws[i].spec.red.MCLAG? && sws[i].spec.asn != 0) || VtepUnused(sws, i)
  }

  predicate VtepUnused(sws: seq<Switch>, i: nat)
    requires i < |sws|
  {
    forall j :: 0 <= j < i && sws[j].spec.role != Spine ==> Differ(sws[j].spec.vtep, sws[i].spec.vtep)
  }

  predicate Numbered(l: Link) {
    IsSet(l.near.ip) && IsSet(l.far.ip)
  }

  /** A link with both addresses has the two addresses of one pair. */
  predicate LinkHealthy(f: FabConfig, l: Link) {
    Numbered(l) ==>
      && In(f.fabric, l.near.ip, 31) && In(f.fabric, l.far.ip, 31)
      && l.near.ip.addr != l.far.ip.addr && l.near.ip.addr / 2 == l.far.ip.addr / 2
  }

  predicate LinksApart(a: Link, b: Link) {
    Numbered(a) && Numbered(b) ==>
      Differ(a.near.ip, b.near.ip) && Differ(a.near.ip, b.far.ip) && Differ(a.far.ip, b.near.ip) && Differ(a.far.ip, b.far.ip)
  }

  predicate GatewayHealthy(f: FabConfig, g: Gateway) {
    && (g.spec.asn != 0 ==> g.spec.asn == f.gatewayASN)
    && (IsSet(g.spec.protocolIP) ==> In(f.protocol, g.spec.protocolIP, 32))
    && (IsSet(g.spec.vtep) ==> In(f.vtep, g.spec.vtep, 32))
  }

  predicate GatewaysApart(a: Gateway, b: Gateway) {
    Differ(a.spec.protocolIP, b.spec.protocolIP) && Differ(a.spec.vtep, b.spec.vtep)
  }

  predicate ConfigHealthy(f: FabConfig) {
    && Masked(f.mgmt) <= f.dhcpStart < f.dhcpEnd < Masked(f.mgmt) + Size(f.mgmt)
    && f.dummy.bits <= 24
  }

  predicate HostsHealthy(f: FabConfig, w: Wiring) {
    var h := w.controls + w.nodes;
    && (forall i :: 0 <= i < |h| ==> HostHealthy(f, h[i]))
    && (forall i, j :: 0 <= i < j < |h| ==> HostsApart(h[i], h[j]))
  }

  predicate SwitchesHealthy(f: FabConfig, w: Wiring) {
    var h, s := w.controls + w.nodes, w.switches;
    && (forall i :: 0 <= i < |s| ==> SwitchHealthy(f, s[i]) && AsnHealthy(s, i) && VtepHealthy(s, i))
    && (forall i, j :: 0 <= i < j < |s| ==> SwitchesApart(s[i], s[j]))
    && (forall i, j :: 0 <= i < |h| && 0 <= j < |s| ==> Differ(h[i].spec.mgmt, s[j].spec.ip))
  }

  predicate GatewaysHealthy(f: FabConfig, w: Wiring) {
    var s, g := w.switches, w.gateways;
    && (forall i :: 0 <= i < |g| ==> GatewayHealthy(f, g[i]))
    && (forall i, j :: 0 <= i < j < |g| ==> GatewaysApart(g[i], g[j]))
    && (forall i, j :: 0 <= i < |s| && 0 <= j < |g| ==> Differ(s[i].spec.protocolIP, g[j].spec.protocolIP))
    && (forall i, j :: 0 <= i < |s| && 0 <= j < |g| && s[i].spec.role != Spine ==> Differ(s[i].spec.vtep, g[j].spec.vtep))
  }

  /** Link k of connection c, which is a fabric, mesh or gateway connection. */
  predicate HasLink(conns: seq<Conn>, c: nat, k: nat) {
    c < |conns| && k < |conns[c].spec.links| &&
    (conns[c].spec.kind == FabricConn || conns[c].spec.kind == MeshConn || conns[c].spec.kind == GatewayConn)
  }

  ghost predicate LinksHealthy(f: FabConfig, w: Wiring) {
    && (forall c: nat, k: nat :: HasLink(w.conns, c, k) ==> LinkHealthy(f, w.conns[c].spec.links[k]))
    && (forall c: nat, k: nat, d: nat, l: nat :: HasLink(w.conns, c, k) && HasLink(w.conns, d, l) && (c != d || k != l) ==> LinksApart(w.conns[c].spec.links[k], w.conns[d].spec.links[l]))
  }

  // ---- Texts -----------------------------------------------------------------------------------------------------

  lemma {:induction false} FreshPairs(taken: set<U32>, col: seq<Text>)
    ensures AllFresh(taken, col) <==>
      && (forall i, j :: 0 <= i < j < |col| ==> Differ(col[i], col[j]))
      && (forall i :: 0 <= i < |col| && col[i].Cidr? ==> col[i].addr !in taken)
  {
    if AllFresh(taken, col) {
      forall i, j | 0 <= i < j < |col|
        ensures Differ(col[i], col[j])
      {
        assert FreshAt(taken, col, j);
        assert col[i].Cidr? ==> col[i].addr in UsedUpTo(col, j);
      }
      forall i | 0 <= i < |col| && col[i].Cidr?
        ensures col[i].addr !in taken
      {
        assert FreshAt(taken, col, i);
      }
    }
  }

  lemma {:induction false} UsedMeans(col: seq<Text>, t: Text)
    ensures t.Cidr? ==> (t.addr in Used(col) <==> exists i :: 0 <= i < |col| && col[i].Cidr? && col[i].addr == t.addr)
  {
  }

  // ---- Hosts -----------------------------------------------------------------------------------------------------

  lemma {:induction false} HostHealthyIff(f: FabConfig, h: Host)
    ensures HostOk(f, h) && (h.spec.mgmt.Cidr? ==> h.spec.mgmt.addr != f.vip) <==> HostHealthy(f, h)
  {
    if h.spec.mgmt.Cidr? {
      ContainsRange(f.mgmt, h.spec.mgmt.addr);
    }
    if h.spec.dummy.Cidr? {
      ContainsRange(f.dummy, h.spec.dummy.addr);
    }
  }

  lemma {:induction false} HostsIff(f: FabConfig, w: Wiring)
    ensures HostsSound(f, Hosts(w)) <==> HostsHealthy(f, w)
  {
    hide HostOk, HostHealthy, FreshAt;
    var h := Hosts(w);
    HostsSplit(f, h);
    FreshPairs({f.vip}, HostMgmt(h));
    FreshPairs({}, HostDummy(h));
    HostPairsIff(h);
    var col := HostMgmt(h);
    assert forall i :: 0 <= i < |h| ==> col[i] == h[i].spec.mgmt;
    forall i | 0 <= i < |h|
      ensures HostOk(f, h[i]) && (h[i].spec.mgmt.Cidr? ==> h[i].spec.mgmt.addr != f.vip) <==> HostHealthy(f, h[i])
    {
      HostHealthyIff(f, h[i]);
    }
  }

  lemma {:induction false} HostPairsIff(h: seq<Host>)
    ensures (forall i, j :: 0 <= i < j < |h| ==> HostsApart(h[i], h[j])) <==>
      && (forall i, j :: 0 <= i < j < |HostMgmt(h)| ==> Differ(HostMgmt(h)[i], HostMgmt(h)[j]))
      && (forall i, j :: 0 <= i < j < |HostDummy(h)| ==> Differ(HostDummy(h)[i], HostDummy(h)[j]))
  {
    var p, v := HostMgmt(h), HostDummy(h);
    assert forall i :: 0 <= i < |h| ==> p[i] == h[i].spec.mgmt && (p[i] != Unset ==> v[i] == h[i].spec.dummy) && (p[i] == Unset ==> v[i] == Unset);
    if forall i, j :: 0 <= i < j < |h| ==> HostsApart(h[i], h[j]) {
      forall i, j | 0 <= i < j < |h|
        ensures Differ(p[i], p[j]) && Differ(v[i], v[j])
      {
        assert HostsApart(h[i], h[j]);
      }
    }
    if (forall i, j :: 0 <= i < j < |p| ==> Differ(p[i], p[j])) && (forall i, j :: 0 <= i < j < |v| ==> Differ(v[i], v[j])) {
      forall i, j | 0 <= i < j < |h|
        ensures HostsApart(h[i], h[j])
      {
        assert Differ(p[i], p[j]) && Differ(v[i], v[j]);
      }
    }
  }

  lemma {:induction false} HostsSplit(f: FabConfig, h: seq<Host>)
    ensures HostsSound(f, h) <==>
      (forall i :: 0 <= i < |h| ==> HostOk(f, h[i])) && AllFresh({f.vip}, HostMgmt(h)) && AllFresh({}, HostDummy(h))
  {
    hide HostOk, FreshAt;
    if HostsSound(f, h) {
      forall i | 0 <= i < |h|
        ensures HostOk(f, h[i]) && FreshAt({f.vip}, HostMgmt(h), i) && FreshAt({}, HostDummy(h), i)
      {
        assert HostSoundAt(f, h, i);
      }
    }
  }

  // ---- Switches -----------------------------------------------------------------------------------------------------

  lemma {:induction false} SwitchHealthyIff(f: FabConfig, s: Switch)
    ensures SwitchHealthy(f, s) <==>
      && SwitchOk(f, s) && (s.spec.ip.Cidr? ==> s.spec.ip.addr != f.vip)
      && (s.spec.asn > 0 ==> (s.spec.role == Spine ==> s.spec.asn == f.spineASN) && (IsLeaf(s) ==> f.leafASNStart <= s.spec.asn <= f.leafASNEnd))
  {
    if s.spec.ip.Cidr? {
      ContainsRange(f.mgmt, s.spec.ip.addr);
    }
    if s.spec.protocolIP.Cidr? {
      ContainsRange(f.protocol, s.spec.protocolIP.addr);
    }
    if s.spec.vtep.Cidr? {
      ContainsRange(f.vtep, s.spec.vtep.addr);
    }
  }

  lemma {:induction false} ShownRegisters(f: FabConfig, sws: seq<Switch>, n: nat, g: Name)
    requires n <= |sws| && forall k :: 0 <= k < |sws| ==> SwitchHealthy(f, sws[k])
    ensures var r := Reference(sws, g, n);
      && (r.None? <==> NoneShown(sws, n, g))
      && (r.Some? ==> forall j :: 0 <= j < n ==> (FirstShown(sws, j, g) <==> j == r.value))
  {
    FitSwitches.ReferenceMisses(sws, g, n);
    forall k | 0 <= k < |sws|
      ensures Shown(sws[k], g) <==> Registers(sws[k], g)
    {
    }
  }

  lemma {:induction false} LeafIff(f: FabConfig, sws: seq<Switch>, i: nat)
    requires i < |sws| && forall k :: 0 <= k < |sws| ==> SwitchHealthy(f, sws[k])
    ensures AsnSound(f, sws, i) <==> AsnHealthy(sws, i)
    ensures VtepSound(sws, i) <==> VtepHealthy(sws, i)
  {
    hide FirstShown, NoneShown, Reference;
    assert SwitchHealthy(f, sws[i]);
    if sws[i].spec.red.MCLAG? {
      ShownRegisters(f, sws, i, sws[i].spec.red.group);
    }
    VtepFreshIff(f, sws, i);
    hide FreshAt;
    assert forall j :: 0 <= j < i && IsLeaf(sws[j]) <==> 0 <= j < i && sws[j].spec.role != Spine by {
      forall j | 0 <= j < i
        ensures IsLeaf(sws[j]) <==> sws[j].spec.role != Spine
      {
        assert SwitchHealthy(f, sws[j]);
      }
    }
  }

  lemma {:induction false} VtepFreshIff(f: FabConfig, sws: seq<Switch>, i: nat)
    requires i < |sws| && forall k :: 0 <= k < |sws| ==> SwitchHealthy(f, sws[k])
    ensures sws[i].spec.role != Spine ==>
      (FreshAt({}, LeafVteps(sws), i) <==> VtepUnused(sws, i))
  {
    var col := LeafVteps(sws);
    forall j | 0 <= j < |sws|
      ensures col[j] == if sws[j].spec.role != Spine then sws[j].spec.vtep else Unset
    {
      assert SwitchHealthy(f, sws[j]);
    }
    if sws[i].spec.role != Spine && FreshAt({}, col, i) {
      forall j | 0 <= j < i && sws[j].spec.role != Spine
        ensures Differ(sws[j].spec.vtep, sws[i].spec.vtep)
      {
        assert col[j].Cidr? ==> col[j].addr in UsedUpTo(col, i);
      }
    }
  }

  lemma {:induction false} SwitchesSplit(f: FabConfig, taken: set<U32>, s: seq<Switch>)
    ensures SwitchesSound(f, taken, s) <==>
      && (forall i :: 0 <= i < |s| ==> SwitchOk(f, s[i]) && AsnSound(f, s, i) && VtepSound(s, i))
      && AllFresh(taken, SwitchIPs(s)) && AllFresh({}, SwitchProtos(s))
  {
    hide SwitchOk, AsnSound, VtepSound, FreshAt;
    if SwitchesSound(f, taken, s) {
      forall i | 0 <= i < |s|
        ensures SwitchOk(f, s[i]) && AsnSound(f, s, i) && VtepSound(s, i) && FreshAt(taken, SwitchIPs(s), i) && FreshAt({}, SwitchProtos(s), i)
      {
        assert SwitchSoundAt(f, taken, s, i);
      }
    }
  }

  lemma {:induction false} SwitchesIff(f: FabConfig, w: Wiring)
    requires HostsHealthy(f, w)
    ensures SwitchesSound(f, {f.vip} + Used(HostMgmt(Hosts(w))), w.switches) <==> SwitchesHealthy(f, w)
  {
    var s := w.switches;
    if SwitchesSound(f, {f.vip} + Used(HostMgmt(Hosts(w))), s) {
      SoundMeansHealthy(f, w);
    }
    if SwitchesHealthy(f, w) {
      HealthyMeansSound(f, w);
    }
  }

  lemma {:induction false} SoundMeansHealthy(f: FabConfig, w: Wiring)
    requires SwitchesSound(f, {f.vip} + Used(HostMgmt(Hosts(w))), w.switches)
    ensures SwitchesHealthy(f, w)
  {
    hide SwitchesSound, SwitchOk, AsnHealthy, VtepHealthy, VtepSound, FreshAt, SwitchHealthy;
    var h, s := Hosts(w), w.switches;
    var taken := {f.vip} + Used(HostMgmt(h));
    SwitchesSplit(f, taken, s);
    FreshPairs(taken, SwitchIPs(s));
    FreshPairs({}, SwitchProtos(s));
    forall i | 0 <= i < |s|
      ensures SwitchHealthy(f, s[i])
    {
      SwitchHealthyIff(f, s[i]);
      assert SwitchIPs(s)[i] == s[i].spec.ip;
    }
    forall i | 0 <= i < |s|
      ensures AsnHealthy(s, i) && VtepHealthy(s, i)
    {
      LeafIff(f, s, i);
    }
    forall i, j | 0 <= i < |h| && 0 <= j < |s|
      ensures Differ(h[i].spec.mgmt, s[j].spec.ip)
    {
      UsedMeans(HostMgmt(h), s[j].spec.ip);
      assert SwitchIPs(s)[j] == s[j].spec.ip && HostMgmt(h)[i] == h[i].spec.mgmt;
    }
    forall i, j | 0 <= i < j < |s|
      ensures SwitchesApart(s[i], s[j])
    {
      assert Differ(SwitchIPs(s)[i], SwitchIPs(s)[j]) && Differ(SwitchProtos(s)[i], SwitchProtos(s)[j]);
    }
  }

  lemma {:induction false} HealthyMeansSound(f: FabConfig, w: Wiring)
    requires SwitchesHealthy(f, w)
    ensures SwitchesSound(f, {f.vip} + Used(HostMgmt(Hosts(w))), w.switches)
  {
    hide SwitchesSound, SwitchOk, AsnHealthy, VtepHealthy, VtepSound, AsnSound, FreshAt, SwitchHealthy;
    var h, s := Hosts(w), w.switches;
    var taken := {f.vip} + Used(HostMgmt(h));
    SwitchesSplit(f, taken, s);
    FreshPairs(taken, SwitchIPs(s));
    FreshPairs({}, SwitchProtos(s));
    forall i | 0 <= i < |s|
      ensures SwitchOk(f, s[i]) && AsnSound(f, s, i) && VtepSound(s, i)
      ensures SwitchIPs(s)[i].Cidr? ==> SwitchIPs(s)[i].addr !in taken
    {
      SwitchHealthyIff(f, s[i]);
      LeafIff(f, s, i);
      UsedMeans(HostMgmt(h), s[i].spec.ip);
      assert forall j :: 0 <= j < |h| ==> HostMgmt(h)[j] == h[j].spec.mgmt && Differ(h[j].spec.mgmt, s[i].spec.ip);
    }
    forall i, j | 0 <= i < j < |s|
      ensures Differ(SwitchIPs(s)[i], SwitchIPs(s)[j]) && Differ(SwitchProtos(s)[i], SwitchProtos(s)[j])
    {
      assert SwitchesApart(s[i], s[j]);
    }
  }

  // ---- Gateways -----------------------------------------------------------------------------------------------------

  lemma {:induction false} GatewayHealthyIff(f: FabConfig, g: Gateway)
    ensures GatewayHealthy(f, g) <==> GatewayOk(f, g)
  {
    if g.spec.protocolIP.Cidr? {
      ContainsRange(f.protocol, g.spec.protocolIP.addr);
    }
    if g.spec.vtep.Cidr? {
      ContainsRange(f.vtep, g.spec.vtep.addr);
    }
  }

  lemma {:induction false} GatewaysSplit(f: FabConfig, protos: set<U32>, vteps: set<U32>, g: seq<Gateway>)
    ensures GatewaysSound(f, protos, vteps, g) <==>
      && (forall i :: 0 <= i < |g| ==> GatewayHealthy(f, g[i]))
      && AllFresh(protos, GatewayProtos(g)) && AllFresh(vteps, GatewayVteps(g))
  {
    hide GatewayOk, GatewayHealthy, FreshAt;
    forall i | 0 <= i < |g|
      ensures GatewayHealthy(f, g[i]) <==> GatewayOk(f, g[i])
    {
      GatewayHealthyIff(f, g[i]);
    }
    if GatewaysSound(f, protos, vteps, g) {
      forall i | 0 <= i < |g|
        ensures GatewayHealthy(f, g[i]) && FreshAt(protos, GatewayProtos(g), i) && FreshAt(vteps, GatewayVteps(g), i)
      {
        assert GatewaySoundAt(f, protos, vteps, g, i);
      }
    }
  }

  lemma {:induction false} TakenIff(taken: seq<Text>, col: seq<Text>)
    ensures (forall j :: 0 <= j < |col| && col[j].Cidr? ==> col[j].addr !in Used(taken)) <==>
      (forall i, j :: 0 <= i < |taken| && 0 <= j < |col| ==> Differ(taken[i], col[j]))
  {
    forall j | 0 <= j < |col|
      ensures (col[j].Cidr? ==> col[j].addr !in Used(taken)) <==> forall i :: 0 <= i < |taken| ==> Differ(taken[i], col[j])
    {
      UsedMeans(taken, col[j]);
    }
  }

  lemma {:induction false} GatewaysIff(f: FabConfig, w: Wiring)
    requires SwitchesHealthy(f, w)
    ensures GatewaysSound(f, Used(SwitchProtos(w.switches)), Used(LeafVteps(w.switches)), w.gateways) <==> GatewaysHealthy(f, w)
  {
    hide GatewaysSound, GatewayHealthy, AllFresh, AsnHealthy, VtepHealthy, Used;
    var s, g := w.switches, w.gateways;
    GatewaysSplit(f, Used(SwitchProtos(s)), Used(LeafVteps(s)), g);
    FreshPairs(Used(SwitchProtos(s)), GatewayProtos(g));
    FreshPairs(Used(LeafVteps(s)), GatewayVteps(g));
    TakenIff(SwitchProtos(s), GatewayProtos(g));
    TakenIff(LeafVteps(s), GatewayVteps(g));
    forall i | 0 <= i < |s|
      ensures LeafVteps(s)[i] == if s[i].spec.role != Spine then s[i].spec.vtep else Unset
    {
      assert SwitchHealthy(f, s[i]);
    }
    PairsIff(g);
    TakenPairsIff(s, g);
  }

  lemma {:induction false} PairsIff(g: seq<Gateway>)
    ensures (forall i, j :: 0 <= i < j < |g| ==> GatewaysApart(g[i], g[j])) <==>
      && (forall i, j :: 0 <= i < j < |GatewayProtos(g)| ==> Differ(GatewayProtos(g)[i], GatewayProtos(g)[j]))
      && (forall i, j :: 0 <= i < j < |GatewayVteps(g)| ==> Differ(GatewayVteps(g)[i], GatewayVteps(g)[j]))
  {
    hide Differ;
    var p, v := GatewayProtos(g), GatewayVteps(g);
    assert forall i :: 0 <= i < |g| ==> p[i] == g[i].spec.protocolIP && v[i] == g[i].spec.vtep;
    if forall i, j :: 0 <= i < j < |g| ==> GatewaysApart(g[i], g[j]) {
      forall i, j | 0 <= i < j < |g|
        ensures Differ(p[i], p[j]) && Differ(v[i], v[j])
      {
        assert GatewaysApart(g[i], g[j]);
      }
    }
    if (forall i, j :: 0 <= i < j < |p| ==> Differ(p[i], p[j])) && (forall i, j :: 0 <= i < j < |v| ==> Differ(v[i], v[j])) {
      forall i, j | 0 <= i < j < |g|
        ensures GatewaysApart(g[i], g[j])
      {
        assert Differ(p[i], p[j]) && Differ(v[i], v[j]);
      }
    }
  }

  lemma {:induction false} TakenPairsIff(s: seq<Switch>, g: seq<Gateway>)
    requires forall i :: 0 <= i < |s| ==> LeafVteps(s)[i] == if s[i].spec.role != Spine then s[i].spec.vtep else Unset
    ensures (forall i, j :: 0 <= i < |SwitchProtos(s)| && 0 <= j < |GatewayProtos(g)| ==> Differ(SwitchProtos(s)[i], GatewayProtos(g)[j])) <==>
      (forall i, j :: 0 <= i < |s| && 0 <= j < |g| ==> Differ(s[i].spec.protocolIP, g[j].spec.protocolIP))
    ensures (forall i, j :: 0 <= i < |LeafVteps(s)| && 0 <= j < |GatewayVteps(g)| ==> Differ(LeafVteps(s)[i], GatewayVteps(g)[j])) <==>
      (forall i, j :: 0 <= i < |s| && 0 <= j < |g| && s[i].spec.role != Spine ==> Differ(s[i].spec.vtep, g[j].spec.vtep))
  {
    var a, b, p, v := SwitchProtos(s), LeafVteps(s), GatewayProtos(g), GatewayVteps(g);
    assert forall i :: 0 <= i < |s| ==> a[i] == s[i].spec.protocolIP;
    assert forall j :: 0 <= j < |g| ==> p[j] == g[j].spec.protocolIP && v[j] == g[j].spec.vtep;
    if forall i, j :: 0 <= i < |a| && 0 <= j < |p| ==> Differ(a[i], p[j]) {
      forall i, j | 0 <= i < |s| && 0 <= j < |g|
        ensures Differ(s[i].spec.protocolIP, g[j].spec.protocolIP)
      {
        assert Differ(a[i], p[j]);
      }
    }
    if forall i, j :: 0 <= i < |b| && 0 <= j < |v| ==> Differ(b[i], v[j]) {
      forall i, j | 0 <= i < |s| && 0 <= j < |g| && s[i].spec.role != Spine
        ensures Differ(s[i].spec.vtep, g[j].spec.vtep)
      {
        assert Differ(b[i], v[j]);
      }
    }
  }

  // ---- Links -----------------------------------------------------------------------------------------------------

  /** Where link k of connection c stands among all links. */
  lemma {:induction false} LinkStands(conns: seq<Conn>, c: nat, k: nat)
    requires HasLink(conns, c, k)
    ensures LinkCount(conns, c) + k < |AllLinks(conns)| && AllLinks(conns)[LinkCount(conns, c) + k] == conns[c].spec.links[k]
  {
    LinksPrefix(conns, c, |conns|);
    LinksCounted(conns, c);
    assert (LinksUpTo(conns, c) + Addressed(conns[c]))[LinkCount(conns, c) + k] == conns[c].spec.links[k];
  }

  lemma {:induction false} LinkFound(conns: seq<Conn>, n: nat, p: nat) returns (c: nat, k: nat)
    requires n <= |conns| && p < |LinksUpTo(conns, n)|
    ensures c < n && HasLink(conns, c, k) && p == LinkCount(conns, c) + k && LinksUpTo(conns, n)[p] == conns[c].spec.links[k]
  {
    LinksCounted(conns, n - 1);
    if p < LinkCount(conns, n - 1) {
      c, k := LinkFound(conns, n - 1, p);
    } else {
      c, k := n - 1, p - LinkCount(conns, n - 1);
    }
  }

  lemma {:induction false} LinksStandApart(conns: seq<Conn>, c: nat, k: nat, d: nat, l: nat)
    requires HasLink(conns, c, k) && HasLink(conns, d, l) && (c != d || k != l)
    ensures LinkCount(conns, c) + k != LinkCount(conns, d) + l
  {
    if c < d {
      FitLinks.CountGrows(conns, c, d);
    } else if d < c {
      FitLinks.CountGrows(conns, d, c);
    }
  }

  lemma {:induction false} UsedMember(l: seq<Link>, m: nat, k: nat)
    requires k < m <= |l|
    ensures EndAddrs(l[k]) <= LinkUsed(l, m)
  {
    if k < m - 1 {
      UsedMember(l, m - 1, k);
    }
  }

  lemma {:induction false} LinkHealthyIff(f: FabConfig, l: Link)
    ensures LinkHealthy(f, l) <==> (Complete(l) ==>
      PointToPoint(f, l.near.ip) && PointToPoint(f, l.far.ip) && l.near.ip.addr != l.far.ip.addr && Mask(l.near.ip.addr, 1) == Mask(l.far.ip.addr, 1))
  {
    if l.near.ip.Cidr? {
      ContainsRange(f.fabric, l.near.ip.addr);
    }
    if l.far.ip.Cidr? {
      ContainsRange(f.fabric, l.far.ip.addr);
    }
  }

  lemma {:induction false} SoundLinkHealthy(f: FabConfig, l: seq<Link>, b: nat)
    requires b < |l| && LinksSound(f, l)
    ensures LinkHealthy(f, l[b]) && forall a :: 0 <= a < b ==> LinksApart(l[a], l[b])
  {
    assert LinkSoundAt(f, l, b);
    LinkHealthyIff(f, l[b]);
    forall a | 0 <= a < b
      ensures LinksApart(l[a], l[b])
    {
      UsedMember(l, b, a);
    }
  }

  lemma {:induction false} HealthyLinkSound(f: FabConfig, l: seq<Link>, b: nat)
    requires b < |l| && LinkHealthy(f, l[b]) && forall a :: 0 <= a < b ==> LinksApart(l[a], l[b])
    ensures LinkSoundAt(f, l, b)
  {
    LinkHealthyIff(f, l[b]);
    if Complete(l[b]) {
      forall x: U32 | x in LinkUsed(l, b)
        ensures x != l[b].near.ip.addr && x != l[b].far.ip.addr
      {
        var a := FitLinks.UsedFrom(l, b, x);
        assert LinksApart(l[a], l[b]);
      }
    }
  }

  lemma {:induction false} LinksIff(f: FabConfig, w: Wiring)
    ensures LinksSound(f, AllLinks(w.conns)) <==> LinksHealthy(f, w)
  {
    hide LinksSound, LinkSoundAt, LinkHealthy, LinksApart;
    var l := AllLinks(w.conns);
    if LinksSound(f, l) {
      forall c: nat, k: nat | HasLink(w.conns, c, k)
        ensures LinkHealthy(f, w.conns[c].spec.links[k])
      {
        LinkStands(w.conns, c, k);
        SoundLinkHealthy(f, l, LinkCount(w.conns, c) + k);
      }
      forall c: nat, k: nat, d: nat, e: nat | HasLink(w.conns, c, k) && HasLink(w.conns, d, e) && (c != d || k != e)
        ensures LinksApart(w.conns[c].spec.links[k], w.conns[d].spec.links[e])
      {
        LinkPairApart(f, w.conns, c, k, d, e);
      }
    }
    if LinksHealthy(f, w) {
      HealthyLinksSound(f, w);
    }
  }

  lemma {:induction false} LinkPairApart(f: FabConfig, conns: seq<Conn>, c: nat, k: nat, d: nat, e: nat)
    requires LinksSound(f, AllLinks(conns))
    requires HasLink(conns, c, k) && HasLink(conns, d, e) && (c != d || k != e)
    ensures LinksApart(conns[c].spec.links[k], conns[d].spec.links[e])
  {
    hide LinksSound, LinkHealthy, LinkUsed, LinksUpTo;
    var l, p, q := AllLinks(conns), LinkCount(conns, c) + k, LinkCount(conns, d) + e;
    LinkStands(conns, c, k);
    LinkStands(conns, d, e);
    LinksStandApart(conns, c, k, d, e);
    SoundLinkHealthy(f, l, if p < q then q else p);
    assert LinksApart(l[if p < q then p else q], l[if p < q then q else p]);
  }

  lemma {:induction false} HealthyLinksSound(f: FabConfig, w: Wiring)
    requires LinksHealthy(f, w)
    ensures LinksSound(f, AllLinks(w.conns))
  {
    hide LinkSoundAt, LinkHealthy, LinksApart;
    var l := AllLinks(w.conns);
    forall b | 0 <= b < |l|
      ensures LinkSoundAt(f, l, b)
    {
      var c, k := LinkFound(w.conns, |w.conns|, b);
      forall a | 0 <= a < b
        ensures LinksApart(l[a], l[b])
      {
        var d, e := LinkFound(w.conns, |w.conns|, a);
      }
      HealthyLinkSound(f, l, b);
    }
  }
}
