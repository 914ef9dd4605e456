/**
  * The hydration checker: when it fails, and the status it reports when it does not. Each kind of object is a column of
  * tallies, and the answer depends only on their sums.
  */
module Checker {
  import opened Net
  import opened WiringModel
  import opened Store

  datatype Status = Nothing | Partial | Full

  datatype Verdict = Err | Ok(status: Status)

  // ---- What makes the checker fail -------------------------------------------------

  predicate ConfigOk(f: FabConfig) {
    && Contains(f.mgmt, f.dhcpStart) && Contains(f.mgmt, f.dhcpEnd)
    && f.dhcpStart < f.dhcpEnd
    && f.dummy.bits <= 24
  }

  predicate InMgmt(f: FabConfig, a: U32) {
    Contains(f.mgmt, a) && a < f.dhcpStart
  }

  predicate HostOk(f: FabConfig, h: Host) {
    h.spec.mgmt == Unset ||
    (&& h.spec.mgmt.Cidr? && InMgmt(f, h.spec.mgmt.addr)
     && h.spec.dummy.Cidr? && h.spec.dummy.bits == 31 && Contains(f.dummy, h.spec.dummy.addr))
  }

  predicate HostSoundAt(f: FabConfig, h: seq<Host>, i: nat)
    requires i < |h|
  {
    HostOk(f, h[i]) && FreshAt({f.vip}, HostMgmt(h), i) && FreshAt({}, HostDummy(h), i)
  }

  predicate HostsSound(f: FabConfig, h: seq<Host>) {
    forall i :: 0 <= i < |h| ==> HostSoundAt(f, h, i)
  }

  predicate Single(p: Prefix, t: Text) {
    t == Unset || (t.Cidr? && t.bits == 32 && Contains(p, t.addr))
  }

  predicate SwitchOk(f: FabConfig, s: Switch) {
    && ValidRole(s)
    && (s.spec.ip == Unset || (s.spec.ip.Cidr? && InMgmt(f, s.spec.ip.addr)))
    && Single(f.protocol, s.spec.protocolIP)
    && (if s.spec.role == Spine then s.spec.vtep == Unset else Single(f.vtep, s.spec.vtep))
  }

  /** A switch that becomes its group's reference the first time one is seen. */
  predicate Registers(s: Switch, g: Name) {
    IsLeaf(s) && InGroup(s, g) && (s.spec.asn > 0 || s.spec.vtep != Unset)
  }

  function Reference(sws: seq<Switch>, g: Name, n: nat): (r: Option<nat>)
    requires n <= |sws|
    ensures r.Some? ==> r.value < n && Registers(sws[r.value], g)
  {
    if n == 0 then None
    else
      var r := Reference(sws, g, n - 1);
      if r.Some? then r else if Registers(sws[n - 1], g) then Some(n - 1) else None
  }

  predicate FreshLeafASN(sws: seq<Switch>, i: nat)
    requires i < |sws|
  {
    forall j :: 0 <= j < i && IsLeaf(sws[j]) && sws[j].spec.asn > 0 ==> sws[j].spec.asn != sws[i].spec.asn
  }

  predicate AsnSound(f: FabConfig, sws: seq<Switch>, i: nat)
    requires i < |sws|
  {
    var s := sws[i];
    s.spec.asn > 0 ==>
      && (s.spec.role == Spine ==> s.spec.asn == f.spineASN)
      && (IsLeaf(s) ==>
        && f.leafASNStart <= s.spec.asn <= f.leafASNEnd
        && (if s.spec.red.MCLAG? && Reference(sws, s.spec.red.group, i).Some?
            then sws[Reference(sws, s.spec.red.group, i).value].spec.asn == s.spec.asn
            else FreshLeafASN(sws, i)))
  }

  predicate VtepSound(sws: seq<Switch>, i: nat)
    requires i < |sws|
  {
    var s := sws[i];
    IsLeaf(s) && s.spec.vtep != Unset ==>
      if s.spec.red.MCLAG? && Reference(sws, s.spec.red.group, i).Some?
      then sws[Reference(sws, s.spec.red.group, i).value].spec.vtep == s.spec.vtep
      // A switch with an ASN has just registered itself as its group's reference.
      else (s.spec.red.MCLAG? && s.spec.asn > 0) || FreshAt({}, LeafVteps(sws), i)
  }

  predicate SwitchSoundAt(f: FabConfig, taken: set<U32>, sws: seq<Switch>, i: nat)
    requires i < |sws|
  {
    && SwitchOk(f, sws[i]) && AsnSound(f, sws, i) && VtepSound(sws, i)
    && FreshAt(taken, SwitchIPs(sws), i)
    && FreshAt({}, SwitchProtos(sws), i)
  }

  predicate SwitchesSound(f: FabConfig, taken: set<U32>, sws: seq<Switch>) {
    forall i :: 0 <= i < |sws| ==> SwitchSoundAt(f, taken, sws, i)
  }

  predicate PointToPoint(f: FabConfig, t: Text) {
    t.Cidr? && t.bits == 31 && Contains(f.fabric, t.addr)
  }

  predicate LinkSoundAt(f: FabConfig, l: seq<Link>, m: nat)
    requires m < |l|
  {
    Complete(l[m]) ==>
      var near, far := l[m].near.ip, l[m].far.ip;
      && PointToPoint(f, near) && PointToPoint(f, far)
      && near.addr !in LinkUsed(l, m) && far.addr !in LinkUsed(l, m) && near.addr != far.addr
      && Mask(near.addr, 1) == Mask(far.addr, 1)
  }

  predicate LinksSound(f: FabConfig, l: seq<Link>) {
    forall m :: 0 <= m < |l| ==> LinkSoundAt(f, l, m)
  }

  predicate GatewayOk(f: FabConfig, g: Gateway) {
    && (g.spec.asn != 0 ==> g.spec.asn == f.gatewayASN)
    && Single(f.protocol, g.spec.protocolIP)
    && Single(f.vtep, g.spec.vtep)
  }

  predicate GatewaySoundAt(f: FabConfig, protos: set<U32>, vteps: set<U32>, g: seq<Gateway>, i: nat)
    requires i < |g|
  {
    GatewayOk(f, g[i]) && FreshAt(protos, GatewayProtos(g), i) && FreshAt(vteps, GatewayVteps(g), i)
  }

  predicate GatewaysSound(f: FabConfig, protos: set<U32>, vteps: set<U32>, g: seq<Gateway>) {
    forall i :: 0 <= i < |g| ==> GatewaySoundAt(f, protos, vteps, g, i)
  }

  /** The checker finds no error. */
  predicate Sound(f: FabConfig, w: Wiring) {
    && ConfigOk(f)
    && HostsSound(f, Hosts(w))
    && SwitchesSound(f, {f.vip} + Used(HostMgmt(Hosts(w))), w.switches)
    && LinksSound(f, AllLinks(w.conns))
    && GatewaysSound(f, Used(SwitchProtos(w.switches)), Used(LeafVteps(w.switches)), w.gateways)
  }

  // ---- What is set and what is missing ----------------------------------------------

  function Bit(b: bool): nat {
    if b then 1 else 0
  }

  /** Fields counted and fields missing. */
  datatype Tally = Tally(total: nat, missing: nat)

  function Add(a: Tally, b: Tally): Tally {
    Tally(a.total + b.total, a.missing + b.missing)
  }

  function HostTally(h: Host): Tally {
    Tally(1, Bit(h.spec.mgmt == Unset))
  }

  function SwitchTally(s: Switch): Tally {
    Tally(3 + Bit(IsLeaf(s)),
          Bit(s.spec.ip == Unset) + Bit(s.spec.protocolIP == Unset) + Bit(s.spec.asn == 0) + Bit(IsLeaf(s) && s.spec.vtep == Unset))
  }

  function LinkTally(l: Link): Tally {
    Tally(2, Bit(l.near.ip == Unset) + Bit(l.far.ip == Unset))
  }

  function GatewayTally(g: Gateway): Tally {
    Tally(3, Bit(g.spec.asn == 0) + Bit(g.spec.protocolIP == Unset) + Bit(g.spec.vtep == Unset))
  }

  function SumUpTo(t: seq<Tally>, n: nat): Tally
    requires n <= |t|
  {
    if n == 0 then Tally(0, 0) else Add(SumUpTo(t, n - 1), t[n - 1])
  }

  function Sum(t: seq<Tally>): Tally {
    SumUpTo(t, |t|)
  }

  function HostTallies(h: seq<Host>): (r: seq<Tally>)
    ensures |r| == |h| && forall i {:trigger r[i]} :: 0 <= i < |h| ==> r[i] == HostTally(h[i])
  {
    seq(|h|, i requires 0 <= i < |h| => HostTally(h[i]))
  }

  function SwitchTallies(s: seq<Switch>): (r: seq<Tally>)
    ensures |r| == |s| && forall i {:trigger r[i]} :: 0 <= i < |s| ==> r[i] == SwitchTally(s[i])
  {
    seq(|s|, i requires 0 <= i < |s| => SwitchTally(s[i]))
  }

  function LinkTallies(l: seq<Link>): (r: seq<Tally>)
    ensures |r| == |l| && forall i {:trigger r[i]} :: 0 <= i < |l| ==> r[i] == LinkTally(l[i])
  {
    seq(|l|, i requires 0 <= i < |l| => LinkTally(l[i]))
  }

  function GatewayTallies(g: seq<Gateway>): (r: seq<Tally>)
    ensures |r| == |g| && forall i {:trigger r[i]} :: 0 <= i < |g| ==> r[i] == GatewayTally(g[i])
  {
    seq(|g|, i requires 0 <= i < |g| => GatewayTally(g[i]))
  }

  function WiringTally(w: Wiring): Tally {
    Add(Add(Add(Sum(HostTallies(Hosts(w))), Sum(SwitchTallies(w.switches))),
            Sum(LinkTallies(AllLinks(w.conns)))), Sum(GatewayTallies(w.gateways)))
  }

  function StatusOf(t: Tally): Status {
    if t.missing == t.total then Nothing else if t.missing == 0 then Full else Partial
  }

  predicate HostsSet(h: seq<Host>) {
    forall i :: 0 <= i < |h| ==> h[i].spec.mgmt != Unset
  }

  predicate HostsUnset(h: seq<Host>) {
    forall i :: 0 <= i < |h| ==> h[i].spec.mgmt == Unset
  }

  predicate SwitchSet(s: Switch) {
    s.spec.ip != Unset && s.spec.protocolIP != Unset && s.spec.asn > 0 && (IsLeaf(s) ==> s.spec.vtep != Unset)
  }

  predicate SwitchesSet(s: seq<Switch>) {
    forall i :: 0 <= i < |s| ==> SwitchSet(s[i])
  }

  predicate SwitchesUnset(s: seq<Switch>) {
    forall i :: 0 <= i < |s| ==>
      s[i].spec.ip == Unset && s[i].spec.protocolIP == Unset && s[i].spec.asn == 0 && (IsLeaf(s[i]) ==> s[i].spec.vtep == Unset)
  }

  predicate LinksSet(l: seq<Link>) {
    forall k :: 0 <= k < |l| ==> Complete(l[k])
  }

  predicate LinksUnset(l: seq<Link>) {
    forall k :: 0 <= k < |l| ==> l[k].near.ip == Unset && l[k].far.ip == Unset
  }

  predicate GatewaysSet(g: seq<Gateway>) {
    forall i :: 0 <= i < |g| ==> g[i].spec.asn != 0 && g[i].spec.protocolIP != Unset && g[i].spec.vtep != Unset
  }

  predicate GatewaysUnset(g: seq<Gateway>) {
    forall i :: 0 <= i < |g| ==> g[i].spec.asn == 0 && g[i].spec.protocolIP == Unset && g[i].spec.vtep == Unset
  }

  /** Every counted field is set. */
  predicate AllSet(w: Wiring) {
    HostsSet(Hosts(w)) && SwitchesSet(w.switches) && LinksSet(AllLinks(w.conns)) && GatewaysSet(w.gateways)
  }

  /** No counted field is set. */
  predicate AllUnset(w: Wiring) {
    HostsUnset(Hosts(w)) && SwitchesUnset(w.switches) && LinksUnset(AllLinks(w.conns)) && GatewaysUnset(w.gateways)
  }

  predicate Empty(w: Wiring) {
    |Hosts(w)| == 0 && |w.switches| == 0 && |AllLinks(w.conns)| == 0 && |w.gateways| == 0
  }

  /** What the checker answers. */
  function Check(f: FabConfig, w: Wiring): Verdict {
    if Sound(f, w) then Ok(StatusOf(WiringTally(w))) else Err
  }

  predicate NoneMissing(t: seq<Tally>, n: nat)
    requires n <= |t|
  {
    forall i :: 0 <= i < n ==> t[i].missing == 0
  }

  predicate AllMissing(t: seq<Tally>, n: nat)
    requires n <= |t|
  {
    forall i :: 0 <= i < n ==> t[i].missing == t[i].total
  }

  lemma {:induction false} SumExtremes(t: seq<Tally>, n: nat)
    requires n <= |t|
    requires forall i :: 0 <= i < |t| ==> 1 <= t[i].total && t[i].missing <= t[i].total
    ensures var s := SumUpTo(t, n);
      && n <= s.total && s.missing <= s.total
      && (s.missing == 0 <==> NoneMissing(t, n))
      && (s.missing == s.total <==> AllMissing(t, n))
  {
    if n > 0 {
      SumExtremes(t, n - 1);
    }
  }

  /** Full means everything counted is set and there is something to count; Nothing means nothing counted is set. */
  lemma {:induction false} StatusMeaning(w: Wiring)
    ensures StatusOf(WiringTally(w)) == Full <==> AllSet(w) && !Empty(w)
    ensures StatusOf(WiringTally(w)) == Nothing <==> AllUnset(w)
  {
    hide Sum, HostsSet, HostsUnset, SwitchesSet, SwitchesUnset, LinksSet, LinksUnset, GatewaysSet, GatewaysUnset;
    EmptyIsBoth(w);
    HostColumn(Hosts(w));
    SwitchColumn(w.switches);
    LinkColumn(AllLinks(w.conns));
    GatewayColumn(w.gateways);
  }

  lemma {:induction false} EmptyIsBoth(w: Wiring)
    ensures Empty(w) ==> AllSet(w) && AllUnset(w)
  {
  }

  lemma {:induction false} HostColumn(h: seq<Host>)
    ensures var t := Sum(HostTallies(h));
      && t.missing <= t.total && |h| <= t.total
      && (t.missing == 0 <==> HostsSet(h)) && (t.missing == t.total <==> HostsUnset(h))
  {
    HostExtremes(h);
    SumExtremes(HostTallies(h), |h|);
  }

  lemma {:induction false} HostExtremes(h: seq<Host>)
    ensures NoneMissing(HostTallies(h), |h|) <==> HostsSet(h)
    ensures AllMissing(HostTallies(h), |h|) <==> HostsUnset(h)
  {
    var t := HostTallies(h);
    assert forall i :: 0 <= i < |h| ==> t[i] == HostTally(h[i]);
  }

  lemma {:induction false} SwitchColumn(s: seq<Switch>)
    ensures var t := Sum(SwitchTallies(s));
      && t.missing <= t.total && |s| <= t.total
      && (t.missing == 0 <==> SwitchesSet(s)) && (t.missing == t.total <==> SwitchesUnset(s))
  {
    SwitchExtremes(s);
    SumExtremes(SwitchTallies(s), |s|);
  }

  lemma {:induction false} SwitchExtremes(s: seq<Switch>)
    ensures NoneMissing(SwitchTallies(s), |s|) <==> SwitchesSet(s)
    ensures AllMissing(SwitchTallies(s), |s|) <==> SwitchesUnset(s)
  {
    var t := SwitchTallies(s);
    assert forall i :: 0 <= i < |s| ==> t[i] == SwitchTally(s[i]);
  }

  lemma {:induction false} LinkColumn(l: seq<Link>)
    ensures var t := Sum(LinkTallies(l));
      && t.missing <= t.total && |l| <= t.total
      && (t.missing == 0 <==> LinksSet(l)) && (t.missing == t.total <==> LinksUnset(l))
  {
    LinkExtremes(l);
    SumExtremes(LinkTallies(l), |l|);
  }

  lemma {:induction false} LinkExtremes(l: seq<Link>)
    ensures NoneMissing(LinkTallies(l), |l|) <==> LinksSet(l)
    ensures AllMissing(LinkTallies(l), |l|) <==> LinksUnset(l)
  {
    var t := LinkTallies(l);
    assert forall i :: 0 <= i < |l| ==> t[i] == LinkTally(l[i]);
  }

  lemma {:induction false} GatewayColumn(g: seq<Gateway>)
    ensures var t := Sum(GatewayTallies(g));
      && t.missing <= t.total && |g| <= t.total
      && (t.missing == 0 <==> GatewaysSet(g)) && (t.missing == t.total <==> GatewaysUnset(g))
  {
    GatewayExtremes(g);
    SumExtremes(GatewayTallies(g), |g|);
  }

  lemma {:induction false} GatewayExtremes(g: seq<Gateway>)
    ensures NoneMissing(GatewayTallies(g), |g|) <==> GatewaysSet(g)
    ensures AllMissing(GatewayTallies(g), |g|) <==> GatewaysUnset(g)
  {
    var t := GatewayTallies(g);
    assert forall i :: 0 <= i < |g| ==> t[i] == GatewayTally(g[i]);
  }
}
