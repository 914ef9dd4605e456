/**
  * When the addresses given to hosts pass the checker: exactly when the management addresses end below the DHCP range
  * and the dummy subnet has two addresses for each host.
  */
module FitHosts {
  import opened Net
  import opened WiringModel
  import opened Store
  import opened Checker
  import opened Allocator

  /** The k-th address of a pool lies in the pool's prefix iff the prefix has more than k addresses. */
  lemma {:induction false} PoolHolds(p: Prefix, k: nat, bits: nat)
    ensures var t := Render(Plus(V4(Masked(p)), k), bits);
      && (t.Cidr? && Contains(p, t.addr) <==> k < Size(p))
      && (t.Cidr? ==> t == Cidr(Masked(p) + k, bits))
      && t != Unset
  {
    var t := Render(Plus(V4(Masked(p)), k), bits);
    ContainsRange(p, Masked(p));
    if t.Cidr? {
      ContainsRange(p, t.addr);
    }
  }

  /** The management addresses lie below the DHCP range iff the last one does. */
  lemma {:induction false} MgmtHolds(f: FabConfig, k: nat)
    requires ConfigOk(f) && V4(f.vip) == Next(V4(Masked(f.mgmt)))
    ensures var t := MgmtAt(f, k);
      && (t.Cidr? && InMgmt(f, t.addr) <==> f.vip + RESERVED + k < f.dhcpStart)
      && (t.Cidr? ==> t == Cidr(f.vip + RESERVED + k, f.mgmt.bits))
      && t != Unset
  {
    var t := MgmtAt(f, k);
    ContainsRange(f.mgmt, f.dhcpStart);
    if t.Cidr? {
      ContainsRange(f.mgmt, t.addr);
    }
  }

  /** Host k has the k-th management address and the k-th dummy /31. */
  predicate HostsAssigned(f: FabConfig, h: seq<Host>) {
    forall k :: 0 <= k < |h| ==>
      h[k].spec == HostSpec(MgmtAt(f, k), Render(Plus(V4(Masked(f.dummy)), 2 * k), 31))
  }

  predicate DummyFits(f: FabConfig, hosts: nat) {
    2 * hosts <= Size(f.dummy)
  }

  predicate MgmtFits(f: FabConfig, count: nat) {
    count > 0 ==> f.vip + RESERVED + count - 1 < f.dhcpStart
  }

  lemma {:induction false} HostOkIff(f: FabConfig, h: seq<Host>, k: nat)
    requires ConfigOk(f) && V4(f.vip) == Next(V4(Masked(f.mgmt)))
    requires HostsAssigned(f, h) && k < |h|
    ensures HostOk(f, h[k]) && h[k].spec.mgmt != Unset <==> MgmtFits(f, k + 1) && DummyFits(f, k + 1)
  {
    MgmtHolds(f, k);
    PoolHolds(f.dummy, 2 * k, 31);
    EvenBlock(f.dummy);
  }

  lemma {:induction false} HostsFresh(f: FabConfig, h: seq<Host>, k: nat)
    requires ConfigOk(f) && V4(f.vip) == Next(V4(Masked(f.mgmt)))
    requires HostsAssigned(f, h) && k < |h|
    ensures FreshAt({f.vip}, HostMgmt(h), k) && FreshAt({}, HostDummy(h), k)
  {
    forall j | 0 <= j <= k
      ensures HostMgmt(h)[j] == MgmtAt(f, j)
      ensures HostDummy(h)[j] == Render(Plus(V4(Masked(f.dummy)), 2 * j), 31)
    {
      MgmtHolds(f, j);
    }
  }

  /** The checker accepts the assigned hosts and finds them set iff both pools hold them. */
  lemma {:induction false} HostsIff(f: FabConfig, h: seq<Host>)
    requires ConfigOk(f) && V4(f.vip) == Next(V4(Masked(f.mgmt)))
    requires HostsAssigned(f, h)
    ensures HostsSound(f, h) && HostsSet(h) <==> MgmtFits(f, |h|) && DummyFits(f, |h|)
  {
    if HostsSound(f, h) && HostsSet(h) && |h| > 0 {
      assert HostSoundAt(f, h, |h| - 1);
      HostOkIff(f, h, |h| - 1);
    }
    if MgmtFits(f, |h|) && DummyFits(f, |h|) {
      forall k | 0 <= k < |h|
        ensures HostSoundAt(f, h, k) && h[k].spec.mgmt != Unset
      {
        HostOkIff(f, h, k);
        HostsFresh(f, h, k);
      }
    }
  }
}
