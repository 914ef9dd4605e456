/**
  * When the addresses and ASNs given to switches pass the checker, put as conditions on the configured pools and on how
  * many switches and owners of ASNs and VTEP addresses the wiring has.
  */
module FitSwitches {
  import opened Net
  import opened WiringModel
  import opened Store
  import opened Sorting
  import opened Ranking
  import opened Checker
  import opened Allocator
  import opened FitHosts

  predicate AsnFits(f: FabConfig, owners: nat) {
    owners > 0 ==> f.leafASNStart > 0 && f.leafASNStart + owners - 1 <= f.leafASNEnd
  }

  /** Spines get a nonzero ASN, and one that leads keeps the empty VTEP address it must have. */
  predicate SpinesFit(f: FabConfig, sws: seq<Switch>) {
    forall i :: 0 <= i < |sws| && sws[i].spec.role == Spine ==>
      f.spineASN > 0 && (Leads(sws, i) ==> sws[i].spec.vtep == Unset)
  }

  /** No leaf shares an MCLAG group with a spine that comes before it. */
  predicate LeafLed(sws: seq<Switch>) {
    forall i :: 0 <= i < |sws| && IsLeaf(sws[i]) ==> IsLeaf(sws[Leader(sws, i)])
  }

  predicate SpinesFirst(sws: seq<Switch>) {
    forall i, j :: 0 <= i < j < |sws| && sws[j].spec.role == Spine ==> sws[i].spec.role == Spine
  }

  predicate SwitchesFit(f: FabConfig, hosts: nat, sws: seq<Switch>) {
    var n := |sws|;
    && (n > 0 ==> MgmtFits(f, hosts + n))
    && n <= Size(f.protocol)
    && Owners(sws, n) <= Size(f.vtep)
    && AsnFits(f, Owners(sws, n))
    && SpinesFit(f, sws)
    && LeafLed(sws)
  }

  /** Assigned switch r passes every check that looks at it alone and has every field set. */
  predicate AloneOk(f: FabConfig, hosts: nat, sws: seq<Switch>, r: nat)
    requires r < |sws|
  {
    var s := AssignedSwitch(f, hosts, sws, r);
    && SwitchOk(f, s) && SwitchSet(s)
    && (s.spec.role == Spine ==> s.spec.asn == f.spineASN)
    && (IsLeaf(s) ==> f.leafASNStart <= s.spec.asn <= f.leafASNEnd)
  }

  // ---- Leaders and owners ------------------------------------------------------------

  /** Switches of one MCLAG group have one leader; switches with the same leader are one or share a group. */
  lemma {:induction false} SameLeader(sws: seq<Switch>, i: nat, j: nat)
    requires i < j < |sws|
    ensures Leader(sws, i) == Leader(sws, j) <==>
      sws[i].spec.red.MCLAG? && sws[j].spec.red.MCLAG? && sws[i].spec.red.group == sws[j].spec.red.group
  {
    LeaderLeads(sws, i);
    LeaderLeads(sws, j);
    if sws[i].spec.red.MCLAG? && sws[j].spec.red.MCLAG? && sws[i].spec.red.group == sws[j].spec.red.group {
      var g := sws[i].spec.red.group;
      if FirstInGroup(sws, g, i).Some? {
        FirstInGroupStays(sws, g, i, j);
      } else {
        assert FirstInGroup(sws, g, i + 1) == Some(i);
        FirstInGroupStays(sws, g, i + 1, j);
      }
    }
  }

  lemma {:induction false} OwnersGrow(sws: seq<Switch>, i: nat, n: nat)
    requires i <= n <= |sws|
    ensures Owners(sws, i) <= Owners(sws, n)
    ensures i < n && IsLeaf(sws[i]) && Leads(sws, i) ==> Owners(sws, i) < Owners(sws, n)
  {
    if i < n {
      OwnersGrow(sws, i, n - 1);
    }
  }

  /** Different leading leaves have different numbers. */
  lemma {:induction false} OwnersDiffer(sws: seq<Switch>, a: nat, b: nat)
    requires a < |sws| && b < |sws| && a != b
    requires IsLeaf(sws[a]) && Leads(sws, a) && IsLeaf(sws[b]) && Leads(sws, b)
    ensures Owners(sws, a) != Owners(sws, b)
  {
    if a < b {
      OwnersGrow(sws, a, b);
    } else {
      OwnersGrow(sws, b, a);
    }
  }

  /** Every number below the count belongs to a leading leaf. */
  lemma {:induction false} OwnerOf(sws: seq<Switch>, n: nat, k: nat) returns (i: nat)
    requires n <= |sws| && k < Owners(sws, n)
    ensures i < n && IsLeaf(sws[i]) && Leads(sws, i) && Owners(sws, i) == k
  {
    if k < Owners(sws, n - 1) {
      i := OwnerOf(sws, n - 1, k);
    } else {
      i := n - 1;
    }
  }

  // ---- One switch at a time ----------------------------------------------------------

  lemma {:induction false} AloneParts(f: FabConfig, hosts: nat, sws: seq<Switch>, r: nat)
    requires ConfigOk(f) && V4(f.vip) == Next(V4(Masked(f.mgmt))) && RolesValid(sws) && SpinesFirst(sws) && r < |sws|
    ensures AloneOk(f, hosts, sws, r) <==>
      var l, s := Leader(sws, r), sws[r];
      && MgmtFits(f, hosts + r + 1) && r < Size(f.protocol)
      && (s.spec.role == Spine ==> f.spineASN > 0 && sws[l].spec.vtep == Unset)
      && (IsLeaf(s) ==>
        && Single(f.vtep, AssignedVtep(f, sws, r)) && AssignedVtep(f, sws, r) != Unset
        && 0 < AssignedASN(f, sws, r) && f.leafASNStart <= AssignedASN(f, sws, r) <= f.leafASNEnd)
  {
    MgmtHolds(f, hosts + r);
    PoolHolds(f.protocol, r, 32);
    assert ValidRole(sws[r]) && ValidRole(sws[Leader(sws, r)]);
    if Leader(sws, r) < r && sws[r].spec.role == Spine {
      assert sws[Leader(sws, r)].spec.role == Spine;
    }
  }

  /** ASN number k is set and in range for every k below the count iff the range holds the count. */
  lemma {:induction false} AsnRange(f: FabConfig, owners: nat)
    ensures AsnFits(f, owners) <==>
      forall k {:trigger Steps32(f.leafASNStart, k)} :: 0 <= k < owners ==>
        0 < Steps32(f.leafASNStart, k) && f.leafASNStart <= Steps32(f.leafASNStart, k) <= f.leafASNEnd
  {
    if AsnFits(f, owners) {
      forall k | 0 <= k < owners
        ensures Steps32(f.leafASNStart, k) == f.leafASNStart + k
      {
        StepsWithoutWrap(f.leafASNStart, k);
      }
    } else {
      // Either the first number is already out of range, or the one after the last in range is.
      var k := if f.leafASNStart <= f.leafASNEnd then f.leafASNEnd - f.leafASNStart + 1 else 0;
      if f.leafASNStart == 0 {
        assert Steps32(f.leafASNStart, 0) == 0;
      } else if k == 0 {
        assert Steps32(f.leafASNStart, 0) == f.leafASNStart;
      } else {
        StepsWithoutWrap(f.leafASNStart, k - 1);
        assert Steps32(f.leafASNStart, k) == Inc32(f.leafASNEnd);
      }
    }
  }

  lemma {:induction false} FitMeansOwned(f: FabConfig, hosts: nat, sws: seq<Switch>, r: nat)
    requires r < |sws| && IsLeaf(sws[r]) && SwitchesFit(f, hosts, sws)
    ensures Single(f.vtep, AssignedVtep(f, sws, r)) && AssignedVtep(f, sws, r) != Unset
    ensures 0 < AssignedASN(f, sws, r) && f.leafASNStart <= AssignedASN(f, sws, r) <= f.leafASNEnd
  {
    var l := Leader(sws, r);
    LeaderLeads(sws, r);
    OwnersGrow(sws, l, |sws|);
    PoolHolds(f.vtep, Owners(sws, l), 32);
    AsnRange(f, Owners(sws, |sws|));
    assert AssignedASN(f, sws, r) == Steps32(f.leafASNStart, Owners(sws, l));
  }

  lemma {:induction false} FitMeansAlone(f: FabConfig, hosts: nat, sws: seq<Switch>, r: nat)
    requires ConfigOk(f) && V4(f.vip) == Next(V4(Masked(f.mgmt))) && RolesValid(sws) && SpinesFirst(sws) && r < |sws|
    requires SwitchesFit(f, hosts, sws)
    ensures AloneOk(f, hosts, sws, r)
  {
    LeaderLeads(sws, r);
    AloneParts(f, hosts, sws, r);
    if IsLeaf(sws[r]) {
      FitMeansOwned(f, hosts, sws, r);
    } else {
      assert ValidRole(sws[r]);
      assert sws[Leader(sws, r)].spec.role == Spine;
    }
  }

  lemma {:induction false} AloneMeansOwnersFit(f: FabConfig, hosts: nat, sws: seq<Switch>)
    requires ConfigOk(f) && V4(f.vip) == Next(V4(Masked(f.mgmt))) && RolesValid(sws) && SpinesFirst(sws)
    requires forall r :: 0 <= r < |sws| ==> AloneOk(f, hosts, sws, r)
    ensures Owners(sws, |sws|) <= Size(f.vtep) && AsnFits(f, Owners(sws, |sws|))
  {
    var owners := Owners(sws, |sws|);
    if owners > 0 {
      var i := OwnerOf(sws, |sws|, owners - 1);
      AloneParts(f, hosts, sws, i);
      PoolHolds(f.vtep, owners - 1, 32);
    }
    forall k | 0 <= k < owners
      ensures 0 < Steps32(f.leafASNStart, k) && f.leafASNStart <= Steps32(f.leafASNStart, k) <= f.leafASNEnd
    {
      var i := OwnerOf(sws, |sws|, k);
      AloneParts(f, hosts, sws, i);
    }
    AsnRange(f, owners);
  }

  lemma {:induction false} AloneMeansFit(f: FabConfig, hosts: nat, sws: seq<Switch>)
    requires ConfigOk(f) && V4(f.vip) == Next(V4(Masked(f.mgmt))) && RolesValid(sws) && SpinesFirst(sws)
    requires forall r :: 0 <= r < |sws| ==> AloneOk(f, hosts, sws, r)
    ensures SwitchesFit(f, hosts, sws)
  {
    AloneMeansOwnersFit(f, hosts, sws);
    if |sws| > 0 {
      AloneParts(f, hosts, sws, |sws| - 1);
    }
    forall i | 0 <= i < |sws|
      ensures sws[i].spec.role == Spine ==> f.spineASN > 0 && (Leads(sws, i) ==> sws[i].spec.vtep == Unset)
      ensures IsLeaf(sws[i]) ==> IsLeaf(sws[Leader(sws, i)])
    {
      var l := Leader(sws, i);
      LeaderLeads(sws, i);
      AloneParts(f, hosts, sws, i);
      AloneParts(f, hosts, sws, l);
      assert ValidRole(sws[l]);
    }
  }

  // ---- The whole list ----------------------------------------------------------------

  /** The management addresses of the hosts lie below those of the switches. */
  predicate TakenByHosts(f: FabConfig, hosts: nat, taken: set<U32>) {
    forall a :: a in taken ==> a < f.vip + RESERVED + hosts
  }

  lemma {:induction false} HostsTake(f: FabConfig, h: seq<Host>)
    requires ConfigOk(f) && V4(f.vip) == Next(V4(Masked(f.mgmt))) && HostsAssigned(f, h)
    ensures TakenByHosts(f, |h|, {f.vip} + Used(HostMgmt(h)))
  {
    forall a | a in Used(HostMgmt(h))
      ensures a < f.vip + RESERVED + |h|
    {
      var k :| 0 <= k < |h| && HostMgmt(h)[k].Cidr? && HostMgmt(h)[k].addr == a;
      MgmtHolds(f, k);
    }
  }

  /** The listed switches after assignment, and where each stands in the sorted list. */
  ghost predicate Listed(f: FabConfig, hosts: nat, sws: seq<Switch>, now: seq<Switch>, rank: seq<nat>) {
    && ConfigOk(f) && V4(f.vip) == Next(V4(Masked(f.mgmt)))
    && RolesValid(sws) && SpinesFirst(sws)
    && Ranks(now, AssignedSwitches(f, hosts, sws), rank)
    && forall r :: 0 <= r < |sws| ==> AloneOk(f, hosts, sws, r)
  }

  lemma {:induction false} ListedAt(f: FabConfig, hosts: nat, sws: seq<Switch>, now: seq<Switch>, rank: seq<nat>, i: nat)
    requires Listed(f, hosts, sws, now, rank) && i < |now|
    ensures rank[i] < |sws| && now[i] == AssignedSwitch(f, hosts, sws, rank[i])
    ensures AloneOk(f, hosts, sws, rank[i])
    ensures now[i].spec.ip.Cidr? && now[i].spec.ip.addr == f.vip + RESERVED + (hosts + rank[i])
    ensures now[i].spec.protocolIP.Cidr? && now[i].spec.protocolIP.addr == Masked(f.protocol) + rank[i]
  {
    MgmtHolds(f, hosts + rank[i]);
    PoolHolds(f.protocol, rank[i], 32);
  }

  lemma {:induction false} ListedFresh(f: FabConfig, hosts: nat, sws: seq<Switch>, now: seq<Switch>, rank: seq<nat>, taken: set<U32>, i: nat)
    requires Listed(f, hosts, sws, now, rank) && TakenByHosts(f, hosts, taken) && i < |now|
    ensures FreshAt(taken, SwitchIPs(now), i) && FreshAt({}, SwitchProtos(now), i)
  {
    ListedAt(f, hosts, sws, now, rank, i);
    forall j | 0 <= j < i
      ensures SwitchIPs(now)[j].Cidr? && SwitchIPs(now)[j].addr != SwitchIPs(now)[i].addr
      ensures SwitchProtos(now)[j].Cidr? && SwitchProtos(now)[j].addr != SwitchProtos(now)[i].addr
    {
      ListedAt(f, hosts, sws, now, rank, j);
    }
  }

  /** A leaf that stands alone holds the ASN and VTEP address of its leader's number. */
  lemma {:induction false} ListedLeaf(f: FabConfig, hosts: nat, sws: seq<Switch>, now: seq<Switch>, rank: seq<nat>, i: nat)
    requires Listed(f, hosts, sws, now, rank) && LeafLed(sws) && i < |now| && IsLeaf(now[i])
    requires AsnFits(f, Owners(sws, |sws|))
    ensures rank[i] < |sws|
    ensures var l := Leader(sws, rank[i]);
      && IsLeaf(sws[l]) && Leads(sws, l)
      && now[i].spec.asn == f.leafASNStart + Owners(sws, l)
      && now[i].spec.vtep.Cidr? && now[i].spec.vtep.bits == 32
      && now[i].spec.vtep.addr == Masked(f.vtep) + Owners(sws, l)
  {
    ListedAt(f, hosts, sws, now, rank, i);
    var l := Leader(sws, rank[i]);
    LeaderLeads(sws, rank[i]);
    OwnersGrow(sws, l, |sws|);
    StepsWithoutWrap(f.leafASNStart, Owners(sws, l));
    PoolHolds(f.vtep, Owners(sws, l), 32);
    AloneParts(f, hosts, sws, rank[i]);
  }

  predicate Peers(a: Switch, b: Switch) {
    a.spec.red.MCLAG? && b.spec.red.MCLAG? && a.spec.red.group == b.spec.red.group
  }

  /** Two listed leaves have the same ASN, and the same VTEP address, iff they are MCLAG peers. */
  lemma {:induction false} ListedPair(f: FabConfig, hosts: nat, sws: seq<Switch>, now: seq<Switch>, rank: seq<nat>, i: nat, j: nat)
    requires Listed(f, hosts, sws, now, rank) && LeafLed(sws) && AsnFits(f, Owners(sws, |sws|))
    requires i < |now| && j < |now| && i != j && IsLeaf(now[i]) && IsLeaf(now[j])
    ensures now[i].spec.asn == now[j].spec.asn <==> Peers(now[i], now[j])
    ensures now[i].spec.vtep == now[j].spec.vtep <==> Peers(now[i], now[j])
  {
    ListedLeaf(f, hosts, sws, now, rank, i);
    ListedLeaf(f, hosts, sws, now, rank, j);
    assert rank[i] != rank[j];
    var a, b := Leader(sws, rank[i]), Leader(sws, rank[j]);
    if rank[i] < rank[j] {
      SameLeader(sws, rank[i], rank[j]);
    } else {
      SameLeader(sws, rank[j], rank[i]);
    }
    if a != b {
      OwnersDiffer(sws, a, b);
    }
  }

  lemma {:induction false} ReferenceMisses(sws: seq<Switch>, g: Name, n: nat)
    requires n <= |sws|
    ensures var r := Reference(sws, g, n);
      forall j :: 0 <= j < (if r.Some? then r.value else n) ==> !Registers(sws[j], g)
  {
    if n > 0 {
      ReferenceMisses(sws, g, n - 1);
    }
  }

  lemma {:induction false} ListedUnderlay(f: FabConfig, hosts: nat, sws: seq<Switch>, now: seq<Switch>, rank: seq<nat>, i: nat)
    requires Listed(f, hosts, sws, now, rank) && LeafLed(sws) && AsnFits(f, Owners(sws, |sws|)) && i < |now|
    ensures AsnSound(f, now, i) && VtepSound(now, i)
  {
    ListedAt(f, hosts, sws, now, rank, i);
    var s := now[i];
    if IsLeaf(s) {
      if s.spec.red.MCLAG? && Reference(now, s.spec.red.group, i).Some? {
        ListedPair(f, hosts, sws, now, rank, Reference(now, s.spec.red.group, i).value, i);
      } else {
        if s.spec.red.MCLAG? {
          ReferenceMisses(now, s.spec.red.group, i);
        }
        forall j | 0 <= j < i && IsLeaf(now[j])
          ensures now[j].spec.asn != s.spec.asn
          ensures now[j].spec.vtep.Cidr? && now[j].spec.vtep.addr != s.spec.vtep.addr
        {
          ListedAt(f, hosts, sws, now, rank, j);
          ListedLeaf(f, hosts, sws, now, rank, i);
          ListedLeaf(f, hosts, sws, now, rank, j);
          ListedPair(f, hosts, sws, now, rank, i, j);
        }
      }
    }
  }

  /** The checker accepts the assigned switches and finds them set iff every pool holds them. */
  lemma {:induction false} SwitchesIff(f: FabConfig, hosts: nat, sws: seq<Switch>, now: seq<Switch>, rank: seq<nat>, taken: set<U32>)
    requires ConfigOk(f) && V4(f.vip) == Next(V4(Masked(f.mgmt))) && RolesValid(sws) && SpinesFirst(sws)
    requires Ranks(now, AssignedSwitches(f, hosts, sws), rank) && TakenByHosts(f, hosts, taken)
    ensures SwitchesSound(f, taken, now) && SwitchesSet(now) <==> SwitchesFit(f, hosts, sws)
  {
    if SwitchesSound(f, taken, now) && SwitchesSet(now) {
      forall r | 0 <= r < |sws|
        ensures AloneOk(f, hosts, sws, r)
      {
        var i := RankReaches(now, AssignedSwitches(f, hosts, sws), rank, r);
        assert SwitchSoundAt(f, taken, now, i);
      }
      AloneMeansFit(f, hosts, sws);
    }
    if SwitchesFit(f, hosts, sws) {
      forall r | 0 <= r < |sws|
        ensures AloneOk(f, hosts, sws, r)
      {
        FitMeansAlone(f, hosts, sws, r);
      }
      forall i | 0 <= i < |now|
        ensures SwitchSoundAt(f, taken, now, i) && SwitchSet(now[i])
      {
        ListedAt(f, hosts, sws, now, rank, i);
        ListedFresh(f, hosts, sws, now, rank, taken, i);
        ListedUnderlay(f, hosts, sws, now, rank, i);
      }
    }
  }
}
