/** The switches of a run, their redundancy groups, and the connections that span a group. */
module BuiltGroups {
  import opened Store
  import opened Net
  import opened VlabPorts
  import opened Topology
  import opened TopologyNames
  import opened TopologyBuilder
  import W = WiringModel

  // ---- Switches ---------------------------------------------------------------------------------------------

  predicate NothingAssigned(s: W.Switch) {
    s.spec.ip == Unset && s.spec.protocolIP == Unset && s.spec.asn == 0 && s.spec.vtep == Unset
  }

  /** A leaf, by its place among all leaves. */
  predicate IsLeaf(s: W.Switch, index: nat, red: W.Redundancy) {
    s.name == DeviceName(Leaf(index + 1)) && s.spec.role == W.ServerLeaf && s.spec.red == red && NothingAssigned(s)
  }

  predicate IsSpine(s: W.Switch, index: nat) {
    s.name == DeviceName(Spine(index + 1)) && s.spec.role == W.Spine && s.spec.red == W.NoRedundancy && NothingAssigned(s)
  }

  /** Leaf i is one of the leaves of group g: the groups take leaves in turn, each as many as its size. */
  predicate InGroup(groups: seq<U8>, g: nat, i: nat) {
    g < |groups| && GroupLeaves(groups, g) <= i < GroupLeaves(groups, g) + groups[g]
  }

  lemma {:induction false} GroupedLeaf(p: Params, n: nat, g: nat, i: nat)
    requires NoOverflow(p) && g < n <= |p.groups| && InGroup(p.groups, g, i)
    ensures |GroupedSwitches(p, n)| == GroupLeaves(p.groups, n)
    ensures i < GroupLeaves(p.groups, n) && IsLeaf(GroupedSwitches(p, n)[i], i, W.ESLAG(g))
  {
    hide IsLeaf, LeafObject, Id, GroupSwitches;
    GroupedCount(p, n);
    GroupedCount(p, n - 1);
    LeavesGrow(p.groups, g, n);
    var own := GroupSwitches(p, n - 1, p.groups[n - 1]);
    if g < n - 1 {
      LeavesGrow(p.groups, g, n - 1);
      GroupedLeaf(p, n - 1, g, i);
    } else {
      var k := i - GroupLeaves(p.groups, g);
      assert GroupedSwitches(p, n)[i] == own[k];
      LeavesGrow(p.groups, n, |p.groups|);
      CountsUp(i);
      LeafMade(i, Some(g));
    }
  }

  lemma {:induction false} LeafMade(i: nat, group: Option<nat>)
    ensures IsLeaf(LeafObject(i + 1, group), i, if group.Some? then W.ESLAG(group.value) else W.NoRedundancy)
  {
  }

  lemma {:induction false} GroupedCount(p: Params, n: nat)
    requires n <= |p.groups|
    ensures |GroupedSwitches(p, n)| == GroupLeaves(p.groups, n)
  {
    if n > 0 {
      GroupedCount(p, n - 1);
    }
  }

  /** Every leaf of the first n groups is in one of them. */
  lemma {:induction false} GroupFound(groups: seq<U8>, n: nat, i: nat) returns (g: nat)
    requires n <= |groups| && i < GroupLeaves(groups, n)
    ensures g < n && InGroup(groups, g, i)
  {
    if i < GroupLeaves(groups, n - 1) {
      g := GroupFound(groups, n - 1, i);
    } else {
      g := n - 1;
    }
  }

  lemma {:induction false} OneGroup(groups: seq<U8>, g: nat, h: nat, i: nat)
    requires InGroup(groups, g, i) && InGroup(groups, h, i)
    ensures g == h
  {
    if g < h {
      LeavesGrow(groups, g, h);
    } else if h < g {
      LeavesGrow(groups, h, g);
    }
  }

  lemma {:induction false} NotGrouped(groups: seq<U8>, g: nat, i: nat)
    requires GroupLeaves(groups, |groups|) <= i
    ensures !InGroup(groups, g, i)
  {
    if g < |groups| {
      LeavesGrow(groups, g, |groups|);
    }
  }

  /** The leaves of the groups, those outside of groups, and the spines, with nothing assigned yet. */
  lemma {:induction false} SwitchesBuilt(b: Builder, p: Params)
    requires b.Holds(p) && NoOverflow(p)
    ensures |b.switches| == Leaves(p) + p.spines && Leaves(p) == GroupLeaves(p.groups, |p.groups|) + p.orphans
    ensures forall i: nat, g: nat :: InGroup(p.groups, g, i) ==> i < Leaves(p) && IsLeaf(b.switches[i], i, W.ESLAG(g))
    ensures forall i :: GroupLeaves(p.groups, |p.groups|) <= i < Leaves(p) ==> IsLeaf(b.switches[i], i, W.NoRedundancy)
    ensures forall i :: Leaves(p) <= i < |b.switches| ==> IsSpine(b.switches[i], i - Leaves(p))
  {
    hide GroupedSwitches, IsLeaf, AllShapes;
    Counts8(p);
    GroupedCount(p, |p.groups|);
    forall i: nat, g: nat | InGroup(p.groups, g, i)
      ensures i < Leaves(p) && IsLeaf(b.switches[i], i, W.ESLAG(g))
    {
      GroupedLeaf(p, |p.groups|, g, i);
    }
    forall i | GroupLeaves(p.groups, |p.groups|) <= i < Leaves(p)
      ensures IsLeaf(b.switches[i], i, W.NoRedundancy)
    {
      CountsUp(i);
      LeafMade(i, None);
    }
  }

  /** Two leaves have the same redundancy group exactly when they come from the same group of the settings; a leaf outside of the groups has none. */
  lemma {:induction false} GroupsShared(b: Builder, p: Params, i: nat, j: nat)
    requires b.Holds(p) && NoOverflow(p) && i < Leaves(p) <= |b.switches| && j < Leaves(p)
    ensures var a, c := b.switches[i].spec.red, b.switches[j].spec.red;
      && (a == W.NoRedundancy <==> GroupLeaves(p.groups, |p.groups|) <= i)
      && (a != W.NoRedundancy ==> a.ESLAG?)
      && (a.ESLAG? ==> (a == c <==> exists g: nat :: InGroup(p.groups, g, i) && InGroup(p.groups, g, j)))
  {
    hide AllSwitches, AllShapes, NoOverflow, GroupLeaves;
    SwitchesBuilt(b, p);
    var n := GroupLeaves(p.groups, |p.groups|);
    if i < n {
      var g := GroupFound(p.groups, |p.groups|, i);
      if j < n {
        var h := GroupFound(p.groups, |p.groups|, j);
        assert IsLeaf(b.switches[i], i, W.ESLAG(g)) && IsLeaf(b.switches[j], j, W.ESLAG(h));
        forall k: nat | InGroup(p.groups, k, i) && InGroup(p.groups, k, j)
          ensures g == h
        {
          OneGroup(p.groups, g, k, i);
          OneGroup(p.groups, h, k, j);
        }
      } else {
        forall k: nat
          ensures !InGroup(p.groups, k, j)
        {
          NotGrouped(p.groups, k, j);
        }
        assert IsLeaf(b.switches[i], i, W.ESLAG(g)) && IsLeaf(b.switches[j], j, W.NoRedundancy);
      }
    } else {
      assert IsLeaf(b.switches[i], i, W.NoRedundancy);
    }
  }

  // ---- Gateways -----------------------------------------------------------------------------------------------

  /** A gateway without numbers, addresses or neighbors, with an empty interface for each uplink. */
  ghost predicate IsGateway(g: W.Gateway, index: nat, uplinks: nat) {
    && g.name == GatewayName(index) && g.spec.asn == 0 && g.spec.protocolIP == Unset && g.spec.vtep == Unset && g.spec.macOctet == 0
    && g.spec.neighbors == []
    && (forall k :: k in g.spec.interfaces <==> 1 <= k <= uplinks)
    && (forall k :: k in g.spec.interfaces ==> g.spec.interfaces[k].ips == [] && g.spec.interfaces[k].mtu == 0)
  }

  lemma {:induction false} InterfacesEmpty(uplinks: nat, k: nat)
    requires 1 <= k <= uplinks
    ensures Interfaces(uplinks)[k].ips == [] && Interfaces(uplinks)[k].mtu == 0
  {
    if k < uplinks {
      InterfacesEmpty(uplinks - 1, k);
    }
  }

  /** The gateways of a run, with nothing assigned yet. */
  lemma {:induction false} GatewaysBuilt(b: Builder, p: Params)
    requires b.Holds(p)
    ensures |b.gateways| == p.gateways
    ensures forall g :: 0 <= g < p.gateways ==> IsGateway(b.gateways[g], g, p.uplinks)
  {
    hide AllSwitches, AllShapes, Shapes, Interfaces;
    forall k: nat | 1 <= k <= p.uplinks
      ensures Interfaces(p.uplinks)[k].ips == [] && Interfaces(p.uplinks)[k].mtu == 0
    {
      InterfacesEmpty(p.uplinks, k);
    }
    forall g | 0 <= g < p.gateways
      ensures IsGateway(b.gateways[g], g, p.uplinks)
    {
      assert b.gateways[g] == GatewayObject(g, Interfaces(p.uplinks));
    }
  }

  // ---- Connections that span a group -----------------------------------------------------------------------------

  predicate NoneSpans(l: seq<Shape>) {
    forall i :: 0 <= i < |l| ==> !l[i].ESLAGShape?
  }

  lemma {:induction false} ExternalsSpanNone(first: nat, n: nat, base: nat, most: nat)
    ensures NoneSpans(Externals(first, n, base, most))
  {
    if n > 0 {
      ExternalsSpanNone(first, n - 1, base, most);
    }
  }

  lemma {:induction false} UnbundledSpanNone(leaf: nat, first: nat, n: nat)
    ensures NoneSpans(UnbundledServers(leaf, first, n))
  {
    if n > 0 {
      UnbundledSpanNone(leaf, first, n - 1);
    }
  }

  lemma {:induction false} BundledSpanNone(leaf: nat, first: nat, n: nat)
    ensures NoneSpans(BundledServers(leaf, first, n))
  {
    if n > 0 {
      BundledSpanNone(leaf, first, n - 1);
    }
  }

  lemma {:induction false} HomedSpanNone(homes: seq<nat>, first: nat, n: nat)
    ensures NoneSpans(HomedServers(homes, first, n))
  {
    if n > 0 && |homes| > 0 {
      HomedSpanNone(homes, first, n - 1);
    }
  }

  lemma {:induction false} OrphansSpanNone(p: Params, n: nat)
    ensures NoneSpans(AllOrphans(p, n))
  {
    if n > 0 {
      OrphansSpanNone(p, n - 1);
      var leaf, server := Grouped(p) + (n - 1), GroupServers(p, GroupsBuilt(p)) + OrphanServers(p, n - 1);
      ExternalsSpanNone(leaf, 1, Grouped(p), p.extOrphan);
      UnbundledSpanNone(Id(leaf), server, p.unbundled);
      BundledSpanNone(Id(leaf), server + p.unbundled, p.bundled);
    }
  }

  predicate Spans(x: Shape, leaves: seq<nat>) {
    x.ESLAGShape? ==> x.leaves == leaves
  }

  lemma {:induction false} ServersSpan(leaves: seq<nat>, first: nat, n: nat)
    ensures forall i :: 0 <= i < |ESLAGServers(leaves, first, n)| ==> Spans(ESLAGServers(leaves, first, n)[i], leaves)
  {
    if n > 0 {
      ServersSpan(leaves, first, n - 1);
    }
  }

  lemma {:induction false} GroupSpans(p: Params, g: nat, x: Shape)
    requires g < |p.groups| && 2 <= p.groups[g] && x in GroupShapes(p, g) && x.ESLAGShape?
    ensures x.leaves == LeafIds(GroupLeaves(p.groups, g), p.groups[g])
  {
    hide Externals, ESLAGServers, UnbundledServers, BundledServers, LeafIds, Id;
    var leaf, server, size := GroupLeaves(p.groups, g), GroupServers(p, g), p.groups[g];
    ExternalsSpanNone(leaf, size, 0, p.extEslag);
    ServersSpan(LeafIds(leaf, size), server, p.eslagServers);
    UnbundledSpanNone(Id(leaf), server + p.eslagServers, p.unbundled);
    BundledSpanNone(Id(leaf + 1), server + p.eslagServers + p.unbundled, p.bundled);
  }

  lemma {:induction false} SpanFound(p: Params, n: nat, x: Shape) returns (g: nat)
    requires n <= |p.groups| && GroupsOk(p.groups) && x in AllGroups(p, n) && x.ESLAGShape?
    ensures g < n && x.leaves == LeafIds(GroupLeaves(p.groups, g), p.groups[g])
  {
    hide GroupShapes, LeafIds;
    if x in GroupShapes(p, n - 1) {
      g := n - 1;
      GroupSpans(p, g, x);
    } else {
      g := SpanFound(p, n - 1, x);
    }
  }

  /** A connection that spans several leaves spans those of one group. */
  lemma {:induction false} SpansGroup(p: Params, x: Shape) returns (g: nat)
    requires NoOverflow(p) && x in AllShapes(p) && x.ESLAGShape?
    ensures g < |p.groups| && |x.leaves| == p.groups[g]
    ensures forall k :: 0 <= k < |x.leaves| ==> x.leaves[k] == GroupLeaves(p.groups, g) + k + 1
  {
    hide AllGroups, AllOrphans, HomedServers, SwitchPart, Homes, LeafServers, LeafIds;
    Counts8(p);
    OrphansSpanNone(p, p.orphans);
    HomedSpanNone(Homes(p), LeafServers(p), p.multihomed);
    SwitchPartCount(p, x);
    assert x !in SwitchPart(p) by {
      assert multiset(SwitchPart(p))[x] == 0;
    }
    g := SpanFound(p, |p.groups|, x);
    GroupIds(p, g);
  }

  lemma {:induction false} GroupIds(p: Params, g: nat)
    requires NoOverflow(p) && g < |p.groups|
    ensures forall k :: 0 <= k < p.groups[g] ==> LeafIds(GroupLeaves(p.groups, g), p.groups[g])[k] == GroupLeaves(p.groups, g) + k + 1
  {
    LeavesGrow(p.groups, g, |p.groups|);
    forall k | 0 <= k < p.groups[g]
      ensures LeafIds(GroupLeaves(p.groups, g), p.groups[g])[k] == GroupLeaves(p.groups, g) + k + 1
    {
      CountsUp(GroupLeaves(p.groups, g) + k);
    }
  }

  /** The connection has a link to the switch. */
  ghost predicate Reaches(c: Conn, name: Name) {
    exists k :: 0 <= k < |c.ports| && !c.ports[k].device.Server? && DeviceName(c.ports[k].device) == name
  }

  /** The switches that a server's group connection reaches are exactly those of one redundancy group, each by one link. */
  lemma {:induction false} GroupReached(b: Builder, p: Params, c: nat) returns (g: nat)
    requires b.Valid() && b.Holds(p) && NoOverflow(p) && c < |b.conns| && b.conns[c].shape.ESLAGShape?
    ensures g < |p.groups| && |b.conns[c].ports| == 2 * p.groups[g]
    ensures forall i :: 0 <= i < |b.switches| ==> (Reaches(b.conns[c], b.switches[i].name) <==> b.switches[i].spec.red == W.ESLAG(g))
  {
    hide AllSwitches, AllShapes, NoOverflow, GroupLeaves, Reaches, PortsOf;
    var x := b.conns[c].shape;
    assert Shapes(b.conns)[c] == x;
    g := SpansGroup(p, x);
    SwitchesBuilt(b, p);
    assert Fits(b.conns[c]);
    forall i | 0 <= i < |b.switches|
      ensures Reaches(b.conns[c], b.switches[i].name) <==> b.switches[i].spec.red == W.ESLAG(g)
    {
      if i < Leaves(p) {
        GroupNumber(b, p, i, g);
        ReachedIff(b.conns[c], GroupLeaves(p.groups, g), p.groups[g], Leaf(i + 1));
      } else {
        assert IsSpine(b.switches[i], i - Leaves(p));
        ReachedIff(b.conns[c], GroupLeaves(p.groups, g), p.groups[g], Spine(i - Leaves(p) + 1));
      }
    }
  }

  lemma {:induction false} GroupNumber(b: Builder, p: Params, i: nat, g: nat)
    requires b.Holds(p) && NoOverflow(p) && i < Leaves(p) <= |b.switches| && g < |p.groups|
    ensures b.switches[i].name == DeviceName(Leaf(i + 1))
    ensures b.switches[i].spec.red == W.ESLAG(g) <==> InGroup(p.groups, g, i)
  {
    hide AllSwitches, AllShapes, NoOverflow, GroupLeaves;
    SwitchesBuilt(b, p);
    if i < GroupLeaves(p.groups, |p.groups|) {
      var h := GroupFound(p.groups, |p.groups|, i);
      assert IsLeaf(b.switches[i], i, W.ESLAG(h));
      if InGroup(p.groups, g, i) {
        OneGroup(p.groups, g, h, i);
      }
    } else {
      assert IsLeaf(b.switches[i], i, W.NoRedundancy);
      LeavesGrow(p.groups, g, |p.groups|);
    }
  }

  lemma {:induction false} ReachedIff(c: Conn, first: nat, size: nat, d: Device)
    requires Fits(c) && c.shape.ESLAGShape? && |c.shape.leaves| == size && !d.Server?
    requires forall k :: 0 <= k < size ==> c.shape.leaves[k] == first + k + 1
    ensures Reaches(c, DeviceName(d)) <==> d.Leaf? && first < d.id <= first + size
  {
    if Reaches(c, DeviceName(d)) {
      var k :| 0 <= k < |c.ports| && !c.ports[k].device.Server? && DeviceName(c.ports[k].device) == DeviceName(d);
      assert LinkPorts(c.shape, c.ports, k / 2);
      NameTells(c.ports[k].device, d);
    }
    if d.Leaf? && first < d.id <= first + size {
      var k := d.id - first - 1;
      assert LinkPorts(c.shape, c.ports, k);
      assert c.ports[2 * k + 1].device == d;
    }
  }

  lemma {:induction false} NameTells(d: Device, e: Device)
    ensures DeviceName(d) == DeviceName(e) <==> d == e
  {
  }
}
