/**
  * No object of a generated topology has the name of another, as long as no 8-bit count overflows, so that the object
  * store accepts them all.
  */
module TopologyNames {
  import opened VlabPorts
  import opened Topology

  /** No number of a leaf or server comes twice, and no 8-bit count of switches overflows. */
  predicate NoOverflow(p: Params) {
    GroupsOk(p.groups) && Leaves(p) < 255 && p.spines < 255 && Servers(p) <= 255
  }

  function Leaves(p: Params): nat {
    GroupLeaves(p.groups, |p.groups|) + p.orphans
  }

  function Servers(p: Params): nat {
    LeafServers(p) + p.multihomed
  }

  lemma {:induction false} Leaves8Is(groups: seq<U8>, n: nat)
    requires n <= |groups| && GroupLeaves(groups, n) < BYTES
    ensures GroupLeaves8(groups, n) == GroupLeaves(groups, n)
  {
    if n > 0 {
      Leaves8Is(groups, n - 1);
    }
  }

  lemma {:induction false} LeavesGrow(groups: seq<U8>, m: nat, n: nat)
    requires m <= n <= |groups|
    ensures GroupLeaves(groups, m) <= GroupLeaves(groups, n)
    ensures m < n ==> GroupLeaves(groups, m) + groups[m] <= GroupLeaves(groups, n)
  {
    if m < n {
      LeavesGrow(groups, m, n - 1);
    }
  }

  lemma {:induction false} ServersGrow(p: Params, m: nat, n: nat)
    requires m <= n
    ensures GroupServers(p, m) <= GroupServers(p, n) && OrphanServers(p, m) <= OrphanServers(p, n)
    ensures m < n ==> GroupServers(p, m) + p.eslagServers + p.unbundled + p.bundled <= GroupServers(p, n)
    ensures m < n ==> OrphanServers(p, m) + p.unbundled + p.bundled <= OrphanServers(p, n)
  {
    if m < n {
      ServersGrow(p, m, n - 1);
    }
  }

  /** Without overflow the 8-bit counts are the counts. */
  lemma {:induction false} Counts8(p: Params)
    requires NoOverflow(p)
    ensures GroupsBuilt(p) == |p.groups| && Grouped(p) == GroupLeaves(p.groups, |p.groups|) && Leaves8(p) == Leaves(p)
  {
    TwoInAGroup(p.groups, |p.groups|);
    Leaves8Is(p.groups, |p.groups|);
  }

  predicate Distinct(homes: seq<nat>) {
    forall i, j :: 0 <= i < j < |homes| ==> homes[i] != homes[j]
  }

  /** The candidates for multihomed servers are distinct leaves, and there are at least two where they are needed. */
  lemma {:induction false} HomesDistinct(p: Params)
    requires NoOverflow(p)
    ensures Distinct(Homes(p))
    ensures forall i :: 0 <= i < |Homes(p)| ==> Homes(p)[i] == if p.orphans < 2 then i + 1 else Grouped(p) + i + 1
    ensures |Homes(p)| == p.orphans + if p.orphans < 2 then Grouped(p) else 0
    ensures Acceptable(p) && p.multihomed > 0 ==> |Homes(p)| >= 2
  {
    Counts8(p);
    forall i | 0 <= i < |Homes(p)|
      ensures Homes(p)[i] == if p.orphans < 2 then i + 1 else Grouped(p) + i + 1
    {
      CountsUp(if p.orphans < 2 then i else Grouped(p) + i);
    }
  }

  // ---- Names -----------------------------------------------------------------------------------------------

  /** What the name of a connection is made of: its kind and its devices. */
  function NameOf(x: Shape): Shape {
    match x
    case FabricShape(s, l, _) => FabricShape(s, l, 0)
    case MeshShape(a, b, _) => MeshShape(a, b, 0)
    case GatewayShape(d, g, _) => GatewayShape(d, g, 0)
    case _ => x
  }

  predicate NamesDistinct(l: seq<Shape>) {
    forall i, j :: 0 <= i < j < |l| ==> NameOf(l[i]) != NameOf(l[j])
  }

  /** A connection of a server with a number in one range, or an external connection of a leaf with one in the other. */
  predicate Serves(x: Shape, s0: nat, s1: nat, l0: nat, l1: nat) {
    match x
    case ESLAGShape(s, _) => s0 < s <= s1
    case UnbundledShape(s, _) => s0 < s <= s1
    case BundledShape(s, _) => s0 < s <= s1
    case ExternalShape(l) => l0 < l <= l1
    case _ => false
  }

  /** Connections with different names, all for the servers and leaves of these ranges. */
  predicate Block(l: seq<Shape>, s0: nat, s1: nat, l0: nat, l1: nat) {
    NamesDistinct(l) && forall i :: 0 <= i < |l| ==> Serves(l[i], s0, s1, l0, l1)
  }

  lemma {:induction false} Join(a: seq<Shape>, b: seq<Shape>, s0: nat, s1: nat, s2: nat, l0: nat, l1: nat, l2: nat)
    requires s0 <= s1 <= s2 && l0 <= l1 <= l2
    requires Block(a, s0, s1, l0, l1) && Block(b, s1, s2, l1, l2)
    ensures Block(a + b, s0, s2, l0, l2)
  {
    var l := a + b;
    forall i, j | 0 <= i < j < |l|
      ensures NameOf(l[i]) != NameOf(l[j])
    {
      assert i < |a| ==> Serves(a[i], s0, s1, l0, l1);
      assert j >= |a| ==> Serves(b[j - |a|], s1, s2, l1, l2);
    }
    forall i | 0 <= i < |l|
      ensures Serves(l[i], s0, s2, l0, l2)
    {
      assert i < |a| ==> Serves(a[i], s0, s1, l0, l1);
      assert i >= |a| ==> Serves(b[i - |a|], s1, s2, l1, l2);
    }
  }

  lemma {:induction false} ExternalsBlock(first: nat, n: nat, base: nat, most: nat, s: nat)
    requires first + n < 255
    ensures Block(Externals(first, n, base, most), s, s, first, first + n)
  {
    if n > 0 {
      ExternalsBlock(first, n - 1, base, most, s);
      CountsUp(first + n - 1);
      var before, last := Externals(first, n - 1, base, most), [ExternalShape(first + n)];
      Join(before, if first + n - 1 < base + most then last else [], s, s, s, first, first + n - 1, first + n);
    }
  }

  lemma {:induction false} ESLAGBlock(leaves: seq<nat>, first: nat, n: nat, l: nat)
    requires first + n <= 255
    ensures Block(ESLAGServers(leaves, first, n), first, first + n, l, l)
  {
    if n > 0 {
      ESLAGBlock(leaves, first, n - 1, l);
      CountsUp(first + n - 1);
      Join(ESLAGServers(leaves, first, n - 1), [ESLAGShape(first + n, leaves)], first, first + n - 1, first + n, l, l, l);
    }
  }

  lemma {:induction false} UnbundledBlock(leaf: nat, first: nat, n: nat, l: nat)
    requires first + n <= 255
    ensures Block(UnbundledServers(leaf, first, n), first, first + n, l, l)
  {
    if n > 0 {
      UnbundledBlock(leaf, first, n - 1, l);
      CountsUp(first + n - 1);
      Join(UnbundledServers(leaf, first, n - 1), [UnbundledShape(first + n, leaf)], first, first + n - 1, first + n, l, l, l);
    }
  }

  lemma {:induction false} BundledBlock(leaf: nat, first: nat, n: nat, l: nat)
    requires first + n <= 255
    ensures Block(BundledServers(leaf, first, n), first, first + n, l, l)
  {
    if n > 0 {
      BundledBlock(leaf, first, n - 1, l);
      CountsUp(first + n - 1);
      Join(BundledServers(leaf, first, n - 1), [BundledShape(first + n, leaf)], first, first + n - 1, first + n, l, l, l);
    }
  }

  lemma {:induction false} HomedBlock(homes: seq<nat>, first: nat, n: nat, l: nat)
    requires first + n <= 255 && Distinct(homes) && (n > 0 ==> |homes| >= 2)
    ensures Block(HomedServers(homes, first, n), first, first + n, l, l)
  {
    if n > 0 {
      HomedBlock(homes, first, n - 1, l);
      CountsUp(first + n - 1);
      var one := HomedServer(homes, first + n, n - 1);
      assert Turn(|homes|, 2 * (n - 1) + 1) != Turn(|homes|, 2 * (n - 1));
      assert Block(one, first + n - 1, first + n, l, l);
      Join(HomedServers(homes, first, n - 1), one, first, first + n - 1, first + n, l, l, l);
    }
  }

  lemma {:induction false} GroupBlock(p: Params, g: nat)
    requires NoOverflow(p) && g < |p.groups|
    ensures Block(GroupShapes(p, g), GroupServers(p, g), GroupServers(p, g + 1),
                  GroupLeaves(p.groups, g), GroupLeaves(p.groups, g + 1))
  {
    hide Block, Id, LeafIds;
    Counts8(p);
    LeavesGrow(p.groups, g + 1, |p.groups|);
    ServersGrow(p, g, |p.groups|);
    var leaf, s0, size := GroupLeaves(p.groups, g), GroupServers(p, g), p.groups[g];
    var s1, l1 := s0 + p.eslagServers, leaf + size;
    var s2 := s1 + p.unbundled;
    var s3 := s2 + p.bundled;
    var a, b := Externals(leaf, size, 0, p.extEslag), ESLAGServers(LeafIds(leaf, size), s0, p.eslagServers);
    var c, d := UnbundledServers(Id(leaf), s1, p.unbundled), BundledServers(Id(leaf + 1), s2, p.bundled);
    ExternalsBlock(leaf, size, 0, p.extEslag, s0);
    ESLAGBlock(LeafIds(leaf, size), s0, p.eslagServers, l1);
    UnbundledBlock(Id(leaf), s1, p.unbundled, l1);
    BundledBlock(Id(leaf + 1), s2, p.bundled, l1);
    Join(a, b, s0, s0, s1, leaf, l1, l1);
    Join(a + b, c, s0, s1, s2, leaf, l1, l1);
    Join(a + b + c, d, s0, s2, s3, leaf, l1, l1);
  }

  lemma {:induction false} AllGroupsBlock(p: Params, n: nat)
    requires NoOverflow(p) && n <= |p.groups|
    ensures Block(AllGroups(p, n), 0, GroupServers(p, n), 0, GroupLeaves(p.groups, n))
  {
    hide GroupShapes;
    if n > 0 {
      AllGroupsBlock(p, n - 1);
      hide Block;
      GroupBlock(p, n - 1);
      LeavesGrow(p.groups, n - 1, n);
      ServersGrow(p, n - 1, n);
      Join(AllGroups(p, n - 1), GroupShapes(p, n - 1), 0, GroupServers(p, n - 1), GroupServers(p, n),
           0, GroupLeaves(p.groups, n - 1), GroupLeaves(p.groups, n));
    }
  }

  lemma {:induction false} OrphanBlock(p: Params, o: nat)
    requires NoOverflow(p) && o < p.orphans
    ensures var s := GroupServers(p, GroupsBuilt(p));
      Block(OrphanShapes(p, o), s + OrphanServers(p, o), s + OrphanServers(p, o + 1), Grouped(p) + o, Grouped(p) + o + 1)
  {
    hide Block, Id, GroupServers;
    Counts8(p);
    ServersGrow(p, o, p.orphans);
    var leaf, s0 := Grouped(p) + o, GroupServers(p, GroupsBuilt(p)) + OrphanServers(p, o);
    var s1, l1 := s0 + p.unbundled, leaf + 1;
    var s2 := s1 + p.bundled;
    var a := Externals(leaf, 1, Grouped(p), p.extOrphan);
    var c, d := UnbundledServers(Id(leaf), s0, p.unbundled), BundledServers(Id(leaf), s1, p.bundled);
    ExternalsBlock(leaf, 1, Grouped(p), p.extOrphan, s0);
    UnbundledBlock(Id(leaf), s0, p.unbundled, l1);
    BundledBlock(Id(leaf), s1, p.bundled, l1);
    Join(a, c, s0, s0, s1, leaf, l1, l1);
    Join(a + c, d, s0, s1, s2, leaf, l1, l1);
  }

  lemma {:induction false} AllOrphansBlock(p: Params, n: nat)
    requires NoOverflow(p) && n <= p.orphans
    ensures var s := GroupServers(p, GroupsBuilt(p));
      Block(AllOrphans(p, n), s, s + OrphanServers(p, n), Grouped(p), Grouped(p) + n)
  {
    hide OrphanShapes;
    var s := GroupServers(p, GroupsBuilt(p));
    if n > 0 {
      AllOrphansBlock(p, n - 1);
      hide Block;
      OrphanBlock(p, n - 1);
      ServersGrow(p, n - 1, n);
      Join(AllOrphans(p, n - 1), OrphanShapes(p, n - 1), s, s + OrphanServers(p, n - 1), s + OrphanServers(p, n),
           Grouped(p), Grouped(p) + n - 1, Grouped(p) + n);
    }
  }

  /** The connections of servers and externals have different names. */
  lemma {:induction false} ServerPartBlock(p: Params)
    requires NoOverflow(p) && Acceptable(p)
    ensures Block(ServerPart(p), 0, Servers(p), 0, Leaves(p))
  {
    hide Block, AllGroups, AllOrphans, HomedServers, Homes, Distinct;
    Counts8(p);
    HomesDistinct(p);
    ServersGrow(p, 0, |p.groups|);
    ServersGrow(p, 0, p.orphans);
    var a, b, c := AllGroups(p, GroupsBuilt(p)), AllOrphans(p, p.orphans), HomedServers(Homes(p), LeafServers(p), p.multihomed);
    AllGroupsBlock(p, |p.groups|);
    AllOrphansBlock(p, p.orphans);
    HomedBlock(Homes(p), LeafServers(p), p.multihomed, Leaves(p));
    Join(a, b, 0, GroupServers(p, |p.groups|), LeafServers(p), 0, Grouped(p), Leaves(p));
    Join(a + b, c, 0, LeafServers(p), Servers(p), 0, Leaves(p), Leaves(p));
  }

  // ---- Between switches ----------------------------------------------------------------------------------------

  lemma {:induction false} CountedTwice(l: seq<Shape>, i: nat, j: nat)
    requires i < j < |l| && l[i] == l[j]
    ensures multiset(l)[l[i]] >= 2
  {
    assert l == l[..i] + [l[i]] + l[i + 1..j] + [l[j]] + l[j + 1..];
  }

  /** Which connections there are between switches and to gateways, each of them once. */
  predicate Connects(p: Params, x: Shape) {
    match x
    case FabricShape(s, l, n) => 1 <= s <= p.spines && 1 <= l <= Leaves8(p) && n == p.fabricLinks
    case MeshShape(a, b, n) => p.meshLinks > 0 && 1 <= a < b <= Leaves8(p) && n == p.meshLinks
    case GatewayShape(d, g, k) =>
      g < p.gateways && 1 <= k <= p.uplinks && (
        || (d == Spine(k) && k <= p.spines)
        || (d == Leaf(k) && k <= Leaves8(p) && p.meshLinks > 0))
    case _ => false
  }

  lemma {:induction false} SwitchPartCount(p: Params, x: Shape)
    ensures multiset(SwitchPart(p))[x] == Once(Connects(p, x))
  {
    hide SpineShapes, MeshShapes, MeshGateways, Leaves8;
    var l := Leaves8(p);
    var fabric := SpineShapes(p.spines, l, p.fabricLinks, p.gateways, p.uplinks);
    SpineShapesCount(p.spines, l, p.fabricLinks, p.gateways, p.uplinks, x);
    if p.meshLinks > 0 {
      var mesh, links := MeshShapes(l, l, p.meshLinks), MeshGateways(Least(l, p.uplinks), p.gateways);
      MeshShapesCount(l, l, p.meshLinks, x);
      MeshGatewaysCount(Least(l, p.uplinks), p.gateways, x);
      CountConcat(mesh, links, x);
      CountConcat(fabric, mesh + links, x);
    } else {
      assert SwitchPart(p) == fabric;
    }
  }

  lemma {:induction false} SwitchPartNames(p: Params)
    ensures NamesDistinct(SwitchPart(p))
    ensures forall i :: 0 <= i < |SwitchPart(p)| ==> Connects(p, SwitchPart(p)[i])
  {
    hide SwitchPart;
    var l := SwitchPart(p);
    forall i | 0 <= i < |l|
      ensures Connects(p, l[i])
    {
      SwitchPartCount(p, l[i]);
      assert l[i] in multiset(l);
    }
    forall i, j | 0 <= i < j < |l|
      ensures NameOf(l[i]) != NameOf(l[j])
    {
      assert Connects(p, l[i]) && Connects(p, l[j]);
      if NameOf(l[i]) == NameOf(l[j]) {
        assert l[i] == l[j];
        CountedTwice(l, i, j);
        SwitchPartCount(p, l[i]);
      }
    }
  }

  /** No two connections of a generated topology have the same name. */
  lemma {:induction false} AllNamesDistinct(p: Params)
    requires NoOverflow(p) && Acceptable(p)
    ensures NamesDistinct(AllShapes(p))
  {
    hide ServerPart, SwitchPart, Connects, Acceptable;
    ServerPartBlock(p);
    SwitchPartNames(p);
    var a, b := ServerPart(p), SwitchPart(p);
    forall i, j | 0 <= i < j < |a + b|
      ensures NameOf((a + b)[i]) != NameOf((a + b)[j])
    {
      if i < |a| <= j {
        assert Serves(a[i], 0, Servers(p), 0, Leaves(p));
        NotServing(p, b[j - |a|]);
      }
    }
  }

  lemma {:induction false} NotServing(p: Params, x: Shape)
    requires Connects(p, x)
    ensures x.FabricShape? || x.MeshShape? || x.GatewayShape?
  {
  }
}
