/** The connections that the topology builder generates, loop by loop. */
module Topology {
  import opened Store
  import opened VlabPorts

  // ---- 8-bit loop counters --------------------------------------------------------------------------------------

  /** The value of an 8-bit counter that starts at one, after n increments. */
  function Id(n: nat): U8 {
    if n == 0 then 1 else Wrap(Id(n - 1) + 1)
  }

  lemma {:induction false} CountsUp(n: nat)
    requires n < 255
    ensures Id(n) == n + 1
  {
    if n > 0 {
      CountsUp(n - 1);
    }
  }

  /** Adding to the counter at once is counting on. */
  lemma {:induction false} CountsOn(n: nat, k: nat)
    requires k < BYTES
    ensures Wrap(Id(n) + k) == Id(n + k)
  {
    if k > 0 {
      CountsOn(n, k - 1);
    }
  }

  /** A loop from one up to and including an 8-bit bound ends iff the bound is not 255. */
  lemma {:induction false} LoopEnds(bound: nat)
    requires bound < BYTES
    ensures (exists n :: Id(n) > bound) <==> bound < 255
  {
    if bound < 255 {
      CountsUp(bound);
      assert Id(bound) > bound;
    }
  }

  // ---- What the builder is asked for --------------------------------------------------------------------------------

  /** The builder's settings, and how many gateway nodes there are; all is whether several external connections are fine. */
  datatype Params = Params(
    groups: seq<U8>, orphans: U8,
    eslagServers: U8, unbundled: U8, bundled: U8, multihomed: U8,
    extEslag: U8, extOrphan: U8, all: bool,
    spines: U8, fabricLinks: U8, meshLinks: U8,
    gateways: nat, uplinks: U8)

  /** The leaves of the first n groups. */
  function GroupLeaves(groups: seq<U8>, n: nat): nat
    requires n <= |groups|
  {
    if n == 0 then 0 else GroupLeaves(groups, n - 1) + groups[n - 1]
  }

  /** The same sum in 8 bits. */
  function GroupLeaves8(groups: seq<U8>, n: nat): U8
    requires n <= |groups|
  {
    if n == 0 then 0 else Wrap(GroupLeaves8(groups, n - 1) + groups[n - 1])
  }

  /** The builder's count of all leaves, in 8 bits. */
  function Leaves8(p: Params): U8 {
    Wrap(p.orphans + GroupLeaves8(p.groups, |p.groups|))
  }

  function DefaultLeaves(p: Params): Params {
    if p.orphans == 0 && p.groups == [] then p.(groups := [2], orphans := 1) else p
  }

  function WithDefaults(p: Params): Option<Params> {
    if p.meshLinks > 0 && p.fabricLinks > 0 then None
    else if p.meshLinks == 0 then
      Some(DefaultLeaves(p.(spines := if p.spines == 0 then 2 else p.spines,
                            fabricLinks := if p.fabricLinks == 0 then 2 else p.fabricLinks)))
    else if p.spines != 0 then None
    else Some(DefaultLeaves(p))
  }

  /** The number of uplinks of each gateway, or none when the request is refused; leaves is the 8-bit leaf count. */
  function ChooseUplinks(requested: U8, spines: U8, meshLinks: U8, leaves: U8): Option<U8> {
    if requested == 0 then
      if spines > 0 then Some(if spines < 2 then spines else 2)
      else if meshLinks > 0 then Some(if leaves < 2 then leaves else 2)
      else Some(0)
    else if meshLinks > 0 then
      if requested > leaves then None else Some(requested)
    else
      if requested > spines then None else Some(requested)
  }

  function WithUplinks(p: Params): Option<Params> {
    if p.gateways == 0 then Some(p)
    else
      var r := ChooseUplinks(p.uplinks, p.spines, p.meshLinks, Leaves8(p));
      if r.None? then None else Some(p.(uplinks := r.value))
  }

  predicate GroupsOk(groups: seq<U8>) {
    forall i :: 0 <= i < |groups| ==> 2 <= groups[i] <= 4
  }

  /** What is refused before anything is built. */
  predicate Acceptable(p: Params) {
    && GroupsOk(p.groups)
    && !(p.multihomed > 0 && Leaves8(p) < 2)
    && p.extEslag <= GroupLeaves8(p.groups, |p.groups|)
    && p.extOrphan <= p.orphans
    && !(Wrap(p.extEslag + p.extOrphan) > 1 && !p.all)
  }

  function WithServers(p: Params): Params {
    if GroupLeaves8(p.groups, |p.groups|) == 0 then p.(eslagServers := 0) else p
  }

  /** The settings that are built, or none when they are refused. */
  function Prepared(p: Params): Option<Params> {
    var d := WithDefaults(p);
    if d.None? then None
    else
      var u := WithUplinks(d.value);
      if u.None? || !Acceptable(u.value) then None else Some(WithServers(u.value))
  }

  // ---- Connections -----------------------------------------------------------------------------------------------

  /** A connection without its port numbers. */
  datatype Shape =
    | FabricShape(spine: nat, leaf: nat, links: nat)
    | MeshShape(leaf1: nat, leaf2: nat, links: nat)
    | GatewayShape(device: Device, gateway: nat, port: nat)
    | ESLAGShape(server: nat, leaves: seq<nat>)
    | UnbundledShape(server: nat, leaf: nat)
    | BundledShape(server: nat, leaf: nat)
    | ExternalShape(leaf: nat)

  /** A connection whose links have a port of two devices each. */
  predicate Paired(x: Shape) {
    !x.GatewayShape? && !x.ExternalShape?
  }

  function LinksIn(x: Shape): nat {
    match x
    case FabricShape(_, _, n) => n
    case MeshShape(_, _, n) => n
    case ESLAGShape(_, ls) => |ls|
    case BundledShape(_, _) => 2
    case _ => 1
  }

  /** The device whose port a link takes first, or alone. */
  function Near(x: Shape): Device {
    match x
    case FabricShape(s, _, _) => Spine(s)
    case MeshShape(a, _, _) => Leaf(a)
    case GatewayShape(d, _, _) => d
    case ESLAGShape(s, _) => Server(s)
    case UnbundledShape(s, _) => Server(s)
    case BundledShape(s, _) => Server(s)
    case ExternalShape(l) => Leaf(l)
  }

  /** The device whose port the k-th link takes second. */
  function Far(x: Shape, k: nat): Device
    requires Paired(x) && k < LinksIn(x)
  {
    match x
    case FabricShape(_, l, _) => Leaf(l)
    case MeshShape(_, b, _) => Leaf(b)
    case ESLAGShape(_, ls) => Leaf(ls[k])
    case UnbundledShape(_, l) => Leaf(l)
    case BundledShape(_, l) => Leaf(l)
  }

  // ---- Servers, group by group and leaf by leaf ----------------------------------------------------------------------

  /** The numbers of the leaves with these indexes. */
  function LeafIds(first: nat, n: nat): (r: seq<nat>)
    ensures |r| == n && forall k {:trigger r[k]} :: 0 <= k < n ==> r[k] == Id(first + k)
  {
    if n == 0 then [] else LeafIds(first, n - 1) + [Id(first + n - 1)]
  }

  /** The external connections of the leaves with these indexes, while there are fewer than asked for. */
  function Externals(first: nat, n: nat, base: nat, most: nat): seq<Shape> {
    if n == 0 then []
    else Externals(first, n - 1, base, most) + if first + n - 1 < base + most then [ExternalShape(Id(first + n - 1))] else []
  }

  function ESLAGServers(leaves: seq<nat>, first: nat, n: nat): seq<Shape> {
    if n == 0 then [] else ESLAGServers(leaves, first, n - 1) + [ESLAGShape(Id(first + n - 1), leaves)]
  }

  function UnbundledServers(leaf: nat, first: nat, n: nat): seq<Shape> {
    if n == 0 then [] else UnbundledServers(leaf, first, n - 1) + [UnbundledShape(Id(first + n - 1), leaf)]
  }

  function BundledServers(leaf: nat, first: nat, n: nat): seq<Shape> {
    if n == 0 then [] else BundledServers(leaf, first, n - 1) + [BundledShape(Id(first + n - 1), leaf)]
  }

  /** The servers of the first n groups. */
  function GroupServers(p: Params, n: nat): nat {
    if n == 0 then 0 else GroupServers(p, n - 1) + p.eslagServers + p.unbundled + p.bundled
  }

  function GroupShapes(p: Params, g: nat): seq<Shape>
    requires g < |p.groups| && 2 <= p.groups[g]
  {
    var leaf, server, size := GroupLeaves(p.groups, g), GroupServers(p, g), p.groups[g];
    Externals(leaf, size, 0, p.extEslag)
      + ESLAGServers(LeafIds(leaf, size), server, p.eslagServers)
      + UnbundledServers(Id(leaf), server + p.eslagServers, p.unbundled)
      + BundledServers(Id(leaf + 1), server + p.eslagServers + p.unbundled, p.bundled)
  }

  function AllGroups(p: Params, n: nat): seq<Shape>
    requires n <= |p.groups| && GroupsOk(p.groups)
  {
    if n == 0 then [] else AllGroups(p, n - 1) + GroupShapes(p, n - 1)
  }

  /** The group loop counts to the number of groups in 8 bits. */
  function GroupsBuilt(p: Params): nat {
    |p.groups| % BYTES
  }

  /** The leaves in the groups that are built. */
  function Grouped(p: Params): nat {
    GroupLeaves(p.groups, GroupsBuilt(p))
  }

  function OrphanServers(p: Params, n: nat): nat {
    if n == 0 then 0 else OrphanServers(p, n - 1) + p.unbundled + p.bundled
  }

  function OrphanShapes(p: Params, o: nat): seq<Shape> {
    var leaf, server := Grouped(p) + o, GroupServers(p, GroupsBuilt(p)) + OrphanServers(p, o);
    Externals(leaf, 1, Grouped(p), p.extOrphan)
      + UnbundledServers(Id(leaf), server, p.unbundled)
      + BundledServers(Id(leaf), server + p.unbundled, p.bundled)
  }

  function AllOrphans(p: Params, n: nat): seq<Shape> {
    if n == 0 then [] else AllOrphans(p, n - 1) + OrphanShapes(p, n - 1)
  }

  /** The candidate leaves for multihomed servers: grouped leaves only when there are fewer than two orphans. */
  function Homes(p: Params): seq<nat> {
    (if p.orphans < 2 then LeafIds(0, Grouped(p)) else []) + LeafIds(Grouped(p), p.orphans)
  }

  /** The position in the candidate list of the t-th attachment, counting round and round. */
  function Turn(m: nat, t: nat): (r: nat)
    requires m > 0
    ensures r < m
  {
    if t == 0 then 0 else if Turn(m, t - 1) + 1 == m then 0 else Turn(m, t - 1) + 1
  }

  function HomedServer(homes: seq<nat>, server: nat, k: nat): seq<Shape>
    requires |homes| > 0
  {
    [UnbundledShape(server, homes[Turn(|homes|, 2 * k)]), UnbundledShape(server, homes[Turn(|homes|, 2 * k + 1)])]
  }

  /** The two attachments of each multihomed server. */
  function HomedServers(homes: seq<nat>, first: nat, n: nat): seq<Shape> {
    if n == 0 || |homes| == 0 then []
    else HomedServers(homes, first, n - 1) + HomedServer(homes, Id(first + n - 1), n - 1)
  }

  /** The servers before the multihomed ones. */
  function LeafServers(p: Params): nat {
    GroupServers(p, GroupsBuilt(p)) + OrphanServers(p, p.orphans)
  }

  function ServerPart(p: Params): seq<Shape>
    requires GroupsOk(p.groups)
  {
    AllGroups(p, GroupsBuilt(p)) + AllOrphans(p, p.orphans) + HomedServers(Homes(p), LeafServers(p), p.multihomed)
  }

  // ---- Between switches, and gateways ---------------------------------------------------------------------------------

  function LeafShapes(spine: nat, leaves: nat, links: nat): seq<Shape> {
    if leaves == 0 then [] else LeafShapes(spine, leaves - 1, links) + [FabricShape(spine, leaves, links)]
  }

  function GatewayRow(device: Device, gateways: nat, port: nat): seq<Shape> {
    if gateways == 0 then [] else GatewayRow(device, gateways - 1, port) + [GatewayShape(device, gateways - 1, port)]
  }

  /** One spine: its leaves, then the gateways if the spine is one of those with uplinks. */
  function SpineRow(spine: nat, leaves: nat, links: nat, gateways: nat, uplinks: nat): seq<Shape> {
    LeafShapes(spine, leaves, links) + if spine <= uplinks then GatewayRow(Spine(spine), gateways, spine) else []
  }

  function SpineShapes(spines: nat, leaves: nat, links: nat, gateways: nat, uplinks: nat): seq<Shape> {
    if spines == 0 then []
    else SpineShapes(spines - 1, leaves, links, gateways, uplinks) + SpineRow(spines, leaves, links, gateways, uplinks)
  }

  /** The mesh connections of one leaf with the leaves behind it, up to the given one. */
  function MeshRow(leaf: nat, upTo: nat, links: nat): seq<Shape> {
    if upTo <= leaf then [] else MeshRow(leaf, upTo - 1, links) + [MeshShape(leaf, upTo, links)]
  }

  function MeshShapes(rows: nat, leaves: nat, links: nat): seq<Shape> {
    if rows == 0 then [] else MeshShapes(rows - 1, leaves, links) + MeshRow(rows, leaves, links)
  }

  /** In a mesh the first leaves carry the gateways. */
  function MeshGateways(leaves: nat, gateways: nat): seq<Shape> {
    if leaves == 0 then [] else MeshGateways(leaves - 1, gateways) + GatewayRow(Leaf(leaves), gateways, leaves)
  }

  function Times(a: nat, b: nat): nat {
    a * b
  }

  function Least(a: nat, b: nat): nat {
    if a < b then a else b
  }

  function SwitchPart(p: Params): seq<Shape> {
    SpineShapes(p.spines, Leaves8(p), p.fabricLinks, p.gateways, p.uplinks)
      + if p.meshLinks > 0 then MeshShapes(Leaves8(p), Leaves8(p), p.meshLinks) + MeshGateways(Least(Leaves8(p), p.uplinks), p.gateways) else []
  }

  /** Everything that is built, in order. */
  function AllShapes(p: Params): seq<Shape>
    requires GroupsOk(p.groups)
  {
    ServerPart(p) + SwitchPart(p)
  }

  // ---- Each pair is connected once ------------------------------------------------------------------------

  function Once(b: bool): nat {
    if b then 1 else 0
  }

  lemma {:induction false} LeafShapesCount(spine: nat, leaves: nat, links: nat, x: Shape)
    ensures multiset(LeafShapes(spine, leaves, links))[x] ==
      Once(x.FabricShape? && x.spine == spine && 1 <= x.leaf <= leaves && x.links == links)
  {
    if leaves > 0 {
      LeafShapesCount(spine, leaves - 1, links, x);
    }
  }

  lemma {:induction false} GatewayRowCount(device: Device, gateways: nat, port: nat, x: Shape)
    ensures multiset(GatewayRow(device, gateways, port))[x] ==
      Once(x.GatewayShape? && x.device == device && x.gateway < gateways && x.port == port)
  {
    if gateways > 0 {
      GatewayRowCount(device, gateways - 1, port, x);
    }
  }

  lemma {:induction false} CountConcat(a: seq<Shape>, b: seq<Shape>, x: Shape)
    ensures multiset(a + b)[x] == multiset(a)[x] + multiset(b)[x]
  {
  }

  lemma {:induction false} SpineRowCount(spine: nat, leaves: nat, links: nat, gateways: nat, uplinks: nat, x: Shape)
    ensures multiset(SpineRow(spine, leaves, links, gateways, uplinks))[x] ==
      Once(x.FabricShape? && x.spine == spine && 1 <= x.leaf <= leaves && x.links == links) +
      Once(x.GatewayShape? && x.device == Spine(spine) && x.port == spine && spine <= uplinks && x.gateway < gateways)
  {
    hide LeafShapes, GatewayRow;
    LeafShapesCount(spine, leaves, links, x);
    GatewayRowCount(Spine(spine), gateways, spine, x);
    CountConcat(LeafShapes(spine, leaves, links), if spine <= uplinks then GatewayRow(Spine(spine), gateways, spine) else [], x);
  }

  /** Every spine is connected to every leaf by exactly one connection, and every gateway to each spine with uplinks by exactly one link. */
  lemma {:induction false} SpineShapesCount(spines: nat, leaves: nat, links: nat, gateways: nat, uplinks: nat, x: Shape)
    ensures multiset(SpineShapes(spines, leaves, links, gateways, uplinks))[x] ==
      Once(x.FabricShape? && 1 <= x.spine <= spines && 1 <= x.leaf <= leaves && x.links == links) +
      Once(x.GatewayShape? && x.device == Spine(x.port) && 1 <= x.port <= spines && x.port <= uplinks && x.gateway < gateways)
  {
    hide SpineRow;
    if spines > 0 {
      SpineShapesCount(spines - 1, leaves, links, gateways, uplinks, x);
      SpineRowCount(spines, leaves, links, gateways, uplinks, x);
      CountConcat(SpineShapes(spines - 1, leaves, links, gateways, uplinks), SpineRow(spines, leaves, links, gateways, uplinks), x);
    }
  }

  lemma {:induction false} MeshRowCount(leaf: nat, upTo: nat, links: nat, x: Shape)
    ensures multiset(MeshRow(leaf, upTo, links))[x] ==
      Once(x.MeshShape? && x.leaf1 == leaf && leaf < x.leaf2 <= upTo && x.links == links)
  {
    if upTo > leaf {
      MeshRowCount(leaf, upTo - 1, links, x);
    }
  }

  /** Every two leaves are connected by exactly one mesh connection, from the lower to the higher. */
  lemma {:induction false} MeshShapesCount(rows: nat, leaves: nat, links: nat, x: Shape)
    ensures multiset(MeshShapes(rows, leaves, links))[x] ==
      Once(x.MeshShape? && 1 <= x.leaf1 <= rows && x.leaf1 < x.leaf2 <= leaves && x.links == links)
  {
    hide MeshRow;
    if rows > 0 {
      MeshShapesCount(rows - 1, leaves, links, x);
      MeshRowCount(rows, leaves, links, x);
      CountConcat(MeshShapes(rows - 1, leaves, links), MeshRow(rows, leaves, links), x);
    }
  }

  lemma {:induction false} MeshGatewaysCount(leaves: nat, gateways: nat, x: Shape)
    ensures multiset(MeshGateways(leaves, gateways))[x] ==
      Once(x.GatewayShape? && x.device == Leaf(x.port) && 1 <= x.port <= leaves && x.gateway < gateways)
  {
    hide GatewayRow;
    if leaves > 0 {
      MeshGatewaysCount(leaves - 1, gateways, x);
      GatewayRowCount(Leaf(leaves), gateways, leaves, x);
      CountConcat(MeshGateways(leaves - 1, gateways), GatewayRow(Leaf(leaves), gateways, leaves), x);
    }
  }

  // ---- Candidates for multihomed servers ---------------------------------------------------------------------------------

  /** Groups have two leaves at least. */
  lemma {:induction false} TwoInAGroup(groups: seq<U8>, n: nat)
    requires GroupsOk(groups) && n <= |groups|
    ensures GroupLeaves(groups, n) >= 2 * n
  {
    if n > 0 {
      TwoInAGroup(groups, n - 1);
    }
  }

  /** Where multihomed servers are accepted, two candidates are found exactly when there are two orphans or the 8-bit group loop runs. */
  lemma {:induction false} TwoCandidates(p: Params)
    requires Acceptable(p) && p.multihomed > 0
    ensures |Homes(p)| >= 2 <==> p.orphans >= 2 || GroupsBuilt(p) > 0
  {
    TwoInAGroup(p.groups, GroupsBuilt(p));
  }

  function Repeat(x: U8, n: nat): (r: seq<U8>)
    ensures |r| == n && forall i :: 0 <= i < n ==> r[i] == x
  {
    seq(n, i => x)
  }

  lemma {:induction false} TwosAddUp(groups: seq<U8>, n: nat)
    requires n <= |groups| && n <= 254 && forall i :: 0 <= i < n ==> groups[i] == 2
    ensures GroupLeaves8(groups, n) == if 2 * n < BYTES then 2 * n else 2 * n - BYTES
  {
    if n > 0 {
      TwosAddUp(groups, n - 1);
    }
  }

  /** With 254 groups of two and two of three the check for two leaves passes and there is no candidate at all. */
  lemma {:induction false} NoCandidates() returns (p: Params)
    ensures Prepared(p).Some? && Prepared(p).value.multihomed > 0 && Homes(Prepared(p).value) == []
  {
    var groups := Repeat(2, 254) + [3, 3];
    p := Params(groups, 0, 0, 0, 0, 1, 0, 0, false, 0, 0, 0, 0, 0);
    TwosAddUp(groups, 254);
    assert GroupLeaves8(groups, 255) == Wrap(GroupLeaves8(groups, 254) + groups[254]);
    assert GroupLeaves8(groups, 256) == Wrap(GroupLeaves8(groups, 255) + groups[255]);
  }
}
