/** What the builder generates is what hydration needs, down to the pools it takes. */
module BuiltWiring {
  import opened Store
  import opened Net
  import opened VlabPorts
  import opened Topology
  import opened TopologyNames
  import opened TopologyBuilder
  import opened FitSwitches
  import TopologyLoad
  import FitHosts
  import FitLinks
  import Checker
  import Sorting
  import Allocator
  import HydrationFits
  import OwnerCounting
  import W = WiringModel

  // ---- Gateway uplinks -----------------------------------------------------------------------------------

  /** There is a switch for every uplink: a spine, or in a mesh, which has no spines, a leaf; and only one kind of fabric. */
  lemma {:induction false} UplinksHaveSwitches(settings: Params)
    requires Prepared(settings).Some?
    ensures var p := Prepared(settings).value;
      && (p.meshLinks > 0 ==> p.spines == 0)
      && (p.gateways > 0 ==> p.uplinks <= if p.meshLinks > 0 then Leaves8(p) else p.spines)
  {
    PreparedOk(settings);
  }

  /** In a spine-leaf fabric uplink k goes to spine k, in a mesh to leaf k. */
  function UplinkOf(p: Params, k: nat): Device {
    if p.meshLinks > 0 then Leaf(k) else Spine(k)
  }

  /** Every interface of every gateway is used by exactly one connection, and gateway connections use nothing else. */
  lemma {:induction false} UplinksExact(settings: Params, p: Params, x: Shape)
    requires Prepared(settings) == Some(p) && NoOverflow(p) && x.GatewayShape?
    ensures multiset(AllShapes(p))[x] == Once(x.gateway < p.gateways && 1 <= x.port <= p.uplinks && x.device == UplinkOf(p, x.port))
  {
    hide ServerPart, SwitchPart, Prepared, NoOverflow, Acceptable;
    PreparedOk(settings);
    ServerPartBlock(p);
    NotServed(ServerPart(p), 0, Servers(p), 0, Leaves(p), x);
    SwitchPartCount(p, x);
    CountConcat(ServerPart(p), SwitchPart(p), x);
  }

  lemma {:induction false} NotServed(l: seq<Shape>, s0: nat, s1: nat, l0: nat, l1: nat, x: Shape)
    requires Block(l, s0, s1, l0, l1) && x.GatewayShape?
    ensures multiset(l)[x] == 0
  {
    forall i | 0 <= i < |l|
      ensures l[i] != x
    {
      assert Serves(l[i], s0, s1, l0, l1);
    }
    assert x !in l;
  }

  // ---- As API objects ---------------------------------------------------------------------------------------

  function EndAt(device: Name, port: Name): W.End {
    W.End(W.Port(device, port), Unset)
  }

  /** The links of a connection, with the ports they were given. */
  function LinkObjects(c: Conn): (r: seq<W.Link>)
    requires Fits(c) && Paired(c.shape)
    ensures |r| == LinksIn(c.shape)
  {
    seq(LinksIn(c.shape), k requires 0 <= k < LinksIn(c.shape) =>
      W.Link(EndAt(DeviceName(c.ports[2 * k].device), c.ports[2 * k].port), EndAt(DeviceName(c.ports[2 * k + 1].device), c.ports[2 * k + 1].port)))
  }

  /** The connection as hydration reads it; of connections that it does not number the links are left out. */
  function ConnObject(c: Conn): W.ConnSpec
    requires Fits(c)
  {
    match c.shape
    case FabricShape(_, _, _) => W.ConnSpec(W.FabricConn, LinkObjects(c))
    case MeshShape(_, _, _) => W.ConnSpec(W.MeshConn, LinkObjects(c))
    case GatewayShape(_, g, k) =>
      W.ConnSpec(W.GatewayConn, [W.Link(EndAt(DeviceName(c.ports[0].device), c.ports[0].port), EndAt(GatewayName(g), k))])
    case _ => W.ConnSpec(W.OtherConn, [])
  }

  ghost predicate Injective(name: Shape -> Name) {
    forall x, y {:trigger name(x), name(y)} :: name(x) == name(y) ==> x == y
  }

  predicate IsObject(o: W.Conn, c: Conn, name: Shape -> Name) {
    Fits(c) && o == Object(name(NameOf(c.shape)), ConnObject(c))
  }

  /** The switches, gateways and connections of the wiring are what a run with these settings leaves behind. */
  ghost predicate Generated(p: Params, w: W.Wiring, conns: seq<Conn>, name: Shape -> Name) {
    && GroupsOk(p.groups) && Shapes(conns) == AllShapes(p)
    && w.switches == AllSwitches(p) && w.gateways == AllGateways(p.gateways, p.uplinks)
    && Injective(name) && |w.conns| == |conns| && forall i :: 0 <= i < |conns| ==> IsObject(w.conns[i], conns[i], name)
  }

  function ConnObjects(conns: seq<Conn>, name: Shape -> Name): (r: seq<W.Conn>)
    requires AllFit(conns)
    ensures |r| == |conns| && forall i {:trigger r[i]} :: 0 <= i < |conns| ==> IsObject(r[i], conns[i], name)
  {
    seq(|conns|, i requires 0 <= i < |conns| => Object(name(NameOf(conns[i].shape)), ConnObject(conns[i])))
  }

  /** What a run of the builder leaves behind, with any hosts and any naming that keeps different connections apart. */
  lemma {:induction false} RunGenerates(b: Builder, p: Params, controls: seq<W.Host>, nodes: seq<W.Host>, name: Shape -> Name)
    requires b.Valid() && b.Holds(p) && Injective(name)
    ensures Generated(p, W.Wiring(controls, nodes, b.switches, ConnObjects(b.conns, name), b.gateways), b.conns, name)
  {
    hide IsObject, AllShapes, AllSwitches, AllGateways, Shapes, Injective;
    var objects := ConnObjects(b.conns, name);
    forall i | 0 <= i < |b.conns|
      ensures IsObject(objects[i], b.conns[i], name)
    {
    }
  }

  // ---- Names ---------------------------------------------------------------------------------------------------

  predicate IsLeafObject(s: W.Switch, index: nat) {
    s.name == DeviceName(Leaf(index + 1)) && s.spec.role == W.ServerLeaf && !s.spec.red.MCLAG? && s.spec.vtep == Unset
  }

  lemma {:induction false} GroupedAt(p: Params, n: nat)
    requires NoOverflow(p) && n <= |p.groups|
    ensures |GroupedSwitches(p, n)| == GroupLeaves(p.groups, n)
    ensures forall i :: 0 <= i < GroupLeaves(p.groups, n) ==> IsLeafObject(GroupedSwitches(p, n)[i], i)
  {
    if n > 0 {
      GroupedAt(p, n - 1);
      var before, own := GroupedSwitches(p, n - 1), GroupSwitches(p, n - 1, p.groups[n - 1]);
      LeavesGrow(p.groups, n, |p.groups|);
      forall i | 0 <= i < GroupLeaves(p.groups, n)
        ensures IsLeafObject((before + own)[i], i)
      {
        if i < |before| {
          assert IsLeafObject(before[i], i);
        } else {
          CountsUp(i);
        }
      }
    }
  }

  /** Leaves first, each with the number that follows its index, then the spines. */
  lemma {:induction false} SwitchAt(p: Params, i: nat)
    requires NoOverflow(p) && i < Leaves(p) + p.spines
    ensures |AllSwitches(p)| == Leaves(p) + p.spines
    ensures if i < Leaves(p) then IsLeafObject(AllSwitches(p)[i], i) else AllSwitches(p)[i] == SpineObject(i - Leaves(p) + 1)
  {
    hide GroupedSwitches, IsLeafObject;
    Counts8(p);
    GroupedAt(p, |p.groups|);
    if Grouped(p) <= i < Leaves(p) {
      CountsUp(i);
      LeafObjectIs(i);
    }
  }

  lemma {:induction false} LeafObjectIs(index: nat)
    ensures IsLeafObject(LeafObject(index + 1, None), index)
  {
  }

  lemma {:induction false} SwitchesDistinct(p: Params)
    requires NoOverflow(p)
    ensures DistinctNames(AllSwitches(p)) && |AllSwitches(p)| == Leaves(p) + p.spines
  {
    hide AllSwitches, NoOverflow, Leaves;
    var l := AllSwitches(p);
    SwitchTotal(p);
    forall i, j | 0 <= i < j < |l|
      ensures l[i].name != l[j].name
    {
      SwitchAt(p, i);
      SwitchAt(p, j);
    }
    DistinctPairs(l, |l|);
  }

  lemma {:induction false} SwitchTotal(p: Params)
    requires NoOverflow(p)
    ensures |AllSwitches(p)| == Leaves(p) + p.spines
  {
    Counts8(p);
    GroupedAt(p, |p.groups|);
  }

  lemma {:induction false} GatewaysDistinct(p: Params)
    ensures DistinctNames(AllGateways(p.gateways, p.uplinks))
  {
    var l := AllGateways(p.gateways, p.uplinks);
    DistinctPairs(l, |l|);
  }

  lemma {:induction false} ConnsDistinct(p: Params, w: W.Wiring, conns: seq<Conn>, name: Shape -> Name)
    requires Generated(p, w, conns, name) && NamesDistinct(AllShapes(p))
    ensures DistinctNames(w.conns)
  {
    hide NameOf, ConnObject, Fits, AllShapes, AllSwitches, AllGateways;
    forall i, j | 0 <= i < j < |w.conns|
      ensures w.conns[i].name != w.conns[j].name
    {
      assert IsObject(w.conns[i], conns[i], name) && IsObject(w.conns[j], conns[j], name);
      assert Shapes(conns)[i] == conns[i].shape && Shapes(conns)[j] == conns[j].shape;
    }
    DistinctPairs(w.conns, |w.conns|);
  }

  /** The object store accepts everything that is built: no object has the name of another of its kind. */
  lemma {:induction false} GeneratedDistinct(settings: Params, p: Params, w: W.Wiring, conns: seq<Conn>, name: Shape -> Name)
    requires Prepared(settings) == Some(p) && NoOverflow(p) && Generated(p, w, conns, name)
    ensures DistinctNames(w.switches) && DistinctNames(w.gateways) && DistinctNames(w.conns)
  {
    hide Prepared, NoOverflow, Acceptable, AllShapes, NamesDistinct, AllSwitches, AllGateways;
    PreparedOk(settings);
    SwitchesDistinct(p);
    GatewaysDistinct(p);
    AllNamesDistinct(p);
    ConnsDistinct(p, w, conns, name);
  }

  // ---- Lookups ------------------------------------------------------------------------------------------------------

  lemma {:induction false} UplinkNamed(p: Params, k: nat)
    requires NoOverflow(p) && 1 <= k <= if p.meshLinks > 0 then Leaves(p) else p.spines
    ensures HydrationFits.Named(AllSwitches(p), DeviceName(UplinkOf(p, k)))
  {
    var i := if p.meshLinks > 0 then k - 1 else Leaves(p) + k - 1;
    SwitchAt(p, i);
    assert AllSwitches(p)[i].name == DeviceName(UplinkOf(p, k));
  }

  lemma {:induction false} GatewayFound(p: Params, g: nat)
    requires g < p.gateways
    ensures Find(AllGateways(p.gateways, p.uplinks), GatewayName(g)) == Some(g)
  {
    GatewaysDistinct(p);
    FindUnique(AllGateways(p.gateways, p.uplinks), g);
  }

  /** Hydration's lookups of gateways, interfaces and switches cannot fail on what the builder generates. */
  lemma {:induction false} BuiltLinksKnown(settings: Params, p: Params, w: W.Wiring, conns: seq<Conn>, name: Shape -> Name)
    requires Prepared(settings) == Some(p) && NoOverflow(p) && Generated(p, w, conns, name)
    ensures HydrationFits.ConnsKnown(w, w.conns)
  {
    hide Prepared, NoOverflow, AllShapes, AllSwitches, AllGateways, Injective;
    forall i | 0 <= i < |w.conns|
      ensures HydrationFits.ConnKnown(w, w.conns[i])
    {
      var x := conns[i].shape;
      assert IsObject(w.conns[i], conns[i], name);
      if x.GatewayShape? {
        assert Shapes(conns)[i] == x;
        OneUplink(settings, p, x);
        UplinkNamed(p, x.port);
        GatewayFound(p, x.gateway);
      }
    }
  }

  lemma {:induction false} OneUplink(settings: Params, p: Params, x: Shape)
    requires Prepared(settings) == Some(p) && NoOverflow(p) && x.GatewayShape? && x in AllShapes(p)
    ensures x.gateway < p.gateways && 1 <= x.port <= p.uplinks && x.device == UplinkOf(p, x.port)
    ensures x.port <= if p.meshLinks > 0 then Leaves(p) else p.spines
  {
    hide AllShapes, Prepared;
    UplinksExact(settings, p, x);
    assert x in multiset(AllShapes(p));
    PreparedOk(settings);
    Counts8(p);
  }

  // ---- How many links there are ------------------------------------------------------------------------------

  /** How many links of a connection hydration numbers. */
  function LinksOf(x: Shape): nat {
    if x.FabricShape? || x.MeshShape? || x.GatewayShape? then LinksIn(x) else 0
  }

  function LinkTotal(l: seq<Shape>, n: nat): nat
    requires n <= |l|
  {
    if n == 0 then 0 else LinkTotal(l, n - 1) + LinksOf(l[n - 1])
  }

  lemma {:induction false} TotalConcat(a: seq<Shape>, b: seq<Shape>, n: nat)
    requires n <= |b|
    ensures LinkTotal(a + b, |a| + n) == LinkTotal(a, |a|) + LinkTotal(b, n)
  {
    if n > 0 {
      TotalConcat(a, b, n - 1);
    } else {
      TotalPrefix(a, b, |a|);
    }
  }

  lemma {:induction false} TotalPrefix(a: seq<Shape>, b: seq<Shape>, n: nat)
    requires n <= |a|
    ensures LinkTotal(a + b, n) == LinkTotal(a, n)
  {
    if n > 0 {
      TotalPrefix(a, b, n - 1);
    }
  }

  function Total(l: seq<Shape>): nat {
    LinkTotal(l, |l|)
  }

  lemma {:induction false} TotalAppend(a: seq<Shape>, b: seq<Shape>)
    ensures Total(a + b) == Total(a) + Total(b)
  {
    TotalConcat(a, b, |b|);
    assert |a + b| == |a| + |b|;
  }

  lemma {:induction false} TotalOne(x: Shape)
    ensures Total([x]) == LinksOf(x)
  {
    assert LinkTotal([x], 1) == LinkTotal([x], 0) + LinksOf([x][0]);
  }

  lemma {:induction false} LeafShapesTotal(spine: nat, leaves: nat, links: nat)
    ensures Total(LeafShapes(spine, leaves, links)) == leaves * links
  {
    if leaves > 0 {
      LeafShapesTotal(spine, leaves - 1, links);
      TotalAppend(LeafShapes(spine, leaves - 1, links), [FabricShape(spine, leaves, links)]);
      TotalOne(FabricShape(spine, leaves, links));
      assert leaves * links == (leaves - 1) * links + links;
    }
  }

  lemma {:induction false} GatewayRowTotal(device: Device, gateways: nat, port: nat)
    ensures Total(GatewayRow(device, gateways, port)) == gateways
  {
    if gateways > 0 {
      GatewayRowTotal(device, gateways - 1, port);
      TotalAppend(GatewayRow(device, gateways - 1, port), [GatewayShape(device, gateways - 1, port)]);
      TotalOne(GatewayShape(device, gateways - 1, port));
    }
  }

  lemma {:induction false} SpineRowTotal(spine: nat, leaves: nat, links: nat, gateways: nat, uplinks: nat)
    ensures Total(SpineRow(spine, leaves, links, gateways, uplinks)) == leaves * links + if spine <= uplinks then gateways else 0
  {
    var row := if spine <= uplinks then GatewayRow(Spine(spine), gateways, spine) else [];
    LeafShapesTotal(spine, leaves, links);
    GatewayRowTotal(Spine(spine), gateways, spine);
    TotalAppend(LeafShapes(spine, leaves, links), row);
    assert row == [] ==> Total(row) == 0;
  }

  lemma {:induction false} StepUp(n: nat, x: nat)
    requires n > 0
    ensures n * x == (n - 1) * x + x
  {
  }

  lemma {:induction false} TotalNone()
    ensures Total([]) == 0
  {
  }

  lemma {:induction false} LinksNumbered(o: W.Conn, c: Conn, name: Shape -> Name)
    requires IsObject(o, c, name)
    ensures |W.Addressed(o)| == LinksOf(c.shape)
  {
  }

  lemma {:induction false} CountsLinks(w: W.Wiring, conns: seq<Conn>, name: Shape -> Name, n: nat)
    requires n <= |conns| == |w.conns| && forall i :: 0 <= i < |conns| ==> IsObject(w.conns[i], conns[i], name)
    ensures W.LinkCount(w.conns, n) == LinkTotal(Shapes(conns), n)
  {
    hide IsObject, LinksOf;
    if n > 0 {
      CountsLinks(w, conns, name, n - 1);
      LinksNumbered(w.conns[n - 1], conns[n - 1], name);
      assert Shapes(conns)[n - 1] == conns[n - 1].shape;
    }
  }

  /** A spine-leaf fabric has the links of every spine to every leaf, and one for each gateway on each spine with uplinks. */
  lemma {:induction false} FabricTotal(spines: nat, leaves: nat, links: nat, gateways: nat, uplinks: nat)
    ensures Total(SpineShapes(spines, leaves, links, gateways, uplinks)) == spines * (leaves * links) + Least(spines, uplinks) * gateways
  {
    hide SpineRow, Total;
    if spines > 0 {
      FabricTotal(spines - 1, leaves, links, gateways, uplinks);
      SpineRowTotal(spines, leaves, links, gateways, uplinks);
      TotalAppend(SpineShapes(spines - 1, leaves, links, gateways, uplinks), SpineRow(spines, leaves, links, gateways, uplinks));
      StepUp(spines, leaves * links);
      if spines <= uplinks {
        StepUp(spines, gateways);
      }
    } else {
      TotalNone();
    }
  }

  /** The number of pairs of n leaves. */
  function Pairs(n: nat): (r: nat)
    ensures 2 * r == n * (n - 1)
  {
    if n == 0 then 0 else Pairs(n - 1) + n - 1
  }

  lemma {:induction false} MeshRowTotal(leaf: nat, upTo: nat, links: nat)
    requires leaf <= upTo
    ensures Total(MeshRow(leaf, upTo, links)) == (upTo - leaf) * links
  {
    if upTo > leaf {
      MeshRowTotal(leaf, upTo - 1, links);
      TotalAppend(MeshRow(leaf, upTo - 1, links), [MeshShape(leaf, upTo, links)]);
      TotalOne(MeshShape(leaf, upTo, links));
      StepUp(upTo - leaf, links);
    }
  }

  /** The pairs that have one of the first rows leaves. */
  function PairsFrom(rows: nat, leaves: nat): nat
    requires rows <= leaves
  {
    if rows == 0 then 0 else PairsFrom(rows - 1, leaves) + (leaves - rows)
  }

  lemma {:induction false} PairsFromAll(rows: nat, leaves: nat)
    requires rows <= leaves
    ensures PairsFrom(rows, leaves) + Pairs(leaves - rows) == Pairs(leaves)
  {
    hide Pairs;
    if rows > 0 {
      PairsFromAll(rows - 1, leaves);
      OneMorePair(leaves - rows);
    }
  }

  lemma {:induction false} OneMorePair(n: nat)
    ensures Pairs(n + 1) == Pairs(n) + n
  {
  }

  lemma {:induction false} MeshTotal(rows: nat, leaves: nat, links: nat)
    requires rows <= leaves
    ensures Total(MeshShapes(rows, leaves, links)) == PairsFrom(rows, leaves) * links
  {
    hide MeshRow, Total;
    if rows > 0 {
      MeshTotal(rows - 1, leaves, links);
      MeshRowTotal(rows, leaves, links);
      TotalAppend(MeshShapes(rows - 1, leaves, links), MeshRow(rows, leaves, links));
      assert PairsFrom(rows, leaves) * links == PairsFrom(rows - 1, leaves) * links + (leaves - rows) * links;
    } else {
      TotalNone();
    }
  }

  lemma {:induction false} MeshGatewaysTotal(leaves: nat, gateways: nat)
    ensures Total(MeshGateways(leaves, gateways)) == leaves * gateways
  {
    hide GatewayRow, Total;
    if leaves > 0 {
      MeshGatewaysTotal(leaves - 1, gateways);
      GatewayRowTotal(Leaf(leaves), gateways, leaves);
      TotalAppend(MeshGateways(leaves - 1, gateways), GatewayRow(Leaf(leaves), gateways, leaves));
      StepUp(leaves, gateways);
    } else {
      TotalNone();
    }
  }

  lemma {:induction false} ServingTotal(l: seq<Shape>, n: nat, s0: nat, s1: nat, l0: nat, l1: nat)
    requires n <= |l| && Block(l, s0, s1, l0, l1)
    ensures LinkTotal(l, n) == 0
  {
    if n > 0 {
      ServingTotal(l, n - 1, s0, s1, l0, l1);
      assert Serves(l[n - 1], s0, s1, l0, l1);
    }
  }

  /** The links between switches and to gateways. */
  function BuiltLinks(p: Params): nat {
    (if p.meshLinks == 0 then Times(p.spines, Times(Leaves(p), p.fabricLinks)) else Times(Pairs(Leaves(p)), p.meshLinks))
      + Times(p.uplinks, p.gateways)
  }

  lemma {:induction false} SwitchPartTotal(p: Params)
    requires NoOverflow(p) && TopologyLoad.OneFabric(p) && UplinksOk(p)
    ensures Total(SwitchPart(p)) == BuiltLinks(p)
  {
    hide Total, SpineShapes, MeshShapes, MeshGateways, Pairs, PairsFrom;
    Counts8(p);
    var n := Leaves(p);
    hide NoOverflow, Leaves, Leaves8;
    var fabric := SpineShapes(p.spines, n, p.fabricLinks, p.gateways, p.uplinks);
    FabricTotal(p.spines, n, p.fabricLinks, p.gateways, p.uplinks);
    if p.meshLinks > 0 {
      var mesh, links := MeshShapes(n, n, p.meshLinks), MeshGateways(Least(n, p.uplinks), p.gateways);
      MeshTotal(n, n, p.meshLinks);
      PairsFromAll(n, n);
      NoPairs();
      MeshGatewaysTotal(Least(n, p.uplinks), p.gateways);
      TotalAppend(mesh, links);
      TotalAppend(fabric, mesh + links);
    } else {
      assert SwitchPart(p) == fabric;
    }
  }

  lemma {:induction false} NoPairs()
    ensures Pairs(0) == 0
  {
  }

  /** The links hydration has to number are those of the closed form, whatever servers and externals are connected. */
  lemma {:induction false} BuiltLinkCount(settings: Params, p: Params, w: W.Wiring, conns: seq<Conn>, name: Shape -> Name)
    requires Prepared(settings) == Some(p) && NoOverflow(p) && Generated(p, w, conns, name)
    ensures W.LinkCount(w.conns, |w.conns|) == BuiltLinks(p)
  {
    hide Prepared, NoOverflow, ServerPart, SwitchPart, AllSwitches, AllGateways, Injective, BuiltLinks, IsObject;
    PreparedOk(settings);
    CountsLinks(w, conns, name, |conns|);
    ServerPartBlock(p);
    ServingTotal(ServerPart(p), |ServerPart(p)|, 0, Servers(p), 0, Leaves(p));
    TotalAppend(ServerPart(p), SwitchPart(p));
    SwitchPartTotal(p);
  }

  // ---- Pools --------------------------------------------------------------------------------------------------------

  lemma {:induction false} OwnersAre(sws: seq<W.Switch>, leaves: nat, n: nat)
    requires n <= |sws| && forall i :: 0 <= i < |sws| ==> !sws[i].spec.red.MCLAG? && (W.IsLeaf(sws[i]) <==> i < leaves)
    ensures Allocator.Owners(sws, n) == Least(n, leaves)
  {
    if n > 0 {
      OwnersAre(sws, leaves, n - 1);
    }
  }

  lemma {:induction false} BuiltRoles(p: Params)
    requires NoOverflow(p)
    ensures forall i :: 0 <= i < |AllSwitches(p)| ==>
      && !AllSwitches(p)[i].spec.red.MCLAG? && AllSwitches(p)[i].spec.vtep == Unset
      && AllSwitches(p)[i].spec.role == if i < Leaves(p) then W.ServerLeaf else W.Spine
  {
    hide AllSwitches, NoOverflow, Leaves;
    SwitchTotal(p);
    forall i | 0 <= i < |AllSwitches(p)|
      ensures !AllSwitches(p)[i].spec.red.MCLAG? && AllSwitches(p)[i].spec.vtep == Unset
      ensures AllSwitches(p)[i].spec.role == if i < Leaves(p) then W.ServerLeaf else W.Spine
    {
      SwitchAt(p, i);
    }
  }

  /** Each leaf takes an ASN and a VTEP address of its own. */
  lemma {:induction false} BuiltOwners(p: Params, w: W.Wiring)
    requires NoOverflow(p) && w.switches == AllSwitches(p) && Allocator.Valid(w)
    ensures HydrationFits.OwnerCount(w) == Leaves(p)
    ensures LeafLed(Sorting.Sort(w.switches, Allocator.SwitchRank))
  {
    hide AllSwitches, NoOverflow, Leaves, OwnerCounting.StandaloneUpTo, OwnerCounting.GroupsUpTo, DistinctNames, LeafLed;
    BuiltRoles(p);
    SwitchTotal(p);
    OwnersAre(w.switches, Leaves(p), |w.switches|);
    OwnerCounting.OwnersSorted(w.switches, |w.switches|);
    OwnerCounting.OwnersCounted(w);
  }

  lemma {:induction false} BuiltSpines(f: W.FabConfig, p: Params, w: W.Wiring)
    requires NoOverflow(p) && w.switches == AllSwitches(p)
    ensures SpinesFit(f, Sorting.Sort(w.switches, Allocator.SwitchRank)) <==> (p.spines > 0 ==> f.spineASN > 0)
    ensures Allocator.RolesValid(w.switches)
  {
    hide AllSwitches, NoOverflow, Leaves;
    BuiltRoles(p);
    SwitchTotal(p);
    var sorted := Sorting.Sort(w.switches, Allocator.SwitchRank);
    Sorting.SameMembers(sorted, w.switches);
    if p.spines > 0 && SpinesFit(f, sorted) {
      var s := w.switches[Leaves(p)];
      assert s in sorted;
      var i :| 0 <= i < |sorted| && sorted[i] == s;
    }
    forall i | 0 <= i < |sorted|
      ensures sorted[i].spec.vtep == Unset && (sorted[i].spec.role == W.Spine ==> p.spines > 0)
    {
      var j :| 0 <= j < |w.switches| && w.switches[j] == sorted[i];
    }
  }

  /** What hydrating a generated topology with this many hosts takes of the configuration. */
  predicate Enough(f: W.FabConfig, p: Params, hosts: nat) {
    && Checker.ConfigOk(f)
    && V4(f.vip) == Next(V4(Masked(f.mgmt)))
    && (p.spines > 0 ==> f.spineASN > 0)
    && (p.gateways > 0 ==> f.gatewayASN > 0)
    && FitHosts.MgmtFits(f, hosts + Leaves(p) + p.spines)
    && FitHosts.DummyFits(f, hosts)
    && Leaves(p) + p.spines + p.gateways <= Size(f.protocol)
    && Leaves(p) + p.gateways <= Size(f.vtep)
    && AsnFits(f, Leaves(p))
    && FitLinks.LinksFit(f, BuiltLinks(p))
    && p.gateways <= Allocator.MAX_VTEP_MACS
  }

  lemma {:induction false} SomeLeaf(settings: Params)
    requires Prepared(settings).Some?
    ensures Prepared(settings).value.orphans > 0 || |Prepared(settings).value.groups| > 0
  {
  }

  lemma {:induction false} NotEmpty(settings: Params, p: Params, w: W.Wiring)
    requires Prepared(settings) == Some(p) && NoOverflow(p) && w.switches == AllSwitches(p)
    ensures !Checker.Empty(w)
  {
    hide AllSwitches, Prepared;
    SomeLeaf(settings);
    SwitchTotal(p);
    TwoInAGroup(p.groups, |p.groups|);
  }

  lemma {:induction false} FitsEnough(f: W.FabConfig, p: Params, w: W.Wiring)
    requires HydrationFits.ConnsKnown(w, w.conns) && Allocator.RolesValid(w.switches)
    requires LeafLed(Sorting.Sort(w.switches, Allocator.SwitchRank))
    requires SpinesFit(f, Sorting.Sort(w.switches, Allocator.SwitchRank)) <==> (p.spines > 0 ==> f.spineASN > 0)
    requires HydrationFits.OwnerCount(w) == Leaves(p) && W.LinkCount(w.conns, |w.conns|) == BuiltLinks(p)
    requires |w.switches| == Leaves(p) + p.spines && |w.gateways| == p.gateways && !Checker.Empty(w)
    ensures HydrationFits.Fits(f, w) <==> Enough(f, p, |w.controls| + |w.nodes|)
  {
    hide BuiltLinks, Leaves, Allocator.RolesValid, SpinesFit, LeafLed, HydrationFits.ConnsKnown, Checker.Empty, HydrationFits.OwnerCount;
    hide FitHosts.MgmtFits, FitHosts.DummyFits, AsnFits, FitLinks.LinksFit, Checker.ConfigOk, Allocator.SwitchRank, W.LinkCount;
  }

  /** From settings to hydration: on a generated topology a run succeeds and the checker answers Full iff the pools are enough. */
  lemma {:induction false} BuiltHydrates(f: W.FabConfig, settings: Params, p: Params, w: W.Wiring, conns: seq<Conn>, name: Shape -> Name)
    requires Prepared(settings) == Some(p) && NoOverflow(p) && Generated(p, w, conns, name) && DistinctNames(w.controls)
    ensures Allocator.Valid(w)
    ensures Allocator.Hydratable(f, w) && Checker.Check(f, Allocator.Hydrated(f, w)) == Checker.Ok(Checker.Full) <==>
      Enough(f, p, |w.controls| + |w.nodes|)
  {
    hide Prepared, NoOverflow, AllShapes, AllSwitches, DistinctNames, Injective, BuiltLinks, Leaves, Allocator.Hydratable, Checker.Check;
    hide SpinesFit, LeafLed, Allocator.RolesValid, HydrationFits.ConnsKnown, Checker.Empty, HydrationFits.OwnerCount;
    hide Enough, HydrationFits.Fits, Allocator.Hydrated, W.LinkCount, GroupsOk, IsObject, Shapes, HydrationFits.WellFormed, HydrationFits.PoolsFit;
    GeneratedDistinct(settings, p, w, conns, name);
    BuiltLinksKnown(settings, p, w, conns, name);
    BuiltLinkCount(settings, p, w, conns, name);
    BuiltOwners(p, w);
    BuiltSpines(f, p, w);
    SwitchTotal(p);
    NotEmpty(settings, p, w);
    FitsEnough(f, p, w);
    HydrationFits.AllocatorMeetsChecker(f, w);
  }
}
