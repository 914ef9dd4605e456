/**
  * The loops that generate a topology, taking ports as they go: gateways, groups, orphans, multihomed servers, spines, mesh
  * and gateway links, one after the other.
  */
module TopologyBuilder {
  import opened Store
  import opened Net
  import opened VlabPorts
  import opened Topology
  import opened TopologyNames
  import opened TopologyLoad
  import W = WiringModel

  // ---- Objects ---------------------------------------------------------------------------------------------

  /** Object names of switches and servers. */
  function DeviceName(d: Device): Name {
    match d
    case Spine(i) => 4 * i
    case Leaf(i) => 4 * i + 1
    case Server(i) => 4 * i + 2
  }

  /** Gateways are numbered in the order of their names. */
  function GatewayName(g: nat): Name {
    4 * g + 3
  }

  function LeafObject(id: nat, group: Option<nat>): W.Switch {
    Object(DeviceName(Leaf(id)), W.SwitchSpec(W.ServerLeaf, if group.Some? then W.ESLAG(group.value) else W.NoRedundancy, Unset, Unset, 0, Unset))
  }

  function SpineObject(id: nat): W.Switch {
    Object(DeviceName(Spine(id)), W.SwitchSpec(W.Spine, W.NoRedundancy, Unset, Unset, 0, Unset))
  }

  /** The interfaces of a gateway, one for each uplink. */
  function Interfaces(uplinks: nat): (r: map<Name, W.Interface>)
    ensures forall k: Name :: k in r <==> 1 <= k <= uplinks
  {
    if uplinks == 0 then map[] else Interfaces(uplinks - 1)[uplinks := W.Interface(uplinks, [], 0)]
  }

  function GatewayObject(g: nat, interfaces: map<Name, W.Interface>): W.Gateway {
    Object(GatewayName(g), W.GatewaySpec(0, Unset, Unset, 0, 0, interfaces, []))
  }

  function AllGateways(gateways: nat, uplinks: nat): (r: seq<W.Gateway>)
    ensures |r| == gateways && forall g {:trigger r[g]} :: 0 <= g < gateways ==> r[g] == GatewayObject(g, Interfaces(uplinks))
  {
    if gateways == 0 then [] else AllGateways(gateways - 1, uplinks) + [GatewayObject(gateways - 1, Interfaces(uplinks))]
  }

  /** The first n leaves of a group. */
  function GroupSwitches(p: Params, g: nat, n: nat): (r: seq<W.Switch>)
    requires g < |p.groups|
    ensures |r| == n && forall k {:trigger r[k]} :: 0 <= k < n ==> r[k] == LeafObject(Id(GroupLeaves(p.groups, g) + k), Some(g))
  {
    if n == 0 then [] else GroupSwitches(p, g, n - 1) + [LeafObject(Id(GroupLeaves(p.groups, g) + n - 1), Some(g))]
  }

  function GroupedSwitches(p: Params, n: nat): (r: seq<W.Switch>)
    requires n <= |p.groups|
  {
    if n == 0 then [] else GroupedSwitches(p, n - 1) + GroupSwitches(p, n - 1, p.groups[n - 1])
  }

  function OrphanSwitches(p: Params, n: nat): (r: seq<W.Switch>)
    ensures |r| == n && forall o {:trigger r[o]} :: 0 <= o < n ==> r[o] == LeafObject(Id(Grouped(p) + o), None)
  {
    if n == 0 then [] else OrphanSwitches(p, n - 1) + [LeafObject(Id(Grouped(p) + n - 1), None)]
  }

  function SpineSwitches(n: nat): (r: seq<W.Switch>)
    ensures |r| == n && forall s {:trigger r[s]} :: 0 <= s < n ==> r[s] == SpineObject(s + 1)
  {
    if n == 0 then [] else SpineSwitches(n - 1) + [SpineObject(n)]
  }

  function AllSwitches(p: Params): seq<W.Switch> {
    GroupedSwitches(p, GroupsBuilt(p)) + OrphanSwitches(p, p.orphans) + SpineSwitches(p.spines)
  }

  // ---- Connections and their ports ---------------------------------------------------------------------------

  /** A connection with the ports it takes, in the order they are taken. */
  datatype Conn = Conn(shape: Shape, ports: seq<Handed>)

  function Shapes(conns: seq<Conn>): (r: seq<Shape>)
    ensures |r| == |conns| && forall i {:trigger r[i]} :: 0 <= i < |conns| ==> r[i] == conns[i].shape
  {
    seq(|conns|, i requires 0 <= i < |conns| => conns[i].shape)
  }

  /** All ports of the first n connections, in order. */
  function PortsOf(conns: seq<Conn>, n: nat): seq<Handed>
    requires n <= |conns|
  {
    if n == 0 then [] else PortsOf(conns, n - 1) + conns[n - 1].ports
  }

  lemma {:induction false} PortsPrefix(a: seq<Conn>, b: seq<Conn>, n: nat)
    requires n <= |a|
    ensures PortsOf(a + b, n) == PortsOf(a, n)
  {
    if n > 0 {
      PortsPrefix(a, b, n - 1);
    }
  }

  lemma {:induction false} OneMore(conns: seq<Conn>, c: Conn)
    ensures PortsOf(conns + [c], |conns| + 1) == PortsOf(conns, |conns|) + c.ports
    ensures Shapes(conns + [c]) == Shapes(conns) + [c.shape]
  {
    PortsPrefix(conns, [c], |conns|);
    assert Shapes(conns + [c]) == Shapes(conns) + [c.shape];
  }

  /** The k-th link of a connection of pairs has a port of each of its two devices. */
  predicate LinkPorts(x: Shape, ports: seq<Handed>, k: nat)
    requires Paired(x) && k < LinksIn(x)
  {
    2 * k + 1 < |ports| && ports[2 * k].device == Near(x) && ports[2 * k + 1].device == Far(x, k)
  }

  /** The connection has the ports of the devices its shape says. */
  predicate Fits(c: Conn) {
    if Paired(c.shape) then
      |c.ports| == 2 * LinksIn(c.shape) && forall k :: 0 <= k < LinksIn(c.shape) ==> LinkPorts(c.shape, c.ports, k)
    else
      |c.ports| == 1 && c.ports[0].device == Near(c.shape)
  }

  predicate AllFit(conns: seq<Conn>) {
    forall i :: 0 <= i < |conns| ==> Fits(conns[i])
  }

  lemma {:induction false} CallsConcat(a: seq<Handed>, b: seq<Handed>, n: nat, d: Device)
    requires n <= |b|
    ensures CallsIn(a + b, |a| + n, d) == CallsIn(a, |a|, d) + CallsIn(b, n, d)
  {
    if n > 0 {
      CallsConcat(a, b, n - 1, d);
    } else {
      CallsPrefix(a, b, |a|, d);
    }
  }

  /** How many of the first k links end at a device. */
  function Ends(x: Shape, k: nat, d: Device): nat
    requires Paired(x) && k <= LinksIn(x)
  {
    if k == 0 then 0 else Ends(x, k - 1, d) + Once(Far(x, k - 1) == d)
  }

  lemma {:induction false} PairsTake(x: Shape, ports: seq<Handed>, k: nat, d: Device)
    requires Paired(x) && k <= LinksIn(x) && 2 * k <= |ports|
    requires forall i :: 0 <= i < k ==> LinkPorts(x, ports, i)
    ensures CallsIn(ports, 2 * k, d) == (if d == Near(x) then k else 0) + Ends(x, k, d)
  {
    if k > 0 {
      PairsTake(x, ports, k - 1, d);
      assert LinkPorts(x, ports, k - 1);
      assert CallsIn(ports, 2 * k - 1, d) == CallsIn(ports, 2 * k - 2, d) + Once(ports[2 * k - 2].device == d);
    }
  }

  lemma {:induction false} EndsCounted(x: Shape, k: nat, d: Device)
    requires Paired(x) && k <= LinksIn(x)
    ensures Ends(x, k, d) ==
      if !d.Leaf? then 0 else if x.ESLAGShape? then multiset(x.leaves[..k])[d.id] else if k > 0 && d == Far(x, 0) then k else 0
  {
    if k > 0 {
      EndsCounted(x, k - 1, d);
      if x.ESLAGShape? {
        assert x.leaves[..k] == x.leaves[..k - 1] + [x.leaves[k - 1]];
      }
    }
  }

  /** A connection takes as many ports of a device as its shape says. */
  lemma {:induction false} FitTakes(c: Conn, d: Device)
    requires Fits(c)
    ensures CallsIn(c.ports, |c.ports|, d) == Takes(c.shape, d)
  {
    var x := c.shape;
    if Paired(x) {
      PairsTake(x, c.ports, LinksIn(x), d);
      EndsCounted(x, LinksIn(x), d);
      if x.ESLAGShape? {
        assert x.leaves[..|x.leaves|] == x.leaves;
      }
    } else {
      assert CallsIn(c.ports, 1, d) == CallsIn(c.ports, 0, d) + Once(c.ports[0].device == d);
    }
  }

  /** The ports taken are those the shapes say. */
  lemma {:induction false} CallsAreTaken(conns: seq<Conn>, n: nat, d: Device)
    requires AllFit(conns) && n <= |conns|
    ensures CallsIn(PortsOf(conns, n), |PortsOf(conns, n)|, d) == TakenUpTo(Shapes(conns), n, d)
  {
    hide Fits, Takes;
    if n > 0 {
      CallsAreTaken(conns, n - 1, d);
      FitTakes(conns[n - 1], d);
      CallsConcat(PortsOf(conns, n - 1), conns[n - 1].ports, |conns[n - 1].ports|, d);
      assert Shapes(conns)[n - 1] == conns[n - 1].shape;
    }
  }

  lemma {:induction false} OneMoreLink(x: Shape, ports: seq<Handed>, k: nat, near: nat, far: nat)
    requires Paired(x) && k < LinksIn(x) && |ports| == 2 * k && forall i :: 0 <= i < k ==> LinkPorts(x, ports, i)
    ensures var now := ports + [Handed(Near(x), near)] + [Handed(Far(x, k), far)];
      |now| == 2 * (k + 1) && forall i :: 0 <= i < k + 1 ==> LinkPorts(x, now, i)
  {
    var now := ports + [Handed(Near(x), near)] + [Handed(Far(x, k), far)];
    forall i | 0 <= i < k + 1
      ensures LinkPorts(x, now, i)
    {
      assert i < k ==> LinkPorts(x, ports, i);
    }
  }

  lemma {:induction false} MoreIds(first: nat, a: nat, b: nat)
    ensures LeafIds(first, a + b) == LeafIds(first, a) + LeafIds(first + a, b)
  {
  }

  // ---- The builder -----------------------------------------------------------------------------------------------

  /** Every loop from one up to and including an 8-bit bound ends. */
  predicate Terminates(p: Params) {
    p.spines < 255 && p.orphans < 255 && Leaves8(p) < 255
  }

  datatype Outcome = Built | Refused | Panicked

  class Builder {
    const tracker: PortTracker
    var conns: seq<Conn>
    var switches: seq<W.Switch>
    var gateways: seq<W.Gateway>

    constructor ()
      ensures Valid() && conns == [] && switches == [] && gateways == [] && fresh(tracker)
    {
      tracker := new PortTracker();
      conns, switches, gateways := [], [], [];
    }

    /** The connections account for every port handed out. */
    ghost predicate Valid()
      reads this`conns, tracker
    {
      tracker.Valid() && PortsOf(conns, |conns|) == tracker.log && AllFit(conns)
    }

    /** A connection of several links between two switches. */
    method ConnectSwitches(x: Shape)
      requires Valid() && (x.FabricShape? || x.MeshShape?)
      modifies this`conns, tracker
      ensures Valid() && Shapes(conns) == Shapes(old(conns)) + [x]
    {
      hide CallsIn, PortsOf, Shapes;
      ghost var before := tracker.log;
      var ports: seq<Handed> := [];
      assert before + [] == before;
      for k := 0 to LinksIn(x)
        invariant tracker.Valid() && tracker.log == before + ports && conns == old(conns)
        invariant |ports| == 2 * k && forall i :: 0 <= i < k ==> LinkPorts(x, ports, i)
      {
        var near, _ := tracker.NextSwitchPort(Near(x));
        var far, _ := tracker.NextSwitchPort(Far(x, k));
        OneMoreLink(x, ports, k, near, far);
        assert before + ports + [Handed(Near(x), near)] + [Handed(Far(x, k), far)] == before + (ports + [Handed(Near(x), near)] + [Handed(Far(x, k), far)]);
        ports := ports + [Handed(Near(x), near)] + [Handed(Far(x, k), far)];
      }
      OneMore(conns, Conn(x, ports));
      conns := conns + [Conn(x, ports)];
    }

    /** A connection of a server, with one link or more. */
    method ConnectServer(x: Shape)
      requires Valid() && (x.ESLAGShape? || x.UnbundledShape? || x.BundledShape?)
      modifies this`conns, tracker
      ensures Valid() && Shapes(conns) == Shapes(old(conns)) + [x]
    {
      hide CallsIn, PortsOf, Shapes;
      ghost var before := tracker.log;
      var ports: seq<Handed> := [];
      assert before + [] == before;
      for k := 0 to LinksIn(x)
        invariant tracker.Valid() && tracker.log == before + ports && conns == old(conns)
        invariant |ports| == 2 * k && forall i :: 0 <= i < k ==> LinkPorts(x, ports, i)
      {
        var near := tracker.NextServerPort(Near(x));
        var far, _ := tracker.NextSwitchPort(Far(x, k));
        OneMoreLink(x, ports, k, near, far);
        assert before + ports + [Handed(Near(x), near)] + [Handed(Far(x, k), far)] == before + (ports + [Handed(Near(x), near)] + [Handed(Far(x, k), far)]);
        ports := ports + [Handed(Near(x), near)] + [Handed(Far(x, k), far)];
      }
      OneMore(conns, Conn(x, ports));
      conns := conns + [Conn(x, ports)];
    }

    /** A connection of a single switch port, to an external or a gateway. */
    method ConnectOne(x: Shape)
      requires Valid() && !Paired(x) && !Near(x).Server?
      modifies this`conns, tracker
      ensures Valid() && Shapes(conns) == Shapes(old(conns)) + [x]
    {
      hide CallsIn, PortsOf, Shapes;
      var port, _ := tracker.NextSwitchPort(Near(x));
      OneMore(conns, Conn(x, [Handed(Near(x), port)]));
      conns := conns + [Conn(x, [Handed(Near(x), port)])];
    }

    // ---- Gateways ----

    /** The gateway loop, with its loop over interfaces. */
    method BuildGateways(count: nat, uplinks: U8)
      requires count > 0 ==> uplinks < 255
      modifies this`gateways
      ensures gateways == old(gateways) + AllGateways(count, uplinks)
    {
      hide Interfaces;
      assert gateways + [] == gateways;
      for g := 0 to count
        invariant gateways == old(gateways) + AllGateways(g, uplinks)
      {
        var interfaces := MakeInterfaces(uplinks);
        assert old(gateways) + AllGateways(g, uplinks) + [GatewayObject(g, interfaces)] == old(gateways) + AllGateways(g + 1, uplinks);
        gateways := gateways + [GatewayObject(g, interfaces)];
      }
    }

    static method MakeInterfaces(uplinks: U8) returns (interfaces: map<Name, W.Interface>)
      requires uplinks < 255
      ensures interfaces == Interfaces(uplinks)
    {
      interfaces := map[];
      var i: U8 := 1;
      while i <= uplinks
        invariant 1 <= i <= uplinks + 1
        invariant interfaces == Interfaces(i - 1)
        decreases uplinks + 1 - i
      {
        interfaces := interfaces[i := W.Interface(i, [], 0)];
        i := Wrap(i + 1);
      }
    }

    // ---- Servers ----

    method BuildESLAG(leaves: seq<nat>, count: U8, serverID: U8, ghost first: nat) returns (next: U8)
      requires Valid() && serverID == Id(first)
      modifies this`conns, tracker
      ensures Valid() && Shapes(conns) == Shapes(old(conns)) + ESLAGServers(leaves, first, count) && next == Id(first + count)
    {
      hide PortsOf, Shapes, Valid;
      ghost var before := Shapes(conns);
      assert before + [] == before;
      next := serverID;
      for i := 0 to count
        invariant Valid() && next == Id(first + i) && Shapes(conns) == before + ESLAGServers(leaves, first, i)
      {
        assert before + ESLAGServers(leaves, first, i) + [ESLAGShape(next, leaves)] == before + ESLAGServers(leaves, first, i + 1);
        ConnectServer(ESLAGShape(next, leaves));
        next := Wrap(next + 1);
      }
    }

    method BuildUnbundled(leaf: nat, count: U8, serverID: U8, ghost first: nat) returns (next: U8)
      requires Valid() && serverID == Id(first)
      modifies this`conns, tracker
      ensures Valid() && Shapes(conns) == Shapes(old(conns)) + UnbundledServers(leaf, first, count) && next == Id(first + count)
    {
      hide PortsOf, Shapes, Valid;
      ghost var before := Shapes(conns);
      assert before + [] == before;
      next := serverID;
      for i := 0 to count
        invariant Valid() && next == Id(first + i) && Shapes(conns) == before + UnbundledServers(leaf, first, i)
      {
        assert before + UnbundledServers(leaf, first, i) + [UnbundledShape(next, leaf)] == before + UnbundledServers(leaf, first, i + 1);
        ConnectServer(UnbundledShape(next, leaf));
        next := Wrap(next + 1);
      }
    }

    method BuildBundled(leaf: nat, count: U8, serverID: U8, ghost first: nat) returns (next: U8)
      requires Valid() && serverID == Id(first)
      modifies this`conns, tracker
      ensures Valid() && Shapes(conns) == Shapes(old(conns)) + BundledServers(leaf, first, count) && next == Id(first + count)
    {
      hide PortsOf, Shapes, Valid;
      ghost var before := Shapes(conns);
      assert before + [] == before;
      next := serverID;
      for i := 0 to count
        invariant Valid() && next == Id(first + i) && Shapes(conns) == before + BundledServers(leaf, first, i)
      {
        assert before + BundledServers(leaf, first, i) + [BundledShape(next, leaf)] == before + BundledServers(leaf, first, i + 1);
        ConnectServer(BundledShape(next, leaf));
        next := Wrap(next + 1);
      }
    }

    // ---- Groups ----

    /** The leaves of a group, with the external connections that are left to make; homes are the candidates for multihomed servers. */
    method BuildGroupLeaves(p: Params, g: nat, leafID: U8, ext: U8, homes: seq<nat>)
      returns (names: seq<nat>, ext': U8, homes': seq<nat>)
      requires Valid() && g < |p.groups| && p.groups[g] <= 4
      requires leafID == Id(GroupLeaves(p.groups, g)) && ext == Least(GroupLeaves(p.groups, g), p.extEslag)
      modifies this`conns, this`switches, tracker
      ensures Valid() && Shapes(conns) == Shapes(old(conns)) + Externals(GroupLeaves(p.groups, g), p.groups[g], 0, p.extEslag)
      ensures switches == old(switches) + GroupSwitches(p, g, p.groups[g])
      ensures names == LeafIds(GroupLeaves(p.groups, g), p.groups[g])
      ensures ext' == Least(GroupLeaves(p.groups, g) + p.groups[g], p.extEslag)
      ensures homes' == homes + if p.orphans < 2 then names else []
    {
      hide PortsOf, Shapes, Id, Valid, Externals, GroupSwitches, LeafIds, GroupLeaves;
      ghost var before, first := Shapes(conns), GroupLeaves(p.groups, g);
      assert before + [] == before;
      names, ext', homes' := [], ext, homes;
      NoLeaves(p, g, first);
      for k := 0 to p.groups[g]
        invariant Valid() && Shapes(conns) == before + Externals(first, k, 0, p.extEslag)
        invariant switches == old(switches) + GroupSwitches(p, g, k)
        invariant names == LeafIds(first, k) && ext' == Least(first + k, p.extEslag)
        invariant homes' == homes + if p.orphans < 2 then names else []
      {
        CountsOn(first, k);
        NextLeaf(p, g, first, k);
        var name := Wrap(leafID + k);
        names := names + [name];
        if p.orphans < 2 {
          homes' := homes' + [name];
        }
        ghost var made := GroupSwitches(p, g, k);
        assert old(switches) + made + [LeafObject(name, Some(g))] == old(switches) + (made + [LeafObject(name, Some(g))]);
        switches := switches + [LeafObject(name, Some(g))];
        ghost var done := Externals(first, k, 0, p.extEslag);
        if ext' < p.extEslag {
          assert before + done + [ExternalShape(name)] == before + (done + [ExternalShape(name)]);
          ConnectOne(ExternalShape(name));
          ext' := ext' + 1;
        } else {
          assert before + done + [] == before + done;
          assert done + [] == done;
        }
      }
    }

    /** One group: its leaves, then its servers. */
    method BuildGroup(p: Params, g: nat, leafID: U8, serverID: U8, ext: U8, homes: seq<nat>)
      returns (leafID': U8, serverID': U8, ext': U8, homes': seq<nat>)
      requires Valid() && g < |p.groups| && 2 <= p.groups[g] <= 4
      requires leafID == Id(GroupLeaves(p.groups, g)) && serverID == Id(GroupServers(p, g)) && ext == Least(GroupLeaves(p.groups, g), p.extEslag)
      modifies this`conns, this`switches, tracker
      ensures Valid() && Shapes(conns) == Shapes(old(conns)) + GroupShapes(p, g)
      ensures switches == old(switches) + GroupSwitches(p, g, p.groups[g])
      ensures leafID' == Id(GroupLeaves(p.groups, g + 1)) && serverID' == Id(GroupServers(p, g + 1))
      ensures ext' == Least(GroupLeaves(p.groups, g + 1), p.extEslag)
      ensures homes' == homes + if p.orphans < 2 then LeafIds(GroupLeaves(p.groups, g), p.groups[g]) else []
    {
      hide PortsOf, Shapes, Id, GroupSwitches, Externals, ESLAGServers, UnbundledServers, BundledServers, Valid;
      ghost var before, leaf, server, size := Shapes(conns), GroupLeaves(p.groups, g), GroupServers(p, g), p.groups[g];
      var names;
      names, ext', homes' := BuildGroupLeaves(p, g, leafID, ext, homes);
      CountsOn(leaf, size);
      leafID' := Wrap(leafID + p.groups[g]);
      serverID' := BuildESLAG(names, p.eslagServers, serverID, server);
      serverID' := BuildUnbundled(names[0], p.unbundled, serverID', server + p.eslagServers);
      serverID' := BuildBundled(names[1], p.bundled, serverID', server + p.eslagServers + p.unbundled);
      ghost var a, b := Externals(leaf, size, 0, p.extEslag), ESLAGServers(names, server, p.eslagServers);
      ghost var c := UnbundledServers(names[0], server + p.eslagServers, p.unbundled);
      ghost var d := BundledServers(names[1], server + p.eslagServers + p.unbundled, p.bundled);
      assert before + a + b + c + d == before + (a + b + c + d);
    }

    /** The group loop, which counts to the number of groups in 8 bits. */
    method BuildGroups(p: Params) returns (leafID: U8, serverID: U8, homes: seq<nat>)
      requires Valid() && GroupsOk(p.groups)
      modifies this`conns, this`switches, tracker
      ensures Valid() && Shapes(conns) == Shapes(old(conns)) + AllGroups(p, GroupsBuilt(p))
      ensures switches == old(switches) + GroupedSwitches(p, GroupsBuilt(p))
      ensures leafID == Id(Grouped(p)) && serverID == Id(GroupServers(p, GroupsBuilt(p)))
      ensures homes == if p.orphans < 2 then LeafIds(0, Grouped(p)) else []
    {
      hide PortsOf, Shapes, GroupShapes, GroupSwitches, Id, LeafIds, GroupServers, GroupLeaves, AllGroups, GroupedSwitches, Valid;
      ghost var before := Shapes(conns);
      assert before + [] == before && switches + [] == switches;
      FirstGroup(p);
      leafID, serverID, homes := 1, 1, [];
      var ext: U8 := 0;
      var g: U8 := 0;
      while g < |p.groups| % BYTES
        invariant g <= GroupsBuilt(p)
        invariant Valid() && Shapes(conns) == before + AllGroups(p, g)
        invariant switches == old(switches) + GroupedSwitches(p, g)
        invariant leafID == Id(GroupLeaves(p.groups, g)) && serverID == Id(GroupServers(p, g))
        invariant ext == Least(GroupLeaves(p.groups, g), p.extEslag)
        invariant homes == if p.orphans < 2 then LeafIds(0, GroupLeaves(p.groups, g)) else []
        decreases GroupsBuilt(p) - g
      {
        ghost var done, own, made := AllGroups(p, g), GroupShapes(p, g), GroupedSwitches(p, g);
        NextGroup(p, g);
        leafID, serverID, ext, homes := BuildGroup(p, g, leafID, serverID, ext, homes);
        assert before + done + own == before + (done + own);
        assert old(switches) + made + GroupSwitches(p, g, p.groups[g]) == old(switches) + (made + GroupSwitches(p, g, p.groups[g]));
        g := Wrap(g + 1);
      }
    }

    // ---- Orphans ----

    /** One orphan leaf: an external connection if one is left to make, then its servers. */
    method BuildOrphan(p: Params, o: nat, leafID: U8, serverID: U8, ext: U8) returns (serverID': U8, ext': U8)
      requires Valid() && leafID == Id(Grouped(p) + o) && ext == Least(o, p.extOrphan)
      requires serverID == Id(GroupServers(p, GroupsBuilt(p)) + OrphanServers(p, o))
      modifies this`conns, this`switches, tracker
      ensures Valid() && Shapes(conns) == Shapes(old(conns)) + OrphanShapes(p, o)
      ensures switches == old(switches) + [LeafObject(leafID, None)]
      ensures serverID' == Id(GroupServers(p, GroupsBuilt(p)) + OrphanServers(p, o + 1)) && ext' == Least(o + 1, p.extOrphan)
    {
      hide PortsOf, Shapes, Id, UnbundledServers, BundledServers, GroupServers, GroupLeaves, GroupsBuilt, Grouped, LeafObject, CallsIn, Valid;
      ghost var before, leaf, server := Shapes(conns), Grouped(p) + o, GroupServers(p, GroupsBuilt(p)) + OrphanServers(p, o);
      ghost var a := if o < p.extOrphan then [ExternalShape(leafID)] else [];
      assert Externals(leaf, 1, Grouped(p), p.extOrphan) == a by {
        assert Externals(leaf, 0, Grouped(p), p.extOrphan) == [];
      }
      switches := switches + [LeafObject(leafID, None)];
      ext' := ext;
      assert before + [] == before;
      if ext' < p.extOrphan {
        ConnectOne(ExternalShape(leafID));
        ext' := ext' + 1;
      }
      assert Shapes(conns) == before + a;
      serverID' := BuildUnbundled(leafID, p.unbundled, serverID, server);
      serverID' := BuildBundled(leafID, p.bundled, serverID', server + p.unbundled);
      ghost var c, d := UnbundledServers(leafID, server, p.unbundled), BundledServers(leafID, server + p.unbundled, p.bundled);
      assert before + a + c + d == before + (a + c + d);
    }

    method BuildOrphans(p: Params, leafID: U8, serverID: U8, homes: seq<nat>) returns (serverID': U8, homes': seq<nat>)
      requires Valid() && p.orphans < 255 && leafID == Id(Grouped(p)) && serverID == Id(GroupServers(p, GroupsBuilt(p)))
      modifies this`conns, this`switches, tracker
      ensures Valid() && Shapes(conns) == Shapes(old(conns)) + AllOrphans(p, p.orphans)
      ensures switches == old(switches) + OrphanSwitches(p, p.orphans)
      ensures serverID' == Id(LeafServers(p))
      ensures homes' == homes + LeafIds(Grouped(p), p.orphans)
    {
      hide PortsOf, Shapes, OrphanShapes, GroupServers, Grouped, Valid, AllOrphans, OrphanSwitches, OrphanServers, LeafIds, Id, LeafServers;
      ghost var before := Shapes(conns);
      assert before + [] == before && switches + [] == switches && homes + [] == homes;
      FirstOrphan(p);
      var idx: U8, leaf: U8, ext: U8 := 1, leafID, 0;
      serverID', homes' := serverID, homes;
      while idx <= p.orphans
        invariant 1 <= idx <= p.orphans + 1
        invariant Valid() && Shapes(conns) == before + AllOrphans(p, idx - 1)
        invariant switches == old(switches) + OrphanSwitches(p, idx - 1)
        invariant leaf == Id(Grouped(p) + (idx - 1)) && ext == Least(idx - 1, p.extOrphan)
        invariant serverID' == Id(GroupServers(p, GroupsBuilt(p)) + OrphanServers(p, idx - 1))
        invariant homes' == homes + LeafIds(Grouped(p), idx - 1)
        decreases p.orphans + 1 - idx
      {
        ghost var done, own, made := AllOrphans(p, idx - 1), OrphanShapes(p, idx - 1), OrphanSwitches(p, idx - 1);
        NextOrphan(p, idx - 1);
        assert homes + LeafIds(Grouped(p), idx - 1) + [leaf] == homes + LeafIds(Grouped(p), idx);
        homes' := homes' + [leaf];
        serverID', ext := BuildOrphan(p, idx - 1, leaf, serverID', ext);
        assert before + done + own == before + (done + own);
        assert old(switches) + made + [LeafObject(leaf, None)] == old(switches) + (made + [LeafObject(leaf, None)]);
        leaf, idx := Wrap(leaf + 1), Wrap(idx + 1);
      }
    }

    // ---- Multihomed servers ----

    /** The place of the next candidate, counting round and round. */
    static method NextHome(homes: seq<nat>, idx: nat, ghost t: nat) returns (next: nat)
      requires |homes| > 0 && idx == Turn(|homes|, t)
      ensures next == Turn(|homes|, t + 1)
    {
      NextTurn(|homes|, t);
      next := (idx + 1) % |homes|;
    }

    /** The multihomed servers: each takes the next two candidate leaves, counting round and round. */
    method BuildMultihomed(homes: seq<nat>, count: U8, serverID: U8, ghost first: nat)
      requires Valid() && serverID == Id(first) && (count > 0 ==> |homes| > 0)
      modifies this`conns, tracker
      ensures Valid() && Shapes(conns) == Shapes(old(conns)) + HomedServers(homes, first, count)
    {
      hide PortsOf, Shapes, Valid, HomedServer, HomedServers, Turn, Id, LinksIn, CallsIn;
      ghost var before := Shapes(conns);
      assert before + [] == before;
      var idx: nat, server: U8 := 0, serverID;
      FirstTurn(|homes|);
      NoneHomed(homes, first);
      for k := 0 to count
        invariant Valid() && Shapes(conns) == before + HomedServers(homes, first, k)
        invariant server == Id(first + k) && (|homes| > 0 ==> idx == Turn(|homes|, 2 * k))
      {
        var leaf1 := homes[idx];
        idx := NextHome(homes, idx, 2 * k);
        var leaf2 := homes[idx];
        idx := NextHome(homes, idx, 2 * k + 1);
        HomedAs(homes, server, k, leaf1, leaf2);
        NextHomed(homes, first, k);
        ghost var done, own := HomedServers(homes, first, k), HomedServer(homes, server, k);
        assert before + done + [UnbundledShape(server, leaf1)] + [UnbundledShape(server, leaf2)] == before + (done + own);
        ConnectServer(UnbundledShape(server, leaf1));
        ConnectServer(UnbundledShape(server, leaf2));
        server := Wrap(server + 1);
      }
    }

    // ---- Between switches ----

    /** The gateways on one switch. */
    method ConnectGateways(d: Device, count: nat, port: nat)
      requires Valid() && !d.Server?
      modifies this`conns, tracker
      ensures Valid() && Shapes(conns) == Shapes(old(conns)) + GatewayRow(d, count, port)
    {
      hide PortsOf, Shapes, Valid;
      ghost var before := Shapes(conns);
      assert before + [] == before;
      for g := 0 to count
        invariant Valid() && Shapes(conns) == before + GatewayRow(d, g, port)
      {
        assert before + GatewayRow(d, g, port) + [GatewayShape(d, g, port)] == before + GatewayRow(d, g + 1, port);
        ConnectOne(GatewayShape(d, g, port));
      }
    }

    /** One spine, the leaves in turn, and the gateways behind them. */
    method BuildSpine(spine: U8, leaves: U8, links: U8, count: nat, uplinks: U8)
      requires Valid() && leaves < 255
      modifies this`conns, this`switches, tracker
      ensures Valid() && Shapes(conns) == Shapes(old(conns)) + SpineRow(spine, leaves, links, count, uplinks)
      ensures switches == old(switches) + [SpineObject(spine)]
    {
      hide PortsOf, Shapes, GatewayRow, Valid;
      switches := switches + [SpineObject(spine)];
      ghost var before := Shapes(conns);
      assert before + [] == before;
      var leaf: U8 := 1;
      while leaf <= leaves
        invariant 1 <= leaf <= leaves + 1
        invariant switches == old(switches) + [SpineObject(spine)]
        invariant Valid() && Shapes(conns) == before + LeafShapes(spine, leaf - 1, links)
        decreases leaves + 1 - leaf
      {
        assert before + LeafShapes(spine, leaf - 1, links) + [FabricShape(spine, leaf, links)] == before + LeafShapes(spine, leaf, links);
        ConnectSwitches(FabricShape(spine, leaf, links));
        leaf := Wrap(leaf + 1);
      }
      ghost var row := LeafShapes(spine, leaves, links);
      assert before + row + [] == before + row;
      if spine <= uplinks {
        assert before + row + GatewayRow(Spine(spine), count, spine) == before + (row + GatewayRow(Spine(spine), count, spine));
        ConnectGateways(Spine(spine), count, spine);
      }
    }

    /** The spine loop. */
    method BuildFabric(spines: U8, leaves: U8, links: U8, count: nat, uplinks: U8)
      requires Valid() && spines < 255 && leaves < 255
      modifies this`conns, this`switches, tracker
      ensures Valid() && Shapes(conns) == Shapes(old(conns)) + SpineShapes(spines, leaves, links, count, uplinks)
      ensures switches == old(switches) + SpineSwitches(spines)
    {
      hide PortsOf, Shapes, SpineRow, Valid;
      ghost var before := Shapes(conns);
      assert before + [] == before && switches + [] == switches;
      var spine: U8 := 1;
      while spine <= spines
        invariant 1 <= spine <= spines + 1
        invariant switches == old(switches) + SpineSwitches(spine - 1)
        invariant Valid() && Shapes(conns) == before + SpineShapes(spine - 1, leaves, links, count, uplinks)
        decreases spines + 1 - spine
      {
        ghost var done, row := SpineShapes(spine - 1, leaves, links, count, uplinks), SpineRow(spine, leaves, links, count, uplinks);
        ghost var made := SpineSwitches(spine - 1);
        assert before + done + row == before + (done + row);
        BuildSpine(spine, leaves, links, count, uplinks);
        assert old(switches) + made + [SpineObject(spine)] == old(switches) + (made + [SpineObject(spine)]);
        spine := Wrap(spine + 1);
      }
    }

    /** The mesh loops: every leaf with every leaf behind it. */
    method BuildMesh(leaves: U8, links: U8)
      requires Valid() && leaves < 255
      modifies this`conns, tracker
      ensures Valid() && Shapes(conns) == Shapes(old(conns)) + MeshShapes(leaves, leaves, links)
    {
      hide PortsOf, Shapes, Valid;
      ghost var before := Shapes(conns);
      assert before + [] == before;
      var leaf: U8 := 1;
      while leaf <= leaves
        invariant 1 <= leaf <= leaves + 1
        invariant Valid() && Shapes(conns) == before + MeshShapes(leaf - 1, leaves, links)
        decreases leaves + 1 - leaf
      {
        ghost var done, row := MeshShapes(leaf - 1, leaves, links), MeshRow(leaf, leaves, links);
        assert before + done + row == before + (done + row);
        BuildMeshRow(leaf, leaves, links);
        leaf := Wrap(leaf + 1);
      }
    }

    method BuildMeshRow(leaf: U8, leaves: U8, links: U8)
      requires Valid() && 1 <= leaf <= leaves < 255
      modifies this`conns, tracker
      ensures Valid() && Shapes(conns) == Shapes(old(conns)) + MeshRow(leaf, leaves, links)
    {
      hide PortsOf, Shapes, Valid, MeshRow;
      ghost var before := Shapes(conns);
      assert before + [] == before;
      NoMesh(leaf, links);
      var other: U8 := Wrap(leaf + 1);
      while other <= leaves
        invariant leaf + 1 <= other <= leaves + 1
        invariant Valid() && Shapes(conns) == before + MeshRow(leaf, other - 1, links)
        decreases leaves + 1 - other
      {
        ghost var done := MeshRow(leaf, other - 1, links);
        NextMesh(leaf, other, links);
        assert before + done + [MeshShape(leaf, other, links)] == before + (done + [MeshShape(leaf, other, links)]);
        ConnectSwitches(MeshShape(leaf, other, links));
        other := Wrap(other + 1);
      }
    }

    /** In a mesh, the gateways on the first leaves until the uplinks are used up. */
    method BuildMeshGateways(leaves: U8, count: nat, uplinks: U8)
      requires Valid() && leaves < 255
      modifies this`conns, tracker
      ensures Valid() && Shapes(conns) == Shapes(old(conns)) + MeshGateways(Least(leaves, uplinks), count)
    {
      hide PortsOf, Shapes, GatewayRow, Valid;
      ghost var before := Shapes(conns);
      assert before + [] == before;
      var leaf: U8, connected: U8 := 1, 0;
      while leaf <= leaves && connected < uplinks
        invariant 1 <= leaf <= leaves + 1 && connected == leaf - 1 <= uplinks
        invariant Valid() && Shapes(conns) == before + MeshGateways(connected, count)
        decreases leaves + 1 - leaf
      {
        ghost var done, row := MeshGateways(connected, count), GatewayRow(Leaf(leaf), count, leaf);
        assert before + done + row == before + (done + row);
        ConnectGateways(Leaf(leaf), count, connected + 1);
        leaf, connected := Wrap(leaf + 1), connected + 1;
      }
    }

    /** The loops between switches. */
    method BuildSwitchPart(p: Params)
      requires Valid() && Terminates(p)
      modifies this`conns, this`switches, tracker
      ensures Valid() && Shapes(conns) == Shapes(old(conns)) + SwitchPart(p)
      ensures switches == old(switches) + SpineSwitches(p.spines)
    {
      hide PortsOf, Shapes, SpineShapes, MeshShapes, MeshGateways, Leaves8, SpineSwitches, Valid;
      ghost var before := Shapes(conns);
      var leaves := Leaves8(p);
      ghost var fabric := SpineShapes(p.spines, leaves, p.fabricLinks, p.gateways, p.uplinks);
      BuildFabric(p.spines, leaves, p.fabricLinks, p.gateways, p.uplinks);
      if p.meshLinks > 0 {
        ghost var mesh, links := MeshShapes(leaves, leaves, p.meshLinks), MeshGateways(Least(leaves, p.uplinks), p.gateways);
        BuildMesh(leaves, p.meshLinks);
        BuildMeshGateways(leaves, p.gateways, p.uplinks);
        assert before + fabric + mesh + links == before + (fabric + (mesh + links));
      } else {
        assert fabric + [] == fabric;
      }
    }

    // ---- The whole run ----

    /** The checks before anything is built. */
    static method Prepare(p: Params) returns (r: Option<Params>)
      ensures r == Prepared(p)
    {
      var d := WithDefaults(p);
      if d.None? {
        return None;
      }
      var u := WithUplinks(d.value);
      if u.None? {
        return None;
      }
      hide WithDefaults, WithUplinks;
      var q := u.value;
      var total: U8 := 0;
      for i := 0 to |q.groups|
        invariant total == GroupLeaves8(q.groups, i)
        invariant forall k :: 0 <= k < i ==> 2 <= q.groups[k] <= 4
      {
        if q.groups[i] < 2 || q.groups[i] > 4 {
          return None;
        }
        total := Wrap(total + q.groups[i]);
      }
      if q.multihomed > 0 && Wrap(q.orphans + total) < 2 {
        return None;
      }
      if q.extEslag > total || q.extOrphan > q.orphans {
        return None;
      }
      if Wrap(q.extEslag + q.extOrphan) > 1 && !q.all {
        return None;
      }
      if total == 0 {
        q := q.(eslagServers := 0);
      }
      return Some(q);
    }

    /** A whole run: refused before anything is built, or all objects of the settings; looking for a candidate leaf where there is none panics. */
    method Build(settings: Params) returns (r: Outcome)
      requires Valid() && conns == [] && switches == [] && gateways == []
      requires Prepared(settings).Some? ==> Terminates(Prepared(settings).value)
      modifies this, tracker
      ensures r == Refused <==> Prepared(settings).None?
      ensures r == Panicked <==> Prepared(settings).Some? && NoHome(Prepared(settings).value)
      ensures r == Built ==> Valid() && Holds(Prepared(settings).value)
    {
      hide PortsOf, Shapes, AllGroups, AllOrphans, HomedServers, SwitchPart, GroupedSwitches, OrphanSwitches, SpineSwitches, AllGateways, Valid, LeafIds, Prepared, Homes, AllShapes, AllSwitches, Acceptable, Leaves8, GroupsOk, LeafServers;
      var q := Prepare(settings);
      if q.None? {
        return Refused;
      }
      var p := q.value;
      PreparedOk(settings);
      NoShapes();
      BuildGateways(p.gateways, p.uplinks);
      var leafID, serverID, homes := BuildGroups(p);
      serverID, homes := BuildOrphans(p, leafID, serverID, homes);
      TheHomes(p);
      if p.multihomed > 0 && |homes| == 0 {
        return Panicked;
      }
      BuildMultihomed(homes, p.multihomed, serverID, LeafServers(p));
      BuildSwitchPart(p);
      AllParts(p);
      return Built;
    }

    /** The objects are those of the settings. */
    ghost predicate Holds(p: Params)
      reads this
    {
      GroupsOk(p.groups) && Shapes(conns) == AllShapes(p) && switches == AllSwitches(p) && gateways == AllGateways(p.gateways, p.uplinks)
    }

    /** After a run a device's counter stands where the connections of the settings put it. */
    lemma {:induction false} CallsBuilt(p: Params, d: Device)
      requires Valid() && Holds(p)
      ensures tracker.Calls(d) == Taken(AllShapes(p), d)
    {
      CallsAreTaken(conns, |conns|, d);
    }

    /** Every port of the topology is used by one link only, as long as a switch has at most a hundred. */
    lemma {:induction false} NoPortTwice(i: nat, j: nat)
      requires Valid() && i < j < |tracker.log| && tracker.log[i].device == tracker.log[j].device
      requires Taken(Shapes(conns), tracker.log[i].device) <= PortLimit(tracker.log[i].device)
      ensures tracker.log[i].port != tracker.log[j].port
    {
      CallsAreTaken(conns, |conns|, tracker.log[i].device);
      PortsUsedOnce(tracker.log, i, j);
    }

    /** The ports of a switch that has at most 52 fit its machine's cards. */
    lemma {:induction false} SwitchPortFits(i: nat)
      requires Valid() && i < |tracker.log| && !tracker.log[i].device.Server? && Taken(Shapes(conns), tracker.log[i].device) <= 52
      ensures 0 < tracker.log[i].port < MAX_NICS
    {
      CallsAreTaken(conns, |conns|, tracker.log[i].device);
      PortsFit(tracker.log, i);
    }
  }

  /** Without overflow every loop ends and a run that is not refused builds everything. */
  lemma {:induction false} NoOverflowBuilds(settings: Params, p: Params)
    requires Prepared(settings) == Some(p) && NoOverflow(p)
    ensures Terminates(p) && !NoHome(p)
  {
    hide Prepared, Homes;
    PreparedOk(settings);
    Counts8(p);
    HomesDistinct(p);
  }

  /** Multihomed servers are asked for and there is no candidate leaf. */
  predicate NoHome(p: Params) {
    p.multihomed > 0 && Homes(p) == []
  }

  lemma {:induction false} FirstTurn(m: nat)
    ensures m > 0 ==> Turn(m, 0) == 0
  {
  }

  lemma {:induction false} NextTurn(m: nat, t: nat)
    requires m > 0
    ensures Turn(m, t + 1) == (Turn(m, t) + 1) % m
  {
  }

  lemma {:induction false} HomedAs(homes: seq<nat>, server: nat, k: nat, leaf1: nat, leaf2: nat)
    requires |homes| > 0 && leaf1 == homes[Turn(|homes|, 2 * k)] && leaf2 == homes[Turn(|homes|, 2 * k + 1)]
    ensures HomedServer(homes, server, k) == [UnbundledShape(server, leaf1), UnbundledShape(server, leaf2)]
  {
  }

  lemma {:induction false} NoShapes()
    ensures Shapes([]) == []
  {
  }

  lemma {:induction false} FirstGroup(p: Params)
    requires GroupsOk(p.groups)
    ensures Id(0) == 1 && GroupLeaves(p.groups, 0) == 0 && GroupServers(p, 0) == 0 && LeafIds(0, 0) == []
    ensures AllGroups(p, 0) == [] && GroupedSwitches(p, 0) == []
  {
  }

  lemma {:induction false} NextGroup(p: Params, g: nat)
    requires GroupsOk(p.groups) && g < |p.groups|
    ensures AllGroups(p, g + 1) == AllGroups(p, g) + GroupShapes(p, g)
    ensures GroupedSwitches(p, g + 1) == GroupedSwitches(p, g) + GroupSwitches(p, g, p.groups[g])
    ensures LeafIds(0, GroupLeaves(p.groups, g + 1)) == LeafIds(0, GroupLeaves(p.groups, g)) + LeafIds(GroupLeaves(p.groups, g), p.groups[g])
  {
    MoreIds(0, GroupLeaves(p.groups, g), p.groups[g]);
  }

  lemma {:induction false} NoLeaves(p: Params, g: nat, first: nat)
    requires g < |p.groups|
    ensures Externals(first, 0, 0, p.extEslag) == [] && GroupSwitches(p, g, 0) == [] && LeafIds(first, 0) == []
  {
  }

  lemma {:induction false} NextLeaf(p: Params, g: nat, first: nat, k: nat)
    requires g < |p.groups| && first == GroupLeaves(p.groups, g)
    ensures Externals(first, k + 1, 0, p.extEslag) ==
      Externals(first, k, 0, p.extEslag) + if first + k < p.extEslag then [ExternalShape(Id(first + k))] else []
    ensures GroupSwitches(p, g, k + 1) == GroupSwitches(p, g, k) + [LeafObject(Id(first + k), Some(g))]
    ensures LeafIds(first, k + 1) == LeafIds(first, k) + [Id(first + k)]
  {
  }

  lemma {:induction false} NoMesh(leaf: nat, links: nat)
    ensures MeshRow(leaf, leaf, links) == []
  {
  }

  lemma {:induction false} NextMesh(leaf: nat, other: nat, links: nat)
    requires leaf < other
    ensures MeshRow(leaf, other, links) == MeshRow(leaf, other - 1, links) + [MeshShape(leaf, other, links)]
  {
  }

  lemma {:induction false} NoneHomed(homes: seq<nat>, first: nat)
    ensures HomedServers(homes, first, 0) == []
  {
  }

  lemma {:induction false} NextHomed(homes: seq<nat>, first: nat, k: nat)
    requires |homes| > 0
    ensures HomedServers(homes, first, k + 1) == HomedServers(homes, first, k) + HomedServer(homes, Id(first + k), k)
    ensures Id(first + k + 1) == Wrap(Id(first + k) + 1)
  {
  }

  lemma {:induction false} TheHomes(p: Params)
    ensures Homes(p) == (if p.orphans < 2 then LeafIds(0, Grouped(p)) else []) + LeafIds(Grouped(p), p.orphans)
  {
  }

  lemma {:induction false} AllParts(p: Params)
    requires GroupsOk(p.groups)
    ensures AllShapes(p) == [] + AllGroups(p, GroupsBuilt(p)) + AllOrphans(p, p.orphans) + HomedServers(Homes(p), LeafServers(p), p.multihomed) + SwitchPart(p)
    ensures AllSwitches(p) == [] + GroupedSwitches(p, GroupsBuilt(p)) + OrphanSwitches(p, p.orphans) + SpineSwitches(p.spines)
  {
    hide AllGroups, AllOrphans, HomedServers, SwitchPart, GroupedSwitches, OrphanSwitches, SpineSwitches, Homes, LeafServers, Grouped;
  }

  lemma {:induction false} FirstOrphan(p: Params)
    ensures AllOrphans(p, 0) == [] && OrphanSwitches(p, 0) == [] && OrphanServers(p, 0) == 0 && LeafIds(Grouped(p), 0) == []
    ensures GroupServers(p, GroupsBuilt(p)) + OrphanServers(p, p.orphans) == LeafServers(p)
  {
  }

  lemma {:induction false} NextOrphan(p: Params, o: nat)
    ensures AllOrphans(p, o + 1) == AllOrphans(p, o) + OrphanShapes(p, o)
    ensures OrphanSwitches(p, o + 1) == OrphanSwitches(p, o) + [LeafObject(Id(Grouped(p) + o), None)]
    ensures LeafIds(Grouped(p), o + 1) == LeafIds(Grouped(p), o) + [Id(Grouped(p) + o)]
    ensures Id(Grouped(p) + o + 1) == Wrap(Id(Grouped(p) + o) + 1)
  {
  }

  lemma {:induction false} PreparedOk(settings: Params)
    requires Prepared(settings).Some?
    ensures var p := Prepared(settings).value; GroupsOk(p.groups) && Acceptable(p) && OneFabric(p) && UplinksOk(p)
  {
    hide GroupLeaves8;
    var d := WithDefaults(settings).value;
    assert WithUplinks(d).Some?;
  }

  /** The uplinks of a gateway go to different switches. */
  predicate UplinksOk(p: Params) {
    p.gateways > 0 ==> p.uplinks <= if p.meshLinks > 0 then Leaves8(p) else p.spines
  }
}
