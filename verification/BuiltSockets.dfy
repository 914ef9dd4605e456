/** The links of a generated topology use every card once, so that its machines come up wired in pairs. */
module BuiltSockets {
  import opened Store
  import opened VlabPorts
  import opened Topology
  import opened TopologyNames
  import opened TopologyBuilder
  import opened VlabLinks
  import TopologyLoad
  import BuiltUplinks

  /** The network card behind a port that was handed out. */
  function CardOf(h: Handed): VlabLinks.Port {
    VlabLinks.Port(DeviceName(h.device), if h.device.Server? then ServerPort(h.port) else SwitchPort(h.port))
  }

  /** The card behind an interface of a gateway; its name depends on the gateway's driver. */
  function GatewayCard(g: nat, k: nat, kernel: bool): VlabLinks.Port {
    VlabLinks.Port(GatewayName(g), if kernel then ServerPort(k) else GatewayPort(k))
  }

  function PairCount(c: Conn): nat {
    if Paired(c.shape) then LinksIn(c.shape) else if c.shape.GatewayShape? then 1 else 0
  }

  function PairOf(c: Conn, k: nat, kernel: bool): LinkPair
    requires Fits(c) && k < PairCount(c)
  {
    if Paired(c.shape) then LinkPair(CardOf(c.ports[2 * k]), CardOf(c.ports[2 * k + 1]))
    else LinkPair(CardOf(c.ports[0]), GatewayCard(c.shape.gateway, c.shape.port, kernel))
  }

  /** The links of a connection as they are added to the machines. */
  function PairsOf(c: Conn, kernel: bool): (r: seq<LinkPair>)
    requires Fits(c)
    ensures |r| == PairCount(c) && forall k {:trigger r[k]} :: 0 <= k < |r| ==> r[k] == PairOf(c, k, kernel)
  {
    seq(PairCount(c), k requires 0 <= k < PairCount(c) => PairOf(c, k, kernel))
  }

  function AllPairs(conns: seq<Conn>, n: nat, kernel: bool): seq<LinkPair>
    requires AllFit(conns) && n <= |conns|
  {
    if n == 0 then [] else AllPairs(conns, n - 1, kernel) + PairsOf(conns[n - 1], kernel)
  }

  /** The connection a link comes from, and its place there. */
  lemma {:induction false} Located(conns: seq<Conn>, n: nat, kernel: bool, i: nat) returns (c: nat, k: nat)
    requires AllFit(conns) && n <= |conns| && i < |AllPairs(conns, n, kernel)|
    ensures c < n && k < PairCount(conns[c]) && AllPairs(conns, n, kernel)[i] == PairOf(conns[c], k, kernel)
    ensures i == |AllPairs(conns, c, kernel)| + k
  {
    var before := AllPairs(conns, n - 1, kernel);
    if i < |before| {
      c, k := Located(conns, n - 1, kernel, i);
    } else {
      c, k := n - 1, i - |before|;
    }
  }

  lemma {:induction false} PairsGrow(conns: seq<Conn>, c: nat, n: nat, kernel: bool)
    requires AllFit(conns) && c < n <= |conns|
    ensures |AllPairs(conns, c, kernel)| + PairCount(conns[c]) <= |AllPairs(conns, n, kernel)|
  {
    if c < n - 1 {
      PairsGrow(conns, c, n - 1, kernel);
    }
  }

  // ---- Where a port stands in the log -------------------------------------------------------------------------------

  lemma {:induction false} LogAt(conns: seq<Conn>, n: nat, c: nat, j: nat)
    requires c < n <= |conns| && j < |conns[c].ports|
    ensures |PortsOf(conns, c)| + j < |PortsOf(conns, n)| && PortsOf(conns, n)[|PortsOf(conns, c)| + j] == conns[c].ports[j]
    ensures |PortsOf(conns, c)| + |conns[c].ports| <= |PortsOf(conns, n)|
  {
    if c < n - 1 {
      LogAt(conns, n - 1, c, j);
    }
  }

  /** No device is given more ports than it has. */
  predicate Bounded(log: seq<Handed>) {
    forall a :: 0 <= a < |log| ==> CallsIn(log, |log|, log[a].device) <= PortLimit(log[a].device)
  }

  lemma {:induction false} CardsDiffer(log: seq<Handed>, a: nat, b: nat)
    requires Sequential(log) && Bounded(log) && a < |log| && b < |log| && a != b
    ensures CardOf(log[a]) != CardOf(log[b])
  {
    hide Sequential;
    if log[a].device == log[b].device {
      if a < b {
        PortsUsedOnce(log, a, b);
      } else {
        PortsUsedOnce(log, b, a);
      }
    }
  }

  lemma {:induction false} PlacesDiffer(conns: seq<Conn>, c: nat, i: nat, d: nat, j: nat)
    requires c < |conns| && d < |conns| && i < |conns[c].ports| && j < |conns[d].ports| && (c != d || i != j)
    requires Sequential(PortsOf(conns, |conns|)) && Bounded(PortsOf(conns, |conns|))
    ensures CardOf(conns[c].ports[i]) != CardOf(conns[d].ports[j])
  {
    hide Sequential, Bounded, CardOf, PortsOf;
    LogAt(conns, |conns|, c, i);
    LogAt(conns, |conns|, d, j);
    if c < d {
      LogAt(conns, d, c, i);
    } else if d < c {
      LogAt(conns, c, d, j);
    }
    CardsDiffer(PortsOf(conns, |conns|), |PortsOf(conns, c)| + i, |PortsOf(conns, d)| + j);
  }

  /** No two gateway connections are to one interface. */
  predicate GatewaysApart(conns: seq<Conn>) {
    forall c, d :: 0 <= c < d < |conns| && conns[c].shape.GatewayShape? && conns[d].shape.GatewayShape? ==>
      conns[c].shape.gateway != conns[d].shape.gateway || conns[c].shape.port != conns[d].shape.port
  }

  lemma {:induction false} NotAGateway(h: Handed, g: nat, k: nat, kernel: bool)
    ensures CardOf(h) != GatewayCard(g, k, kernel)
  {
  }

  lemma {:induction false} LinksApart(conns: seq<Conn>, kernel: bool, c: nat, k: nat, d: nat, l: nat)
    requires AllFit(conns) && c < |conns| && d < |conns| && k < PairCount(conns[c]) && l < PairCount(conns[d]) && (c != d || k != l)
    requires Sequential(PortsOf(conns, |conns|)) && Bounded(PortsOf(conns, |conns|)) && GatewaysApart(conns)
    ensures NoSharedPort(PairOf(conns[c], k, kernel), PairOf(conns[d], l, kernel))
  {
    hide Sequential, Bounded, CardOf, PortsOf;
    var x, y := conns[c].shape, conns[d].shape;
    assert Fits(conns[c]) && Fits(conns[d]);
    var i, j := if Paired(x) then 2 * k else 0, if Paired(y) then 2 * l else 0;
    PlacesDiffer(conns, c, i, d, j);
    if Paired(x) {
      PlacesDiffer(conns, c, i + 1, d, j);
    } else {
      NotAGateway(conns[d].ports[j], x.gateway, x.port, kernel);
    }
    if Paired(y) {
      PlacesDiffer(conns, c, i, d, j + 1);
    } else {
      NotAGateway(conns[c].ports[i], y.gateway, y.port, kernel);
    }
    if Paired(x) && Paired(y) {
      PlacesDiffer(conns, c, i + 1, d, j + 1);
    } else if Paired(x) {
      NotAGateway(conns[c].ports[i + 1], y.gateway, y.port, kernel);
    } else if Paired(y) {
      NotAGateway(conns[d].ports[j + 1], x.gateway, x.port, kernel);
    }
  }

  /** Links whose ports were handed out within the limits use every card once. */
  lemma {:induction false} LinksUsedOnce(conns: seq<Conn>, kernel: bool)
    requires AllFit(conns) && Sequential(PortsOf(conns, |conns|)) && Bounded(PortsOf(conns, |conns|)) && GatewaysApart(conns)
    ensures UsedOnce(AllPairs(conns, |conns|, kernel))
  {
    hide Sequential, Bounded, GatewaysApart, PairOf, NoSharedPort;
    var l := AllPairs(conns, |conns|, kernel);
    forall i, j | 0 <= i < j < |l|
      ensures NoSharedPort(l[i], l[j])
    {
      var c, k := Located(conns, |conns|, kernel, i);
      var d, m := Located(conns, |conns|, kernel, j);
      LinksApart(conns, kernel, c, k, d, m);
    }
  }

  // ---- Generated topologies ---------------------------------------------------------------------------------------

  lemma {:induction false} BuiltBounded(settings: Params, p: Params, conns: seq<Conn>, most: nat, a: nat)
    requires Prepared(settings) == Some(p) && NoOverflow(p) && TopologyLoad.LoadsWithin(p, most)
    requires AllFit(conns) && Shapes(conns) == AllShapes(p) && a < |PortsOf(conns, |conns|)|
    ensures var log := PortsOf(conns, |conns|);
      CallsIn(log, |log|, log[a].device) <= if log[a].device.Server? then 4 else most
  {
    hide Prepared, AllShapes, Acceptable, TopologyLoad.Takes, TopologyLoad.LoadsWithin;
    var d := PortsOf(conns, |conns|)[a].device;
    CallsAreTaken(conns, |conns|, d);
    PreparedOk(settings);
    if d.Server? {
      TopologyLoad.ServerPorts(p, d.id);
    } else {
      TopologyLoad.LoadsBound(p, most, d);
    }
  }

  lemma {:induction false} BuiltGatewaysApart(settings: Params, p: Params, conns: seq<Conn>)
    requires Prepared(settings) == Some(p) && NoOverflow(p) && Shapes(conns) == AllShapes(p)
    ensures GatewaysApart(conns)
  {
    hide Prepared, AllShapes;
    forall c, d | 0 <= c < d < |conns| && conns[c].shape.GatewayShape? && conns[d].shape.GatewayShape?
      ensures conns[c].shape.gateway != conns[d].shape.gateway || conns[c].shape.port != conns[d].shape.port
    {
      assert Shapes(conns)[c] == conns[c].shape && Shapes(conns)[d] == conns[d].shape;
      BuiltUplinks.UplinkOnce(settings, p, c, d);
    }
  }

  /** While no switch takes more than a hundred ports, the links of a generated topology use every card once. */
  lemma {:induction false} BuiltUsedOnce(settings: Params, p: Params, b: Builder, kernel: bool)
    requires Prepared(settings) == Some(p) && NoOverflow(p) && b.Valid() && b.Holds(p) && TopologyLoad.LoadsWithin(p, 100)
    ensures UsedOnce(AllPairs(b.conns, |b.conns|, kernel))
  {
    hide Prepared, NoOverflow, AllShapes, TopologyLoad.LoadsWithin, UsedOnce, AllFit, AllSwitches, AllGateways;
    var log := PortsOf(b.conns, |b.conns|);
    forall a | 0 <= a < |log|
      ensures CallsIn(log, |log|, log[a].device) <= PortLimit(log[a].device)
    {
      BuiltBounded(settings, p, b.conns, 100, a);
    }
    BuiltGatewaysApart(settings, p, b.conns);
    LinksUsedOnce(b.conns, kernel);
  }

  /** With at most 52 ports a switch, every port of a generated topology fits the cards of its machine. */
  lemma {:induction false} BuiltPortsFit(settings: Params, p: Params, b: Builder, a: nat)
    requires Prepared(settings) == Some(p) && NoOverflow(p) && b.Valid() && b.Holds(p) && TopologyLoad.LoadsWithin(p, 52)
    requires a < |b.tracker.log|
    ensures 0 < b.tracker.log[a].port < MAX_NICS
  {
    hide Prepared, NoOverflow, AllShapes, TopologyLoad.LoadsWithin, AllFit, AllSwitches, AllGateways;
    BuiltBounded(settings, p, b.conns, 52, a);
    PortsFit(b.tracker.log, a);
  }

  /** A generated topology of at most a hundred ports a switch: without hardware all its links are accepted, and every card is paired. */
  lemma {:induction false} BuiltPaired(settings: Params, p: Params, b: Builder, kernel: bool, vms: VMs, hw: Hardware)
    requires Prepared(settings) == Some(p) && NoOverflow(p) && b.Valid() && b.Holds(p) && TopologyLoad.LoadsWithin(p, 100)
    requires var l := AllPairs(b.conns, |b.conns|, kernel);
      && Symmetric(vms) && Free(vms, l, 0) && hw.devices == {}
      && forall i :: 0 <= i < |l| ==> Linkable(vms, hw, l[i].a, l[i].b)
    ensures var l := AllPairs(b.conns, |b.conns|, kernel);
      var r := LinkedAll(vms, hw, l, |l|); r.Some? && Symmetric(r.value)
  {
    hide Prepared, NoOverflow, AllShapes, TopologyLoad.LoadsWithin, UsedOnce, AllPairs, Free, Linkable, Symmetric, AllFit, AllSwitches, AllGateways;
    var l := AllPairs(b.conns, |b.conns|, kernel);
    BuiltUsedOnce(settings, p, b, kernel);
    OnceMeansLinked(vms, hw, l, |l|);
    OnceMeansPaired(vms, hw, l, |l|);
  }
}
