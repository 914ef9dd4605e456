/**
  * What hydration assigns, as a function of the wiring alone: each object gets the address or number at its own index,
  * and the members of an MCLAG group share what their first member was given.
  */
module Allocator {
  import opened Net
  import opened WiringModel
  import opened Store
  import opened Sorting

  const FABRIC_MTU := 9100
  const SERVER_FACING_MTU := FABRIC_MTU - 64
  const RESERVED := 4
  const MAX_VTEP_MACS := 254

  // ---- Sort order -------------------------------------------------------------------

  /** Spines first, then the other roles in the order of their names. */
  function RoleRank(r: Role): nat {
    match r
    case Spine => 0
    case NoRole => 1
    case BorderLeaf => 2
    case MixedLeaf => 3
    case ServerLeaf => 4
    case OtherRole => 5
  }

  const SwitchRank := (s: SwitchSpec) => RoleRank(s.role)

  predicate Valid(w: Wiring) {
    DistinctNames(w.controls) && DistinctNames(w.switches) && DistinctNames(w.conns) && DistinctNames(w.gateways)
  }

  // ---- Hosts --------------------------------------------------------------------------

  function MgmtAt(f: FabConfig, k: nat): Text {
    Render(Plus(V4(f.vip), RESERVED + k), f.mgmt.bits)
  }

  function AssignedHost(f: FabConfig, h: Host, k: nat): Host {
    h.(spec := h.spec.(mgmt := MgmtAt(f, k), dummy := Render(Plus(V4(Masked(f.dummy)), 2 * k), 31)))
  }

  function AssignedHosts(f: FabConfig, h: seq<Host>, first: nat): (r: seq<Host>)
    ensures |r| == |h| && forall i {:trigger r[i]} :: 0 <= i < |h| ==> r[i] == AssignedHost(f, h[i], first + i)
  {
    seq(|h|, i requires 0 <= i < |h| => AssignedHost(f, h[i], first + i))
  }

  // ---- Switches ----------------------------------------------------------------------

  /** The first of the first n switches in an MCLAG group. */
  function FirstInGroup(sws: seq<Switch>, g: Name, n: nat): (r: Option<nat>)
    requires n <= |sws|
    ensures r.Some? ==> r.value < n && InGroup(sws[r.value], g)
  {
    if n == 0 then None
    else
      var r := FirstInGroup(sws, g, n - 1);
      if r.Some? then r else if InGroup(sws[n - 1], g) then Some(n - 1) else None
  }

  lemma {:induction false} FirstInGroupIsFirst(sws: seq<Switch>, g: Name, n: nat)
    requires n <= |sws|
    ensures var r := FirstInGroup(sws, g, n);
      forall j :: 0 <= j < (if r.Some? then r.value else n) ==> !InGroup(sws[j], g)
  {
    if n > 0 {
      FirstInGroupIsFirst(sws, g, n - 1);
    }
  }

  /** Looking further does not change which switch was first. */
  lemma {:induction false} FirstInGroupStays(sws: seq<Switch>, g: Name, i: nat, n: nat)
    requires i <= n <= |sws| && FirstInGroup(sws, g, i).Some?
    ensures FirstInGroup(sws, g, n) == FirstInGroup(sws, g, i)
  {
    if i < n {
      FirstInGroupStays(sws, g, i, n - 1);
    }
  }

  /** A switch that gets addresses of its own rather than those of an earlier MCLAG peer. */
  predicate Leads(sws: seq<Switch>, i: nat)
    requires i < |sws|
  {
    sws[i].spec.red.MCLAG? ==> FirstInGroup(sws, sws[i].spec.red.group, i).None?
  }

  function Leader(sws: seq<Switch>, i: nat): (r: nat)
    requires i < |sws|
    ensures r <= i
  {
    if Leads(sws, i) then i else FirstInGroup(sws, sws[i].spec.red.group, i).value
  }

  /** The leader leads, and is the switch itself or its MCLAG peer. */
  lemma {:induction false} LeaderLeads(sws: seq<Switch>, i: nat)
    requires i < |sws|
    ensures Leads(sws, Leader(sws, i)) && Leader(sws, Leader(sws, i)) == Leader(sws, i)
    ensures Leader(sws, i) < i ==> sws[i].spec.red.MCLAG? && InGroup(sws[Leader(sws, i)], sws[i].spec.red.group)
  {
    if !Leads(sws, i) {
      FirstInGroupIsFirst(sws, sws[i].spec.red.group, i);
      FirstInGroupOf(sws, sws[i].spec.red.group, Leader(sws, i));
    }
  }

  lemma {:induction false} FirstInGroupOf(sws: seq<Switch>, g: Name, n: nat)
    requires n <= |sws| && forall j :: 0 <= j < n ==> !InGroup(sws[j], g)
    ensures FirstInGroup(sws, g, n).None?
  {
    if n > 0 {
      FirstInGroupOf(sws, g, n - 1);
    }
  }

  /** How many of the first n switches take a leaf ASN and a VTEP address. */
  function Owners(sws: seq<Switch>, n: nat): (r: nat)
    requires n <= |sws|
    ensures r <= n
  {
    if n == 0 then 0 else Owners(sws, n - 1) + if IsLeaf(sws[n - 1]) && Leads(sws, n - 1) then 1 else 0
  }

  function AssignedASN(f: FabConfig, sws: seq<Switch>, i: nat): U32
    requires i < |sws|
  {
    var l := Leader(sws, i);
    if IsLeaf(sws[l]) then Steps32(f.leafASNStart, Owners(sws, l))
    else if sws[l].spec.role == Spine then f.spineASN else sws[l].spec.asn
  }

  function AssignedVtep(f: FabConfig, sws: seq<Switch>, i: nat): Text
    requires i < |sws|
  {
    var l := Leader(sws, i);
    if IsLeaf(sws[l]) then Render(Plus(V4(Masked(f.vtep)), Owners(sws, l)), 32) else sws[l].spec.vtep
  }

  function ProtoAt(f: FabConfig, k: nat): Text {
    Render(Plus(V4(Masked(f.protocol)), k), 32)
  }

  function AssignedSwitch(f: FabConfig, hosts: nat, sws: seq<Switch>, i: nat): Switch
    requires i < |sws|
  {
    sws[i].(spec := sws[i].spec.(ip := MgmtAt(f, hosts + i), protocolIP := ProtoAt(f, i),
                                 asn := AssignedASN(f, sws, i), vtep := AssignedVtep(f, sws, i)))
  }

  function AssignedSwitches(f: FabConfig, hosts: nat, sws: seq<Switch>): (r: seq<Switch>)
    ensures |r| == |sws| && forall i {:trigger r[i]} :: 0 <= i < |sws| ==> r[i] == AssignedSwitch(f, hosts, sws, i)
  {
    seq(|sws|, i requires 0 <= i < |sws| => AssignedSwitch(f, hosts, sws, i))
  }

  // ---- Connections --------------------------------------------------------------------

  function LinkAt(f: FabConfig, l: Link, m: nat): Link {
    l.(near := l.near.(ip := Render(Plus(V4(Masked(f.fabric)), 2 * m), 31)),
       far := l.far.(ip := Render(Plus(V4(Masked(f.fabric)), 2 * m + 1), 31)))
  }

  function LinksAt(f: FabConfig, l: seq<Link>, start: nat): (r: seq<Link>)
    ensures |r| == |l| && forall i {:trigger r[i]} :: 0 <= i < |l| ==> r[i] == LinkAt(f, l[i], start + i)
  {
    seq(|l|, i requires 0 <= i < |l| => LinkAt(f, l[i], start + i))
  }

  function AssignedConn(f: FabConfig, conns: seq<Conn>, c: nat): Conn
    requires c < |conns|
  {
    if conns[c].spec.kind == OtherConn then conns[c]
    else conns[c].(spec := conns[c].spec.(links := LinksAt(f, conns[c].spec.links, LinkCount(conns, c))))
  }

  function AssignedConns(f: FabConfig, conns: seq<Conn>): (r: seq<Conn>)
    ensures |r| == |conns| && forall c {:trigger r[c]} :: 0 <= c < |conns| ==> r[c] == AssignedConn(f, conns, c)
  {
    seq(|conns|, c requires 0 <= c < |conns| => AssignedConn(f, conns, c))
  }

  function OwnGatewayLinks(c: Conn): seq<Link> {
    if c.spec.kind == GatewayConn then c.spec.links else []
  }

  /** The links of the gateway connections among the first n. */
  function GatewayLinks(conns: seq<Conn>, n: nat): seq<Link>
    requires n <= |conns|
  {
    if n == 0 then [] else GatewayLinks(conns, n - 1) + OwnGatewayLinks(conns[n - 1])
  }

  // ---- Gateways -----------------------------------------------------------------------

  function AddrOf(t: Text): U32 {
    if t.Cidr? then t.addr else 0
  }

  function SwitchASN(sws: seq<Switch>, name: Name): U32 {
    var r := Find(sws, name);
    if r.Some? then sws[r.value].spec.asn else 0
  }

  /** The lookups a gateway link needs all succeed. */
  predicate Resolves(sws: seq<Switch>, gws: seq<Gateway>, l: Link) {
    && Find(gws, l.far.port.device).Some?
    && l.far.port.port in gws[Find(gws, l.far.port.device).value].spec.interfaces
    && l.near.ip.Cidr?
    && SwitchASN(sws, l.near.port.device) != 0
  }

  predicate AllResolve(sws: seq<Switch>, gws: seq<Gateway>, links: seq<Link>) {
    forall k :: 0 <= k < |links| ==> Resolves(sws, gws, links[k])
  }

  function WithLink(sws: seq<Switch>, g: Gateway, l: Link): Gateway {
    if l.far.port.device != g.name || l.far.port.port !in g.spec.interfaces then g
    else
      var port := l.far.port.port;
      g.(spec := g.spec.(
        interfaces := g.spec.interfaces[port := g.spec.interfaces[port].(ips := [l.far.ip], mtu := FABRIC_MTU)],
        neighbors := g.spec.neighbors + [Neighbor(port, AddrOf(l.near.ip), SwitchASN(sws, l.near.port.device))]))
  }

  function WithLinks(sws: seq<Switch>, g: Gateway, links: seq<Link>): (r: Gateway)
    ensures r.name == g.name && r.spec.interfaces.Keys == g.spec.interfaces.Keys
  {
    if |links| == 0 then g
    else WithLink(sws, WithLinks(sws, g, links[..|links| - 1]), links[|links| - 1])
  }

  function AllWithLinks(sws: seq<Switch>, gws: seq<Gateway>, links: seq<Link>): (r: seq<Gateway>)
    ensures |r| == |gws| && forall i {:trigger r[i]} :: 0 <= i < |gws| ==> r[i] == WithLinks(sws, gws[i], links)
  {
    seq(|gws|, i requires 0 <= i < |gws| => WithLinks(sws, gws[i], links))
  }

  function AssignedGateway(f: FabConfig, switches: nat, owners: nat, g: Gateway, i: nat): Gateway {
    g.(spec := g.spec.(asn := f.gatewayASN, protocolIP := ProtoAt(f, switches + i),
                       vtep := Render(Plus(V4(Masked(f.vtep)), owners + i), 32),
                       macOctet := 1 + i, vtepMTU := SERVER_FACING_MTU))
  }

  function AssignedGateways(f: FabConfig, switches: nat, owners: nat, gws: seq<Gateway>): (r: seq<Gateway>)
    ensures |r| == |gws| && forall i {:trigger r[i]} :: 0 <= i < |gws| ==> r[i] == AssignedGateway(f, switches, owners, gws[i], i)
  {
    seq(|gws|, i requires 0 <= i < |gws| => AssignedGateway(f, switches, owners, gws[i], i))
  }

  // ---- The whole run ------------------------------------------------------------------

  /** Switches after assignment, in allocation order. */
  ghost function NewSwitches(f: FabConfig, w: Wiring): seq<Switch> {
    AssignedSwitches(f, |w.controls| + |w.nodes|, Sort(w.switches, SwitchRank))
  }

  ghost function NewConns(f: FabConfig, w: Wiring): seq<Conn> {
    AssignedConns(f, Sort(w.conns, ByName))
  }

  ghost function NewGatewayLinks(f: FabConfig, w: Wiring): seq<Link> {
    GatewayLinks(NewConns(f, w), |NewConns(f, w)|)
  }

  /** Gateways after the links have been walked and before they get addresses of their own. */
  ghost function LinkedGateways(f: FabConfig, w: Wiring): seq<Gateway> {
    AllWithLinks(NewSwitches(f, w), w.gateways, NewGatewayLinks(f, w))
  }

  ghost function NewGateways(f: FabConfig, w: Wiring): seq<Gateway> {
    var sws := Sort(w.switches, SwitchRank);
    AssignedGateways(f, |sws|, Owners(sws, |sws|), Sort(LinkedGateways(f, w), ByName))
  }

  predicate RolesValid(sws: seq<Switch>) {
    forall i :: 0 <= i < |sws| ==> ValidRole(sws[i])
  }

  /** Hydration runs to the end without an error. */
  ghost predicate Hydratable(f: FabConfig, w: Wiring) {
    && V4(f.vip) == Next(V4(Masked(f.mgmt)))
    && RolesValid(w.switches)
    && AllResolve(NewSwitches(f, w), w.gateways, NewGatewayLinks(f, w))
    && |w.gateways| <= MAX_VTEP_MACS
  }

  /** The wiring after a run without errors. */
  ghost function Hydrated(f: FabConfig, w: Wiring): Wiring {
    Wiring(
      AssignedHosts(f, Sort(w.controls, ByName), 0),
      AssignedHosts(f, w.nodes, |w.controls|),
      PutAll(w.switches, NewSwitches(f, w)),
      PutAll(w.conns, NewConns(f, w)),
      PutAll(LinkedGateways(f, w), NewGateways(f, w)))
  }
}
