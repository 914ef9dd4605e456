/**
  * The objects hydration reads and writes: hosts, switches, connections and gateways, with the columns of addresses and
  * numbers that can be read off a list of them.
  */
module WiringModel {
  import opened Net
  import opened Store

  datatype FabConfig = FabConfig(
    mgmt: Prefix, vip: U32, dhcpStart: U32, dhcpEnd: U32,
    dummy: Prefix, vtep: Prefix, protocol: Prefix, fabric: Prefix,
    spineASN: U32, leafASNStart: U32, leafASNEnd: U32, gatewayASN: U32)

  /** A control or fabric node. */
  datatype HostSpec = HostSpec(mgmt: Text, dummy: Text)
  type Host = Object<HostSpec>

  datatype Role = Spine | NoRole | BorderLeaf | MixedLeaf | ServerLeaf | OtherRole

  datatype Redundancy = NoRedundancy | ESLAG(group: Name) | MCLAG(group: Name)

  datatype SwitchSpec = SwitchSpec(role: Role, red: Redundancy, ip: Text, protocolIP: Text, asn: U32, vtep: Text)
  type Switch = Object<SwitchSpec>

  datatype Port = Port(device: Name, port: Name)

  datatype End = End(port: Port, ip: Text)

  /** Near end: spine, first leaf or switch. Far end: leaf, second leaf or gateway. */
  datatype Link = Link(near: End, far: End)

  datatype ConnKind = FabricConn | MeshConn | GatewayConn | OtherConn

  datatype ConnSpec = ConnSpec(kind: ConnKind, links: seq<Link>)
  type Conn = Object<ConnSpec>

  datatype Interface = Interface(device: Name, ips: seq<Text>, mtu: nat)

  datatype Neighbor = Neighbor(source: Name, ip: U32, asn: U32)

  datatype GatewaySpec = GatewaySpec(
    asn: U32, protocolIP: Text, vtep: Text, macOctet: nat, vtepMTU: nat,
    interfaces: map<Name, Interface>, neighbors: seq<Neighbor>)
  type Gateway = Object<GatewaySpec>

  /** Everything hydration touches; the API objects are in listing order. */
  datatype Wiring = Wiring(
    controls: seq<Host>, nodes: seq<Host>,
    switches: seq<Switch>, conns: seq<Conn>, gateways: seq<Gateway>)

  predicate IsLeaf(s: Switch) {
    s.spec.role == BorderLeaf || s.spec.role == MixedLeaf || s.spec.role == ServerLeaf
  }

  predicate ValidRole(s: Switch) {
    s.spec.role == Spine || IsLeaf(s)
  }

  predicate InGroup(s: Switch, g: Name) {
    s.spec.red.MCLAG? && s.spec.red.group == g
  }

  function Hosts(w: Wiring): seq<Host> {
    w.controls + w.nodes
  }

  /** The links of the first n connections that carry point-to-point addresses. */
  function LinksUpTo(conns: seq<Conn>, n: nat): (r: seq<Link>)
    requires n <= |conns|
  {
    if n == 0 then [] else LinksUpTo(conns, n - 1) + Addressed(conns[n - 1])
  }

  function LinkCount(conns: seq<Conn>, n: nat): nat
    requires n <= |conns|
  {
    if n == 0 then 0 else LinkCount(conns, n - 1) + |Addressed(conns[n - 1])|
  }

  lemma {:induction false} LinksCounted(conns: seq<Conn>, n: nat)
    requires n <= |conns|
    ensures |LinksUpTo(conns, n)| == LinkCount(conns, n)
  {
    if n > 0 {
      LinksCounted(conns, n - 1);
    }
  }

  function Addressed(c: Conn): seq<Link> {
    if c.spec.kind == OtherConn then [] else c.spec.links
  }

  function AllLinks(conns: seq<Conn>): seq<Link> {
    LinksUpTo(conns, |conns|)
  }

  /** The first c connections hold a prefix of all links. */
  lemma {:induction false} LinksPrefix(conns: seq<Conn>, c: nat, n: nat)
    requires c <= n <= |conns|
    ensures LinksUpTo(conns, c) <= LinksUpTo(conns, n)
    ensures c < n ==> LinksUpTo(conns, c) + Addressed(conns[c]) <= LinksUpTo(conns, n)
  {
    if c < n {
      LinksPrefix(conns, c, n - 1);
    }
  }

  predicate Complete(l: Link) {
    l.near.ip != Unset && l.far.ip != Unset
  }

  // Columns of address texts, one per uniqueness table.

  function HostMgmt(h: seq<Host>): (r: seq<Text>)
    ensures |r| == |h| && forall i {:trigger r[i]} :: 0 <= i < |h| ==> r[i] == h[i].spec.mgmt
  {
    seq(|h|, i requires 0 <= i < |h| => h[i].spec.mgmt)
  }

  /** A host's dummy address is only looked at when its management address is set. */
  function HostDummy(h: seq<Host>): (r: seq<Text>)
    ensures |r| == |h| && forall i {:trigger r[i]} :: 0 <= i < |h| ==> r[i] == if h[i].spec.mgmt == Unset then Unset else h[i].spec.dummy
  {
    seq(|h|, i requires 0 <= i < |h| => if h[i].spec.mgmt == Unset then Unset else h[i].spec.dummy)
  }

  function SwitchIPs(s: seq<Switch>): (r: seq<Text>)
    ensures |r| == |s| && forall i {:trigger r[i]} :: 0 <= i < |s| ==> r[i] == s[i].spec.ip
  {
    seq(|s|, i requires 0 <= i < |s| => s[i].spec.ip)
  }

  function SwitchProtos(s: seq<Switch>): (r: seq<Text>)
    ensures |r| == |s| && forall i {:trigger r[i]} :: 0 <= i < |s| ==> r[i] == s[i].spec.protocolIP
  {
    seq(|s|, i requires 0 <= i < |s| => s[i].spec.protocolIP)
  }

  function LeafVteps(s: seq<Switch>): (r: seq<Text>)
    ensures |r| == |s| && forall i {:trigger r[i]} :: 0 <= i < |s| ==> r[i] == if IsLeaf(s[i]) then s[i].spec.vtep else Unset
  {
    seq(|s|, i requires 0 <= i < |s| => if IsLeaf(s[i]) then s[i].spec.vtep else Unset)
  }

  function GatewayProtos(g: seq<Gateway>): (r: seq<Text>)
    ensures |r| == |g| && forall i {:trigger r[i]} :: 0 <= i < |g| ==> r[i] == g[i].spec.protocolIP
  {
    seq(|g|, i requires 0 <= i < |g| => g[i].spec.protocolIP)
  }

  function GatewayVteps(g: seq<Gateway>): (r: seq<Text>)
    ensures |r| == |g| && forall i {:trigger r[i]} :: 0 <= i < |g| ==> r[i] == g[i].spec.vtep
  {
    seq(|g|, i requires 0 <= i < |g| => g[i].spec.vtep)
  }

  /** The addresses a column uses among its first n entries. */
  function UsedUpTo(col: seq<Text>, n: nat): set<U32>
    requires n <= |col|
  {
    set i | 0 <= i < n && col[i].Cidr? :: col[i].addr
  }

  function Used(col: seq<Text>): set<U32> {
    UsedUpTo(col, |col|)
  }

  /** Entry i of a column repeats neither a taken address nor an earlier entry. */
  predicate FreshAt(taken: set<U32>, col: seq<Text>, i: nat)
    requires i < |col|
  {
    col[i].Cidr? ==> col[i].addr !in taken && col[i].addr !in UsedUpTo(col, i)
  }

  predicate AllFresh(taken: set<U32>, col: seq<Text>) {
    forall i :: 0 <= i < |col| ==> FreshAt(taken, col, i)
  }

  function EndAddrs(l: Link): set<U32> {
    if !Complete(l) then {}
    else (if l.near.ip.Cidr? then {l.near.ip.addr} else {}) + (if l.far.ip.Cidr? then {l.far.ip.addr} else {})
  }

  /** The addresses on the complete links among the first m. */
  function LinkUsed(l: seq<Link>, m: nat): set<U32>
    requires m <= |l|
  {
    if m == 0 then {} else LinkUsed(l, m - 1) + EndAddrs(l[m - 1])
  }
}
