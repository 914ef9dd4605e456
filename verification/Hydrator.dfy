/** Hydration as the program runs it: API objects updated in place, and the modes that decide whether to run it. */
module Hydrator {
  import opened Net
  import opened WiringModel
  import opened Store
  import opened Allocator
  import opened Sorting
  import opened Checker
  import opened HydratorLoops
  import opened HydrationShape
  import CheckerLoops
  import opened HydrationFits

  datatype Mode = Never | IfNotPresent | Override | Unknown

  /** The configuration with its nodes and the API objects it hydrates. */
  class Config {
    const fab: FabConfig
    var controls: seq<Host>
    var nodes: seq<Host>
    var switches: seq<Switch>
    var conns: seq<Conn>
    var gateways: seq<Gateway>

    constructor (fab: FabConfig, w: Wiring)
      ensures this.fab == fab && Snapshot() == w
    {
      this.fab := fab;
      controls, nodes, switches, conns, gateways := w.controls, w.nodes, w.switches, w.conns, w.gateways;
    }

    ghost function Snapshot(): Wiring
      reads this
    {
      Wiring(controls, nodes, switches, conns, gateways)
    }

    method UpdateSwitches(items: seq<Switch>)
      modifies this`switches
      ensures switches == PutAll(old(switches), items)
    {
      for i := 0 to |items|
        invariant switches == PutAll(old(switches), items[..i])
      {
        PutAllStep(old(switches), items, i);
        switches := Put(switches, items[i]);
      }
      assert items[..|items|] == items;
    }

    /** Gateway side of one gateway link: set the interface, append the neighbor, update the gateway. */
    method HydrateGatewayLink(items: seq<Switch>, l: Link, ghost gws: seq<Gateway>, ghost done: seq<Link>) returns (ok: bool)
      requires DistinctNames(gws)
      requires gateways == AllWithLinks(items, gws, done)
      modifies this`gateways
      ensures ok <==> Resolves(items, gws, l)
      ensures ok ==> gateways == AllWithLinks(items, gws, done + [l])
      ensures !ok ==> gateways == old(gateways)
    {
      ok := false;
      SameGatewayFound(items, gws, done, l.far.port.device);
      var g := Find(gateways, l.far.port.device);
      if g.None? {
        return;
      }
      var gw := gateways[g.value];
      var port := l.far.port.port;
      if port !in gw.spec.interfaces {
        return;
      }
      gw := gw.(spec := gw.spec.(interfaces := gw.spec.interfaces[port := gw.spec.interfaces[port].(ips := [l.far.ip], mtu := FABRIC_MTU)]));
      if !l.near.ip.Cidr? {
        return;
      }
      var sw := Find(items, l.near.port.device);
      var asn: U32 := if sw.Some? then items[sw.value].spec.asn else 0;
      if asn == 0 {
        return;
      }
      gw := gw.(spec := gw.spec.(neighbors := gw.spec.neighbors + [Neighbor(port, l.near.ip.addr, asn)]));
      OneMoreLink(items, gws, done, l);
      DistinctPairs(gws, |gws|);
      gateways := Put(gateways, gw);
      ok := true;
    }

    /** The link loop of a gateway connection whose first link is number m. */
    method HydrateGatewayConn(items: seq<Switch>, links: seq<Link>, ghost m: nat, start: Addr, ghost gws: seq<Gateway>, ghost done: seq<Link>)
      returns (ok: bool, links': seq<Link>, next: Addr)
      requires start == Plus(V4(Masked(fab.fabric)), 2 * m)
      requires DistinctNames(gws) && gateways == AllWithLinks(items, gws, done)
      modifies this`gateways
      ensures ok ==> links' == LinksAt(fab, links, m) && next == Plus(V4(Masked(fab.fabric)), 2 * (m + |links|))
      ensures ok <==> AllResolve(items, gws, LinksAt(fab, links, m))
      ensures ok ==> gateways == AllWithLinks(items, gws, done + LinksAt(fab, links, m))
      ensures !ok ==> LinkedSomehow(items, gws, gateways)
    {
      ghost var target := LinksAt(fab, links, m);
      ok, links', next := false, [], start;
      assert done + [] == done;
      for idx := 0 to |links|
        invariant links' == target[..idx]
        invariant next == Plus(V4(Masked(fab.fabric)), 2 * (m + idx))
        invariant gateways == AllWithLinks(items, gws, done + links')
        invariant AllResolve(items, gws, links')
        invariant !ok
      {
        var l;
        l, next := AssignLink(fab, links[idx], m + idx, next);
        var fine := HydrateGatewayLink(items, l, gws, done + links');
        if !fine {
          assert target[idx] == l;
          return;
        }
        Regroup(done, target, idx, l);
        links' := links' + [l];
      }
      ok := true;
    }

    /** The connection loop. */
    method HydrateConns(items: seq<Switch>) returns (ok: bool)
      requires DistinctNames(conns) && DistinctNames(gateways)
      modifies this`conns, this`gateways
      ensures var target := AssignedConns(fab, Sort(old(conns), ByName));
        var links := GatewayLinks(target, |target|);
        && (ok <==> AllResolve(items, old(gateways), links))
        && (ok ==> conns == PutAll(old(conns), target))
        && (ok ==> gateways == AllWithLinks(items, old(gateways), links))
        && (!ok ==> UpdatedSomehow(old(conns), target, conns))
      ensures !ok ==> LinkedSomehow(items, old(gateways), gateways)
    {
      hide Resolves, LinksAt, LinkAt, Put, DistinctNames, AssignedConns, Addressed, OwnGatewayLinks;
      var sorted := SortObjects(conns, ByName);
      ghost var target := AssignedConns(fab, sorted);
      ghost var was, gws := conns, gateways;
      SortedConnsDistinct(was);
      var next := V4(Masked(fab.fabric));
      ok := false;
      var c := 0;
      while c < |sorted|
        invariant 0 <= c <= |sorted|
        invariant !ok
        invariant next == Plus(V4(Masked(fab.fabric)), 2 * LinkCount(sorted, c))
        invariant conns == PutAll(was, target[..c])
        invariant gateways == AllWithLinks(items, gws, GatewayLinks(target, c))
        invariant AllResolve(items, gws, GatewayLinks(target, c))
      {
        ConnResolves(items, gws, target, c);
        var fine;
        fine, next := HydrateConn(items, sorted, c, next, was, gws);
        if !fine {
          return;
        }
        c := c + 1;
      }
      ok := true;
      assert target[..|sorted|] == target;
    }

    /** One turn of the connection loop. */
    method HydrateConn(items: seq<Switch>, sorted: seq<Conn>, c: nat, start: Addr, ghost was: seq<Conn>, ghost gws: seq<Gateway>)
      returns (ok: bool, next: Addr)
      requires c < |sorted| && DistinctNames(was) && DistinctNames(sorted) && sorted[c] in was
      requires DistinctNames(gws)
      requires start == Plus(V4(Masked(fab.fabric)), 2 * LinkCount(sorted, c))
      requires conns == PutAll(was, AssignedConns(fab, sorted)[..c])
      requires gateways == AllWithLinks(items, gws, GatewayLinks(AssignedConns(fab, sorted), c))
      modifies this`conns, this`gateways
      ensures ok ==> conns == PutAll(was, AssignedConns(fab, sorted)[..c + 1])
      ensures ok ==> next == Plus(V4(Masked(fab.fabric)), 2 * LinkCount(sorted, c + 1))
      ensures ok ==> gateways == AllWithLinks(items, gws, GatewayLinks(AssignedConns(fab, sorted), c + 1))
      ensures ok <==> AllResolve(items, gws, OwnGatewayLinks(AssignedConn(fab, sorted, c)))
      ensures !ok ==> conns == old(conns) && LinkedSomehow(items, gws, gateways)
    {
      hide Resolves, WithLinks, LinksAt, LinkAt, PutAll, Put, DistinctNames;
      ghost var target := AssignedConns(fab, sorted);
      ghost var m := LinkCount(sorted, c);
      var conn := sorted[c];
      PutAllStep(was, target, c);
      if conn.spec.kind == GatewayConn {
        var links;
        ok, links, next := HydrateGatewayConn(items, conn.spec.links, m, start, gws, GatewayLinks(target, c));
        if !ok {
          return;
        }
        conn := conn.(spec := conn.spec.(links := links));
        assert conn == target[c];
        conns := Put(conns, conn);
      } else {
        ok, next := true, start;
        assert GatewayLinks(target, c + 1) == GatewayLinks(target, c);
        if conn.spec.kind != OtherConn {
          var links;
          links, next := AssignLinks(fab, conn.spec.links, m, start);
          conn := conn.(spec := conn.spec.(links := links));
          assert conn == target[c];
          conns := Put(conns, conn);
        } else {
          UnchangedConn(was, sorted, target, c);
        }
      }
    }

    /** The gateway loop. */
    method HydrateGateways(ghost switches: nat, ghost owners: nat, proto: Addr, vtep: Addr) returns (ok: bool)
      requires DistinctNames(gateways)
      requires proto == Plus(V4(Masked(fab.protocol)), switches) && vtep == Plus(V4(Masked(fab.vtep)), owners)
      modifies this`gateways
      ensures ok <==> |old(gateways)| <= MAX_VTEP_MACS
      ensures var target := AssignedGateways(fab, switches, owners, Sort(old(gateways), ByName));
        ok ==> gateways == PutAll(old(gateways), target)
      ensures !ok ==> gateways == old(gateways)
    {
      ok := |gateways| <= MAX_VTEP_MACS;
      if !ok {
        return;
      }
      var sorted := SortObjects(gateways, ByName);
      ghost var target := AssignedGateways(fab, switches, owners, sorted);
      var nextProto, nextVtep, octet := proto, vtep, 1;
      for i := 0 to |sorted|
        invariant nextProto == Plus(V4(Masked(fab.protocol)), switches + i)
        invariant nextVtep == Plus(V4(Masked(fab.vtep)), owners + i)
        invariant octet == 1 + i
        invariant gateways == PutAll(old(gateways), target[..i])
      {
        PutAllStep(old(gateways), target, i);
        var gw := sorted[i].(spec := sorted[i].spec.(
          asn := fab.gatewayASN, protocolIP := Render(nextProto, 32), vtep := Render(nextVtep, 32),
          macOctet := octet, vtepMTU := SERVER_FACING_MTU));
        gateways := Put(gateways, gw);
        // An 8-bit counter: at most 254 gateways keep it from wrapping.
        nextProto, nextVtep, octet := Next(nextProto), Next(nextVtep), if octet < 255 then octet + 1 else 0;
      }
      assert target[..|target|] == target;
    }

    /** The node loops. */
    method HydrateNodes() returns (mgmt: Addr)
      requires DistinctNames(controls)
      modifies this`controls, this`nodes
      ensures controls == AssignedHosts(fab, Sort(old(controls), ByName), 0)
      ensures nodes == AssignedHosts(fab, old(nodes), |old(controls)|)
      ensures mgmt == Plus(V4(fab.vip), RESERVED + (|controls| + |nodes|))
    {
      mgmt := V4(fab.vip);
      var dummy := V4(Masked(fab.dummy));
      for i := 0 to RESERVED
        invariant mgmt == Plus(V4(fab.vip), i)
      {
        mgmt := Next(mgmt);
      }
      var sorted := SortObjects(controls, ByName);
      controls, mgmt, dummy := AssignHosts(fab, sorted, 0, mgmt, dummy);
      nodes, mgmt, dummy := AssignHosts(fab, nodes, |controls|, mgmt, dummy);
    }

    /** The switches: assigned in sorted order, then updated one by one. */
    method HydrateSwitches(ghost w: Wiring, mgmt: Addr)
      returns (ok: bool, items: seq<Switch>, proto: Addr, vtep: Addr)
      requires Valid(w) && switches == w.switches
      requires mgmt == Plus(V4(fab.vip), RESERVED + (|w.controls| + |w.nodes|))
      modifies this`switches
      ensures ok <==> RolesValid(Sort(w.switches, SwitchRank))
      ensures ok ==> items == NewSwitches(fab, w) && switches == PutAll(w.switches, NewSwitches(fab, w))
      ensures ok ==> proto == Plus(V4(Masked(fab.protocol)), |w.switches|)
      ensures ok ==> vtep == Plus(V4(Masked(fab.vtep)), Owners(Sort(w.switches, SwitchRank), |w.switches|))
      ensures !ok ==> switches == w.switches
    {
      var sorted := SortObjects(switches, SwitchRank);
      ok, items, proto, vtep := AssignSwitches(fab, sorted, |w.controls| + |w.nodes|, mgmt);
      if !ok {
        return;
      }
      assert items == NewSwitches(fab, w);
      UpdateSwitches(items);
    }

    /** The connections and gateways, once the switches are assigned. */
    method HydrateLinksAndGateways(ghost w: Wiring, items: seq<Switch>, proto: Addr, vtep: Addr) returns (ok: bool)
      requires Valid(w) && conns == w.conns && gateways == w.gateways && items == NewSwitches(fab, w)
      requires proto == Plus(V4(Masked(fab.protocol)), |items|)
      requires vtep == Plus(V4(Masked(fab.vtep)), Owners(Sort(w.switches, SwitchRank), |items|))
      modifies this`conns, this`gateways
      ensures ok <==> AllResolve(NewSwitches(fab, w), w.gateways, NewGatewayLinks(fab, w)) && |w.gateways| <= MAX_VTEP_MACS
      ensures ok ==> conns == PutAll(w.conns, NewConns(fab, w))
      ensures ok ==> gateways == PutAll(LinkedGateways(fab, w), NewGateways(fab, w))
      ensures !ok ==> ConnsSame(w.conns, conns) && GatewaysSame(w.gateways, gateways)
    {
      ok := HydrateConns(items);
      if !ok {
        ConnsKeepShape(fab, w.conns, conns);
        GatewaysKeepShape(items, w.gateways, gateways);
        return;
      }
      DistinctTransfer(w.gateways, gateways);
      ok := HydrateGateways(|items|, Owners(Sort(w.switches, SwitchRank), |items|), proto, vtep);
      if !ok {
        ghost var target := NewConns(fab, w);
        assert target[..|target|] == target;
        ConnsKeepShape(fab, w.conns, conns);
        GatewaysKeepShape(items, w.gateways, gateways);
      }
    }

    method Hydrate() returns (ok: bool)
      requires Valid(Snapshot())
      modifies this
      ensures ok <==> Hydratable(fab, old(Snapshot()))
      ensures ok ==> Snapshot() == Hydrated(fab, old(Snapshot()))
      ensures SameShape(old(Snapshot()), Snapshot())
    {
      hide AllResolve, RolesValid;
      ghost var w := Snapshot();
      SameShapeReflexive(w);
      ok := false;
      if V4(fab.vip) != Next(V4(Masked(fab.mgmt))) {
        return;
      }
      var mgmt := HydrateNodes();
      var items, proto, vtep;
      RolesSorted(switches);
      ok, items, proto, vtep := HydrateSwitches(w, mgmt);
      if ok {
        ok := HydrateLinksAndGateways(w, items, proto, vtep);
        if ok {
          HydratedKeepsShape(fab, w);
        } else {
          SwitchesKeepShape(fab, w);
        }
      }
    }

    /** Checks, then hydrates when the mode asks for it, then checks again. */
    method EnsureHydrated(mode: Mode) returns (ok: bool)
      requires Valid(Snapshot())
      modifies this
      // A wiring the checker rejects is never touched, not even when overriding.
      ensures Check(fab, old(Snapshot())) == Err ==> !ok && Snapshot() == old(Snapshot())
      ensures mode == Unknown ==> !ok && Snapshot() == old(Snapshot())
      ensures mode == Never ==> Snapshot() == old(Snapshot()) && (ok <==> Check(fab, old(Snapshot())) == Ok(Full))
      ensures mode == IfNotPresent && Check(fab, old(Snapshot())) == Ok(Full) ==> ok && Snapshot() == old(Snapshot())
      ensures mode == IfNotPresent && Check(fab, old(Snapshot())) == Ok(Partial) ==> !ok && Snapshot() == old(Snapshot())
      ensures mode == IfNotPresent && Check(fab, old(Snapshot())) == Ok(Nothing) ==>
        (ok <==> Fits(fab, old(Snapshot()))) && (ok ==> Snapshot() == Hydrated(fab, old(Snapshot())))
      ensures mode == Override && Check(fab, old(Snapshot())).Ok? ==>
        (ok <==> Fits(fab, old(Snapshot()))) && (ok ==> Snapshot() == Hydrated(fab, old(Snapshot())))
      ensures ok ==> Check(fab, Snapshot()) == Ok(Full)
      ensures SameShape(old(Snapshot()), Snapshot())
    {
      hide Sound, Hydratable, Fits, WiringTally, Hydrated, Valid;
      ghost var w := Snapshot();
      ok := false;
      SameShapeReflexive(w);
      var h := CheckerLoops.GetHydration(fab, Wiring(controls, nodes, switches, conns, gateways));
      if h.Err? {
        return;
      }
      if mode == Never {
        ok := h.status == Full;
      } else if mode == IfNotPresent || mode == Override {
        if mode == IfNotPresent && h.status == Full {
          ok := true;
          return;
        }
        if mode == IfNotPresent && h.status != Nothing {
          return;
        }
        AllocatorMeetsChecker(fab, w);
        var done := Hydrate();
        if !done {
          return;
        }
        h := CheckerLoops.GetHydration(fab, Wiring(controls, nodes, switches, conns, gateways));
        ok := h == Ok(Full);
      }
    }
  }
}
