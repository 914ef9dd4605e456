/** The pure loops of hydration: counters stepped through a list that is updated in place. */
module HydratorLoops {
  import opened Net
  import opened WiringModel
  import opened Store
  import opened Allocator

  /** Storing the next result keeps a list whose first part is done and whose rest is untouched. */
  lemma {:induction false} StoreNext<T>(items: seq<T>, done: seq<T>, todo: seq<T>, i: nat)
    requires |done| == |todo| && i < |todo|
    requires items == done[..i] + todo[i..]
    ensures items[i] == todo[i] && items[i := done[i]] == done[..i + 1] + todo[i + 1..]
  {
  }

  lemma {:induction false} StoreDone<T>(done: seq<T>, todo: seq<T>)
    requires |done| == |todo|
    ensures done[..|todo|] + todo[|todo|..] == done
  {
  }

  lemma {:induction false} Regroup<T>(before: seq<T>, l: seq<T>, i: nat, x: T)
    requires i < |l| && l[i] == x
    ensures l[..i] + [x] == l[..i + 1]
    ensures before + l[..i] + [x] == before + (l[..i] + [x])
  {
  }

  /** The host loop: one management address and one /31 a host. */
  method AssignHosts(f: FabConfig, hosts: seq<Host>, ghost first: nat, mgmt: Addr, dummy: Addr)
    returns (hosts': seq<Host>, mgmt': Addr, dummy': Addr)
    requires mgmt == Plus(V4(f.vip), RESERVED + first) && dummy == Plus(V4(Masked(f.dummy)), 2 * first)
    ensures hosts' == AssignedHosts(f, hosts, first)
    ensures mgmt' == Plus(V4(f.vip), RESERVED + first + |hosts|)
    ensures dummy' == Plus(V4(Masked(f.dummy)), 2 * (first + |hosts|))
  {
    ghost var target := AssignedHosts(f, hosts, first);
    hosts', mgmt', dummy' := hosts, mgmt, dummy;
    for i := 0 to |hosts|
      invariant hosts' == target[..i] + hosts[i..]
      invariant mgmt' == Plus(V4(f.vip), RESERVED + first + i)
      invariant dummy' == Plus(V4(Masked(f.dummy)), 2 * (first + i))
    {
      StoreNext(hosts', target, hosts, i);
      hosts' := hosts'[i := hosts'[i].(spec := HostSpec(Render(mgmt', f.mgmt.bits), Render(dummy', 31)))];
      mgmt' := Next(mgmt');
      dummy' := Next(Next(dummy'));
    }
    StoreDone(target, hosts);
  }

  datatype Counters = Counters(mgmt: Addr, proto: Addr, vtep: Addr, asn: U32)

  /** The counters of the switch loop before switch i. */
  ghost function CountersAt(f: FabConfig, hosts: nat, sws: seq<Switch>, i: nat): Counters
    requires i <= |sws|
  {
    Counters(Plus(V4(f.vip), RESERVED + hosts + i), Plus(V4(Masked(f.protocol)), i),
             Plus(V4(Masked(f.vtep)), Owners(sws, i)), Steps32(f.leafASNStart, Owners(sws, i)))
  }

  ghost predicate PeerTable(sws: seq<Switch>, i: nat, peers: map<Name, nat>)
    requires i <= |sws|
  {
    forall g: Name ::
      && (g in peers <==> FirstInGroup(sws, g, i).Some?)
      && (g in peers ==> peers[g] == FirstInGroup(sws, g, i).value)
  }

  /** One turn of the switch loop: peer is the already assigned leader of the switch's MCLAG group, if there is one. */
  method AssignSwitch(f: FabConfig, ghost hosts: nat, ghost sws: seq<Switch>, ghost i: nat, s: Switch, peer: Option<Switch>, c: Counters)
    returns (s': Switch, c': Counters)
    requires i < |sws| && sws[i] == s && ValidRole(s)
    requires c == CountersAt(f, hosts, sws, i)
    requires peer.None? <==> Leads(sws, i)
    requires peer.Some? ==> peer.value == AssignedSwitch(f, hosts, sws, Leader(sws, i))
    ensures s' == AssignedSwitch(f, hosts, sws, i)
    ensures c' == CountersAt(f, hosts, sws, i + 1)
  {
    s' := s.(spec := s.spec.(ip := Render(c.mgmt, f.mgmt.bits), protocolIP := Render(c.proto, 32)));
    c' := c.(mgmt := Next(c.mgmt), proto := Next(c.proto));
    if s.spec.role == Spine {
      s' := s'.(spec := s'.spec.(asn := f.spineASN));
    }
    if peer.Some? {
      LeaderLeads(sws, i);
      s' := s'.(spec := s'.spec.(asn := peer.value.spec.asn, vtep := peer.value.spec.vtep));
      return;
    }
    if IsLeaf(s) {
      s' := s'.(spec := s'.spec.(asn := c.asn, vtep := Render(c.vtep, 32)));
      c' := c'.(asn := Inc32(c.asn), vtep := Next(c.vtep));
    }
  }

  /** The switch loop; items is the sorted list, updated in place. */
  method AssignSwitches(f: FabConfig, sws: seq<Switch>, ghost hosts: nat, mgmt: Addr)
    returns (ok: bool, items: seq<Switch>, proto: Addr, vtep: Addr)
    requires mgmt == Plus(V4(f.vip), RESERVED + hosts)
    ensures ok <==> RolesValid(sws)
    ensures ok ==> items == AssignedSwitches(f, hosts, sws)
    ensures ok ==> proto == Plus(V4(Masked(f.protocol)), |sws|) && vtep == Plus(V4(Masked(f.vtep)), Owners(sws, |sws|))
  {
    hide AssignedSwitch, ValidRole, PeerTable, FirstInGroup, Leads, Leader, CountersAt;
    items, ok := sws, false;
    NoPeers(f, hosts, sws);
    var c := Counters(mgmt, V4(Masked(f.protocol)), V4(Masked(f.vtep)), f.leafASNStart);
    proto, vtep := c.proto, c.vtep;
    var peers: map<Name, nat> := map[];
    var i := 0;
    while i < |items|
      invariant 0 <= i <= |items| == |sws| && !ok
      invariant forall k :: 0 <= k < i ==> ValidRole(sws[k])
      invariant items == AssignedSwitches(f, hosts, sws)[..i] + sws[i..]
      invariant c == CountersAt(f, hosts, sws, i)
      invariant PeerTable(sws, i, peers)
    {
      var s := items[i];
      if !ValidRole(s) {
        return;
      }
      var peer := None;
      PeersAt(f, hosts, sws, i, peers);
      if s.spec.red.MCLAG? {
        if s.spec.red.group in peers {
          peer := Some(items[peers[s.spec.red.group]]);
        } else {
          peers := peers[s.spec.red.group := i];
        }
      }
      s, c := AssignSwitch(f, hosts, sws, i, s, peer, c);
      StoreNext(items, AssignedSwitches(f, hosts, sws), sws, i);
      items := items[i := s];
      i := i + 1;
    }
    StoreDone(AssignedSwitches(f, hosts, sws), sws);
    CountersEnd(f, hosts, sws);
    ok, proto, vtep := true, c.proto, c.vtep;
  }

  lemma {:induction false} NoPeers(f: FabConfig, hosts: nat, sws: seq<Switch>)
    ensures PeerTable(sws, 0, map[])
    ensures CountersAt(f, hosts, sws, 0) ==
      Counters(Plus(V4(f.vip), RESERVED + hosts), V4(Masked(f.protocol)), V4(Masked(f.vtep)), f.leafASNStart)
  {
  }

  lemma {:induction false} CountersEnd(f: FabConfig, hosts: nat, sws: seq<Switch>)
    ensures CountersAt(f, hosts, sws, |sws|).proto == Plus(V4(Masked(f.protocol)), |sws|)
    ensures CountersAt(f, hosts, sws, |sws|).vtep == Plus(V4(Masked(f.vtep)), Owners(sws, |sws|))
  {
  }

  /** The peer table answers for switch i, and how it looks after it. */
  lemma {:induction false} PeersAt(f: FabConfig, hosts: nat, sws: seq<Switch>, i: nat, peers: map<Name, nat>)
    requires i < |sws| && PeerTable(sws, i, peers)
    ensures sws[i].spec.red.MCLAG? ==> (sws[i].spec.red.group in peers <==> !Leads(sws, i))
    ensures sws[i].spec.red.MCLAG? && sws[i].spec.red.group in peers ==>
      peers[sws[i].spec.red.group] == Leader(sws, i) < i
    ensures !sws[i].spec.red.MCLAG? ==> Leads(sws, i)
    ensures PeerTable(sws, i + 1,
      if sws[i].spec.red.MCLAG? && sws[i].spec.red.group !in peers then peers[sws[i].spec.red.group := i] else peers)
  {
  }

  /** Both ends of one link, the counter stepping over the pair. */
  method AssignLink(f: FabConfig, l: Link, ghost m: nat, start: Addr) returns (l': Link, next: Addr)
    requires start == Plus(V4(Masked(f.fabric)), 2 * m)
    ensures l' == LinkAt(f, l, m) && next == Plus(V4(Masked(f.fabric)), 2 * (m + 1))
  {
    l', next := l.(near := l.near.(ip := Render(start, 31))), Next(start);
    l', next := l'.(far := l'.far.(ip := Render(next, 31))), Next(next);
  }

  /** The link loop of a fabric or mesh connection whose first link is number m. */
  method AssignLinks(f: FabConfig, links: seq<Link>, ghost m: nat, start: Addr) returns (links': seq<Link>, next: Addr)
    requires start == Plus(V4(Masked(f.fabric)), 2 * m)
    ensures links' == LinksAt(f, links, m) && next == Plus(V4(Masked(f.fabric)), 2 * (m + |links|))
  {
    ghost var target := LinksAt(f, links, m);
    links', next := links, start;
    for idx := 0 to |links|
      invariant links' == target[..idx] + links[idx..]
      invariant next == Plus(V4(Masked(f.fabric)), 2 * (m + idx))
    {
      StoreNext(links', target, links, idx);
      var l;
      l, next := AssignLink(f, links'[idx], m + idx, next);
      links' := links'[idx := l];
    }
    StoreDone(target, links);
  }
}
