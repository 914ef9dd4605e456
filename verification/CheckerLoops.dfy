/**
  * The checker as the program runs it: loops over the lists, uniqueness tables and counters, each loop tied to the part
  * of the declarative check that it decides.
  */
module CheckerLoops {
  import opened Net
  import opened WiringModel
  import opened Store
  import opened Checker

  lemma {:induction false} UsedGrows(col: seq<Text>, i: nat)
    requires i < |col|
    ensures UsedUpTo(col, i + 1) == UsedUpTo(col, i) + (if col[i].Cidr? then {col[i].addr} else {})
  {
  }

  /** Record a parsed address in its uniqueness table; ok is false when it is already there. */
  method Record(ghost taken: set<U32>, ghost col: seq<Text>, ghost i: nat, t: Text, used: set<U32>)
    returns (ok: bool, used': set<U32>)
    requires i < |col| && col[i] == t && t.Cidr?
    requires used == taken + UsedUpTo(col, i)
    ensures ok <==> FreshAt(taken, col, i)
    ensures used' == taken + UsedUpTo(col, i + 1)
  {
    UsedGrows(col, i);
    ok, used' := t.addr !in used, used + {t.addr};
  }

  /** One turn of the host loop. */
  method ProcessNode(f: FabConfig, ghost h: seq<Host>, ghost i: nat, host: Host, mgmtIPs: set<U32>, dummyIPs: set<U32>)
    returns (ok: bool, mgmtIPs': set<U32>, dummyIPs': set<U32>, missing: nat)
    requires i < |h| && h[i] == host
    requires mgmtIPs == {f.vip} + UsedUpTo(HostMgmt(h), i) && dummyIPs == UsedUpTo(HostDummy(h), i)
    ensures ok <==> HostSoundAt(f, h, i)
    ensures ok ==> mgmtIPs' == {f.vip} + UsedUpTo(HostMgmt(h), i + 1) && dummyIPs' == UsedUpTo(HostDummy(h), i + 1)
    ensures ok ==> Tally(1, missing) == HostTally(host)
  {
    ok, mgmtIPs', dummyIPs', missing := false, mgmtIPs, dummyIPs, 0;
    UsedGrows(HostMgmt(h), i);
    UsedGrows(HostDummy(h), i);
    if host.spec.mgmt != Unset {
      if !host.spec.mgmt.Cidr? || !Contains(f.mgmt, host.spec.mgmt.addr) || host.spec.mgmt.addr >= f.dhcpStart {
        return;
      }
      var fine;
      fine, mgmtIPs' := Record({f.vip}, HostMgmt(h), i, host.spec.mgmt, mgmtIPs);
      if !fine {
        return;
      }
      if !host.spec.dummy.Cidr? || host.spec.dummy.bits != 31 || !Contains(f.dummy, host.spec.dummy.addr) {
        return;
      }
      fine, dummyIPs' := Record({}, HostDummy(h), i, host.spec.dummy, dummyIPs);
      if !fine {
        return;
      }
    } else {
      missing := missing + 1;
    }
    ok := true;
  }

  method CheckHosts(f: FabConfig, h: seq<Host>) returns (ok: bool, mgmtIPs: set<U32>, total: nat, missing: nat)
    ensures ok <==> HostsSound(f, h)
    ensures ok ==> mgmtIPs == {f.vip} + Used(HostMgmt(h)) && Tally(total, missing) == Sum(HostTallies(h))
  {
    ghost var tallies := HostTallies(h);
    ok, total, missing := false, 0, 0;
    mgmtIPs := {f.vip};
    var dummyIPs: set<U32> := {};
    var i := 0;
    while i < |h|
      invariant 0 <= i <= |h|
      invariant forall k :: 0 <= k < i ==> HostSoundAt(f, h, k)
      invariant mgmtIPs == {f.vip} + UsedUpTo(HostMgmt(h), i)
      invariant dummyIPs == UsedUpTo(HostDummy(h), i)
      invariant Tally(total, missing) == SumUpTo(tallies, i)
      invariant !ok
    {
      var fine, missing';
      fine, mgmtIPs, dummyIPs, missing' := ProcessNode(f, h, i, h[i], mgmtIPs, dummyIPs);
      if !fine {
        return;
      }
      total, missing, i := total + 1, missing + missing', i + 1;
    }
    ok := true;
  }

  /** The reference table after the first i switches. */
  ghost predicate ReferenceTable(peers: map<Name, Switch>, sws: seq<Switch>, i: nat)
    requires i <= |sws|
  {
    forall g: Name ::
      && (g in peers <==> Reference(sws, g, i).Some?)
      && (g in peers ==> peers[g] == sws[Reference(sws, g, i).value])
  }

  /** The leaf ASNs seen among the first i switches. */
  function LeafASNs(sws: seq<Switch>, i: nat): set<U32>
    requires i <= |sws|
  {
    set j | 0 <= j < i && IsLeaf(sws[j]) && sws[j].spec.asn > 0 :: sws[j].spec.asn
  }

  /** The ASN branch for one switch: the updated tables, or failure. */
  method CheckASN(f: FabConfig, ghost sws: seq<Switch>, ghost i: nat, s: Switch, peers: map<Name, Switch>, leafASNs: set<U32>)
    returns (ok: bool, peers': map<Name, Switch>, leafASNs': set<U32>)
    requires i < |sws| && sws[i] == s && s.spec.asn > 0
    requires ReferenceTable(peers, sws, i)
    requires leafASNs == LeafASNs(sws, i)
    ensures ok <==> AsnSound(f, sws, i)
    ensures ok ==> leafASNs' == LeafASNs(sws, i + 1)
    ensures ok && IsLeaf(s) ==> ReferenceTable(peers', sws, i + 1)
    ensures ok && !IsLeaf(s) ==> peers' == peers
  {
    ok, peers', leafASNs' := false, peers, leafASNs;
    assert LeafASNs(sws, i + 1) == LeafASNs(sws, i) + (if IsLeaf(s) then {s.spec.asn} else {});
    assert FreshLeafASN(sws, i) <==> s.spec.asn !in leafASNs;
    if IsLeaf(s) {
      if s.spec.asn < f.leafASNStart || s.spec.asn > f.leafASNEnd {
        return;
      }
      if s.spec.red.MCLAG? {
        if s.spec.red.group in peers {
          if peers[s.spec.red.group].spec.asn != s.spec.asn {
            return;
          }
        } else {
          peers' := peers[s.spec.red.group := s];
          if s.spec.asn in leafASNs {
            return;
          }
        }
      } else if s.spec.asn in leafASNs {
        return;
      }
      leafASNs' := leafASNs + {s.spec.asn};
    }
    if s.spec.role == Spine && s.spec.asn != f.spineASN {
      return;
    }
    ok := true;
  }

  /** The VTEP branch for one leaf with a parsed VTEP address. */
  method CheckVtep(ghost sws: seq<Switch>, ghost i: nat, s: Switch, peers: map<Name, Switch>, vtepIPs: set<U32>)
    returns (ok: bool, peers': map<Name, Switch>)
    requires i < |sws| && sws[i] == s && IsLeaf(s) && s.spec.vtep.Cidr?
    requires s.spec.asn > 0 ==> ReferenceTable(peers, sws, i + 1)
    requires s.spec.asn == 0 ==> ReferenceTable(peers, sws, i)
    requires vtepIPs == UsedUpTo(LeafVteps(sws), i)
    ensures ok <==> VtepSound(sws, i)
    ensures ok ==> ReferenceTable(peers', sws, i + 1)
  {
    ok, peers' := false, peers;
    if s.spec.red.MCLAG? {
      if s.spec.red.group in peers {
        if peers[s.spec.red.group].spec.vtep != s.spec.vtep {
          return;
        }
      } else {
        peers' := peers[s.spec.red.group := s];
        if s.spec.vtep.addr in vtepIPs {
          return;
        }
      }
    } else if s.spec.vtep.addr in vtepIPs {
      return;
    }
    ok := true;
  }

  /** The uniqueness tables and the group references. */
  datatype Seen = Seen(mgmtIPs: set<U32>, protocolIPs: set<U32>, vtepIPs: set<U32>, leafASNs: set<U32>, peers: map<Name, Switch>)

  ghost predicate UnderlaySeen(t: Seen, sws: seq<Switch>, i: nat)
    requires i <= |sws|
  {
    && t.vtepIPs == UsedUpTo(LeafVteps(sws), i)
    && t.leafASNs == LeafASNs(sws, i)
    && ReferenceTable(t.peers, sws, i)
  }

  ghost predicate HasSeen(t: Seen, taken: set<U32>, sws: seq<Switch>, i: nat)
    requires i <= |sws|
  {
    && t.mgmtIPs == taken + UsedUpTo(SwitchIPs(sws), i)
    && t.protocolIPs == UsedUpTo(SwitchProtos(sws), i)
    && UnderlaySeen(t, sws, i)
  }

  /** The ASN and VTEP part of one switch. */
  method CheckUnderlay(f: FabConfig, ghost sws: seq<Switch>, ghost i: nat, s: Switch, t: Seen)
    returns (ok: bool, t': Seen, total: nat, missing: nat)
    requires i < |sws| && sws[i] == s && ValidRole(s) && UnderlaySeen(t, sws, i)
    ensures ok <==>
      && (if s.spec.role == Spine then s.spec.vtep == Unset else Single(f.vtep, s.spec.vtep))
      && AsnSound(f, sws, i) && VtepSound(sws, i)
    ensures ok ==> UnderlaySeen(t', sws, i + 1)
    ensures t'.mgmtIPs == t.mgmtIPs && t'.protocolIPs == t.protocolIPs
    ensures ok ==> total == 1 + Bit(IsLeaf(s)) && missing == Bit(s.spec.asn == 0) + Bit(IsLeaf(s) && s.spec.vtep == Unset)
  {
    ok, t', total, missing := false, t, 1, 0;
    var peers, leafASNs := t.peers, t.leafASNs;
    if s.spec.asn > 0 {
      var fine;
      fine, peers, leafASNs := CheckASN(f, sws, i, s, peers, leafASNs);
      if !fine {
        return;
      }
    } else {
      assert LeafASNs(sws, i + 1) == LeafASNs(sws, i);
      missing := missing + 1;
    }

    if s.spec.vtep != Unset && s.spec.role == Spine {
      return;
    }

    var vtepIPs := t.vtepIPs;
    UsedGrows(LeafVteps(sws), i);
    if IsLeaf(s) {
      total := total + 1;
      if s.spec.vtep != Unset {
        if !s.spec.vtep.Cidr? || s.spec.vtep.bits != 32 || !Contains(f.vtep, s.spec.vtep.addr) {
          return;
        }
        var fine;
        fine, peers := CheckVtep(sws, i, s, peers, vtepIPs);
        if !fine {
          return;
        }
        vtepIPs := vtepIPs + {s.spec.vtep.addr};
      } else {
        missing := missing + 1;
      }
    }
    ok, t' := true, t.(vtepIPs := vtepIPs, leafASNs := leafASNs, peers := peers);
  }

  /** One turn of the switch loop. */
  method CheckSwitch(f: FabConfig, ghost taken: set<U32>, ghost sws: seq<Switch>, ghost i: nat, s: Switch, t: Seen)
    returns (ok: bool, t': Seen, total: nat, missing: nat)
    requires i < |sws| && sws[i] == s && HasSeen(t, taken, sws, i)
    ensures ok <==> SwitchSoundAt(f, taken, sws, i)
    ensures ok ==> HasSeen(t', taken, sws, i + 1)
    ensures ok ==> Tally(total, missing) == SwitchTally(s)
  {
    ok, t', total, missing := false, t, 2, 0;
    if !ValidRole(s) {
      return;
    }

    var mgmtIPs := t.mgmtIPs;
    if s.spec.ip != Unset {
      if !s.spec.ip.Cidr? || !Contains(f.mgmt, s.spec.ip.addr) || s.spec.ip.addr >= f.dhcpStart {
        return;
      }
      var fine;
      fine, mgmtIPs := Record(taken, SwitchIPs(sws), i, s.spec.ip, mgmtIPs);
      if !fine {
        return;
      }
    } else {
      UsedGrows(SwitchIPs(sws), i);
      missing := missing + 1;
    }

    var protocolIPs := t.protocolIPs;
    if s.spec.protocolIP != Unset {
      if !s.spec.protocolIP.Cidr? || s.spec.protocolIP.bits != 32 || !Contains(f.protocol, s.spec.protocolIP.addr) {
        return;
      }
      var fine;
      fine, protocolIPs := Record({}, SwitchProtos(sws), i, s.spec.protocolIP, protocolIPs);
      if !fine {
        return;
      }
    } else {
      UsedGrows(SwitchProtos(sws), i);
      missing := missing + 1;
    }

    var total', missing';
    ok, t', total', missing' := CheckUnderlay(f, sws, i, s, t);
    t' := t'.(mgmtIPs := mgmtIPs, protocolIPs := protocolIPs);
    total, missing := total + total', missing + missing';
  }

  lemma {:induction false} NoSwitchSeen(taken: set<U32>, sws: seq<Switch>)
    ensures HasSeen(Seen(taken, {}, {}, {}, map[]), taken, sws, 0)
  {
  }

  method CheckSwitches(f: FabConfig, taken: set<U32>, sws: seq<Switch>)
    returns (ok: bool, protocolIPs: set<U32>, vtepIPs: set<U32>, total: nat, missing: nat)
    ensures ok <==> SwitchesSound(f, taken, sws)
    ensures ok ==>
      && protocolIPs == Used(SwitchProtos(sws)) && vtepIPs == Used(LeafVteps(sws))
      && Tally(total, missing) == Sum(SwitchTallies(sws))
  {
    hide SwitchSoundAt, ReferenceTable, LeafASNs;
    NoSwitchSeen(taken, sws);
    ghost var tallies := SwitchTallies(sws);
    ok, total, missing := false, 0, 0;
    var t := Seen(taken, {}, {}, {}, map[]);
    protocolIPs, vtepIPs := {}, {};
    var i := 0;
    while i < |sws|
      invariant 0 <= i <= |sws|
      invariant forall k :: 0 <= k < i ==> SwitchSoundAt(f, taken, sws, k)
      invariant HasSeen(t, taken, sws, i)
      invariant !ok
      invariant Tally(total, missing) == SumUpTo(tallies, i)
    {
      var fine, total', missing';
      fine, t, total', missing' := CheckSwitch(f, taken, sws, i, sws[i], t);
      if !fine {
        return;
      }
      total, missing := total + total', missing + missing';
      i := i + 1;
    }
    ok, protocolIPs, vtepIPs := true, t.protocolIPs, t.vtepIPs;
  }

  /** One turn of the link loops, which are the same for fabric, mesh and gateway connections. */
  method CheckLink(f: FabConfig, ghost links: seq<Link>, ghost m: nat, l: Link, fabricIPs: set<U32>)
    returns (ok: bool, fabricIPs': set<U32>, missing: nat)
    requires m < |links| && links[m] == l
    requires fabricIPs == LinkUsed(links, m)
    ensures ok <==> LinkSoundAt(f, links, m)
    ensures ok ==> fabricIPs' == LinkUsed(links, m + 1)
    ensures ok ==> missing == LinkTally(l).missing
  {
    ok, fabricIPs', missing := false, fabricIPs, 0;
    if l.near.ip == Unset {
      missing := missing + 1;
    }
    if l.far.ip == Unset {
      missing := missing + 1;
    }
    if l.near.ip == Unset || l.far.ip == Unset {
      ok := true;
      return;
    }
    if !PointToPoint(f, l.near.ip) || l.near.ip.addr in fabricIPs' {
      return;
    }
    fabricIPs' := fabricIPs' + {l.near.ip.addr};
    if !PointToPoint(f, l.far.ip) || l.far.ip.addr in fabricIPs' {
      return;
    }
    fabricIPs' := fabricIPs' + {l.far.ip.addr};
    ok := Mask(l.near.ip.addr, 1) == Mask(l.far.ip.addr, 1);
  }

  /** The first n elements of own sit at position start of all. */
  ghost predicate SitsAt(all: seq<Link>, start: nat, own: seq<Link>, n: nat)
    requires n <= |own|
  {
    start + n <= |all| && (n == 0 || (SitsAt(all, start, own, n - 1) && all[start + n - 1] == own[n - 1]))
  }

  lemma {:induction false} SitsAtMeaning(all: seq<Link>, start: nat, own: seq<Link>, n: nat)
    requires n <= |own|
    ensures SitsAt(all, start, own, n) <==> start + n <= |all| && all[start..start + n] == own[..n]
  {
    if n > 0 {
      SitsAtMeaning(all, start, own, n - 1);
      if start + n <= |all| {
        assert all[start..start + n] == all[start..start + n - 1] + [all[start + n - 1]];
        assert own[..n] == own[..n - 1] + [own[n - 1]];
      }
    }
  }

  lemma {:induction false} SitsAtIndex(all: seq<Link>, start: nat, own: seq<Link>, n: nat, idx: nat)
    requires n <= |own| && idx < n && SitsAt(all, start, own, n)
    ensures start + idx < |all| && all[start + idx] == own[idx]
  {
    if idx + 1 < n {
      SitsAtIndex(all, start, own, n - 1, idx);
    }
  }

  /** Where the links of one connection sit among all links. */
  lemma {:induction false} LinksAt(conns: seq<Conn>, c: nat)
    requires c < |conns|
    ensures var start, own := LinkCount(conns, c), Addressed(conns[c]);
      && LinkCount(conns, c + 1) == start + |own| <= |AllLinks(conns)|
      && SitsAt(AllLinks(conns), start, own, |own|)
  {
    hide SitsAt, Addressed;
    LinksPrefix(conns, c, |conns|);
    LinksPrefix(conns, c + 1, |conns|);
    LinksCounted(conns, c);
    SitsAtMeaning(AllLinks(conns), LinkCount(conns, c), Addressed(conns[c]), |Addressed(conns[c])|);
  }

  predicate LinksSoundUpTo(f: FabConfig, links: seq<Link>, m: nat)
    requires m <= |links|
  {
    m == 0 || (LinksSoundUpTo(f, links, m - 1) && LinkSoundAt(f, links, m - 1))
  }

  lemma {:induction false} LinksSoundMeaning(f: FabConfig, links: seq<Link>, m: nat)
    requires m <= |links|
    ensures LinksSoundUpTo(f, links, m) <==> forall k :: 0 <= k < m ==> LinkSoundAt(f, links, k)
  {
    if m > 0 {
      LinksSoundMeaning(f, links, m - 1);
    }
  }

  /** The checker's state after the first m links. */
  ghost predicate LinksSeen(f: FabConfig, links: seq<Link>, m: nat, fabricIPs: set<U32>, t: Tally) {
    && m <= |links|
    && LinksSoundUpTo(f, links, m)
    && fabricIPs == LinkUsed(links, m)
    && t == SumUpTo(LinkTallies(links), m)
  }

  /** The link loop of one connection whose links sit at position start of all links. */
  method CheckConnLinks(f: FabConfig, ghost links: seq<Link>, ghost start: nat, conn: Conn, fabricIPs: set<U32>, t: Tally)
    returns (ok: bool, fabricIPs': set<U32>, t': Tally)
    requires SitsAt(links, start, conn.spec.links, |conn.spec.links|)
    requires LinksSeen(f, links, start, fabricIPs, t)
    ensures ok ==> LinksSeen(f, links, start + |conn.spec.links|, fabricIPs', t')
    ensures !ok ==> !LinksSound(f, links)
  {
    ok, fabricIPs', t' := false, fabricIPs, t;
    ghost var m := start;
    var idx := 0;
    while idx < |conn.spec.links|
      invariant 0 <= idx <= |conn.spec.links| && m == start + idx
      invariant LinksSeen(f, links, m, fabricIPs', t')
      invariant !ok
    {
      SitsAtIndex(links, start, conn.spec.links, |conn.spec.links|, idx);
      var fine, missing;
      fine, fabricIPs', missing := CheckLink(f, links, m, conn.spec.links[idx], fabricIPs');
      if !fine {
        return;
      }
      t', idx, m := Tally(t'.total + 2, t'.missing + missing), idx + 1, m + 1;
    }
    ok := true;
  }

  lemma {:induction false} NothingSeen(f: FabConfig, links: seq<Link>)
    ensures LinksSeen(f, links, 0, {}, Tally(0, 0))
  {
  }

  method CheckConnList(f: FabConfig, conns: seq<Conn>) returns (ok: bool, t: Tally, ghost fabricIPs: set<U32>)
    ensures ok ==> LinksSeen(f, AllLinks(conns), |AllLinks(conns)|, fabricIPs, t)
    ensures !ok ==> !LinksSound(f, AllLinks(conns))
  {
    hide LinkSoundAt, LinkUsed, SumUpTo, LinkTallies, LinksSoundUpTo, SitsAt;
    NothingSeen(f, AllLinks(conns));
    ghost var links := AllLinks(conns);
    ghost var m := 0;
    ok, t := true, Tally(0, 0);
    var inUse: set<U32> := {};
    var c := 0;
    while c < |conns| && ok
      invariant 0 <= c <= |conns|
      invariant ok ==> m == LinkCount(conns, c) && LinksSeen(f, links, m, inUse, t)
      invariant !ok ==> !LinksSound(f, links)
    {
      LinksAt(conns, c);
      if conns[c].spec.kind != OtherConn {
        ok, inUse, t := CheckConnLinks(f, links, m, conns[c], inUse, t);
        m := m + |conns[c].spec.links|;
      }
      c := c + 1;
    }
    LinksCounted(conns, |conns|);
    fabricIPs := inUse;
  }

  method CheckConns(f: FabConfig, conns: seq<Conn>) returns (ok: bool, total: nat, missing: nat)
    ensures ok <==> LinksSound(f, AllLinks(conns))
    ensures ok ==> Tally(total, missing) == Sum(LinkTallies(AllLinks(conns)))
  {
    var t;
    ghost var inUse;
    ok, t, inUse := CheckConnList(f, conns);
    LinksSoundMeaning(f, AllLinks(conns), |AllLinks(conns)|);
    total, missing := t.total, t.missing;
  }

  /** One turn of the gateway loop. */
  method CheckGateway(f: FabConfig, ghost protos: set<U32>, ghost vteps: set<U32>, ghost gws: seq<Gateway>, ghost i: nat,
                      g: Gateway, protocolIPs: set<U32>, vtepIPs: set<U32>)
    returns (ok: bool, protocolIPs': set<U32>, vtepIPs': set<U32>, missing: nat)
    requires i < |gws| && gws[i] == g
    requires protocolIPs == protos + UsedUpTo(GatewayProtos(gws), i) && vtepIPs == vteps + UsedUpTo(GatewayVteps(gws), i)
    ensures ok <==> GatewaySoundAt(f, protos, vteps, gws, i)
    ensures ok ==> protocolIPs' == protos + UsedUpTo(GatewayProtos(gws), i + 1)
    ensures ok ==> vtepIPs' == vteps + UsedUpTo(GatewayVteps(gws), i + 1)
    ensures ok ==> Tally(3, missing) == GatewayTally(g)
  {
    ok, protocolIPs', vtepIPs', missing := false, protocolIPs, vtepIPs, 0;
    UsedGrows(GatewayProtos(gws), i);
    UsedGrows(GatewayVteps(gws), i);
    if g.spec.asn != 0 {
      if g.spec.asn != f.gatewayASN {
        return;
      }
    } else {
      missing := missing + 1;
    }
    if g.spec.protocolIP != Unset {
      if !g.spec.protocolIP.Cidr? || g.spec.protocolIP.bits != 32 || !Contains(f.protocol, g.spec.protocolIP.addr) {
        return;
      }
      var fine;
      fine, protocolIPs' := Record(protos, GatewayProtos(gws), i, g.spec.protocolIP, protocolIPs);
      if !fine {
        return;
      }
    } else {
      missing := missing + 1;
    }
    if g.spec.vtep != Unset {
      if !g.spec.vtep.Cidr? || g.spec.vtep.bits != 32 || !Contains(f.vtep, g.spec.vtep.addr) {
        return;
      }
      var fine;
      fine, vtepIPs' := Record(vteps, GatewayVteps(gws), i, g.spec.vtep, vtepIPs);
      if !fine {
        return;
      }
    } else {
      missing := missing + 1;
    }
    ok := true;
  }

  method CheckGateways(f: FabConfig, protos: set<U32>, vteps: set<U32>, gws: seq<Gateway>)
    returns (ok: bool, total: nat, missing: nat)
    ensures ok <==> GatewaysSound(f, protos, vteps, gws)
    ensures ok ==> Tally(total, missing) == Sum(GatewayTallies(gws))
  {
    ghost var tallies := GatewayTallies(gws);
    ok, total, missing := false, 0, 0;
    var protocolIPs, vtepIPs := protos, vteps;
    var i := 0;
    while i < |gws|
      invariant 0 <= i <= |gws|
      invariant forall k :: 0 <= k < i ==> GatewaySoundAt(f, protos, vteps, gws, k)
      invariant protocolIPs == protos + UsedUpTo(GatewayProtos(gws), i)
      invariant vtepIPs == vteps + UsedUpTo(GatewayVteps(gws), i)
      invariant Tally(total, missing) == SumUpTo(tallies, i)
      invariant !ok
    {
      var fine, missing';
      fine, protocolIPs, vtepIPs, missing' := CheckGateway(f, protos, vteps, gws, i, gws[i], protocolIPs, vtepIPs);
      if !fine {
        return;
      }
      total, missing, i := total + 3, missing + missing', i + 1;
    }
    ok := true;
  }

  /** The controls, nodes and switches. */
  method CheckDevices(f: FabConfig, w: Wiring) returns (ok: bool, protocolIPs: set<U32>, vtepIPs: set<U32>, total: nat, missing: nat)
    ensures ok <==> HostsSound(f, Hosts(w)) && SwitchesSound(f, {f.vip} + Used(HostMgmt(Hosts(w))), w.switches)
    ensures ok ==> protocolIPs == Used(SwitchProtos(w.switches)) && vtepIPs == Used(LeafVteps(w.switches))
    ensures ok ==> Tally(total, missing) == Add(Sum(HostTallies(Hosts(w))), Sum(SwitchTallies(w.switches)))
  {
    protocolIPs, vtepIPs := {}, {};
    var mgmtIPs, total', missing';
    ok, mgmtIPs, total, missing := CheckHosts(f, w.controls + w.nodes);
    if !ok {
      return;
    }
    ok, protocolIPs, vtepIPs, total', missing' := CheckSwitches(f, mgmtIPs, w.switches);
    total, missing := total + total', missing + missing';
  }

  /** All checks, and the counts of fields and of missing fields. */
  method CheckAll(f: FabConfig, w: Wiring) returns (ok: bool, total: nat, missing: nat)
    ensures ok <==> Sound(f, w)
    ensures ok ==> Tally(total, missing) == WiringTally(w)
  {
    total, missing := 0, 0;
    ok := Contains(f.mgmt, f.dhcpStart) && Contains(f.mgmt, f.dhcpEnd) && f.dhcpStart < f.dhcpEnd && f.dummy.bits <= 24;
    if !ok {
      return;
    }
    var protocolIPs, vtepIPs, total', missing';
    ok, protocolIPs, vtepIPs, total, missing := CheckDevices(f, w);
    if !ok {
      return;
    }
    ok, total', missing' := CheckConns(f, w.conns);
    if !ok {
      return;
    }
    total, missing := total + total', missing + missing';
    ok, total', missing' := CheckGateways(f, protocolIPs, vtepIPs, w.gateways);
    total, missing := total + total', missing + missing';
  }

  /** The checker: its verdict is the declarative one. */
  method GetHydration(f: FabConfig, w: Wiring) returns (v: Verdict)
    ensures v == Check(f, w)
  {
    hide Sound, WiringTally;
    var ok, total, missing := CheckAll(f, w);
    if !ok {
      v := Err;
    } else if missing == total {
      v := Ok(Nothing);
    } else if total > 0 && missing == 0 {
      v := Ok(Full);
    } else {
      v := Ok(Partial);
    }
  }
}
