/** The checker's answers read off the fields: when it objects, and when it says Full or Nothing. */
module Answers {
  import opened Net
  import opened WiringModel
  import opened Store
  import opened Checker
  import opened Health

  // ---- The answer ------------------------------------------------------------------------------------------------

  lemma {:induction false} ConfigIff(f: FabConfig)
    ensures ConfigOk(f) <==> ConfigHealthy(f)
  {
    ContainsRange(f.mgmt, f.dhcpStart);
    ContainsRange(f.mgmt, f.dhcpEnd);
  }

  ghost predicate Healthy(f: FabConfig, w: Wiring) {
    ConfigHealthy(f) && HostsHealthy(f, w) && SwitchesHealthy(f, w) && LinksHealthy(f, w) && GatewaysHealthy(f, w)
  }

  /** The checker does not object exactly when the fields are healthy. */
  lemma {:induction false} AcceptedIff(f: FabConfig, w: Wiring)
    ensures Check(f, w) != Err <==> Healthy(f, w)
  {
    hide ConfigOk, ConfigHealthy, HostsSound, HostsHealthy, SwitchesSound, SwitchesHealthy, LinksSound, LinksHealthy, GatewaysSound, GatewaysHealthy;
    hide StatusOf, WiringTally, Used;
    ConfigIff(f);
    HostsIff(f, w);
    LinksIff(f, w);
    if HostsHealthy(f, w) {
      SwitchesIff(f, w);
      if SwitchesHealthy(f, w) {
        GatewaysIff(f, w);
      }
    }
  }

  /** Every field the checker counts is there. */
  ghost predicate Filled(w: Wiring) {
    && (forall h :: h in w.controls + w.nodes ==> IsSet(h.spec.mgmt))
    && (forall s :: s in w.switches ==>
         IsSet(s.spec.ip) && IsSet(s.spec.protocolIP) && s.spec.asn != 0 && (s.spec.role != Spine ==> IsSet(s.spec.vtep)))
    && (forall c: nat, k: nat :: HasLink(w.conns, c, k) ==> Numbered(w.conns[c].spec.links[k]))
    && (forall g :: g in w.gateways ==> g.spec.asn != 0 && IsSet(g.spec.protocolIP) && IsSet(g.spec.vtep))
  }

  /** None is. */
  ghost predicate Blank(w: Wiring) {
    && (forall h :: h in w.controls + w.nodes ==> !IsSet(h.spec.mgmt))
    && (forall s :: s in w.switches ==>
         !IsSet(s.spec.ip) && !IsSet(s.spec.protocolIP) && s.spec.asn == 0 && (s.spec.role != Spine ==> !IsSet(s.spec.vtep)))
    && (forall c: nat, k: nat :: HasLink(w.conns, c, k) ==> !IsSet(w.conns[c].spec.links[k].near.ip) && !IsSet(w.conns[c].spec.links[k].far.ip))
    && (forall g :: g in w.gateways ==> g.spec.asn == 0 && !IsSet(g.spec.protocolIP) && !IsSet(g.spec.vtep))
  }

  /** There is something to count. */
  ghost predicate Inhabited(w: Wiring) {
    w.controls != [] || w.nodes != [] || w.switches != [] || w.gateways != [] || exists c: nat, k: nat :: HasLink(w.conns, c, k)
  }

  lemma {:induction false} LinksFilled(conns: seq<Conn>)
    ensures LinksSet(AllLinks(conns)) <==> forall c: nat, k: nat :: HasLink(conns, c, k) ==> Numbered(conns[c].spec.links[k])
    ensures LinksUnset(AllLinks(conns)) <==>
      forall c: nat, k: nat :: HasLink(conns, c, k) ==> !IsSet(conns[c].spec.links[k].near.ip) && !IsSet(conns[c].spec.links[k].far.ip)
    ensures |AllLinks(conns)| > 0 <==> exists c: nat, k: nat :: HasLink(conns, c, k)
  {
    hide LinkCount, LinksUpTo;
    var l := AllLinks(conns);
    forall c: nat, k: nat | HasLink(conns, c, k)
      ensures conns[c].spec.links[k] in l
    {
      LinkPosition(conns, c, k);
    }
    forall p | 0 <= p < |l|
      ensures Listed(conns, l[p])
    {
      var c, k := LinkFound(conns, |conns|, p);
      assert HasLink(conns, c, k);
    }
    if |l| > 0 {
      assert Listed(conns, l[0]);
    }
    LinksFilledBy(conns, l);
  }

  ghost predicate Listed(conns: seq<Conn>, l: Link) {
    exists c: nat, k: nat :: HasLink(conns, c, k) && l == conns[c].spec.links[k]
  }

  lemma {:induction false} LinksFilledBy(conns: seq<Conn>, l: seq<Link>)
    requires forall c: nat, k: nat :: HasLink(conns, c, k) ==> conns[c].spec.links[k] in l
    requires forall p :: 0 <= p < |l| ==> Listed(conns, l[p])
    ensures LinksSet(l) <==> forall c: nat, k: nat :: HasLink(conns, c, k) ==> Numbered(conns[c].spec.links[k])
    ensures LinksUnset(l) <==>
      forall c: nat, k: nat :: HasLink(conns, c, k) ==> !IsSet(conns[c].spec.links[k].near.ip) && !IsSet(conns[c].spec.links[k].far.ip)
  {
  }

  lemma {:induction false} LinkPosition(conns: seq<Conn>, c: nat, k: nat)
    requires HasLink(conns, c, k)
    ensures c < |conns| && k < |conns[c].spec.links| && conns[c].spec.links[k] in AllLinks(conns)
  {
    LinkStands(conns, c, k);
  }

  /** In a healthy list a switch is a leaf unless it is a spine. */
  lemma {:induction false} LeafUnlessSpine(f: FabConfig, w: Wiring)
    requires SwitchesHealthy(f, w)
    ensures forall i :: 0 <= i < |w.switches| ==> (IsLeaf(w.switches[i]) <==> w.switches[i].spec.role != Spine)
  {
    hide AsnHealthy, VtepHealthy, SwitchesApart, Differ;
    forall i | 0 <= i < |w.switches|
      ensures IsLeaf(w.switches[i]) <==> w.switches[i].spec.role != Spine
    {
      assert SwitchHealthy(f, w.switches[i]);
    }
  }

  lemma {:induction false} FilledRead(f: FabConfig, w: Wiring)
    requires SwitchesHealthy(f, w)
    ensures AllSet(w) <==> Filled(w)
  {
    hide HasLink, LinksSet, Numbered, SwitchesHealthy, IsLeaf, AllLinks;
    LinksFilled(w.conns);
    LeafUnlessSpine(f, w);
  }

  lemma {:induction false} BlankRead(f: FabConfig, w: Wiring)
    requires SwitchesHealthy(f, w)
    ensures AllUnset(w) <==> Blank(w)
  {
    hide HasLink, LinksUnset, SwitchesHealthy, IsLeaf, AllLinks;
    LinksFilled(w.conns);
    LeafUnlessSpine(f, w);
  }

  lemma {:induction false} InhabitedRead(w: Wiring)
    ensures !Empty(w) <==> Inhabited(w)
  {
    hide HasLink, LinksSet, LinksUnset, AllLinks;
    LinksFilled(w.conns);
  }

  lemma {:induction false} StatusRead(f: FabConfig, w: Wiring)
    requires SwitchesHealthy(f, w)
    ensures AllSet(w) <==> Filled(w)
    ensures AllUnset(w) <==> Blank(w)
    ensures !Empty(w) <==> Inhabited(w)
  {
    hide AllSet, AllUnset, Filled, Blank, Empty, Inhabited, SwitchesHealthy;
    FilledRead(f, w);
    BlankRead(f, w);
    InhabitedRead(w);
  }

  /** Full, Nothing and Partial, read off the fields. */
  lemma {:induction false} AnswersRead(f: FabConfig, w: Wiring)
    ensures Check(f, w) == Ok(Full) <==> Healthy(f, w) && Filled(w) && Inhabited(w)
    ensures Check(f, w) == Ok(Nothing) <==> Healthy(f, w) && Blank(w)
    ensures Check(f, w) == Ok(Partial) <==> Healthy(f, w) && !Blank(w) && !Filled(w)
  {
    hide Sound, WiringTally, Filled, Blank, Inhabited, ConfigHealthy, HostsHealthy, SwitchesHealthy, LinksHealthy, GatewaysHealthy, AllSet, AllUnset, Empty;
    AcceptedIff(f, w);
    StatusMeaning(w);
    if Healthy(f, w) {
      StatusRead(f, w);
      SomethingIsSet(w);
    }
  }

  lemma {:induction false} SomethingIsSet(w: Wiring)
    ensures Empty(w) ==> AllUnset(w)
  {
  }
}
