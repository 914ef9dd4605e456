/** What the entries read after an overlay, field by field, and what is then probed. */
module OverlayReads {
  import opened Net
  import opened Store
  import opened Matrix
  import opened MatrixPhases
  import opened MatrixRun
  import opened MatrixProbes
  import opened Overlays
  import StaticNat
  import ExternalForward

  /** Listed servers of the two VPCs. */
  ghost predicate Between(m: Matrix, p: Pair, srcVPC: Name, dstVPC: Name) {
    && p.source in m.all && p.source in m.ends && m.ends[p.source].Server? && m.ends[p.source].vpc == srcVPC
    && p.destination in m.all && p.destination in m.ends && m.ends[p.destination].Server? && m.ends[p.destination].vpc == dstVPC
  }

  /** A listed server of the VPC and a listed external. */
  ghost predicate Outward(m: Matrix, p: Pair, vpc: Name) {
    && p.source in m.all && p.source in m.ends && m.ends[p.source].Server? && m.ends[p.source].vpc == vpc
    && p.destination in m.all && p.destination in m.ends && m.ends[p.destination].External?
  }

  /** The pair's entry for the port is as it was. */
  ghost predicate Same(was: Entries, now: Entries, p: Pair, pp: ProtoPort) {
    && (HasEntry(now, p, pp) <==> HasEntry(was, p, pp))
    && (HasEntry(was, p, pp) && HasEntry(now, p, pp) ==> now[p][pp] == was[p][pp])
  }

  /** An entry keeps the reason it had, and an entry without one is put down to the gateway. */
  ghost predicate ReasonKept(e: Expectation, now: Expectation) {
    && (e.reason != NoReason ==> now.reason == e.reason)
    && (e.reason == NoReason ==> now.reason == GatewayPeering)
    && now.peering == e.peering
  }

  /** What is kept of the translation there was, if any. */
  ghost predicate PoolKept(e: Expectation, now: Translation) {
    now.sourcePool == if e.translation.Some? then e.translation.value.sourcePool else None
  }

  ghost predicate AddressKept(e: Expectation, now: Translation) {
    now.destinationIP == if e.translation.Some? then e.translation.value.destinationIP else Invalid
  }

  ghost predicate PortKept(e: Expectation, now: Translation) {
    now.destinationPort == if e.translation.Some? then e.translation.value.destinationPort else 0
  }

  /** The address has the server's place in the pool. */
  ghost predicate InPlace(subnet: Prefix, pool: Prefix, d: Endpoint, ip: Addr) {
    d.Server? && d.ip.V4? && ip.V4? && ip.n - Masked(pool) == d.ip.n - Masked(subnet) && Masked(pool) <= ip.n < Masked(pool) + Size(pool)
  }

  /** The server's address is in the subnet, and not beyond the size of the pool. */
  ghost predicate Placeable(subnet: Prefix, pool: Prefix, d: Endpoint) {
    d.Server? && d.ip.V4? && Masked(subnet) <= d.ip.n < Masked(subnet) + Size(subnet) && d.ip.n - Masked(subnet) < Size(pool)
  }

  // ---- Plain overlays ------------------------------------------------------------------------------------------

  lemma {:induction false} StoredSame(was: Entries, now: Entries, target: map<Pair, Expectation>, pp: ProtoPort, p: Pair, q: ProtoPort)
    requires Applied(was, now, target, pp)
    ensures p in target && q == pp ==> HasEntry(now, p, q) && now[p][q] == target[p]
    ensures !(p in target && q == pp) ==> Same(was, now, p, q)
  {
    assert Stored(now, p, q) == if p in target && q == pp then Some(target[p]) else Stored(was, p, q);
  }

  lemma {:induction false} BetweenSelected(m: Matrix, p: Pair, srcVPC: Name, dstVPC: Name)
    ensures Between(m, p, srcVPC, dstVPC) <==> p in SelectedPairs(m, InVPC(srcVPC), InVPC(dstVPC))
  {
    if Between(m, p, srcVPC, dstVPC) {
      ExternalForward.ListedSelected(m, InVPC(srcVPC), InVPC(dstVPC), p.source, p.destination);
    }
  }

  lemma {:induction false} OutwardSelected(m: Matrix, p: Pair, vpc: Name, ext: Name)
    ensures Outward(m, p, vpc) && m.ends[p.destination].name == ext <==> p in SelectedPairs(m, InVPC(vpc), ExternalNamed(ext))
    ensures Outward(m, p, vpc) && m.ends[p.destination].name != ext <==> p in SelectedPairs(m, InVPC(vpc), OtherThan(ext))
  {
    if Outward(m, p, vpc) {
      ExternalForward.ListedSelected(m, InVPC(vpc), ExternalNamed(ext), p.source, p.destination);
      ExternalForward.ListedSelected(m, InVPC(vpc), OtherThan(ext), p.source, p.destination);
    }
  }

  /** After OverrideVerdict a plain connection between the VPCs meets the requested verdict, everything else as before. */
  lemma {:induction false} OverrideReads(m: Matrix, now: Entries, srcVPC: Name, dstVPC: Name, verdict: Verdict, p: Pair, e: Expectation)
    requires Applied(m.entries, now, RewriteTarget(m, InVPC(srcVPC), InVPC(dstVPC), WithVerdict(verdict)), DEFAULT)
    requires Reads(m, p.source, p.destination, e)
    ensures Between(m, p, srcVPC, dstVPC) ==> HasEntry(now, p, DEFAULT) && var x := now[p][DEFAULT];
      x.verdict == verdict && x.translation == e.translation && ReasonKept(e, x) && x.protoPort == DEFAULT
    ensures forall q :: q != DEFAULT || !Between(m, p, srcVPC, dstVPC) ==> Same(m.entries, now, p, q)
  {
    hide Applied, SelectedPairs, Lookup, Reads, Between, Same;
    var target := RewriteTarget(m, InVPC(srcVPC), InVPC(dstVPC), WithVerdict(verdict));
    BetweenSelected(m, p, srcVPC, dstVPC);
    LookupReads(m, p.source, p.destination, e);
    forall q
      ensures p in target && q == DEFAULT ==> HasEntry(now, p, q) && now[p][q] == target[p]
      ensures !(p in target && q == DEFAULT) ==> Same(m.entries, now, p, q)
    {
      StoredSame(m.entries, now, target, DEFAULT, p, q);
    }
  }

  /** After SetPortVerdict the port between the VPCs has the requested verdict, everything else as before. */
  lemma {:induction false} PortVerdictReads(m: Matrix, now: Entries, srcVPC: Name, dstVPC: Name, pp: ProtoPort, verdict: Verdict, p: Pair, e: Expectation)
    requires Applied(m.entries, now, RewriteTarget(m, InVPC(srcVPC), InVPC(dstVPC), WithPortVerdict(pp, verdict)), pp)
    requires Reads(m, p.source, p.destination, e)
    ensures Between(m, p, srcVPC, dstVPC) ==> HasEntry(now, p, pp) && var x := now[p][pp];
      x.verdict == verdict && x.translation == e.translation && x.reason == GatewayPeering && x.peering == e.peering && x.protoPort == pp
    ensures forall q :: q != pp || !Between(m, p, srcVPC, dstVPC) ==> Same(m.entries, now, p, q)
  {
    hide Applied, SelectedPairs, Lookup, Reads, Between, Same;
    var target := RewriteTarget(m, InVPC(srcVPC), InVPC(dstVPC), WithPortVerdict(pp, verdict));
    BetweenSelected(m, p, srcVPC, dstVPC);
    LookupReads(m, p.source, p.destination, e);
    forall q
      ensures p in target && q == pp ==> HasEntry(now, p, q) && now[p][q] == target[p]
      ensures !(p in target && q == pp) ==> Same(m.entries, now, p, q)
    {
      StoredSame(m.entries, now, target, pp, p, q);
    }
  }

  /** After ExternalNoEgress every other external is denied to the VPC, untranslated, everything else as before. */
  lemma {:induction false} NoEgressReads(m: Matrix, now: Entries, vpc: Name, keepExt: Name, p: Pair)
    requires Applied(m.entries, now, RewriteTarget(m, InVPC(vpc), OtherThan(keepExt), NoEgress()), DEFAULT)
    ensures Outward(m, p, vpc) && m.ends[p.destination].name != keepExt ==> HasEntry(now, p, DEFAULT) && var x := now[p][DEFAULT];
      x.verdict == Deny && x.translation.None? && x.reason == NoReason && x.peering.None? && x.protoPort == DEFAULT
    ensures forall q :: q != DEFAULT || !Outward(m, p, vpc) || m.ends[p.destination].name == keepExt ==> Same(m.entries, now, p, q)
  {
    hide Applied, SelectedPairs, Lookup, Same;
    var target := RewriteTarget(m, InVPC(vpc), OtherThan(keepExt), NoEgress());
    OutwardSelected(m, p, vpc, keepExt);
    forall q
      ensures p in target && q == DEFAULT ==> HasEntry(now, p, q) && now[p][q] == target[p]
      ensures !(p in target && q == DEFAULT) ==> Same(m.entries, now, p, q)
    {
      StoredSame(m.entries, now, target, DEFAULT, p, q);
    }
  }

  // ---- NAT overlays ----------------------------------------------------------------------------------------------

  /** What the overlay leaves at one pair: the mutated translation of what was read there. */
  lemma {:induction false} OverlaidReads(m: Matrix, now: Entries, srcPred: Endpoint -> bool, dstPred: Endpoint -> bool, mutate: Mutator, p: Pair, e: Expectation)
    requires WellFormed(m) && Applied(m.entries, now, OverlayTarget(m, srcPred, dstPred, mutate), DEFAULT)
    requires Reads(m, p.source, p.destination, e) && p.source in m.ends && p.destination in m.ends
    ensures p in SelectedPairs(m, srcPred, dstPred) && Mutated(m, mutate, p).Some? ==> HasEntry(now, p, DEFAULT) && var x := now[p][DEFAULT];
      x.verdict == Allow && x.translation == Mutated(m, mutate, p) && ReasonKept(e, x) && x.protoPort == DEFAULT
    ensures forall q :: q != DEFAULT || p !in SelectedPairs(m, srcPred, dstPred) ==> Same(m.entries, now, p, q)
  {
    hide Applied, SelectedPairs, Lookup, Reads, Same, OverlayTarget, WellFormed;
    var target := OverlayTarget(m, srcPred, dstPred, mutate);
    TargetAt(m, srcPred, dstPred, mutate, p);
    LookupReads(m, p.source, p.destination, e);
    forall q
      ensures p in target && q == DEFAULT ==> HasEntry(now, p, q) && now[p][q] == target[p]
      ensures !(p in target && q == DEFAULT) ==> Same(m.entries, now, p, q)
    {
      StoredSame(m.entries, now, target, DEFAULT, p, q);
    }
  }

  /** After ExternalSNAT the VPC is allowed to the external with the pool, the destination translation kept. */
  lemma {:induction false} SourceNatReads(m: Matrix, now: Entries, vpc: Name, ext: Name, pool: Prefix, p: Pair, e: Expectation)
    requires WellFormed(m) && Applied(m.entries, now, OverlayTarget(m, InVPC(vpc), ExternalNamed(ext), ToPool(pool)), DEFAULT)
    requires Reads(m, p.source, p.destination, e) && p.source in m.ends && p.destination in m.ends
    ensures Outward(m, p, vpc) && m.ends[p.destination].name == ext ==> HasEntry(now, p, DEFAULT) && var x := now[p][DEFAULT];
      && x.verdict == Allow && ReasonKept(e, x) && x.translation.Some? && x.translation.value.sourcePool == Some(pool)
      && AddressKept(e, x.translation.value) && PortKept(e, x.translation.value)
    ensures forall q :: q != DEFAULT || !Outward(m, p, vpc) || m.ends[p.destination].name != ext ==> Same(m.entries, now, p, q)
  {
    hide Applied, SelectedPairs, OverlayTarget, WellFormed, Same;
    OverlaidReads(m, now, InVPC(vpc), ExternalNamed(ext), ToPool(pool), p, e);
    OutwardSelected(m, p, vpc, ext);
    LookupReads(m, p.source, p.destination, e);
  }

  lemma {:induction false} Placed(subnet: Prefix, pool: Prefix, d: Endpoint)
    requires Placeable(subnet, pool, d)
    ensures StaticAddress(d, subnet, pool).Some? && InPlace(subnet, pool, d, StaticAddress(d, subnet, pool).value)
  {
    var ip := d.ip.n;
    ContainsRange(subnet, ip);
    StaticNat.LandsInPool(ip, subnet, pool);
    ContainsRange(pool, StaticAddress(d, subnet, pool).value.n);
  }

  /** After StaticDNAT a source aims at the server's place in the pool, the rest of the translation kept. */
  lemma {:induction false} StaticReads(m: Matrix, now: Entries, srcVPC: Name, dstVPC: Name, subnet: Prefix, pool: Prefix, p: Pair, e: Expectation)
    requires WellFormed(m) && Applied(m.entries, now, OverlayTarget(m, InVPC(srcVPC), InVPC(dstVPC), ToStatic(subnet, pool)), DEFAULT)
    requires Reads(m, p.source, p.destination, e) && p.source in m.ends && p.destination in m.ends
    ensures Between(m, p, srcVPC, dstVPC) && Placeable(subnet, pool, m.ends[p.destination]) ==> HasEntry(now, p, DEFAULT) && var x := now[p][DEFAULT];
      && x.verdict == Allow && ReasonKept(e, x) && x.translation.Some? && InPlace(subnet, pool, m.ends[p.destination], x.translation.value.destinationIP)
      && PoolKept(e, x.translation.value) && PortKept(e, x.translation.value)
    ensures forall q :: q != DEFAULT || !Between(m, p, srcVPC, dstVPC) ==> Same(m.entries, now, p, q)
  {
    hide Applied, SelectedPairs, OverlayTarget, WellFormed, StaticAddress, Same, Placeable, InPlace;
    OverlaidReads(m, now, InVPC(srcVPC), InVPC(dstVPC), ToStatic(subnet, pool), p, e);
    BetweenSelected(m, p, srcVPC, dstVPC);
    LookupReads(m, p.source, p.destination, e);
    if Placeable(subnet, pool, m.ends[p.destination]) {
      Placed(subnet, pool, m.ends[p.destination]);
    }
  }

  /** After PortForwardDNAT it does so on the requested port. */
  lemma {:induction false} StaticPortReads(m: Matrix, now: Entries, srcVPC: Name, dstVPC: Name, subnet: Prefix, pool: Prefix, port: nat, p: Pair, e: Expectation)
    requires WellFormed(m) && Applied(m.entries, now, OverlayTarget(m, InVPC(srcVPC), InVPC(dstVPC), ToStaticPort(subnet, pool, port)), DEFAULT)
    requires Reads(m, p.source, p.destination, e) && p.source in m.ends && p.destination in m.ends
    ensures Between(m, p, srcVPC, dstVPC) && Placeable(subnet, pool, m.ends[p.destination]) ==> HasEntry(now, p, DEFAULT) && var x := now[p][DEFAULT];
      && x.verdict == Allow && ReasonKept(e, x) && x.translation.Some? && InPlace(subnet, pool, m.ends[p.destination], x.translation.value.destinationIP)
      && PoolKept(e, x.translation.value) && x.translation.value.destinationPort == port
    ensures forall q :: q != DEFAULT || !Between(m, p, srcVPC, dstVPC) ==> Same(m.entries, now, p, q)
  {
    hide Applied, SelectedPairs, OverlayTarget, WellFormed, StaticAddress, Same, Placeable, InPlace;
    OverlaidReads(m, now, InVPC(srcVPC), InVPC(dstVPC), ToStaticPort(subnet, pool, port), p, e);
    BetweenSelected(m, p, srcVPC, dstVPC);
    LookupReads(m, p.source, p.destination, e);
    if Placeable(subnet, pool, m.ends[p.destination]) {
      Placed(subnet, pool, m.ends[p.destination]);
    }
  }

  /** StaticDNAT and PortForwardDNAT are refused exactly when no pair is between the VPCs, or one's server has no address or one
      before the subnet; the latter also when no port is requested. */
  lemma {:induction false} StaticRefused(m: Matrix, srcVPC: Name, dstVPC: Name, subnet: Prefix, pool: Prefix, port: nat)
    ensures var pairs := SelectedPairs(m, InVPC(srcVPC), InVPC(dstVPC));
      && (pairs != {} <==> exists p :: Between(m, p, srcVPC, dstVPC))
      && (Accepted(m, ToStatic(subnet, pool), pairs) <==> forall p :: Between(m, p, srcVPC, dstVPC) ==> NotBefore(m, p, subnet))
      && (Accepted(m, ToStaticPort(subnet, pool, port), pairs) <==> forall p :: Between(m, p, srcVPC, dstVPC) ==> NotBefore(m, p, subnet))
  {
    hide SelectedPairs, Lookup, Between, Mutated, NotBefore;
    var pairs := SelectedPairs(m, InVPC(srcVPC), InVPC(dstVPC));
    forall p
      ensures p in pairs <==> Between(m, p, srcVPC, dstVPC)
      ensures Between(m, p, srcVPC, dstVPC) ==> p.source in m.ends && p.destination in m.ends
      ensures Between(m, p, srcVPC, dstVPC) ==> (Mutated(m, ToStatic(subnet, pool), p).Some? <==> NotBefore(m, p, subnet))
      ensures Between(m, p, srcVPC, dstVPC) ==> (Mutated(m, ToStaticPort(subnet, pool, port), p).Some? <==> NotBefore(m, p, subnet))
    {
      BetweenSelected(m, p, srcVPC, dstVPC);
      BetweenListed(m, p, srcVPC, dstVPC);
      if Between(m, p, srcVPC, dstVPC) {
        StaticIff(m, p, subnet, pool, port);
      }
    }
  }

  lemma {:induction false} StaticIff(m: Matrix, p: Pair, subnet: Prefix, pool: Prefix, port: nat)
    requires p.source in m.ends && p.destination in m.ends
    ensures Mutated(m, ToStatic(subnet, pool), p).Some? <==> NotBefore(m, p, subnet)
    ensures Mutated(m, ToStaticPort(subnet, pool, port), p).Some? <==> NotBefore(m, p, subnet)
  {
    hide Lookup;
    var d := m.ends[p.destination];
    assert StaticAddress(d, subnet, pool).Some? <==> NotBefore(m, p, subnet);
  }

  ghost predicate NotBefore(m: Matrix, p: Pair, subnet: Prefix) {
    p.destination in m.ends && m.ends[p.destination].Server? && m.ends[p.destination].ip.V4? && Masked(subnet) <= m.ends[p.destination].ip.n
  }

  lemma {:induction false} BetweenListed(m: Matrix, p: Pair, srcVPC: Name, dstVPC: Name)
    ensures Between(m, p, srcVPC, dstVPC) ==> p.source in m.ends && p.destination in m.ends && m.ends[p.destination].Server?
  {
  }

  /** After ExternalPortForward the VPC is allowed to the external at the requested address and port, with the source pool there
      was, and denied every other external; nothing else changes. */
  lemma {:induction false} ForwardReads(m: Matrix, now: Entries, vpc: Name, ext: Name, ip: Addr, port: nat, p: Pair, e: Expectation)
    requires WellFormed(m) && Forwarded(m, now, vpc, ext, ip, port)
    requires Reads(m, p.source, p.destination, e) && p.source in m.ends && p.destination in m.ends
    ensures Outward(m, p, vpc) ==> HasEntry(now, p, DEFAULT)
    ensures Outward(m, p, vpc) && m.ends[p.destination].name == ext ==> ForwardedTo(e, now[p][DEFAULT], ip, port)
    ensures Outward(m, p, vpc) && m.ends[p.destination].name != ext ==> now[p][DEFAULT].verdict == Deny && now[p][DEFAULT].translation.None?
    ensures forall q :: q != DEFAULT || !Outward(m, p, vpc) ==> Same(m.entries, now, p, q)
  {
    hide Applied, SelectedPairs, OverlayTarget, RewriteTarget, WellFormed, Same;
    var mid: Entries :| WellFormed(m.(entries := mid))
      && Applied(m.entries, mid, RewriteTarget(m, InVPC(vpc), OtherThan(ext), NoEgress()), DEFAULT)
      && Applied(mid, now, OverlayTarget(m.(entries := mid), InVPC(vpc), ExternalNamed(ext), ToForward(ip, port)), DEFAULT);
    var m1 := m.(entries := mid);
    var d := Lookup(m1, p.source, p.destination, DEFAULT);
    LookupReads(m1, p.source, p.destination, d);
    NoEgressReads(m, mid, vpc, ext, p);
    OverlaidReads(m1, now, InVPC(vpc), ExternalNamed(ext), ToForward(ip, port), p, d);
    OutwardSelected(m1, p, vpc, ext);
    assert Outward(m1, p, vpc) <==> Outward(m, p, vpc);
    forall q | Same(m.entries, mid, p, q) && Same(mid, now, p, q)
      ensures Same(m.entries, now, p, q)
    {
      SameTwice(m.entries, mid, now, p, q);
    }
    if Outward(m, p, vpc) && m.ends[p.destination].name == ext {
      StillReadsSame(m, mid, p, e, d);
    } else if Outward(m, p, vpc) {
      SameHolds(mid, now, p, DEFAULT);
    }
  }

  lemma {:induction false} SameHolds(a: Entries, b: Entries, p: Pair, q: ProtoPort)
    requires Same(a, b, p, q) && HasEntry(a, p, q)
    ensures HasEntry(b, p, q) && b[p][q] == a[p][q]
  {
  }

  ghost predicate ForwardedTo(e: Expectation, now: Expectation, ip: Addr, port: nat) {
    && now.verdict == Allow && ReasonKept(e, now) && now.translation.Some? && PoolKept(e, now.translation.value)
    && now.translation.value.destinationIP == ip && now.translation.value.destinationPort == port
  }

  lemma {:induction false} SameTwice(a: Entries, b: Entries, c: Entries, p: Pair, q: ProtoPort)
    requires Same(a, b, p, q) && Same(b, c, p, q)
    ensures Same(a, c, p, q)
  {
  }

  lemma {:induction false} StillReadsSame(m: Matrix, mid: Entries, p: Pair, e: Expectation, d: Expectation)
    requires Same(m.entries, mid, p, DEFAULT) && Reads(m, p.source, p.destination, e) && Reads(m.(entries := mid), p.source, p.destination, d)
    ensures e.translation == d.translation && e.reason == d.reason && e.peering == d.peering
  {
  }

  // ---- What is probed then ---------------------------------------------------------------------------------------

  /** After StaticDNAT every eligible pair between the VPCs without protocol entries or a forwarded port is probed at the
      server's place in the pool, is expected to get through, and leaves the other direction to a session of its own. */
  lemma {:induction false} StaticProbed(m: Matrix, now: Entries, o: Opts, plan: Plan, srcVPC: Name, dstVPC: Name, subnet: Prefix, pool: Prefix,
                                        i: nat, j: nat, e: Expectation) returns (x: Probe)
    requires WellFormed(m) && Applied(m.entries, now, OverlayTarget(m, InVPC(srcVPC), InVPC(dstVPC), ToStatic(subnet, pool)), DEFAULT)
    requires Planned(m.(entries := now), o, plan) && (o.pings > 0 || o.iperfs > 0)
    requires i < |m.all| && j < |m.all| && Between(m, Pair(m.all[i], m.all[j]), srcVPC, dstVPC) && Eligible(m, o, m.all[i], m.all[j])
    requires Plain(m, m.all[i], m.all[j]) && Reads(m, m.all[i], m.all[j], e) && !PortForwarded(e)
    requires Placeable(subnet, pool, m.ends[m.all[j]])
    ensures x in plan.servers && x.PingIperf?
    ensures x.from == m.ends[m.all[i]].name && x.to == m.ends[m.all[j]].name
    ensures InPlace(subnet, pool, m.ends[m.all[j]], x.ip) && x.expected.reachable && !x.bidir
  {
    hide Applied, OverlayTarget, WellFormed, Planned, Placeable, InPlace;
    var src, dst, m' := m.all[i], m.all[j], m.(entries := now);
    var p := Pair(src, dst);
    StaticReads(m, now, srcVPC, dstVPC, subnet, pool, p, e);
    assert HasEntry(now, p, DEFAULT);
    var d := now[p][DEFAULT];
    x := PingIperf(m.ends[src].name, m.ends[dst].name, d.translation.value.destinationIP, Reachability(true, d.reason, d.peering), false);
    StillPlain(m, now, p);
    PlacedValid(subnet, pool, m.ends[dst], x.ip);
    assert PingFor(m', o, src, dst, d, x);
    assert PingAt(m', o, i, j, x);
    PingsRead(m', o, plan, x);
  }

  /** After PortForwardDNAT the requested port is tested there instead. */
  lemma {:induction false} StaticPortProbed(m: Matrix, now: Entries, o: Opts, plan: Plan, srcVPC: Name, dstVPC: Name, subnet: Prefix, pool: Prefix, port: nat,
                                            i: nat, j: nat) returns (x: Probe)
    requires WellFormed(m) && Applied(m.entries, now, OverlayTarget(m, InVPC(srcVPC), InVPC(dstVPC), ToStaticPort(subnet, pool, port)), DEFAULT)
    requires Planned(m.(entries := now), o, plan) && o.iperfs > 0 && port != 0
    requires i < |m.all| && j < |m.all| && Between(m, Pair(m.all[i], m.all[j]), srcVPC, dstVPC) && Eligible(m, o, m.all[i], m.all[j])
    requires Placeable(subnet, pool, m.ends[m.all[j]])
    ensures x in plan.forwards && x.PortForward? && x.from == m.ends[m.all[i]].name && x.port == port
    ensures InPlace(subnet, pool, m.ends[m.all[j]], x.ip) && x.expected.reachable
  {
    hide Applied, OverlayTarget, WellFormed, Planned, Placeable, InPlace;
    var src, dst, m' := m.all[i], m.all[j], m.(entries := now);
    var p := Pair(src, dst);
    var e := Lookup(m, src, dst, DEFAULT);
    LookupReads(m, src, dst, e);
    StaticPortReads(m, now, srcVPC, dstVPC, subnet, pool, port, p, e);
    var d := now[p][DEFAULT];
    x := PortForward(m.ends[src].name, d.translation.value.destinationIP, port, Reachability(true, d.reason, d.peering));
    PlacedValid(subnet, pool, m.ends[dst], x.ip);
    assert ForwardFor(m', o, src, dst, d, x);
    assert ForwardAt(m', o, i, j, x);
    ForwardsRead(m', o, plan, x);
  }

  lemma {:induction false} PlacedValid(subnet: Prefix, pool: Prefix, d: Endpoint, ip: Addr)
    ensures InPlace(subnet, pool, d, ip) ==> ip.V4?
  {
  }

  lemma {:induction false} StillPlain(m: Matrix, now: Entries, p: Pair)
    requires Plain(m, p.source, p.destination) && forall q :: q != DEFAULT ==> Same(m.entries, now, p, q)
    ensures Plain(m.(entries := now), p.source, p.destination)
  {
    forall q | HasEntry(now, p, q)
      ensures q == DEFAULT
    {
      assert q != DEFAULT ==> Same(m.entries, now, p, q);
      assert HasEntry(m.entries, p, q) ==> q == DEFAULT;
    }
  }
}
