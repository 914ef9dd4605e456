/**
  * The matrix object and the overlays that rewrite its entries in place: double loops over the listed endpoints that store
  * an entry for each selected pair, visited in order.
  */
module Overlays {
  import opened Net
  import opened Store
  import opened Matrix
  import opened MatrixPhases
  import opened MatrixSoundness
  import opened Reconcile
  import opened StaticNat

  // ---- Rewriting entries -----------------------------------------------------------------------

  function Stored(entries: Entries, p: Pair, pp: ProtoPort): Option<Expectation> {
    if p in entries && pp in entries[p] then Some(entries[p][pp]) else None
  }

  /** The entries after the target's entries for the pairs in done have been stored. */
  ghost predicate Rewritten(was: Entries, now: Entries, done: set<Pair>, target: map<Pair, Expectation>, pp: ProtoPort) {
    && now.Keys == was.Keys + done * target.Keys
    && forall p: Pair, q: ProtoPort :: Stored(now, p, q) == if p in done && p in target && q == pp then Some(target[p]) else Stored(was, p, q)
  }

  /** Exactly the target's entries have been stored. */
  ghost predicate Applied(was: Entries, now: Entries, target: map<Pair, Expectation>, pp: ProtoPort) {
    && now.Keys == was.Keys + target.Keys
    && forall p: Pair, q: ProtoPort :: Stored(now, p, q) == if p in target && q == pp then Some(target[p]) else Stored(was, p, q)
  }

  lemma {:induction false} StoreOne(was: Entries, now: Entries, done: set<Pair>, target: map<Pair, Expectation>, pp: ProtoPort, p: Pair)
    requires Rewritten(was, now, done, target, pp)
    requires p in target && target[p].protoPort == pp
    ensures Rewritten(was, PutEntry(now, p, target[p]), done + {p}, target, pp)
  {
    var then_ := PutEntry(now, p, target[p]);
    assert then_.Keys == was.Keys + (done + {p}) * target.Keys;
    forall r: Pair, q: ProtoPort
      ensures Stored(then_, r, q) == if r in done + {p} && r in target && q == pp then Some(target[r]) else Stored(was, r, q)
    {
      assert Stored(then_, r, q) == if r == p && q == pp then Some(target[p]) else Stored(now, r, q);
    }
  }

  lemma {:induction false} SkipOne(was: Entries, now: Entries, done: set<Pair>, target: map<Pair, Expectation>, pp: ProtoPort, p: Pair)
    requires Rewritten(was, now, done, target, pp) && p !in target
    ensures Rewritten(was, now, done + {p}, target, pp)
  {
    assert (done + {p}) * target.Keys == done * target.Keys;
  }

  lemma {:induction false} AllDone(was: Entries, now: Entries, done: set<Pair>, target: map<Pair, Expectation>, pp: ProtoPort)
    requires Rewritten(was, now, done, target, pp) && target.Keys <= done
    ensures Applied(was, now, target, pp)
  {
    assert done * target.Keys == target.Keys;
  }

  /** A pair that has not been visited still reads as before. */
  lemma {:induction false} StillReads(m: Matrix, now: Entries, done: set<Pair>, target: map<Pair, Expectation>, pp: ProtoPort, src: Ref, dst: Ref)
    requires Rewritten(m.entries, now, done, target, pp) && Pair(src, dst) !in done
    ensures Lookup(m.(entries := now), src, dst, DEFAULT) == Lookup(m, src, dst, DEFAULT)
  {
    assert Stored(now, Pair(src, dst), DEFAULT) == Stored(m.entries, Pair(src, dst), DEFAULT);
  }

  // ---- The order in which pairs are visited -------------------------------------------------------

  /** The pairs visited before column j of row i. */
  function Before(all: seq<Ref>, i: nat, j: nat): set<Pair> {
    set a, b | 0 <= a < |all| && 0 <= b < |all| && (a < i || (a == i && b < j)) :: Pair(all[a], all[b])
  }

  lemma {:induction false} VisitNext(all: seq<Ref>, i: nat, j: nat)
    requires i < |all| && j < |all| && DistinctRefs(all)
    ensures Before(all, i, j + 1) == Before(all, i, j) + {Pair(all[i], all[j])}
    ensures Pair(all[i], all[j]) !in Before(all, i, j)
  {
    forall a, b | 0 <= a < |all| && 0 <= b < |all| && (a < i || (a == i && b < j))
      ensures Pair(all[a], all[b]) != Pair(all[i], all[j])
    {
      if a < i {
        assert all[a] != all[i];
      } else {
        assert all[b] != all[j];
      }
    }
  }

  lemma {:induction false} VisitRow(all: seq<Ref>, i: nat)
    requires i < |all|
    ensures Before(all, i, |all|) == Before(all, i + 1, 0)
  {
  }

  /** The pairs of listed endpoints that both predicates select. */
  ghost function SelectedPairs(m: Matrix, srcPred: Endpoint -> bool, dstPred: Endpoint -> bool): set<Pair> {
    set i, j | 0 <= i < |m.all| && 0 <= j < |m.all| && m.all[i] in m.ends && m.all[j] in m.ends
      && srcPred(m.ends[m.all[i]]) && dstPred(m.ends[m.all[j]]) :: Pair(m.all[i], m.all[j])
  }

  lemma {:induction false} PairSelected(m: Matrix, srcPred: Endpoint -> bool, dstPred: Endpoint -> bool, i: nat, j: nat)
    requires i < |m.all| && j < |m.all| && m.all[i] in m.ends && m.all[j] in m.ends
    ensures Pair(m.all[i], m.all[j]) in SelectedPairs(m, srcPred, dstPred) <==> srcPred(m.ends[m.all[i]]) && dstPred(m.ends[m.all[j]])
  {
  }

  lemma {:induction false} SelectedVisited(m: Matrix, srcPred: Endpoint -> bool, dstPred: Endpoint -> bool)
    ensures SelectedPairs(m, srcPred, dstPred) <= Before(m.all, |m.all|, 0)
  {
  }

  predicate ServerInVPC(ep: Endpoint, vpc: Name) {
    ep.Server? && ep.vpc == vpc
  }

  function InVPC(vpc: Name): Endpoint -> bool {
    (ep: Endpoint) => ServerInVPC(ep, vpc)
  }

  function ExternalNamed(ext: Name): Endpoint -> bool {
    (ep: Endpoint) => ep.External? && ep.name == ext
  }

  function OtherThan(ext: Name): Endpoint -> bool {
    (ep: Endpoint) => ep.External? && ep.name != ext
  }

  function OverlayReason(existing: Reason): Reason {
    if existing != NoReason then existing else GatewayPeering
  }

  // ---- What the overlays store ----------------------------------------------------------------------

  type Mutator = (Endpoint, Endpoint, Translation) -> Option<Translation>

  function Base(e: Expectation): Translation {
    if e.translation.Some? then e.translation.value else NO_TRANSLATION
  }

  function Mutated(m: Matrix, mutate: Mutator, p: Pair): Option<Translation>
    requires p.source in m.ends && p.destination in m.ends
  {
    mutate(m.ends[p.source], m.ends[p.destination], Base(Lookup(m, p.source, p.destination, DEFAULT)))
  }

  /** An overlaid entry: allowed, with the mutated translation. */
  function OverlaidEntry(e: Expectation, t: Translation): Expectation {
    Expectation(Allow, Some(t), OverlayReason(e.reason), e.peering, DEFAULT)
  }

  /** The selected pairs the mutator accepts, with the entry each one gets. */
  ghost function OverlayTarget(m: Matrix, srcPred: Endpoint -> bool, dstPred: Endpoint -> bool, mutate: Mutator): map<Pair, Expectation>
    requires WellFormed(m)
  {
    map p | p in SelectedPairs(m, srcPred, dstPred) && Mutated(m, mutate, p).Some? ::
      OverlaidEntry(Lookup(m, p.source, p.destination, DEFAULT), Mutated(m, mutate, p).value)
  }

  predicate Accepted(m: Matrix, mutate: Mutator, pairs: set<Pair>) {
    forall p :: p in pairs && p.source in m.ends && p.destination in m.ends ==> Mutated(m, mutate, p).Some?
  }

  /** How the plain overlays rewrite an expectation. */
  type Rewrite = Expectation -> Expectation

  function WithVerdict(verdict: Verdict): Rewrite {
    (e: Expectation) => Expectation(verdict, e.translation, OverlayReason(e.reason), e.peering, DEFAULT)
  }

  function WithPortVerdict(pp: ProtoPort, verdict: Verdict): Rewrite {
    (e: Expectation) => Expectation(verdict, e.translation, GatewayPeering, e.peering, pp)
  }

  function NoEgress(): Rewrite {
    (e: Expectation) => Expectation(Deny, None, NoReason, None, DEFAULT)
  }

  /** The mutator forwards a port only with an address, if the translation it is given does. */
  ghost predicate KeepsAddress(mutate: Mutator) {
    forall s: Endpoint, d: Endpoint, t: Translation ::
      mutate(s, d, t).Some? && (t.destinationPort != 0 ==> t.destinationIP.V4?) && mutate(s, d, t).value.destinationPort != 0
      ==> mutate(s, d, t).value.destinationIP.V4?
  }

  /** The rewritten expectation is stored under pp, and forwards a port only with an address if the old one did. */
  ghost predicate Rewrites(rewrite: Rewrite, pp: ProtoPort) {
    forall e: Expectation :: rewrite(e).protoPort == pp && ((HasPort(e) ==> HasDNAT(e)) ==> HasPort(rewrite(e)) ==> HasDNAT(rewrite(e)))
  }

  /** Every selected pair's default expectation, rewritten. */
  ghost function RewriteTarget(m: Matrix, srcPred: Endpoint -> bool, dstPred: Endpoint -> bool, rewrite: Rewrite): map<Pair, Expectation> {
    map p | p in SelectedPairs(m, srcPred, dstPred) :: rewrite(Lookup(m, p.source, p.destination, DEFAULT))
  }

  lemma {:induction false} AcceptOne(m: Matrix, mutate: Mutator, pairs: set<Pair>, done: set<Pair>, p: Pair)
    requires Accepted(m, mutate, pairs * done) && p.source in m.ends && p.destination in m.ends
    ensures Accepted(m, mutate, pairs * (done + {p})) <==> (p in pairs ==> Mutated(m, mutate, p).Some?)
    ensures Accepted(m, mutate, pairs) && p in pairs ==> Mutated(m, mutate, p).Some?
    ensures pairs * (done + {p}) == {} <==> pairs * done == {} && p !in pairs
  {
    if p in pairs {
      assert p in pairs * (done + {p});
    } else {
      assert pairs * (done + {p}) == pairs * done;
    }
  }

  /** The overlay's state after the pairs in done. */
  ghost predicate Midway(m: Matrix, now: Entries, srcPred: Endpoint -> bool, dstPred: Endpoint -> bool, mutate: Mutator, touched: nat, done: set<Pair>)
    requires WellFormed(m)
  {
    && Rewritten(m.entries, now, done, OverlayTarget(m, srcPred, dstPred, mutate), DEFAULT)
    && Accepted(m, mutate, SelectedPairs(m, srcPred, dstPred) * done)
    && (touched > 0 <==> SelectedPairs(m, srcPred, dstPred) * done != {})
  }

  lemma {:induction false} NothingDone(m: Matrix, srcPred: Endpoint -> bool, dstPred: Endpoint -> bool, mutate: Mutator)
    requires WellFormed(m)
    ensures Midway(m, m.entries, srcPred, dstPred, mutate, 0, Before(m.all, 0, 0))
  {
    hide OverlayTarget, SelectedPairs;
    assert Before(m.all, 0, 0) == {};
  }

  lemma {:induction false} TargetSelected(m: Matrix, srcPred: Endpoint -> bool, dstPred: Endpoint -> bool, mutate: Mutator)
    requires WellFormed(m)
    ensures OverlayTarget(m, srcPred, dstPred, mutate).Keys <= SelectedPairs(m, srcPred, dstPred)
  {
  }

  lemma {:induction false} TargetAt(m: Matrix, srcPred: Endpoint -> bool, dstPred: Endpoint -> bool, mutate: Mutator, p: Pair)
    requires WellFormed(m) && p.source in m.ends && p.destination in m.ends
    ensures var target := OverlayTarget(m, srcPred, dstPred, mutate);
      && (p in target <==> p in SelectedPairs(m, srcPred, dstPred) && Mutated(m, mutate, p).Some?)
      && (p in target ==> target[p] == OverlaidEntry(Lookup(m, p.source, p.destination, DEFAULT), Mutated(m, mutate, p).value))
  {
  }

  // ---- What every overlay keeps ---------------------------------------------------------------------

  /** The target's entries are stored under their own port, between endpoints that exist. */
  predicate TargetFits(m: Matrix, target: map<Pair, Expectation>, pp: ProtoPort) {
    forall p :: p in target ==> p.source in m.ends && p.destination in m.ends && target[p].protoPort == pp
  }

  lemma {:induction false} StillWellFormed(m: Matrix, now: Entries, done: set<Pair>, target: map<Pair, Expectation>, pp: ProtoPort)
    requires WellFormed(m) && Rewritten(m.entries, now, done, target, pp) && TargetFits(m, target, pp)
    ensures WellFormed(m.(entries := now))
  {
    forall p | p in now
      ensures EntryWellFormed(m.(entries := now), p)
    {
      assert p in m.entries ==> EntryWellFormed(m, p);
      forall q | q in now[p]
        ensures now[p][q].protoPort == q
      {
        assert Stored(now, p, q) == Some(now[p][q]);
      }
    }
  }

  predicate TargetAddressed(target: map<Pair, Expectation>) {
    forall p :: p in target && HasPort(target[p]) ==> HasDNAT(target[p])
  }

  lemma {:induction false} StillAddressed(m: Matrix, now: Entries, done: set<Pair>, target: map<Pair, Expectation>, pp: ProtoPort)
    requires PortsAddressed(m) && Rewritten(m.entries, now, done, target, pp) && TargetAddressed(target)
    ensures PortsAddressed(m.(entries := now))
  {
    forall p, q | p in now && q in now[p]
      ensures HasPort(now[p][q]) ==> HasDNAT(now[p][q])
    {
      assert Stored(now, p, q) == Some(now[p][q]);
    }
  }

  lemma {:induction false} RewrittenNothing(was: Entries, target: map<Pair, Expectation>, pp: ProtoPort)
    ensures Rewritten(was, was, {}, target, pp)
  {
  }

  lemma {:induction false} NoneBefore(all: seq<Ref>)
    ensures Before(all, 0, 0) == {}
  {
  }

  /** All pairs have been visited: the target is stored, and what every overlay keeps is kept. */
  lemma {:induction false} Finished(m: Matrix, now: Entries, done: set<Pair>, srcPred: Endpoint -> bool, dstPred: Endpoint -> bool,
                                    target: map<Pair, Expectation>, pp: ProtoPort)
    requires WellFormed(m) && Rewritten(m.entries, now, done, target, pp) && done == Before(m.all, |m.all|, 0)
    requires target.Keys <= SelectedPairs(m, srcPred, dstPred)
    requires TargetFits(m, target, pp) && (PortsAddressed(m) ==> TargetAddressed(target))
    ensures Applied(m.entries, now, target, pp) && WellFormed(m.(entries := now))
    ensures PortsAddressed(m) ==> PortsAddressed(m.(entries := now))
  {
    hide WellFormed, Rewritten, SelectedPairs, Before, PortsAddressed, TargetFits, TargetAddressed;
    SelectedVisited(m, srcPred, dstPred);
    AllDone(m.entries, now, done, target, pp);
    StillWellFormed(m, now, done, target, pp);
    if PortsAddressed(m) {
      StillAddressed(m, now, done, target, pp);
    }
  }

  lemma {:induction false} OverlayKeeps(m: Matrix, now: Entries, srcPred: Endpoint -> bool, dstPred: Endpoint -> bool, mutate: Mutator, done: set<Pair>)
    requires WellFormed(m) && Rewritten(m.entries, now, done, OverlayTarget(m, srcPred, dstPred, mutate), DEFAULT)
    ensures WellFormed(m.(entries := now))
    ensures KeepsAddress(mutate) && PortsAddressed(m) ==> PortsAddressed(m.(entries := now))
  {
    hide Lookup, PortsAddressed, Rewritten, EntryWellFormed;
    var target := OverlayTarget(m, srcPred, dstPred, mutate);
    StillWellFormed(m, now, done, target, DEFAULT);
    if KeepsAddress(mutate) && PortsAddressed(m) {
      forall p | p in target
        ensures HasPort(target[p]) ==> HasDNAT(target[p])
      {
        LookupAddressed(m, p.source, p.destination);
      }
      StillAddressed(m, now, done, target, DEFAULT);
    }
  }

  lemma {:induction false} RewriteTargetAt(m: Matrix, srcPred: Endpoint -> bool, dstPred: Endpoint -> bool, rewrite: Rewrite, i: nat, j: nat)
    requires i < |m.all| && j < |m.all| && WellFormed(m)
    ensures m.all[i] in m.ends && m.all[j] in m.ends
    ensures var p, target := Pair(m.all[i], m.all[j]), RewriteTarget(m, srcPred, dstPred, rewrite);
      && (p in target <==> srcPred(m.ends[p.source]) && dstPred(m.ends[p.destination]))
      && (p in target ==> target[p] == rewrite(Lookup(m, p.source, p.destination, DEFAULT)))
  {
    hide Lookup;
    PairSelected(m, srcPred, dstPred, i, j);
  }

  lemma {:induction false} RewriteTargetFits(m: Matrix, srcPred: Endpoint -> bool, dstPred: Endpoint -> bool, rewrite: Rewrite, pp: ProtoPort)
    requires WellFormed(m) && Rewrites(rewrite, pp)
    ensures var target := RewriteTarget(m, srcPred, dstPred, rewrite);
      && target.Keys <= SelectedPairs(m, srcPred, dstPred)
      && TargetFits(m, target, pp) && (PortsAddressed(m) ==> TargetAddressed(target))
  {
    hide Lookup, PortsAddressed;
    var target := RewriteTarget(m, srcPred, dstPred, rewrite);
    forall p | p in target && PortsAddressed(m)
      ensures HasPort(target[p]) ==> HasDNAT(target[p])
    {
      LookupAddressed(m, p.source, p.destination);
    }
  }

  // ---- Mutators -------------------------------------------------------------------------------------

  function ToPool(pool: Prefix): Mutator {
    (s: Endpoint, d: Endpoint, t: Translation) => Some(t.(sourcePool := Some(pool)))
  }

  /** The destination's static NAT address, when it has an address and one can be computed. */
  function StaticAddress(d: Endpoint, subnet: Prefix, pool: Prefix): Option<Addr> {
    if d.Server? && d.ip.V4? then NatIP(d.ip, Start(subnet), Start(pool)) else None
  }

  function ToStatic(subnet: Prefix, pool: Prefix): Mutator {
    (s: Endpoint, d: Endpoint, t: Translation) =>
      var r := StaticAddress(d, subnet, pool);
      if r.Some? then Some(t.(destinationIP := r.value)) else None
  }

  function ToStaticPort(subnet: Prefix, pool: Prefix, port: nat): Mutator {
    (s: Endpoint, d: Endpoint, t: Translation) =>
      var r := StaticAddress(d, subnet, pool);
      if r.Some? then Some(t.(destinationIP := r.value, destinationPort := port)) else None
  }

  function ToForward(ip: Addr, port: nat): Mutator {
    (s: Endpoint, d: Endpoint, t: Translation) => Some(t.(destinationIP := ip, destinationPort := port))
  }

  lemma {:induction false} StaticKeepsAddress(subnet: Prefix, pool: Prefix)
    ensures KeepsAddress(ToStatic(subnet, pool))
    ensures forall port: nat {:trigger ToStaticPort(subnet, pool, port)} :: KeepsAddress(ToStaticPort(subnet, pool, port))
  {
  }

  lemma {:induction false} ForwardKeepsAddress(ip: Addr, port: nat)
    requires ip.V4?
    ensures KeepsAddress(ToForward(ip, port))
  {
  }

  lemma {:induction false} SelectedByEnds(a: Matrix, b: Matrix, srcPred: Endpoint -> bool, dstPred: Endpoint -> bool)
    requires a.ends == b.ends && a.all == b.all
    ensures SelectedPairs(a, srcPred, dstPred) == SelectedPairs(b, srcPred, dstPred)
  {
  }

  lemma {:induction false} AllAccepted(m: Matrix, srcPred: Endpoint -> bool, dstPred: Endpoint -> bool, mutate: Mutator)
    requires forall s: Endpoint, d: Endpoint, t: Translation :: mutate(s, d, t).Some?
    ensures Accepted(m, mutate, SelectedPairs(m, srcPred, dstPred))
  {
  }

  /** The entries after a port forward at an external: no way out elsewhere, then the forward. */
  ghost predicate Forwarded(m: Matrix, now: Entries, vpc: Name, ext: Name, ip: Addr, port: nat)
    requires WellFormed(m)
  {
    exists mid: Entries :: WellFormed(m.(entries := mid))
      && Applied(m.entries, mid, RewriteTarget(m, InVPC(vpc), OtherThan(ext), NoEgress()), DEFAULT)
      && Applied(mid, now, OverlayTarget(m.(entries := mid), InVPC(vpc), ExternalNamed(ext), ToForward(ip, port)), DEFAULT)
  }

  lemma {:induction false} NothingMatched(ends: map<Ref, Endpoint>, byKey: map<Key, Ref>, name: Name, all: seq<Ref>)
    requires forall k :: k in byKey ==> Of(ends, byKey[k], name)
    ensures EndsAfter(ends, ends, byKey, name, all, 0)
    ensures forall x :: !Matched(ends, byKey, name, all, 0, x)
    ensures StaleRefs(ends, byKey, name, all[..0]) == {}
  {
  }

  lemma {:induction false} Unchanged(ends: map<Ref, Endpoint>, now: map<Ref, Endpoint>, byKey: map<Key, Ref>, name: Name, all: seq<Ref>, i: nat)
    requires i < |all| && all[i] in ends && all[i] in now && now[all[i]] == ends[all[i]]
    requires forall k :: k in byKey ==> Of(ends, byKey[k], name)
    ensures Updated(ends, byKey, name, all[i]) == ends[all[i]] ==> now[all[i] := Updated(ends, byKey, name, all[i])] == now
  {
  }

  /** What visiting listed endpoint i changes. */
  lemma {:induction false} OneMoreUpdated(ends: map<Ref, Endpoint>, now: map<Ref, Endpoint>, byKey: map<Key, Ref>, name: Name, all: seq<Ref>, i: nat)
    requires i < |all| && all[i] in ends && DistinctRefs(all)
    requires forall k :: k in byKey ==> Of(ends, byKey[k], name) && byKey[k] !in all
    requires EndsAfter(ends, now, byKey, name, all, i)
    ensures now[all[i]] == ends[all[i]] && forall k :: k in byKey ==> now[byKey[k]] == ends[byKey[k]]
    ensures EndsAfter(ends, now[all[i] := Updated(ends, byKey, name, all[i])], byKey, name, all, i + 1)
  {
    assert all[..i + 1] == all[..i] + [all[i]];
    assert all[i] !in all[..i];
    assert forall k :: k in byKey ==> byKey[k] !in all[..i];
  }

  lemma {:induction false} OneMoreMatched(ends: map<Ref, Endpoint>, byKey: map<Key, Ref>, name: Name, all: seq<Ref>, i: nat)
    requires i < |all|
    ensures forall x :: Matched(ends, byKey, name, all, i + 1, x) <==> (Matched(ends, byKey, name, all, i, x) ||
      (Of(ends, all[i], name) && KeyOf(ends[all[i]]) in byKey && byKey[KeyOf(ends[all[i]])] == x))
    ensures StaleRefs(ends, byKey, name, all[..i + 1]) ==
      StaleRefs(ends, byKey, name, all[..i]) + (if Survives(ends, byKey, name, all[i]) then {} else {all[i]})
  {
    assert all[..i + 1] == all[..i] + [all[i]];
    forall x | Matched(ends, byKey, name, all, i, x)
      ensures Matched(ends, byKey, name, all, i + 1, x)
    {
      var k :| 0 <= k < i && Of(ends, all[k], name) && KeyOf(ends[all[k]]) in byKey && byKey[KeyOf(ends[all[k]])] == x;
      assert 0 <= k < i + 1;
    }
    if Of(ends, all[i], name) && KeyOf(ends[all[i]]) in byKey {
      assert Matched(ends, byKey, name, all, i + 1, byKey[KeyOf(ends[all[i]])]);
    }
    StaleMore(ends, byKey, name, all, i);
  }

  lemma {:induction false} StaleMore(ends: map<Ref, Endpoint>, byKey: map<Key, Ref>, name: Name, all: seq<Ref>, i: nat)
    requires i < |all|
    ensures StaleRefs(ends, byKey, name, all[..i + 1]) ==
      StaleRefs(ends, byKey, name, all[..i]) + (if Survives(ends, byKey, name, all[i]) then {} else {all[i]})
  {
    hide Survives;
    assert all[..i + 1] == all[..i] + [all[i]];
  }

  lemma {:induction false} FreshForMeans(m: Matrix, name: Name, newEPs: seq<Ref>)
    requires FreshFor(m, name, newEPs)
    ensures forall i :: 0 <= i < |newEPs| ==> newEPs[i] in m.ends && newEPs[i] !in m.all
    ensures WellFormed(m) ==> forall i :: 0 <= i < |m.all| ==> m.all[i] in m.ends
  {
    forall i | 0 <= i < |newEPs|
      ensures newEPs[i] in m.ends
    {
      assert Of(m.ends, newEPs[i], name);
    }
  }

  lemma {:induction false} EndsKeysKept(ends: map<Ref, Endpoint>, now: map<Ref, Endpoint>, byKey: map<Key, Ref>, name: Name, all: seq<Ref>)
    requires forall k :: k in byKey ==> Of(ends, byKey[k], name)
    requires EndsAfter(ends, now, byKey, name, all, |all|)
    ensures now.Keys == ends.Keys
  {
  }

  class ConnectivityMatrix {
    var ends: map<Ref, Endpoint>
    var all: seq<Ref>
    var entries: Entries
    var dropped: seq<Drop>

    constructor (m: Matrix)
      ensures Snapshot() == m
    {
      ends, all, entries, dropped := m.ends, m.all, m.entries, m.dropped;
    }

    ghost function Snapshot(): Matrix
      reads this
    {
      Matrix(ends, all, entries, dropped)
    }

    /** Endpoints are listed once, and everything referred to exists. */
    ghost predicate Sane()
      reads this
    {
      WellFormed(Snapshot()) && DistinctRefs(all)
    }

    /** Inserts or replaces the expectation for a pair and port. */
    method Add(p: Pair, e: Expectation)
      modifies this`entries
      ensures entries == PutEntry(old(entries), p, e)
    {
      var byPP: map<ProtoPort, Expectation> := map[];
      if p in entries {
        byPP := entries[p];
      }
      entries := entries[p := byPP[e.protoPort := e]];
    }

    method Existing(src: Ref, dst: Ref) returns (e: Expectation)
      ensures e == Lookup(Snapshot(), src, dst, DEFAULT)
    {
      e := Lookup(Matrix(ends, all, entries, dropped), src, dst, DEFAULT);
    }

    /** One pair of the overlay's loops. */
    method OverlayPair(ghost m: Matrix, srcPred: Endpoint -> bool, dstPred: Endpoint -> bool, mutate: Mutator, i: nat, j: nat,
                       touched: nat, ghost done: set<Pair>)
      returns (ok: bool, touched': nat)
      requires WellFormed(m) && Snapshot() == m.(entries := entries) && i < |all| && j < |all|
      requires Midway(m, entries, srcPred, dstPred, mutate, touched, done) && Pair(all[i], all[j]) !in done
      modifies this`entries
      ensures ok ==> Midway(m, entries, srcPred, dstPred, mutate, touched', done + {Pair(all[i], all[j])})
      ensures !ok ==> entries == old(entries) && !Accepted(m, mutate, SelectedPairs(m, srcPred, dstPred))
    {
      hide Lookup, Rewritten, PutEntry, SelectedPairs, OverlayTarget, Accepted;
      ghost var target, pairs := OverlayTarget(m, srcPred, dstPred, mutate), SelectedPairs(m, srcPred, dstPred);
      var src, dst := all[i], all[j];
      ghost var p := Pair(src, dst);
      PairSelected(m, srcPred, dstPred, i, j);
      TargetAt(m, srcPred, dstPred, mutate, p);
      AcceptOne(m, mutate, pairs, done, p);
      ok, touched' := true, touched;
      if !srcPred(ends[src]) || !dstPred(ends[dst]) {
        SkipOne(m.entries, entries, done, target, DEFAULT, p);
        return;
      }
      var existing := Existing(src, dst);
      StillReads(m, entries, done, target, DEFAULT, src, dst);
      var translation := NO_TRANSLATION;
      if existing.translation.Some? {
        translation := existing.translation.value;
      }
      var mutated := mutate(ends[src], ends[dst], translation);
      if mutated.None? {
        ok := false;
        return;
      }
      StoreOne(m.entries, entries, done, target, DEFAULT, p);
      Add(Pair(src, dst), Expectation(Allow, mutated, OverlayReason(existing.reason), existing.peering, DEFAULT));
      touched' := touched + 1;
    }

    method OverlayRow(ghost m: Matrix, srcPred: Endpoint -> bool, dstPred: Endpoint -> bool, mutate: Mutator, i: nat, touched: nat)
      returns (ok: bool, touched': nat, ghost done: set<Pair>)
      requires WellFormed(m) && DistinctRefs(all) && Snapshot() == m.(entries := entries) && i < |all|
      requires Midway(m, entries, srcPred, dstPred, mutate, touched, Before(all, i, 0))
      modifies this`entries
      ensures ok ==> Midway(m, entries, srcPred, dstPred, mutate, touched', Before(all, i + 1, 0))
      ensures !ok ==> Rewritten(m.entries, entries, done, OverlayTarget(m, srcPred, dstPred, mutate), DEFAULT)
      ensures !ok ==> !Accepted(m, mutate, SelectedPairs(m, srcPred, dstPred))
    {
      hide WellFormed, Rewritten, SelectedPairs, Before, OverlayTarget, Accepted, DistinctRefs;
      ok, touched', done := false, touched, Before(all, i, 0);
      var j := 0;
      while j < |all|
        invariant 0 <= j <= |all| && Snapshot() == m.(entries := entries)
        invariant Midway(m, entries, srcPred, dstPred, mutate, touched', done) && done == Before(all, i, j)
        invariant !ok
      {
        VisitNext(all, i, j);
        var fine;
        fine, touched' := OverlayPair(m, srcPred, dstPred, mutate, i, j, touched', done);
        if !fine {
          return;
        }
        done, j := Before(all, i, j + 1), j + 1;
      }
      VisitRow(all, i);
      ok := true;
    }

    /** Allows every selected pair and rewrites its translation. */
    method OverlayNAT(srcPred: Endpoint -> bool, dstPred: Endpoint -> bool, mutate: Mutator) returns (ok: bool, ghost done: set<Pair>)
      requires Sane()
      modifies this`entries
      ensures var m := old(Snapshot());
        var pairs := SelectedPairs(m, srcPred, dstPred);
        && (ok <==> pairs != {} && Accepted(m, mutate, pairs))
        && Rewritten(m.entries, entries, done, OverlayTarget(m, srcPred, dstPred, mutate), DEFAULT)
        && (ok ==> Applied(m.entries, entries, OverlayTarget(m, srcPred, dstPred, mutate), DEFAULT))
      ensures Sane() && (KeepsAddress(mutate) && PortsAddressed(old(Snapshot())) ==> PortsAddressed(Snapshot()))
    {
      hide WellFormed, Rewritten, SelectedPairs, Before, OverlayTarget, Accepted, DistinctRefs, Applied, PortsAddressed, KeepsAddress;
      ghost var m := Snapshot();
      ghost var target, pairs := OverlayTarget(m, srcPred, dstPred, mutate), SelectedPairs(m, srcPred, dstPred);
      ok, done := false, Before(all, 0, 0);
      NothingDone(m, srcPred, dstPred, mutate);
      var touched := 0;
      var i := 0;
      while i < |all|
        invariant 0 <= i <= |all| && Snapshot() == m.(entries := entries)
        invariant Midway(m, entries, srcPred, dstPred, mutate, touched, done) && done == Before(all, i, 0)
        invariant !ok
      {
        var fine;
        ghost var part;
        fine, touched, part := OverlayRow(m, srcPred, dstPred, mutate, i, touched);
        if !fine {
          done := part;
          OverlayKeeps(m, entries, srcPred, dstPred, mutate, done);
          return;
        }
        done, i := Before(all, i + 1, 0), i + 1;
      }
      SelectedVisited(m, srcPred, dstPred);
      TargetSelected(m, srcPred, dstPred, mutate);
      AllDone(m.entries, entries, done, target, DEFAULT);
      OverlayKeeps(m, entries, srcPred, dstPred, mutate, done);
      assert pairs * done == pairs;
      ok := touched > 0;
    }

    /** One source of the plain overlays' loops. */
    method RewriteRow(ghost m: Matrix, srcPred: Endpoint -> bool, dstPred: Endpoint -> bool, pp: ProtoPort, rewrite: Rewrite, i: nat)
      requires WellFormed(m) && DistinctRefs(all) && Snapshot() == m.(entries := entries) && i < |all| && Rewrites(rewrite, pp)
      requires Rewritten(m.entries, entries, Before(all, i, 0), RewriteTarget(m, srcPred, dstPred, rewrite), pp)
      modifies this`entries
      ensures Rewritten(m.entries, entries, Before(all, i + 1, 0), RewriteTarget(m, srcPred, dstPred, rewrite), pp)
    {
      hide Lookup, Rewritten, PutEntry, SelectedPairs, Before, RewriteTarget, DistinctRefs, WellFormed;
      ghost var target := RewriteTarget(m, srcPred, dstPred, rewrite);
      var j := 0;
      while j < |all|
        invariant 0 <= j <= |all| && Snapshot() == m.(entries := entries)
        invariant Rewritten(m.entries, entries, Before(all, i, j), target, pp)
      {
        var src, dst := all[i], all[j];
        VisitNext(all, i, j);
        RewriteTargetAt(m, srcPred, dstPred, rewrite, i, j);
        if srcPred(ends[src]) && dstPred(ends[dst]) {
          var existing := Existing(src, dst);
          StillReads(m, entries, Before(all, i, j), target, pp, src, dst);
          StoreOne(m.entries, entries, Before(all, i, j), target, pp, Pair(src, dst));
          Add(Pair(src, dst), rewrite(existing));
        } else {
          SkipOne(m.entries, entries, Before(all, i, j), target, pp, Pair(src, dst));
        }
        j := j + 1;
      }
      VisitRow(all, i);
    }

    /** The double loop the plain overlays share: every selected pair's default expectation is rewritten and stored. */
    method RewriteSelected(srcPred: Endpoint -> bool, dstPred: Endpoint -> bool, pp: ProtoPort, rewrite: Rewrite)
      requires Sane() && Rewrites(rewrite, pp)
      modifies this`entries
      ensures Applied(old(entries), entries, RewriteTarget(old(Snapshot()), srcPred, dstPred, rewrite), pp)
      ensures Sane() && (PortsAddressed(old(Snapshot())) ==> PortsAddressed(Snapshot()))
    {
      hide Lookup, Rewritten, Before, RewriteTarget, DistinctRefs, PortsAddressed, WellFormed, Applied, TargetFits, TargetAddressed, Rewrites;
      hide SelectedPairs;
      ghost var m := Snapshot();
      ghost var target := RewriteTarget(m, srcPred, dstPred, rewrite);
      RewriteTargetFits(m, srcPred, dstPred, rewrite, pp);
      RewrittenNothing(m.entries, target, pp);
      NoneBefore(all);
      var i := 0;
      while i < |all|
        invariant 0 <= i <= |all| && Snapshot() == m.(entries := entries)
        invariant Rewritten(m.entries, entries, Before(all, i, 0), target, pp)
      {
        RewriteRow(m, srcPred, dstPred, pp, rewrite, i);
        i := i + 1;
      }
      Finished(m, entries, Before(all, |all|, 0), srcPred, dstPred, target, pp);
    }

    /** Rewrites the default verdict of every pair between two VPCs. */
    method OverrideVerdict(srcVPC: Name, dstVPC: Name, verdict: Verdict)
      requires Sane()
      modifies this`entries
      ensures Applied(old(entries), entries, RewriteTarget(old(Snapshot()), InVPC(srcVPC), InVPC(dstVPC), WithVerdict(verdict)), DEFAULT)
      ensures Sane() && (PortsAddressed(old(Snapshot())) ==> PortsAddressed(Snapshot()))
    {
      RewriteSelected(InVPC(srcVPC), InVPC(dstVPC), DEFAULT, WithVerdict(verdict));
    }

    /** Adds a protocol/port entry to every pair between two VPCs. */
    method SetPortVerdict(srcVPC: Name, dstVPC: Name, pp: ProtoPort, verdict: Verdict)
      requires Sane()
      modifies this`entries
      ensures Applied(old(entries), entries, RewriteTarget(old(Snapshot()), InVPC(srcVPC), InVPC(dstVPC), WithPortVerdict(pp, verdict)), pp)
      ensures Sane() && (PortsAddressed(old(Snapshot())) ==> PortsAddressed(Snapshot()))
    {
      RewriteSelected(InVPC(srcVPC), InVPC(dstVPC), pp, WithPortVerdict(pp, verdict));
    }

    /** Denies every external but one to the servers of a VPC. */
    method ExternalNoEgress(vpc: Name, keepExt: Name)
      requires Sane()
      modifies this`entries
      ensures Applied(old(entries), entries, RewriteTarget(old(Snapshot()), InVPC(vpc), OtherThan(keepExt), NoEgress()), DEFAULT)
      ensures Sane() && (PortsAddressed(old(Snapshot())) ==> PortsAddressed(Snapshot()))
    {
      RewriteSelected(InVPC(vpc), OtherThan(keepExt), DEFAULT, NoEgress());
    }

    /** Source-translates what a VPC sends to an external. */
    method ExternalSNAT(vpc: Name, ext: Name, pool: Prefix) returns (ok: bool)
      requires Sane()
      modifies this`entries
      ensures ok <==> SelectedPairs(old(Snapshot()), InVPC(vpc), ExternalNamed(ext)) != {}
      ensures ok ==> Applied(old(entries), entries, OverlayTarget(old(Snapshot()), InVPC(vpc), ExternalNamed(ext), ToPool(pool)), DEFAULT)
      ensures Sane() && (PortsAddressed(old(Snapshot())) ==> PortsAddressed(Snapshot()))
    {
      ghost var done;
      ok, done := OverlayNAT(InVPC(vpc), ExternalNamed(ext), ToPool(pool));
    }

    /** Sends what one VPC sends to another to the static NAT addresses of the servers. */
    method StaticDNAT(srcVPC: Name, dstVPC: Name, subnet: Prefix, pool: Prefix) returns (ok: bool)
      requires Sane()
      modifies this`entries
      ensures var m := old(Snapshot());
        var pairs := SelectedPairs(m, InVPC(srcVPC), InVPC(dstVPC));
        && (ok <==> pairs != {} && Accepted(m, ToStatic(subnet, pool), pairs))
        && (ok ==> Applied(m.entries, entries, OverlayTarget(m, InVPC(srcVPC), InVPC(dstVPC), ToStatic(subnet, pool)), DEFAULT))
      ensures Sane() && (PortsAddressed(old(Snapshot())) ==> PortsAddressed(Snapshot()))
    {
      ghost var done;
      StaticKeepsAddress(subnet, pool);
      ok, done := OverlayNAT(InVPC(srcVPC), InVPC(dstVPC), ToStatic(subnet, pool));
    }

    /** The same, for one forwarded port. */
    method PortForwardDNAT(srcVPC: Name, dstVPC: Name, subnet: Prefix, pool: Prefix, port: nat) returns (ok: bool)
      requires Sane()
      modifies this`entries
      ensures var m := old(Snapshot());
        var pairs := SelectedPairs(m, InVPC(srcVPC), InVPC(dstVPC));
        && (ok <==> port != 0 && pairs != {} && Accepted(m, ToStaticPort(subnet, pool, port), pairs))
        && (ok ==> Applied(m.entries, entries, OverlayTarget(m, InVPC(srcVPC), InVPC(dstVPC), ToStaticPort(subnet, pool, port)), DEFAULT))
      ensures Sane() && (PortsAddressed(old(Snapshot())) ==> PortsAddressed(Snapshot()))
    {
      ok := false;
      if port == 0 {
        return;
      }
      ghost var done;
      StaticKeepsAddress(subnet, pool);
      ok, done := OverlayNAT(InVPC(srcVPC), InVPC(dstVPC), ToStaticPort(subnet, pool, port));
    }

    /** Forwards a port at one external to the servers of a VPC, which have no other way out. */
    method ExternalPortForward(vpc: Name, ext: Name, ip: Addr, port: nat) returns (ok: bool)
      requires Sane()
      modifies this`entries
      ensures port == 0 || !ip.V4? ==> !ok && entries == old(entries)
      ensures ok <==> port != 0 && ip.V4? && SelectedPairs(old(Snapshot()), InVPC(vpc), ExternalNamed(ext)) != {}
      ensures ok ==> Forwarded(old(Snapshot()), entries, vpc, ext, ip, port)
      ensures Sane() && (PortsAddressed(old(Snapshot())) ==> PortsAddressed(Snapshot()))
    {
      hide Applied, RewriteTarget, OverlayTarget, SelectedPairs, WellFormed, DistinctRefs, PortsAddressed, KeepsAddress, Rewritten;
      ok := false;
      if port == 0 || !ip.V4? {
        return;
      }
      ghost var m := Snapshot();
      ExternalNoEgress(vpc, ext);
      ghost var done;
      SelectedByEnds(m, Snapshot(), InVPC(vpc), ExternalNamed(ext));
      ForwardKeepsAddress(ip, port);
      AllAccepted(Snapshot(), InVPC(vpc), ExternalNamed(ext), ToForward(ip, port));
      ok, done := OverlayNAT(InVPC(vpc), ExternalNamed(ext), ToForward(ip, port));
    }

    /** The new endpoints by key. */
    method NewByKey(name: Name, newEPs: seq<Ref>) returns (byKey: map<Key, Ref>)
      requires forall i :: 0 <= i < |newEPs| ==> newEPs[i] in ends
      ensures byKey == ByKey(ends, newEPs, name, |newEPs|)
    {
      byKey := map[];
      for i := 0 to |newEPs|
        invariant byKey == ByKey(ends, newEPs, name, i)
      {
        var ep := ends[newEPs[i]];
        if ep.Server? && ep.name == name {
          byKey := byKey[(ep.vpc, ep.subnet) := newEPs[i]];
        }
      }
    }

    /** The loop over the listed endpoints: those of the server with a new endpoint of their key are updated in place. */
    method UpdateListed(ghost was: map<Ref, Endpoint>, name: Name, byKey: map<Key, Ref>)
      returns (kept: seq<Ref>, matched: set<Ref>, stale: set<Ref>)
      requires was == ends && DistinctRefs(all)
      requires forall k :: k in byKey ==> Of(ends, byKey[k], name) && byKey[k] !in all
      requires forall i :: 0 <= i < |all| ==> all[i] in ends
      modifies this`ends
      ensures EndsAfter(was, ends, byKey, name, all, |all|)
      ensures kept == Kept(was, byKey, name, all, |all|)
      ensures forall x :: x in matched <==> Matched(was, byKey, name, all, |all|, x)
      ensures stale == StaleRefs(was, byKey, name, all)
    {
      kept, matched, stale := [], {}, {};
      NothingMatched(was, byKey, name, all);
      var i := 0;
      while i < |all|
        invariant 0 <= i <= |all|
        invariant EndsAfter(was, ends, byKey, name, all, i)
        invariant kept == Kept(was, byKey, name, all, i)
        invariant forall x :: x in matched <==> Matched(was, byKey, name, all, i, x)
        invariant stale == StaleRefs(was, byKey, name, all[..i])
      {
        var r := all[i];
        OneMoreUpdated(was, ends, byKey, name, all, i);
        OneMoreMatched(was, byKey, name, all, i);
        Unchanged(was, ends, byKey, name, all, i);
        var ep := ends[r];
        if !ep.Server? || ep.name != name {
          kept := kept + [r];
        } else if (ep.vpc, ep.subnet) in byKey {
          var newEp := byKey[(ep.vpc, ep.subnet)];
          ends := ends[r := ep.(ip := ends[newEp].ip, hostBGP := ends[newEp].hostBGP)];
          matched := matched + {newEp};
          kept := kept + [r];
        } else {
          stale := stale + {r};
        }
        i := i + 1;
      }
      assert all[..|all|] == all;
    }

    /** The new endpoints that update none of the listed ones. */
    method AppendFresh(ghost was: map<Ref, Endpoint>, ghost byKey: map<Key, Ref>, name: Name, newEPs: seq<Ref>, matched: set<Ref>)
      returns (found: seq<Ref>)
      requires forall x :: x in matched <==> Matched(was, byKey, name, all, |all|, x)
      ensures found == Fresh(was, byKey, name, all, newEPs, |newEPs|)
    {
      hide Matched;
      found := [];
      for i := 0 to |newEPs|
        invariant found == Fresh(was, byKey, name, all, newEPs, i)
      {
        if newEPs[i] !in matched {
          found := found + [newEPs[i]];
        }
      }
    }

    /** Deletes the entries of endpoints that are no longer listed, in whatever order the map yields them. */
    method RemoveStale(stale: set<Ref>)
      modifies this`entries
      ensures entries == Unstale(old(entries), stale)
    {
      if stale == {} || entries == map[] {
        assert entries == Unstale(entries, stale);
        return;
      }
      var todo := entries.Keys;
      while todo != {}
        invariant todo <= entries.Keys <= old(entries).Keys
        invariant forall p :: p in entries ==> entries[p] == old(entries)[p]
        invariant forall p :: p in old(entries) ==>
          (p in entries <==> p in todo || (p.source !in stale && p.destination !in stale))
      {
        var p :| p in todo;
        todo := todo - {p};
        if p.source in stale || p.destination in stale {
          entries := entries - {p};
        }
      }
      assert entries == Unstale(old(entries), stale);
    }

    /** Reconciles the endpoints of one server with newly found ones; endpoints keep their identity, and stale entries go. */
    method ReplaceServerEndpoints(name: Name, newEPs: seq<Ref>)
      requires Sane() && FreshFor(Snapshot(), name, newEPs) && DistinctRefs(newEPs)
      modifies this`ends, this`all, this`entries
      ensures EndsAfter(old(ends), ends, ByKey(old(ends), newEPs, name, |newEPs|), name, old(all), |old(all)|)
      ensures Snapshot() == Reconciled(old(Snapshot()), name, newEPs, ends)
      ensures Sane()
    {
      hide WellFormed, Kept, Fresh, Unstale, Survives, Matched, EndsAfter, StaleRefs, DistinctRefs, FreshFor;
      ghost var m := Snapshot();
      FreshForMeans(m, name, newEPs);
      var byKey := NewByKey(name, newEPs);
      assert newEPs[..|newEPs|] == newEPs;
      var kept, matched, stale := UpdateListed(m.ends, name, byKey);
      var found := AppendFresh(m.ends, byKey, name, newEPs, matched);
      all := kept + found;
      RemoveStale(stale);
      EndsKeysKept(m.ends, ends, byKey, name, m.all);
      RefsStayDistinct(m, name, newEPs, ends);
      StaysWellFormed(m, name, newEPs, ends);
    }

    /** Replaces the drops recorded for one server. */
    method ReplaceServerDrops(name: Name, found: seq<Drop>)
      modifies this`dropped
      ensures dropped == ReplacedDrops(old(dropped), name, found)
    {
      var kept: seq<Drop> := [];
      for i := 0 to |dropped|
        invariant kept == DropsOf(dropped, name, false, i)
      {
        if dropped[i].server != name {
          kept := kept + [dropped[i]];
        }
      }
      ghost var others := kept;
      for i := 0 to |found|
        invariant kept == others + DropsOf(found, name, true, i)
      {
        if found[i].server == name {
          kept := kept + [found[i]];
        }
      }
      dropped := kept;
    }
  }
}
