/** After a port forward at an external the matrix is decisive: nothing about the externals is left open. */
module ExternalForward {
  import opened Net
  import opened Store
  import opened Matrix
  import opened MatrixPhases
  import opened MatrixSoundness
  import opened Overlays

  predicate HasPool(e: Expectation) {
    e.translation.Some? && e.translation.value.sourcePool.Some?
  }

  /** What a pair's default entry reads after the target has been stored. */
  lemma {:induction false} ReadsApplied(m: Matrix, now: Entries, target: map<Pair, Expectation>, src: Ref, dst: Ref)
    requires Applied(m.entries, now, target, DEFAULT)
    ensures Lookup(m.(entries := now), src, dst, DEFAULT) ==
      if Pair(src, dst) in target then target[Pair(src, dst)] else Lookup(m, src, dst, DEFAULT)
  {
    assert Stored(now, Pair(src, dst), DEFAULT) ==
      if Pair(src, dst) in target then Some(target[Pair(src, dst)]) else Stored(m.entries, Pair(src, dst), DEFAULT);
  }

  lemma {:induction false} ListedSelected(m: Matrix, srcPred: Endpoint -> bool, dstPred: Endpoint -> bool, src: Ref, dst: Ref)
    requires src in m.all && dst in m.all && src in m.ends && dst in m.ends
    ensures Pair(src, dst) in SelectedPairs(m, srcPred, dstPred) <==> srcPred(m.ends[src]) && dstPred(m.ends[dst])
  {
    var i :| 0 <= i < |m.all| && m.all[i] == src;
    var j :| 0 <= j < |m.all| && m.all[j] == dst;
    PairSelected(m, srcPred, dstPred, i, j);
  }

  /** The default entry from a server of the VPC to an external, after the overlay. */
  lemma {:induction false} ForwardedEntry(m: Matrix, now: Entries, vpc: Name, ext: Name, ip: Addr, port: nat, src: Ref, dst: Ref)
    requires WellFormed(m) && Forwarded(m, now, vpc, ext, ip, port)
    requires src in m.all && dst in m.all && IsExternal(m, dst) && src in m.ends && ServerInVPC(m.ends[src], vpc)
    ensures var e := Lookup(m.(entries := now), src, dst, DEFAULT);
      if m.ends[dst].name == ext then
        && e.verdict == Allow && e.translation.Some?
        && e.translation.value == Base(Lookup(m, src, dst, DEFAULT)).(destinationIP := ip, destinationPort := port)
      else e.verdict == Deny && e.translation.None?
  {
    hide WellFormed, Lookup, SelectedPairs, Applied;
    var mid: Entries :| WellFormed(m.(entries := mid))
      && Applied(m.entries, mid, RewriteTarget(m, InVPC(vpc), OtherThan(ext), NoEgress()), DEFAULT)
      && Applied(mid, now, OverlayTarget(m.(entries := mid), InVPC(vpc), ExternalNamed(ext), ToForward(ip, port)), DEFAULT);
    var p, m1 := Pair(src, dst), m.(entries := mid);
    ReadsApplied(m, mid, RewriteTarget(m, InVPC(vpc), OtherThan(ext), NoEgress()), src, dst);
    ReadsApplied(m1, now, OverlayTarget(m1, InVPC(vpc), ExternalNamed(ext), ToForward(ip, port)), src, dst);
    ListedSelected(m, InVPC(vpc), OtherThan(ext), src, dst);
    ListedSelected(m1, InVPC(vpc), ExternalNamed(ext), src, dst);
  }

  /** No default entry from the VPC to a listed external stays undecided, and a plain connection gets out
      exactly when the external's entry already had a source pool. */
  lemma {:induction false} ForwardDecisive(m: Matrix, now: Entries, vpc: Name, ext: Name, ip: Addr, port: nat, src: Ref)
    requires WellFormed(m) && Forwarded(m, now, vpc, ext, ip, port)
    requires src in m.all && src in m.ends && ServerInVPC(m.ends[src], vpc)
    ensures forall dst :: dst in m.all && IsExternal(m, dst) ==> Lookup(m.(entries := now), src, dst, DEFAULT).verdict != Unknown
    ensures CurlAllowed(m.(entries := now), src).Some? <==>
      exists dst :: dst in m.all && IsExternal(m, dst) && m.ends[dst].name == ext && HasPool(Lookup(m, src, dst, DEFAULT))
  {
    hide Forwarded, WellFormed, Lookup;
    var m' := m.(entries := now);
    CurlFromMeaning(m', src, 0);
    forall dst | dst in m.all && IsExternal(m, dst)
      ensures Lookup(m', src, dst, DEFAULT).verdict != Unknown
      ensures LetsOut(Lookup(m', src, dst, DEFAULT)) <==> m.ends[dst].name == ext && HasPool(Lookup(m, src, dst, DEFAULT))
    {
      ForwardedEntry(m, now, vpc, ext, ip, port, src, dst);
    }
    if CurlAllowed(m', src).Some? {
      var k :| 0 <= k < |m'.all| && IsExternal(m', m'.all[k]) && LetsOut(Lookup(m', src, m'.all[k], DEFAULT));
      assert m.all[k] in m.all && IsExternal(m, m.all[k]);
    }
    forall dst | dst in m.all && IsExternal(m, dst) && m.ends[dst].name == ext && HasPool(Lookup(m, src, dst, DEFAULT))
      ensures CurlAllowed(m', src).Some?
    {
      var k :| 0 <= k < |m'.all| && m'.all[k] == dst;
      assert IsExternal(m', m'.all[k]);
    }
  }
}
