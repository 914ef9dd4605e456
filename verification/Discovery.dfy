/** Endpoint discovery: each address of a server is matched to the narrowest attachment subnet that contains it. */
module Discovery {
  import opened Net
  import opened Store
  import opened Matrix

  datatype Attachment = Attachment(vpc: Name, subnet: Name, cidr: Prefix, hostBGP: bool)

  predicate SameKey(a: Attachment, b: Attachment) {
    a.vpc == b.vpc && a.subnet == b.subnet
  }

  /** A subnet is named by its VPC and its own name, and has one prefix. */
  predicate OnePrefix(atts: seq<Attachment>) {
    forall i, j :: 0 <= i < j < |atts| && SameKey(atts[i], atts[j]) ==> atts[i].cidr == atts[j].cidr
  }

  // ---- Candidate attachments --------------------------------------------------------------------

  predicate HasKey(atts: seq<Attachment>, a: Attachment) {
    exists i :: 0 <= i < |atts| && SameKey(atts[i], a)
  }

  /** The server's attachments, with repeated host-BGP attachments to one subnet collapsed. */
  function Candidates(list: seq<Attachment>, n: nat): (r: seq<Attachment>)
    requires n <= |list|
  {
    if n == 0 then []
    else
      var before, a := Candidates(list, n - 1), list[n - 1];
      if a.hostBGP && HasKey(before, a) then before else before + [a]
  }

  method CollectCandidates(list: seq<Attachment>) returns (atts: seq<Attachment>)
    ensures atts == Candidates(list, |list|)
  {
    atts := [];
    for i := 0 to |list|
      invariant atts == Candidates(list, i)
    {
      if !(list[i].hostBGP && HasKey(atts, list[i])) {
        atts := atts + [list[i]];
      }
    }
  }

  /** Collapsing loses no subnet, and a host-BGP attachment is a candidate only when its subnet is not one yet. */
  lemma {:induction false} CandidatesComplete(list: seq<Attachment>, n: nat)
    requires n <= |list|
    ensures forall k :: 0 <= k < n ==> HasKey(Candidates(list, n), list[k])
    ensures forall i, j {:trigger Candidates(list, n)[i], Candidates(list, n)[j]} ::
      0 <= i < j < |Candidates(list, n)| && Candidates(list, n)[j].hostBGP ==> !SameKey(Candidates(list, n)[i], Candidates(list, n)[j])
  {
    if n > 0 {
      CandidatesComplete(list, n - 1);
      var before, now, a := Candidates(list, n - 1), Candidates(list, n), list[n - 1];
      forall k | 0 <= k < n
        ensures HasKey(now, list[k])
      {
        if k < n - 1 {
          assert HasKey(before, list[k]);
          var i :| 0 <= i < |before| && SameKey(before[i], list[k]);
          assert now[i] == before[i];
        } else if now != before {
          assert now[|before|] == a;
        }
      }
    }
  }

  // ---- The best attachment for an address --------------------------------------------------------

  /** Attachment k is the first of the narrowest subnets that contain the address, among the first n. */
  predicate IsBest(atts: seq<Attachment>, ip: U32, n: nat, k: nat)
    requires n <= |atts|
  {
    k < n && Contains(atts[k].cidr, ip) &&
    forall i :: 0 <= i < n && Contains(atts[i].cidr, ip) ==>
      atts[i].cidr.bits < atts[k].cidr.bits || (atts[i].cidr.bits == atts[k].cidr.bits && k <= i)
  }

  predicate InNone(atts: seq<Attachment>, ip: U32, n: nat)
    requires n <= |atts|
  {
    forall i :: 0 <= i < n ==> !Contains(atts[i].cidr, ip)
  }

  function Best(atts: seq<Attachment>, ip: U32, n: nat): (r: Option<nat>)
    requires n <= |atts|
    ensures r.Some? ==> IsBest(atts, ip, n, r.value)
    ensures r.None? ==> InNone(atts, ip, n)
  {
    if n == 0 then None
    else
      var r := Best(atts, ip, n - 1);
      if Contains(atts[n - 1].cidr, ip) && (r.None? || atts[n - 1].cidr.bits > atts[r.value].cidr.bits) then Some(n - 1) else r
  }

  function BestOf(atts: seq<Attachment>, ip: U32): (r: Option<nat>)
    ensures r.Some? ==> r.value < |atts|
  {
    Best(atts, ip, |atts|)
  }

  method FindBest(atts: seq<Attachment>, ip: U32) returns (bestIdx: int)
    ensures bestIdx < 0 ==> BestOf(atts, ip).None?
    ensures bestIdx >= 0 ==> BestOf(atts, ip).Some? && BestOf(atts, ip).value == bestIdx
  {
    bestIdx := -1;
    var bestBits: int := -1;
    for i := 0 to |atts|
      invariant bestIdx < 0 ==> Best(atts, ip, i).None?
      invariant bestIdx >= 0 ==> Best(atts, ip, i).Some? && Best(atts, ip, i).value == bestIdx
      invariant bestIdx < i && bestBits == if bestIdx < 0 then -1 else atts[bestIdx].cidr.bits
    {
      if Contains(atts[i].cidr, ip) && atts[i].cidr.bits > bestBits {
        bestIdx, bestBits := i, atts[i].cidr.bits;
      }
    }
  }

  // ---- Matching one server --------------------------------------------------------------------------

  /** Attachment k has been given one of the first n addresses. */
  predicate UsedBy(atts: seq<Attachment>, ips: seq<U32>, n: nat, k: nat)
    requires n <= |ips|
  {
    exists i :: 0 <= i < n && BestOf(atts, ips[i]) == Some(k)
  }

  function EndpointOf(server: Name, a: Attachment, ip: U32): Endpoint {
    Server(server, a.vpc, a.subnet, a.hostBGP, V4(ip))
  }

  /** The endpoints emitted for the first n addresses: the first address of each attachment. */
  function Emitted(server: Name, atts: seq<Attachment>, ips: seq<U32>, n: nat): seq<Endpoint>
    requires n <= |ips|
  {
    if n == 0 then []
    else
      var before, b := Emitted(server, atts, ips, n - 1), BestOf(atts, ips[n - 1]);
      if b.Some? && !UsedBy(atts, ips, n - 1, b.value) then before + [EndpointOf(server, atts[b.value], ips[n - 1])] else before
  }

  /** One drop for each address in no subnet. */
  function AddressDrops(server: Name, atts: seq<Attachment>, ips: seq<U32>, n: nat): seq<Drop>
    requires n <= |ips|
  {
    if n == 0 then []
    else AddressDrops(server, atts, ips, n - 1) + (if BestOf(atts, ips[n - 1]).None? then [Drop(server, None)] else [])
  }

  /** One drop for each of the first k attachments that no address was matched to. */
  function AttachmentDrops(server: Name, atts: seq<Attachment>, ips: seq<U32>, k: nat): seq<Drop>
    requires k <= |atts|
  {
    if k == 0 then []
    else
      var before, a := AttachmentDrops(server, atts, ips, k - 1), atts[k - 1];
      if UsedBy(atts, ips, |ips|, k - 1) then before else before + [Drop(server, Some((a.vpc, a.subnet)))]
  }

  method MatchServer(server: Name, atts: seq<Attachment>, ips: seq<U32>) returns (out: seq<Endpoint>, dropped: seq<Drop>)
    ensures |ips| == 0 ==> out == [] && dropped == []
    ensures |ips| > 0 ==> out == Emitted(server, atts, ips, |ips|)
    ensures |ips| > 0 ==> dropped == AddressDrops(server, atts, ips, |ips|) + AttachmentDrops(server, atts, ips, |atts|)
  {
    hide UsedBy, BestOf, EndpointOf;
    out, dropped := [], [];
    if |ips| == 0 {
      return;
    }
    NoneUsedYet(atts, ips);
    var used: set<nat> := {};
    for n := 0 to |ips|
      invariant out == Emitted(server, atts, ips, n) && dropped == AddressDrops(server, atts, ips, n)
      invariant forall k: nat :: k in used <==> UsedBy(atts, ips, n, k)
    {
      var bestIdx := FindBest(atts, ips[n]);
      if bestIdx < 0 {
        dropped := dropped + [Drop(server, None)];
      } else if bestIdx !in used {
        used := used + {bestIdx};
        out := out + [EndpointOf(server, atts[bestIdx], ips[n])];
      }
      UsedGrows(atts, ips, n);
    }
    for k := 0 to |atts|
      invariant dropped == AddressDrops(server, atts, ips, |ips|) + AttachmentDrops(server, atts, ips, k)
    {
      if k !in used {
        dropped := dropped + [Drop(server, Some((atts[k].vpc, atts[k].subnet)))];
      }
    }
  }

  lemma {:induction false} NoneUsedYet(atts: seq<Attachment>, ips: seq<U32>)
    ensures forall k: nat :: !UsedBy(atts, ips, 0, k)
  {
  }

  lemma {:induction false} UsedGrows(atts: seq<Attachment>, ips: seq<U32>, n: nat)
    requires n < |ips|
    ensures forall k: nat :: UsedBy(atts, ips, n + 1, k) <==> UsedBy(atts, ips, n, k) || BestOf(atts, ips[n]) == Some(k)
  {
  }

  // ---- Conservation -------------------------------------------------------------------------------------

  function UsedSet(atts: seq<Attachment>, ips: seq<U32>, n: nat, m: nat): set<nat>
    requires n <= |ips| && m <= |atts|
  {
    set k: nat | k < m && UsedBy(atts, ips, n, k)
  }

  lemma {:induction false} NoneUsed(atts: seq<Attachment>, ips: seq<U32>)
    ensures UsedSet(atts, ips, 0, |atts|) == {}
  {
  }

  lemma {:induction false} EmittedCount(server: Name, atts: seq<Attachment>, ips: seq<U32>, n: nat)
    requires n <= |ips|
    ensures |Emitted(server, atts, ips, n)| == |UsedSet(atts, ips, n, |atts|)|
  {
    hide UsedBy, BestOf, EndpointOf;
    if n > 0 {
      EmittedCount(server, atts, ips, n - 1);
      UsedGrows(atts, ips, n - 1);
      var b, before := BestOf(atts, ips[n - 1]), UsedSet(atts, ips, n - 1, |atts|);
      if b.Some? && !UsedBy(atts, ips, n - 1, b.value) {
        assert UsedSet(atts, ips, n, |atts|) == before + {b.value};
        assert b.value !in before;
      } else {
        assert UsedSet(atts, ips, n, |atts|) == before;
      }
    } else {
      NoneUsed(atts, ips);
    }
  }

  lemma {:induction false} DropCount(server: Name, atts: seq<Attachment>, ips: seq<U32>, k: nat)
    requires k <= |atts|
    ensures |AttachmentDrops(server, atts, ips, k)| + |UsedSet(atts, ips, |ips|, k)| == k
  {
    hide UsedBy;
    if k > 0 {
      DropCount(server, atts, ips, k - 1);
      var before := UsedSet(atts, ips, |ips|, k - 1);
      if UsedBy(atts, ips, |ips|, k - 1) {
        assert UsedSet(atts, ips, |ips|, k) == before + {k - 1};
        assert k - 1 !in before;
      } else {
        assert UsedSet(atts, ips, |ips|, k) == before;
      }
    } else {
      assert UsedSet(atts, ips, |ips|, 0) == {};
    }
  }

  /** Every attachment of a server with addresses is either emitted or reported as dropped. */
  lemma {:induction false} AttachmentsConserved(server: Name, atts: seq<Attachment>, ips: seq<U32>)
    ensures |Emitted(server, atts, ips, |ips|)| + |AttachmentDrops(server, atts, ips, |atts|)| == |atts|
  {
    EmittedCount(server, atts, ips, |ips|);
    DropCount(server, atts, ips, |atts|);
  }

  function Unmatched(atts: seq<Attachment>, ips: seq<U32>, n: nat): set<nat>
    requires n <= |ips|
  {
    set i: nat | i < n && InNone(atts, ips[i], |atts|)
  }

  lemma {:induction false} BestOfNone(atts: seq<Attachment>, ip: U32)
    ensures BestOf(atts, ip).None? <==> InNone(atts, ip, |atts|)
  {
    var b := BestOf(atts, ip);
    assert b.Some? ==> Contains(atts[b.value].cidr, ip);
  }

  /** Addresses are dropped exactly when no attachment subnet contains them. */
  lemma {:induction false} AddressesDropped(server: Name, atts: seq<Attachment>, ips: seq<U32>, n: nat)
    requires n <= |ips|
    ensures |AddressDrops(server, atts, ips, n)| == |Unmatched(atts, ips, n)|
  {
    hide InNone, BestOf;
    if n > 0 {
      AddressesDropped(server, atts, ips, n - 1);
      BestOfNone(atts, ips[n - 1]);
      var before := Unmatched(atts, ips, n - 1);
      if InNone(atts, ips[n - 1], |atts|) {
        assert Unmatched(atts, ips, n) == before + {n - 1};
        assert n - 1 !in before;
      } else {
        assert Unmatched(atts, ips, n) == before;
      }
    } else {
      assert Unmatched(atts, ips, 0) == {};
    }
  }

  // ---- What is emitted ------------------------------------------------------------------------------------

  /** Endpoint e comes from the first of the addresses whose narrowest subnet is attachment k. */
  predicate ComesFrom(server: Name, atts: seq<Attachment>, ips: seq<U32>, e: Endpoint, k: nat) {
    && k < |atts|
    && exists i :: (0 <= i < |ips| && e == EndpointOf(server, atts[k], ips[i])
                    && IsBest(atts, ips[i], |atts|, k) && !UsedBy(atts, ips, i, k))
  }

  /** Emitted endpoints come from different attachments, each from the narrowest subnet of its address. */
  lemma {:induction false} EmittedFrom(server: Name, atts: seq<Attachment>, ips: seq<U32>, n: nat) returns (from: seq<nat>)
    requires n <= |ips|
    ensures |from| == |Emitted(server, atts, ips, n)|
    ensures forall a :: 0 <= a < |from| ==> ComesFrom(server, atts, ips, Emitted(server, atts, ips, n)[a], from[a])
    ensures forall a :: 0 <= a < |from| ==> UsedBy(atts, ips, n, from[a])
    ensures forall a, b :: 0 <= a < b < |from| ==> from[a] != from[b]
  {
    hide Contains, EndpointOf;
    from := [];
    if n > 0 {
      from := EmittedFrom(server, atts, ips, n - 1);
      UsedGrows(atts, ips, n - 1);
      var b := BestOf(atts, ips[n - 1]);
      if b.Some? && !UsedBy(atts, ips, n - 1, b.value) {
        assert ComesFrom(server, atts, ips, EndpointOf(server, atts[b.value], ips[n - 1]), b.value);
        from := from + [b.value];
      }
    }
  }

  lemma {:induction false} RepeatedNeverBest(atts: seq<Attachment>, ip: U32, i: nat, k: nat)
    requires i < k < |atts| && atts[i].cidr == atts[k].cidr
    ensures BestOf(atts, ip) != Some(k)
  {
    var b := BestOf(atts, ip);
    assert b.Some? && Contains(atts[i].cidr, ip) ==>
      atts[i].cidr.bits < atts[b.value].cidr.bits || (atts[i].cidr.bits == atts[b.value].cidr.bits && b.value <= i);
  }

  /** An attachment whose subnet is also attached earlier gets no address. */
  lemma {:induction false} RepeatedNeverUsed(atts: seq<Attachment>, ips: seq<U32>, n: nat, i: nat, k: nat)
    requires OnePrefix(atts) && n <= |ips| && i < k < |atts| && SameKey(atts[i], atts[k])
    ensures !UsedBy(atts, ips, n, k)
  {
    forall a | 0 <= a < n
      ensures BestOf(atts, ips[a]) != Some(k)
    {
      RepeatedNeverBest(atts, ips[a], i, k);
    }
  }

  /** The endpoints emitted for a server have pairwise distinct (vpc, subnet) keys, even when attachments repeat one. */
  lemma {:induction false} EmittedKeysDistinct(server: Name, atts: seq<Attachment>, ips: seq<U32>)
    requires OnePrefix(atts)
    ensures var out := Emitted(server, atts, ips, |ips|);
      forall a, b :: 0 <= a < b < |out| ==> out[a].Server? && out[b].Server? && (out[a].vpc, out[a].subnet) != (out[b].vpc, out[b].subnet)
  {
    var out := Emitted(server, atts, ips, |ips|);
    var from := EmittedFrom(server, atts, ips, |ips|);
    forall a, b | 0 <= a < b < |out|
      ensures out[a].Server? && out[b].Server? && (out[a].vpc, out[a].subnet) != (out[b].vpc, out[b].subnet)
    {
      var x, y := from[a], from[b];
      assert ComesFrom(server, atts, ips, out[a], x) && ComesFrom(server, atts, ips, out[b], y);
      if SameKey(atts[x], atts[y]) {
        if x < y {
          RepeatedNeverUsed(atts, ips, |ips|, x, y);
        } else {
          RepeatedNeverUsed(atts, ips, |ips|, y, x);
        }
      }
    }
  }
}
