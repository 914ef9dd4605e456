/** What discovery reports for a server, field by field. */
module DiscoveryReads {
  import opened Net
  import opened Store
  import opened Matrix
  import opened Discovery

  // ---- Candidates ---------------------------------------------------------------------------------------------

  predicate SameSubnet(a: Attachment, b: Attachment) {
    a.vpc == b.vpc && a.subnet == b.subnet
  }

  /** The attachment is no host-BGP attachment, or the first to its subnet. */
  predicate Counts(list: seq<Attachment>, k: nat)
    requires k < |list|
  {
    !list[k].hostBGP || forall j :: 0 <= j < k ==> !SameSubnet(list[j], list[k])
  }

  /** The candidates are exactly the attachments that count, in their order. */
  lemma {:induction false} CandidatesRead(list: seq<Attachment>, n: nat) returns (from: seq<nat>)
    requires n <= |list|
    ensures |from| == |Candidates(list, n)| && forall i :: 0 <= i < |from| ==> from[i] < n && Candidates(list, n)[i] == list[from[i]]
    ensures forall i, j :: 0 <= i < j < |from| ==> from[i] < from[j]
    ensures forall k :: 0 <= k < n ==> (k in from <==> Counts(list, k))
  {
    from := [];
    if n > 0 {
      from := CandidatesRead(list, n - 1);
      CountsIff(list, n - 1);
      if Counts(list, n - 1) {
        from := from + [n - 1];
      }
    }
  }

  lemma {:induction false} CountsIff(list: seq<Attachment>, k: nat)
    requires k < |list|
    ensures Counts(list, k) <==> !(list[k].hostBGP && HasKey(Candidates(list, k), list[k]))
  {
    CandidatesComplete(list, k);
    var before := Candidates(list, k);
    if HasKey(before, list[k]) {
      var i :| 0 <= i < |before| && SameKey(before[i], list[k]);
      CandidateListed(list, k, i);
      var j :| 0 <= j < k && list[j] == before[i];
      assert SameSubnet(list[j], list[k]);
    }
    if j :| 0 <= j < k && SameSubnet(list[j], list[k]) {
      assert HasKey(before, list[j]);
      var i :| 0 <= i < |before| && SameKey(before[i], list[j]);
      assert SameKey(before[i], list[k]);
    }
  }

  lemma {:induction false} CandidateListed(list: seq<Attachment>, n: nat, i: nat)
    requires n <= |list| && i < |Candidates(list, n)|
    ensures exists j :: 0 <= j < n && list[j] == Candidates(list, n)[i]
  {
    hide HasKey;
    if i < |Candidates(list, n - 1)| {
      CandidateListed(list, n - 1, i);
    }
  }

  // ---- Matching -----------------------------------------------------------------------------------------------

  predicate InSubnet(a: Attachment, ip: U32) {
    Masked(a.cidr) <= ip < Masked(a.cidr) + Size(a.cidr)
  }

  /** Attachment k is the one the address is matched to: no subnet that contains the address is narrower, and none before it is as narrow. */
  predicate Matched(atts: seq<Attachment>, ip: U32, k: nat) {
    && k < |atts| && InSubnet(atts[k], ip)
    && (forall i :: 0 <= i < |atts| && InSubnet(atts[i], ip) ==> atts[i].cidr.bits <= atts[k].cidr.bits)
    && (forall i :: 0 <= i < k && InSubnet(atts[i], ip) ==> atts[i].cidr.bits < atts[k].cidr.bits)
  }

  /** Address i is the first one matched to attachment k. */
  predicate FirstMatched(atts: seq<Attachment>, ips: seq<U32>, i: nat, k: nat) {
    i < |ips| && Matched(atts, ips[i], k) && forall j :: 0 <= j < i ==> !Matched(atts, ips[j], k)
  }

  lemma {:induction false} ContainsIff(a: Attachment, ip: U32)
    ensures Contains(a.cidr, ip) <==> InSubnet(a, ip)
  {
    ContainsRange(a.cidr, ip);
  }

  lemma {:induction false} MatchedIff(atts: seq<Attachment>, ip: U32, k: nat)
    ensures Matched(atts, ip, k) <==> BestOf(atts, ip) == Some(k)
  {
    hide InSubnet, Contains;
    forall i | 0 <= i < |atts|
      ensures Contains(atts[i].cidr, ip) <==> InSubnet(atts[i], ip)
    {
      ContainsIff(atts[i], ip);
    }
    OneMatch(atts, ip, k);
  }

  lemma {:induction false} OneMatch(atts: seq<Attachment>, ip: U32, k: nat)
    requires forall i :: 0 <= i < |atts| ==> (Contains(atts[i].cidr, ip) <==> InSubnet(atts[i], ip))
    ensures Matched(atts, ip, k) <==> BestOf(atts, ip) == Some(k)
  {
    hide InSubnet, Contains, Best;
    var b := Best(atts, ip, |atts|);
    if b.Some? {
      assert IsBest(atts, ip, |atts|, b.value);
      assert Matched(atts, ip, b.value);
      if Matched(atts, ip, k) {
        assert InSubnet(atts[k], ip) && InSubnet(atts[b.value], ip);
      }
    } else {
      assert InNone(atts, ip, |atts|);
    }
  }

  lemma {:induction false} UsedIff(atts: seq<Attachment>, ips: seq<U32>, n: nat, k: nat)
    requires n <= |ips|
    ensures UsedBy(atts, ips, n, k) <==> exists i :: 0 <= i < n && Matched(atts, ips[i], k)
  {
    hide Matched, BestOf;
    forall i | 0 <= i < n
      ensures Matched(atts, ips[i], k) <==> BestOf(atts, ips[i]) == Some(k)
    {
      MatchedIff(atts, ips[i], k);
    }
  }

  // ---- Endpoints ------------------------------------------------------------------------------------------------

  /** The server's endpoint in the attachment's subnet, with this address. */
  predicate EndpointIn(e: Endpoint, server: Name, a: Attachment, ip: U32) {
    e.Server? && e.name == server && e.vpc == a.vpc && e.subnet == a.subnet && e.hostBGP == a.hostBGP && e.ip == V4(ip)
  }

  predicate FoundAt(server: Name, atts: seq<Attachment>, ips: seq<U32>, i: nat, e: Endpoint) {
    exists k :: 0 <= k < |atts| && FirstMatched(atts, ips, i, k) && EndpointIn(e, server, atts[k], ips[i])
  }

  predicate Found(server: Name, atts: seq<Attachment>, ips: seq<U32>, n: nat, e: Endpoint) {
    exists i :: 0 <= i < n && FoundAt(server, atts, ips, i, e)
  }

  lemma {:induction false} FirstIff(atts: seq<Attachment>, ips: seq<U32>, i: nat, k: nat)
    requires i < |ips|
    ensures FirstMatched(atts, ips, i, k) <==> BestOf(atts, ips[i]) == Some(k) && !UsedBy(atts, ips, i, k)
  {
    hide Matched, BestOf;
    MatchedIff(atts, ips[i], k);
    UsedIff(atts, ips, i, k);
  }

  lemma {:induction false} FoundIff(server: Name, atts: seq<Attachment>, ips: seq<U32>, i: nat, e: Endpoint)
    requires i < |ips|
    ensures FoundAt(server, atts, ips, i, e) <==>
      BestOf(atts, ips[i]).Some? && !UsedBy(atts, ips, i, BestOf(atts, ips[i]).value) && e == EndpointOf(server, atts[BestOf(atts, ips[i]).value], ips[i])
  {
    hide FirstMatched, UsedBy, BestOf;
    var b := BestOf(atts, ips[i]);
    forall k: nat
      ensures FirstMatched(atts, ips, i, k) <==> b == Some(k) && !UsedBy(atts, ips, i, k)
    {
      FirstIff(atts, ips, i, k);
    }
    if b.Some? && FirstMatched(atts, ips, i, b.value) {
      assert EndpointIn(e, server, atts[b.value], ips[i]) <==> e == EndpointOf(server, atts[b.value], ips[i]);
    }
  }

  /** The endpoints reported are those of the first addresses matched to each attachment. */
  lemma {:induction false} EndpointsRead(server: Name, atts: seq<Attachment>, ips: seq<U32>, n: nat, e: Endpoint)
    requires n <= |ips|
    ensures e in Emitted(server, atts, ips, n) <==> Found(server, atts, ips, n, e)
  {
    hide FoundAt, UsedBy, BestOf, EndpointOf;
    if n > 0 {
      EndpointsRead(server, atts, ips, n - 1, e);
      FoundIff(server, atts, ips, n - 1, e);
    }
  }

  // ---- Drops ----------------------------------------------------------------------------------------------------

  /** Drops of addresses name the server alone. */
  lemma {:induction false} AddressDropsRead(server: Name, atts: seq<Attachment>, ips: seq<U32>, n: nat, i: nat)
    requires n <= |ips| && i < |AddressDrops(server, atts, ips, n)|
    ensures AddressDrops(server, atts, ips, n)[i].server == server && AddressDrops(server, atts, ips, n)[i].where_.None?
  {
    hide BestOf;
    if i < |AddressDrops(server, atts, ips, n - 1)| {
      AddressDropsRead(server, atts, ips, n - 1, i);
    }
  }

  /** The server and the attachment's subnet. */
  predicate DropOf(d: Drop, server: Name, a: Attachment) {
    d.server == server && d.where_.Some? && d.where_.value.0 == a.vpc && d.where_.value.1 == a.subnet
  }

  predicate Unmatched(atts: seq<Attachment>, ips: seq<U32>, k: nat) {
    forall i :: 0 <= i < |ips| ==> !Matched(atts, ips[i], k)
  }

  /** Drops of attachments name the subnets no address was matched to. */
  lemma {:induction false} AttachmentDropsRead(server: Name, atts: seq<Attachment>, ips: seq<U32>, n: nat, d: Drop)
    requires n <= |atts|
    ensures d in AttachmentDrops(server, atts, ips, n) <==> exists k :: 0 <= k < n && Unmatched(atts, ips, k) && DropOf(d, server, atts[k])
  {
    hide Matched, UsedBy;
    if n > 0 {
      AttachmentDropsRead(server, atts, ips, n - 1, d);
      UsedIff(atts, ips, |ips|, n - 1);
      assert Unmatched(atts, ips, n - 1) <==> !UsedBy(atts, ips, |ips|, n - 1);
      assert DropOf(d, server, atts[n - 1]) <==> d == Drop(server, Some((atts[n - 1].vpc, atts[n - 1].subnet)));
    }
  }
}
