/**
  * When the point-to-point addresses given to links pass the checker: exactly when the fabric subnet has two addresses
  * for each link that hydration numbers.
  */
module FitLinks {
  import opened Net
  import opened WiringModel
  import opened Store
  import opened Ranking
  import opened Checker
  import opened Allocator
  import opened FitHosts

  predicate LinksFit(f: FabConfig, links: nat) {
    2 * links <= Size(f.fabric)
  }

  /** Connection c of the sorted list owns link numbers Owns(c, .): one block per connection. */
  predicate Owns(conns: seq<Conn>, c: nat, m: nat)
    requires c < |conns|
  {
    LinkCount(conns, c) <= m < LinkCount(conns, c) + |Addressed(conns[c])|
  }

  lemma {:induction false} CountGrows(conns: seq<Conn>, c: nat, n: nat)
    requires c <= n <= |conns|
    ensures LinkCount(conns, c) <= LinkCount(conns, n)
    ensures c < n ==> LinkCount(conns, c) + |Addressed(conns[c])| <= LinkCount(conns, n)
  {
    if c < n {
      CountGrows(conns, c, n - 1);
    }
  }

  lemma {:induction false} OneOwner(conns: seq<Conn>, c: nat, d: nat, m: nat)
    requires c < |conns| && d < |conns| && Owns(conns, c, m) && Owns(conns, d, m)
    ensures c == d
  {
    if c < d {
      CountGrows(conns, c, d);
    } else if d < c {
      CountGrows(conns, d, c);
    }
  }

  /** The last link number belongs to some connection. */
  lemma {:induction false} LastOwner(conns: seq<Conn>, n: nat) returns (c: nat)
    requires n <= |conns| && LinkCount(conns, n) > 0
    ensures c < n && Owns(conns, c, LinkCount(conns, n) - 1)
  {
    if |Addressed(conns[n - 1])| > 0 {
      c := n - 1;
    } else {
      c := LastOwner(conns, n - 1);
    }
  }

  /** The link numbers in the order of the list: block after block, as the connections are listed. */
  ghost function Numbers(conns: seq<Conn>, rank: seq<nat>, n: nat): seq<nat>
    requires n <= |rank| && forall i :: 0 <= i < |rank| ==> rank[i] < |conns|
  {
    if n == 0 then [] else Numbers(conns, rank, n - 1) + Block(LinkCount(conns, rank[n - 1]), |Addressed(conns[rank[n - 1]])|)
  }

  function Block(start: nat, len: nat): (r: seq<nat>)
    ensures |r| == len && forall i {:trigger r[i]} :: 0 <= i < len ==> r[i] == start + i
  {
    seq(len, i requires 0 <= i < len => start + i)
  }

  predicate NumberedAs(f: FabConfig, l: Link, m: nat) {
    && l.near.ip == Render(Plus(V4(Masked(f.fabric)), 2 * m), 31)
    && l.far.ip == Render(Plus(V4(Masked(f.fabric)), 2 * m + 1), 31)
  }

  /** Every link of the list carries the address pair of its number. */
  ghost predicate Numbered(f: FabConfig, l: seq<Link>, nums: seq<nat>) {
    |l| == |nums| && forall k :: 0 <= k < |l| ==> NumberedAs(f, l[k], nums[k])
  }

  lemma {:induction false} NumberedConcat(f: FabConfig, a: seq<Link>, b: seq<Link>, x: seq<nat>, y: seq<nat>)
    requires Numbered(f, a, x) && Numbered(f, b, y)
    ensures Numbered(f, a + b, x + y)
  {
  }

  lemma {:induction false} BlockNumbered(f: FabConfig, conns: seq<Conn>, c: nat)
    requires c < |conns|
    ensures Numbered(f, Addressed(AssignedConn(f, conns, c)), Block(LinkCount(conns, c), |Addressed(conns[c])|))
  {
    if conns[c].spec.kind != OtherConn {
      var m, own := LinkCount(conns, c), conns[c].spec.links;
      assert Addressed(AssignedConn(f, conns, c)) == LinksAt(f, own, m);
    }
  }

  lemma {:induction false} ListedNumbers(f: FabConfig, conns: seq<Conn>, now: seq<Conn>, rank: seq<nat>, n: nat)
    requires Ranks(now, AssignedConns(f, conns), rank) && n <= |now|
    ensures Numbered(f, LinksUpTo(now, n), Numbers(conns, rank, n))
  {
    if n > 0 {
      var c := rank[n - 1];
      ListedNumbers(f, conns, now, rank, n - 1);
      BlockNumbered(f, conns, c);
      assert now[n - 1] == AssignedConn(f, conns, c);
      NumberedConcat(f, LinksUpTo(now, n - 1), Addressed(now[n - 1]), Numbers(conns, rank, n - 1), Block(LinkCount(conns, c), |Addressed(conns[c])|));
    }
  }

  /** Every number in the list belongs to a listed connection. */
  lemma {:induction false} NumbersOwned(conns: seq<Conn>, rank: seq<nat>, n: nat, k: nat) returns (i: nat)
    requires n <= |rank| && forall i :: 0 <= i < |rank| ==> rank[i] < |conns|
    requires k < |Numbers(conns, rank, n)|
    ensures i < n && Owns(conns, rank[i], Numbers(conns, rank, n)[k])
  {
    if k < |Numbers(conns, rank, n - 1)| {
      i := NumbersOwned(conns, rank, n - 1, k);
    } else {
      i := n - 1;
    }
  }

  /** No number is listed twice. */
  lemma {:induction false} NumbersDistinct(conns: seq<Conn>, rank: seq<nat>, n: nat, a: nat, b: nat)
    requires n <= |rank| && forall i :: 0 <= i < |rank| ==> rank[i] < |conns|
    requires forall i, j :: 0 <= i < j < |rank| ==> rank[i] != rank[j]
    requires a < b < |Numbers(conns, rank, n)|
    ensures Numbers(conns, rank, n)[a] != Numbers(conns, rank, n)[b]
  {
    var before := Numbers(conns, rank, n - 1);
    if b < |before| {
      NumbersDistinct(conns, rank, n - 1, a, b);
    } else if a < |before| {
      var i := NumbersOwned(conns, rank, n - 1, a);
      if Numbers(conns, rank, n)[a] == Numbers(conns, rank, n)[b] {
        OneOwner(conns, rank[i], rank[n - 1], before[a]);
      }
    }
  }

  /** Where the last number is listed. */
  lemma {:induction false} LastListed(f: FabConfig, conns: seq<Conn>, now: seq<Conn>, rank: seq<nat>) returns (k: nat)
    requires Ranks(now, AssignedConns(f, conns), rank) && LinkCount(conns, |conns|) > 0
    ensures k < |AllLinks(now)| && NumberedAs(f, AllLinks(now)[k], LinkCount(conns, |conns|) - 1)
  {
    var c := LastOwner(conns, |conns|);
    var i := RankReaches(now, AssignedConns(f, conns), rank, c);
    var idx := LinkCount(conns, |conns|) - 1 - LinkCount(conns, c);
    assert now[i] == AssignedConn(f, conns, c);
    LinksPrefix(now, i, |now|);
    k := |LinksUpTo(now, i)| + idx;
    assert (LinksUpTo(now, i) + Addressed(now[i]))[k] == Addressed(now[i])[idx];
  }

  lemma {:induction false} UsedFrom(l: seq<Link>, m: nat, a: U32) returns (k: nat)
    requires m <= |l| && a in LinkUsed(l, m)
    ensures k < m && a in EndAddrs(l[k])
  {
    if a in EndAddrs(l[m - 1]) {
      k := m - 1;
    } else {
      k := UsedFrom(l, m - 1, a);
    }
  }

  /** A numbered link passes the checks that look at it alone iff the prefix holds its pair. */
  lemma {:induction false} PairHolds(f: FabConfig, l: Link, m: nat)
    requires NumberedAs(f, l, m)
    ensures Complete(l)
    ensures PointToPoint(f, l.far.ip) <==> 2 * m + 2 <= Size(f.fabric) || (f.fabric.bits == 32 && 2 * m + 1 < Size(f.fabric))
    ensures 2 * m + 2 <= Size(f.fabric) ==>
      PairAt(f, l, m)
  {
    PoolHolds(f.fabric, 2 * m, 31);
    PoolHolds(f.fabric, 2 * m + 1, 31);
    if f.fabric.bits <= 31 {
      EvenBlock(f.fabric);
    }
  }

  lemma {:induction false} NumberHolds(f: FabConfig, conns: seq<Conn>, now: seq<Conn>, rank: seq<nat>, k: nat)
    requires Ranks(now, AssignedConns(f, conns), rank) && LinksFit(f, LinkCount(conns, |conns|))
    requires k < |AllLinks(now)|
    ensures |Numbers(conns, rank, |now|)| == |AllLinks(now)|
    ensures PairAt(f, AllLinks(now)[k], Numbers(conns, rank, |now|)[k])
  {
    ListedNumbers(f, conns, now, rank, |now|);
    var i := NumbersOwned(conns, rank, |now|, k);
    CountGrows(conns, rank[i], |conns|);
    PairHolds(f, AllLinks(now)[k], Numbers(conns, rank, |now|)[k]);
  }

  predicate PairAt(f: FabConfig, l: Link, m: nat) {
    && PointToPoint(f, l.near.ip) && PointToPoint(f, l.far.ip)
    && l.near.ip.addr == Masked(f.fabric) + 2 * m && l.far.ip.addr == Masked(f.fabric) + 2 * m + 1
    && Mask(l.near.ip.addr, 1) == Mask(l.far.ip.addr, 1)
  }

  lemma {:induction false} PairsApart(f: FabConfig, a: Link, b: Link, m: nat, n: nat)
    requires PairAt(f, a, m) && PairAt(f, b, n) && m != n
    ensures EndAddrs(a) * EndAddrs(b) == {}
  {
  }

  lemma {:induction false} ListedSound(f: FabConfig, conns: seq<Conn>, now: seq<Conn>, rank: seq<nat>, k: nat)
    requires Ranks(now, AssignedConns(f, conns), rank) && LinksFit(f, LinkCount(conns, |conns|))
    requires k < |AllLinks(now)|
    ensures LinkSoundAt(f, AllLinks(now), k) && Complete(AllLinks(now)[k])
  {
    var l := AllLinks(now);
    NumberHolds(f, conns, now, rank, k);
    ListedApart(f, conns, now, rank, k, l[k].near.ip.addr);
    ListedApart(f, conns, now, rank, k, l[k].far.ip.addr);
  }

  lemma {:induction false} ListedApart(f: FabConfig, conns: seq<Conn>, now: seq<Conn>, rank: seq<nat>, k: nat, a: U32)
    requires Ranks(now, AssignedConns(f, conns), rank) && LinksFit(f, LinkCount(conns, |conns|))
    requires k < |AllLinks(now)|
    ensures a in EndAddrs(AllLinks(now)[k]) ==> a !in LinkUsed(AllLinks(now), k)
  {
    if a in LinkUsed(AllLinks(now), k) {
      var j := UsedFrom(AllLinks(now), k, a);
      NumberHolds(f, conns, now, rank, j);
      NumberHolds(f, conns, now, rank, k);
      NumbersDistinct(conns, rank, |now|, j, k);
      PairsApart(f, AllLinks(now)[j], AllLinks(now)[k], Numbers(conns, rank, |now|)[j], Numbers(conns, rank, |now|)[k]);
      assert a !in EndAddrs(AllLinks(now)[j]) * EndAddrs(AllLinks(now)[k]);
    }
  }

  lemma {:induction false} SoundMeansFit(f: FabConfig, conns: seq<Conn>, now: seq<Conn>, rank: seq<nat>)
    requires Ranks(now, AssignedConns(f, conns), rank)
    requires LinksSound(f, AllLinks(now)) && LinksSet(AllLinks(now))
    ensures LinksFit(f, LinkCount(conns, |conns|))
  {
    if LinkCount(conns, |conns|) > 0 {
      var k := LastListed(f, conns, now, rank);
      assert LinkSoundAt(f, AllLinks(now), k);
      PairHolds(f, AllLinks(now)[k], LinkCount(conns, |conns|) - 1);
      SizeOf32(f.fabric);
    }
  }

  /** The checker accepts the assigned links and finds them complete iff the fabric prefix holds all pairs. */
  lemma {:induction false} LinksIff(f: FabConfig, conns: seq<Conn>, now: seq<Conn>, rank: seq<nat>)
    requires Ranks(now, AssignedConns(f, conns), rank)
    ensures LinksSound(f, AllLinks(now)) && LinksSet(AllLinks(now)) <==> LinksFit(f, LinkCount(conns, |conns|))
  {
    if LinksFit(f, LinkCount(conns, |conns|)) {
      forall k | 0 <= k < |AllLinks(now)|
        ensures LinkSoundAt(f, AllLinks(now), k) && Complete(AllLinks(now)[k])
      {
        ListedSound(f, conns, now, rank, k);
      }
    }
    if LinksSound(f, AllLinks(now)) && LinksSet(AllLinks(now)) {
      SoundMeansFit(f, conns, now, rank);
    }
  }

  lemma {:induction false} SizeOf32(p: Prefix)
    ensures p.bits == 32 ==> Size(p) == 1
  {
  }
}
