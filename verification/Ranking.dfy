/**
  * Where each listed object stands in the sorted list, and what comes of storing the objects of a sorted list back
  * under their names.
  */
module Ranking {
  import opened Store
  import opened Sorting

  /** now lists the items in some order: position i holds item rank[i], and every item is listed once. */
  ghost predicate Ranks<T>(now: seq<Object<T>>, items: seq<Object<T>>, rank: seq<nat>) {
    && |rank| == |now| == |items|
    && (forall i {:trigger rank[i]} :: 0 <= i < |rank| ==> rank[i] < |items| && now[i] == items[rank[i]])
    && (forall i, j :: 0 <= i < j < |rank| ==> rank[i] != rank[j])
  }

  /** Object i of the list takes the item that stands where it stands in the sorted list. */
  lemma {:induction false} StoredAt<T>(l: seq<Object<T>>, sorted: seq<Object<T>>, items: seq<Object<T>>, i: nat, r: nat)
    requires DistinctNames(sorted) && i < |l| && l[i] in sorted
    requires |items| == |sorted| && forall j :: 0 <= j < |items| ==> items[j].name == sorted[j].name
    requires r < |sorted| && sorted[r].name == l[i].name
    ensures PutAll(l, items)[i] == items[r] && sorted[r] == l[i]
  {
    var j :| 0 <= j < |sorted| && sorted[j] == l[i];
    DistinctPairs(sorted, |sorted|);
    DistinctTransfer(sorted, items);
    PutAllAt(l, items, i);
  }

  lemma {:induction false} Positions<T>(l: seq<Object<T>>, sorted: seq<Object<T>>) returns (rank: seq<nat>)
    requires forall i :: 0 <= i < |l| ==> l[i] in sorted
    ensures |rank| == |l|
    ensures forall i :: 0 <= i < |l| ==> rank[i] < |sorted| && sorted[rank[i]].name == l[i].name
  {
    forall i | 0 <= i < |l|
      ensures Find(sorted, l[i].name).Some?
    {
      FindFromMisses(sorted, l[i].name, 0);
      var j :| 0 <= j < |sorted| && sorted[j] == l[i];
    }
    rank := seq(|l|, i requires 0 <= i < |l| => Find(sorted, l[i].name).value);
  }

  /** Storing the items of a sorted copy back into the list ranks the list. */
  lemma {:induction false} StoredBack<T>(l: seq<Object<T>>, sorted: seq<Object<T>>, items: seq<Object<T>>) returns (rank: seq<nat>)
    requires DistinctNames(l) && DistinctNames(sorted)
    requires |sorted| == |l| && forall i :: 0 <= i < |l| ==> l[i] in sorted
    requires |items| == |sorted| && forall i :: 0 <= i < |items| ==> items[i].name == sorted[i].name
    ensures Ranks(PutAll(l, items), items, rank)
    ensures forall i :: 0 <= i < |l| ==> sorted[rank[i]] == l[i]
  {
    rank := Positions(l, sorted);
    DistinctPairs(l, |l|);
    forall i | 0 <= i < |l|
      ensures PutAll(l, items)[i] == items[rank[i]] && sorted[rank[i]] == l[i]
    {
      StoredAt(l, sorted, items, i, rank[i]);
    }
  }

  /** A ranking reaches every item. */
  lemma {:induction false} RankReaches<T>(now: seq<Object<T>>, items: seq<Object<T>>, rank: seq<nat>, r: nat) returns (i: nat)
    requires Ranks(now, items, rank) && r < |items|
    ensures i < |rank| && rank[i] == r
  {
    if forall i :: 0 <= i < |rank| ==> rank[i] != r {
      var s := set i | 0 <= i < |rank| :: rank[i];
      InjectiveSize(rank, |rank|);
      var all := Range(|items|) - {r};
      RangeSize(|items|);
      SubsetSize(s, all);
    }
    i :| 0 <= i < |rank| && rank[i] == r;
  }

  function Range(n: nat): set<nat> {
    if n == 0 then {} else Range(n - 1) + {n - 1}
  }

  lemma {:induction false} RangeSize(n: nat)
    ensures |Range(n)| == n
    ensures forall k :: k in Range(n) <==> 0 <= k < n
  {
    if n > 0 {
      RangeSize(n - 1);
    }
  }

  lemma {:induction false} SubsetSize(a: set<nat>, b: set<nat>)
    requires a <= b
    ensures |a| <= |b|
  {
    if a != {} {
      var x :| x in a;
      SubsetSize(a - {x}, b - {x});
    }
  }

  lemma {:induction false} InjectiveSize(rank: seq<nat>, n: nat)
    requires n <= |rank|
    requires forall i, j :: 0 <= i < j < |rank| ==> rank[i] != rank[j]
    ensures |set i | 0 <= i < n :: rank[i]| == n
  {
    if n > 0 {
      InjectiveSize(rank, n - 1);
      var before := set i | 0 <= i < n - 1 :: rank[i];
      assert (set i | 0 <= i < n :: rank[i]) == before + {rank[n - 1]};
    }
  }
}
