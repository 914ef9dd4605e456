/**
  * Sorting API objects by a rank of their spec and then by name: distinct names leave one sorted list only, which any
  * sorting algorithm has to return.
  */
module Sorting {
  import opened Store

  predicate Before<T>(a: Object<T>, b: Object<T>, rank: T -> nat) {
    rank(a.spec) < rank(b.spec) || (rank(a.spec) == rank(b.spec) && a.name < b.name)
  }

  /** The rank that leaves the name alone to decide. */
  function ByName<T>(spec: T): nat {
    0
  }

  /** Strictly increasing order, stated one object at a time. */
  predicate Increasing<T>(l: seq<Object<T>>, n: nat, rank: T -> nat)
    requires n <= |l|
  {
    n == 0 || (Increasing(l, n - 1, rank) && forall j :: 0 <= j < n - 1 ==> Before(l[j], l[n - 1], rank))
  }

  lemma {:induction false} IncreasingPairs<T>(l: seq<Object<T>>, n: nat, rank: T -> nat)
    requires n <= |l|
    ensures Increasing(l, n, rank) <==> forall i, j :: 0 <= i < j < n ==> Before(l[i], l[j], rank)
  {
    if n > 0 {
      IncreasingPairs(l, n - 1, rank);
    }
  }

  ghost predicate IsSorting<T>(r: seq<Object<T>>, l: seq<Object<T>>, rank: T -> nat) {
    |r| == |l| && multiset(r) == multiset(l) && Increasing(r, |r|, rank)
  }

  /** The objects in strictly increasing order; there is exactly one such list when names are distinct. */
  ghost function Sort<T>(l: seq<Object<T>>, rank: T -> nat): (r: seq<Object<T>>)
    ensures |r| == |l|
    ensures multiset(r) == multiset(l)
  {
    if DistinctNames(l) then
      InsertionSorts(l, rank);
      var r :| IsSorting(r, l, rank);
      r
    else l
  }

  function Insert<T>(x: Object<T>, l: seq<Object<T>>, rank: T -> nat): (r: seq<Object<T>>)
    ensures multiset(r) == multiset(l) + multiset{x}
    ensures |r| == |l| + 1
  {
    if |l| == 0 then [x]
    else if Before(x, l[0], rank) then [x] + l
    else
      assert l == [l[0]] + l[1..];
      [l[0]] + Insert(x, l[1..], rank)
  }

  function InsertionSort<T>(l: seq<Object<T>>, rank: T -> nat): (r: seq<Object<T>>)
    ensures multiset(r) == multiset(l)
    ensures |r| == |l|
  {
    if |l| == 0 then l
    else
      assert l == [l[0]] + l[1..];
      Insert(l[0], InsertionSort(l[1..], rank), rank)
  }

  lemma {:induction false} SameMembers<T>(a: seq<T>, b: seq<T>)
    requires multiset(a) == multiset(b)
    ensures forall i :: 0 <= i < |a| ==> a[i] in b
    ensures forall i :: 0 <= i < |b| ==> b[i] in a
  {
    assert forall i :: 0 <= i < |a| ==> a[i] in multiset(a);
    assert forall i :: 0 <= i < |b| ==> b[i] in multiset(b);
  }

  ghost predicate Sorted<T>(l: seq<Object<T>>, rank: T -> nat) {
    forall i, j :: 0 <= i < j < |l| ==> Before(l[i], l[j], rank)
  }

  ghost predicate Distinct<T>(l: seq<Object<T>>) {
    forall i, j :: 0 <= i < j < |l| ==> l[i].name != l[j].name
  }

  lemma {:induction false} InsertSorted<T>(x: Object<T>, l: seq<Object<T>>, rank: T -> nat)
    requires Sorted(l, rank)
    requires forall y :: y in l ==> y.name != x.name
    ensures Sorted(Insert(x, l, rank), rank)
  {
    if |l| > 0 && !Before(x, l[0], rank) {
      var tail := l[1..];
      var rest := Insert(x, tail, rank);
      assert forall i :: 0 <= i < |tail| ==> tail[i] == l[i + 1];
      InsertSorted(x, tail, rank);
      assert l[0] in l;
      forall j | 0 <= j < |rest|
        ensures Before(l[0], rest[j], rank)
      {
        assert rest[j] in multiset(rest);
        assert rest[j] in tail || rest[j] == x;
      }
    }
  }

  lemma {:induction false} InsertionSorted<T>(l: seq<Object<T>>, rank: T -> nat)
    requires Distinct(l)
    ensures Sorted(InsertionSort(l, rank), rank)
  {
    if |l| > 0 {
      var tail := l[1..];
      var rest := InsertionSort(tail, rank);
      assert forall i :: 0 <= i < |tail| ==> tail[i] == l[i + 1];
      InsertionSorted(tail, rank);
      forall y | y in rest
        ensures y.name != l[0].name
      {
        assert y in multiset(rest);
        assert y in tail;
        var i :| 0 <= i < |tail| && tail[i] == y;
        assert l[i + 1] == y;
      }
      InsertSorted(l[0], rest, rank);
    }
  }

  lemma {:induction false} InsertionSorts<T>(l: seq<Object<T>>, rank: T -> nat)
    requires DistinctNames(l)
    ensures IsSorting(InsertionSort(l, rank), l, rank)
  {
    DistinctPairs(l, |l|);
    InsertionSorted(l, rank);
    IncreasingPairs(InsertionSort(l, rank), |l|, rank);
  }

  lemma {:induction false} DropAt<T>(b: seq<T>, k: nat)
    requires k < |b|
    ensures multiset(b[..k] + b[k + 1..]) == multiset(b) - multiset{b[k]}
  {
    assert b == b[..k] + [b[k]] + b[k + 1..];
  }

  lemma {:induction false} DistinctWithout<T>(b: seq<Object<T>>, k: nat)
    requires k < |b| && Distinct(b[..k] + b[k + 1..])
    requires forall y :: y in b[..k] + b[k + 1..] ==> y.name != b[k].name
    ensures Distinct(b)
  {
    var c := b[..k] + b[k + 1..];
    forall i, j | 0 <= i < j < |b|
      ensures b[i].name != b[j].name
    {
      if i != k { assert b[i] == c[if i < k then i else i - 1]; }
      if j != k { assert b[j] == c[if j < k then j else j - 1]; }
    }
  }

  /** A permutation of objects with distinct names has distinct names. */
  lemma {:induction false} DistinctPermutation<T>(a: seq<Object<T>>, b: seq<Object<T>>)
    requires multiset(a) == multiset(b) && Distinct(a)
    ensures Distinct(b)
  {
    assert |a| == |multiset(a)| == |multiset(b)| == |b|;
    if |a| > 0 {
      SameMembers(a, b);
      assert a[0] in b;
      var k :| 0 <= k < |b| && b[k] == a[0];
      var c, tail := b[..k] + b[k + 1..], a[1..];
      DropAt(b, k);
      TailOfMultiset(a);
      DistinctPermutation(tail, c);
      SameMembers(tail, c);
      forall y | y in c
        ensures y.name != a[0].name
      {
        var j :| 0 <= j < |c| && c[j] == y;
        var i :| 0 <= i < |tail| && tail[i] == c[j];
        assert tail[i] == a[i + 1];
      }
      DistinctWithout(b, k);
    }
  }

  lemma {:induction false} SameHead<T>(a: seq<Object<T>>, b: seq<Object<T>>, rank: T -> nat)
    requires Sorted(a, rank) && Sorted(b, rank)
    requires |a| > 0 && |b| > 0 && multiset(a) == multiset(b)
    ensures a[0] == b[0]
  {
    SameMembers(a, b);
    assert a[0] in b && b[0] in a;
    var k :| 0 <= k < |b| && b[k] == a[0];
    var m :| 0 <= m < |a| && a[m] == b[0];
  }

  lemma {:induction false} TailOfMultiset<T>(a: seq<T>)
    requires |a| > 0
    ensures multiset(a[1..]) == multiset(a) - multiset{a[0]}
  {
    assert a == [a[0]] + a[1..];
  }

  /** A strictly sorted list is determined by its members. */
  lemma {:induction false} SortedUnique<T>(a: seq<Object<T>>, b: seq<Object<T>>, rank: T -> nat)
    requires Sorted(a, rank) && Sorted(b, rank)
    requires multiset(a) == multiset(b)
    ensures a == b
  {
    assert |a| == |multiset(a)| == |multiset(b)| == |b|;
    if |a| > 0 {
      SameHead(a, b, rank);
      TailOfMultiset(a);
      TailOfMultiset(b);
      SortedUnique(a[1..], b[1..], rank);
      assert a == [a[0]] + a[1..] && b == [b[0]] + b[1..];
    }
  }

  /** The sort orders the objects strictly, keeps exactly the same objects, and is the only list that does. */
  lemma {:induction false} SortSorts<T>(l: seq<Object<T>>, rank: T -> nat)
    requires DistinctNames(l)
    ensures Sorted(Sort(l, rank), rank) && DistinctNames(Sort(l, rank))
    ensures forall i :: 0 <= i < |l| ==> l[i] in Sort(l, rank)
    ensures forall i :: 0 <= i < |l| ==> Sort(l, rank)[i] in l
  {
    InsertionSorts(l, rank);
    var r := Sort(l, rank);
    IncreasingPairs(r, |r|, rank);
    DistinctPairs(l, |l|);
    DistinctPermutation(l, r);
    DistinctPairs(r, |r|);
    SameMembers(l, r);
  }

  /** Sorting two orderings of the same objects gives the same list. */
  lemma {:induction false} SortOrderIndependent<T>(a: seq<Object<T>>, b: seq<Object<T>>, rank: T -> nat)
    requires DistinctNames(a) && DistinctNames(b)
    requires multiset(a) == multiset(b)
    ensures Sort(a, rank) == Sort(b, rank)
  {
    SortSorts(a, rank);
    SortSorts(b, rank);
    SortedUnique(Sort(a, rank), Sort(b, rank), rank);
  }

  lemma {:induction false} SortOfSorted<T>(a: seq<Object<T>>, rank: T -> nat)
    requires Sorted(a, rank) && DistinctNames(a)
    ensures Sort(a, rank) == a
  {
    SortSorts(a, rank);
    SortedUnique(Sort(a, rank), a, rank);
  }

  /** The library sort the program calls. */
  method SortObjects<T>(l: seq<Object<T>>, rank: T -> nat) returns (r: seq<Object<T>>)
    requires DistinctNames(l)
    ensures r == Sort(l, rank)
  {
    r := InsertionSort(l, rank);
    InsertionSorts(l, rank);
    IncreasingPairs(r, |r|, rank);
    SortSorts(l, rank);
    SortedUnique(r, Sort(l, rank), rank);
  }
}
