/**
  * API objects: a name and a spec, listed, looked up by name and updated in place; an update keeps an object's place in
  * the listing.
  */
module Store {
  /** Object names; the order on names is all the program uses of them. */
  type Name = nat

  datatype Option<T> = None | Some(value: T)

  datatype Object<T> = Object(name: Name, spec: T)

  /** Pairwise distinct names, stated one object at a time. */
  predicate DistinctNames<T>(l: seq<Object<T>>) {
    DistinctUpTo(l, |l|)
  }

  predicate DistinctUpTo<T>(l: seq<Object<T>>, n: nat)
    requires n <= |l|
  {
    n == 0 || (DistinctUpTo(l, n - 1) && forall j :: 0 <= j < n - 1 ==> l[j].name != l[n - 1].name)
  }

  lemma {:induction false} DistinctPairs<T>(l: seq<Object<T>>, n: nat)
    requires n <= |l|
    ensures DistinctUpTo(l, n) <==> forall i, j :: 0 <= i < j < n ==> l[i].name != l[j].name
  {
    if n > 0 {
      DistinctPairs(l, n - 1);
    }
  }

  /** Distinctness only depends on the names. */
  lemma {:induction false} DistinctTransfer<T>(a: seq<Object<T>>, b: seq<Object<T>>)
    requires DistinctNames(a) && |b| <= |a| && forall i :: 0 <= i < |b| ==> b[i].name == a[i].name
    ensures DistinctNames(b)
  {
    DistinctPairs(a, |a|);
    DistinctPairs(b, |b|);
  }

  /** Position of the first object with this name. */
  function Find<T>(l: seq<Object<T>>, name: Name): (r: Option<nat>)
    ensures r.Some? ==> r.value < |l| && l[r.value].name == name
  {
    FindFrom(l, name, 0)
  }

  function FindFrom<T>(l: seq<Object<T>>, name: Name, i: nat): (r: Option<nat>)
    requires i <= |l|
    ensures r.Some? ==> r.value < |l| && l[r.value].name == name
    decreases |l| - i
  {
    if i == |l| then None else if l[i].name == name then Some(i) else FindFrom(l, name, i + 1)
  }

  lemma {:induction false} FindFromMisses<T>(l: seq<Object<T>>, name: Name, i: nat)
    requires i <= |l|
    ensures FindFrom(l, name, i).None? <==> forall j :: i <= j < |l| ==> l[j].name != name
    decreases |l| - i
  {
    if i < |l| {
      FindFromMisses(l, name, i + 1);
    }
  }

  lemma {:induction false} FindUnique<T>(l: seq<Object<T>>, i: nat)
    requires DistinctNames(l) && i < |l|
    ensures Find(l, l[i].name) == Some(i)
  {
    DistinctPairs(l, |l|);
    FindFromMisses(l, l[i].name, 0);
  }

  /** Update: the object with this name becomes x; the order of the list is kept. */
  function Put<T>(l: seq<Object<T>>, x: Object<T>): (r: seq<Object<T>>)
    ensures |r| == |l|
    ensures forall i {:trigger r[i]} :: 0 <= i < |l| ==> r[i] == if l[i].name == x.name then x else l[i]
  {
    seq(|l|, i requires 0 <= i < |l| => if l[i].name == x.name then x else l[i])
  }

  function PutAll<T>(l: seq<Object<T>>, items: seq<Object<T>>): (r: seq<Object<T>>)
    ensures |r| == |l|
  {
    if |items| == 0 then l else Put(PutAll(l, items[..|items| - 1]), items[|items| - 1])
  }

  lemma {:induction false} PutAllStep<T>(l: seq<Object<T>>, items: seq<Object<T>>, n: nat)
    requires n < |items|
    ensures PutAll(l, items[..n + 1]) == Put(PutAll(l, items[..n]), items[n])
  {
    assert items[..n + 1][..n] == items[..n];
  }

  lemma {:induction false} PutAllNames<T>(l: seq<Object<T>>, items: seq<Object<T>>)
    ensures forall i :: 0 <= i < |l| ==> PutAll(l, items)[i].name == l[i].name
  {
    if |items| > 0 {
      PutAllNames(l, items[..|items| - 1]);
    }
  }

  /** Each object ends up as the item of its name, or unchanged when there is none. */
  lemma {:induction false} PutAllAt<T>(l: seq<Object<T>>, items: seq<Object<T>>, i: nat)
    requires DistinctNames(items) && i < |l|
    ensures forall j :: 0 <= j < |items| && items[j].name == l[i].name ==> PutAll(l, items)[i] == items[j]
    ensures (forall j :: 0 <= j < |items| ==> items[j].name != l[i].name) ==> PutAll(l, items)[i] == l[i]
  {
    if |items| > 0 {
      var init := items[..|items| - 1];
      DistinctPairs(items, |items|);
      DistinctPairs(init, |init|);
      PutAllAt(l, init, i);
      PutAllNames(l, init);
      assert forall j :: 0 <= j < |items| - 1 ==> items[j] == init[j];
    }
  }
}
