/**
  * Collecting what a double loop over a list adds at each pair of positions: everything that is added at some pair is
  * collected, and nothing else is.
  */
module Grid {
  /** What row i adds in its first j columns. */
  function Row<T>(f: (nat, nat) -> seq<T>, i: nat, j: nat): seq<T> {
    if j == 0 then [] else Row(f, i, j - 1) + f(i, j - 1)
  }

  /** What the first i rows of n columns add. */
  function Rows<T>(f: (nat, nat) -> seq<T>, i: nat, n: nat): seq<T> {
    if i == 0 then [] else Rows(f, i - 1, n) + Row(f, i - 1, n)
  }

  function All<T>(f: (nat, nat) -> seq<T>, n: nat): seq<T> {
    Rows(f, n, n)
  }

  lemma {:induction false} RowMembers<T>(f: (nat, nat) -> seq<T>, i: nat, j: nat, x: T)
    ensures x in Row(f, i, j) <==> exists b: nat :: b < j && x in f(i, b)
  {
    if j > 0 {
      RowMembers(f, i, j - 1, x);
    }
  }

  lemma {:induction false} RowsMembers<T>(f: (nat, nat) -> seq<T>, i: nat, n: nat, x: T)
    ensures x in Rows(f, i, n) <==> exists a: nat, b: nat :: a < i && b < n && x in f(a, b)
  {
    if i > 0 {
      RowsMembers(f, i - 1, n, x);
      RowMembers(f, i - 1, n, x);
      if x in Row(f, i - 1, n) {
        var b: nat :| b < n && x in f(i - 1, b);
        assert i - 1 < i && b < n && x in f(i - 1, b);
      }
    }
  }

  /** Everything collected was added at some pair, and everything added is collected. */
  lemma {:induction false} Members<T>(f: (nat, nat) -> seq<T>, n: nat, x: T)
    ensures x in All(f, n) <==> exists a: nat, b: nat :: a < n && b < n && x in f(a, b)
  {
    RowsMembers(f, n, n, x);
  }

  ghost predicate TwoPerPair<A, B, C>(f: (nat, nat) -> seq<A>, g: (nat, nat) -> seq<B>, h: (nat, nat) -> seq<C>) {
    forall i: nat, j: nat :: 2 * |f(i, j)| + |g(i, j)| + |h(i, j)| <= 2
  }

  lemma {:induction false} RowTwo<A, B, C>(f: (nat, nat) -> seq<A>, g: (nat, nat) -> seq<B>, h: (nat, nat) -> seq<C>, i: nat, j: nat)
    requires TwoPerPair(f, g, h)
    ensures 2 * |Row(f, i, j)| + |Row(g, i, j)| + |Row(h, i, j)| <= 2 * j
  {
    if j > 0 {
      RowTwo(f, g, h, i, j - 1);
      assert 2 * |f(i, j - 1)| + |g(i, j - 1)| + |h(i, j - 1)| <= 2;
    }
  }

  /** Three collections that together cost at most two per pair cost at most two per cell of the grid. */
  lemma {:induction false} RowsTwo<A, B, C>(f: (nat, nat) -> seq<A>, g: (nat, nat) -> seq<B>, h: (nat, nat) -> seq<C>, i: nat, n: nat)
    requires TwoPerPair(f, g, h)
    ensures 2 * |Rows(f, i, n)| + |Rows(g, i, n)| + |Rows(h, i, n)| <= 2 * (i * n)
  {
    if i > 0 {
      RowsTwo(f, g, h, i - 1, n);
      RowTwo(f, g, h, i - 1, n);
      assert i * n == (i - 1) * n + n;
    }
  }

  ghost predicate Dominated<A, B>(f: (nat, nat) -> seq<A>, g: (nat, nat) -> seq<B>) {
    forall i: nat, j: nat :: |f(i, j)| <= |g(i, j)|
  }

  lemma {:induction false} RowDominated<A, B>(f: (nat, nat) -> seq<A>, g: (nat, nat) -> seq<B>, i: nat, j: nat)
    requires Dominated(f, g)
    ensures |Row(f, i, j)| <= |Row(g, i, j)|
  {
    if j > 0 {
      RowDominated(f, g, i, j - 1);
      assert |f(i, j - 1)| <= |g(i, j - 1)|;
    }
  }

  lemma {:induction false} RowsDominated<A, B>(f: (nat, nat) -> seq<A>, g: (nat, nat) -> seq<B>, i: nat, n: nat)
    requires Dominated(f, g)
    ensures |Rows(f, i, n)| <= |Rows(g, i, n)|
  {
    if i > 0 {
      RowsDominated(f, g, i - 1, n);
      RowDominated(f, g, i - 1, n);
    }
  }
}
