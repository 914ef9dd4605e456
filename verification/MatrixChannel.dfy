/** The error channel of a connectivity test never blocks the probes that report to it. */
module MatrixChannel {
  import opened Matrix
  import opened MatrixPhases
  import opened MatrixRun
  import opened ErrorChannel

  function Repeat(x: nat, n: nat): (r: seq<nat>)
    ensures |r| == n && forall k {:trigger r[k]} :: 0 <= k < n ==> r[k] == x
  {
    seq(n, k => x)
  }

  /** The most errors each probe of a plan sends. */
  function Limits(p: Plan): seq<nat> {
    Repeat(2, |p.servers|) + Repeat(1, |p.curls| + |p.forwards| + |p.targets| + |p.ports|)
  }

  predicate Within(left: seq<nat>, limits: seq<nat>) {
    |left| == |limits| && forall k :: 0 <= k < |left| ==> left[k] <= limits[k]
  }

  lemma {:induction false} TotalWithin(left: seq<nat>, limits: seq<nat>, n: nat)
    requires Within(left, limits) && n <= |left|
    ensures Total(left, n) <= Total(limits, n)
  {
    if n > 0 {
      TotalWithin(left, limits, n - 1);
    }
  }

  lemma {:induction false} TotalSplit(a: nat, b: nat, n: nat)
    requires n <= a + b
    ensures var l := Repeat(2, a) + Repeat(1, b);
      Total(l, n) == if n <= a then 2 * n else a + n
  {
    if n > 0 {
      TotalSplit(a, b, n - 1);
    }
  }

  /** However many errors the probes send within their limits, and in whatever order, none of them ever waits for room. */
  lemma {:induction false} ProbesNeverBlock(m: Matrix, o: Opts, p: Plan, left: seq<nat>)
    requires Planned(m, o, p) && Within(left, Limits(p))
    ensures !CanDeadlock(Capacity(m), State(left, 0))
  {
    hide Planned, Capacity, CanDeadlock;
    ChannelFits(m, o, p);
    TotalWithin(left, Limits(p), |left|);
    TotalSplit(|p.servers|, |p.curls| + |p.forwards| + |p.targets| + |p.ports|, |left|);
    DeadlockIff(Capacity(m), State(left, 0));
  }
}
