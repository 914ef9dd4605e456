/** A buffered channel that is drained only after every sender is done. */
module ErrorChannel {
  /** How many sends each sender has left, and how many errors are queued. */
  datatype State = State(left: seq<nat>, queued: nat)

  function Total(left: seq<nat>, n: nat): nat
    requires n <= |left|
  {
    if n == 0 then 0 else Total(left, n - 1) + left[n - 1]
  }

  function Left(s: State): nat {
    Total(s.left, |s.left|)
  }

  predicate Done(s: State) {
    forall i :: 0 <= i < |s.left| ==> s.left[i] == 0
  }

  /** Sender i can send: it has something left and the buffer has room. */
  predicate Enabled(cap: nat, s: State, i: nat) {
    i < |s.left| && s.left[i] > 0 && s.queued < cap
  }

  function Send(s: State, i: nat): State
    requires i < |s.left| && s.left[i] > 0
  {
    State(s.left[i := s.left[i] - 1], s.queued + 1)
  }

  /** The state after an interleaving of sends, when all of them were enabled. */
  ghost predicate Reaches(cap: nat, s: State, moves: seq<nat>, t: State)
    decreases |moves|
  {
    if |moves| == 0 then s == t
    else Enabled(cap, s, moves[0]) && Reaches(cap, Send(s, moves[0]), moves[1..], t)
  }

  lemma {:induction false} TotalUpdate(left: seq<nat>, i: nat, n: nat)
    requires i < |left| && left[i] > 0 && n <= |left|
    ensures Total(left[i := left[i] - 1], n) == Total(left, n) - if i < n then 1 else 0
  {
    if n > 0 {
      TotalUpdate(left, i, n - 1);
    }
  }

  lemma {:induction false} TotalAtLeast(left: seq<nat>, i: nat, n: nat)
    requires i < n <= |left|
    ensures left[i] <= Total(left, n)
  {
    if i < n - 1 {
      TotalAtLeast(left, i, n - 1);
    }
  }

  lemma {:induction false} SomeoneLeft(left: seq<nat>, n: nat) returns (i: nat)
    requires n <= |left| && Total(left, n) > 0
    ensures i < n && left[i] > 0
  {
    if left[n - 1] > 0 {
      i := n - 1;
    } else {
      i := SomeoneLeft(left, n - 1);
    }
  }

  lemma {:induction false} DoneMeansNoneLeft(s: State)
    ensures Done(s) <==> Left(s) == 0
  {
    if Left(s) > 0 {
      var i := SomeoneLeft(s.left, |s.left|);
    }
    forall i | 0 <= i < |s.left|
      ensures s.left[i] <= Left(s)
    {
      TotalAtLeast(s.left, i, |s.left|);
    }
  }

  /** Sends conserve errors: what is queued and what is left add up to the same in every reachable state. */
  lemma {:induction false} Conserved(cap: nat, s: State, moves: seq<nat>, t: State)
    requires Reaches(cap, s, moves, t)
    ensures t.queued + Left(t) == s.queued + Left(s) && t.queued == s.queued + |moves|
    decreases |moves|
  {
    if |moves| > 0 {
      TotalUpdate(s.left, moves[0], |s.left|);
      Conserved(cap, Send(s, moves[0]), moves[1..], t);
    }
  }

  /** No sender is ever blocked when the capacity covers all errors. */
  lemma {:induction false} NeverBlocked(cap: nat, s: State, moves: seq<nat>, t: State, i: nat)
    requires s.queued + Left(s) <= cap && Reaches(cap, s, moves, t)
    requires i < |t.left| && t.left[i] > 0
    ensures Enabled(cap, t, i)
  {
    Conserved(cap, s, moves, t);
    TotalAtLeast(t.left, i, |t.left|);
  }

  /** A state in which somebody still has to send and nobody can. */
  ghost predicate Deadlocked(cap: nat, t: State) {
    !Done(t) && forall i: nat :: !Enabled(cap, t, i)
  }

  ghost predicate CanDeadlock(cap: nat, s: State) {
    exists moves, t :: Reaches(cap, s, moves, t) && Deadlocked(cap, t)
  }

  lemma {:induction false} FillUp(cap: nat, s: State) returns (moves: seq<nat>, t: State)
    requires s.queued <= cap < s.queued + Left(s)
    ensures Reaches(cap, s, moves, t) && Deadlocked(cap, t)
    decreases cap - s.queued
  {
    if s.queued == cap {
      moves, t := [], s;
      DoneMeansNoneLeft(s);
    } else {
      var i := SomeoneLeft(s.left, |s.left|);
      TotalUpdate(s.left, i, |s.left|);
      var rest;
      rest, t := FillUp(cap, Send(s, i));
      moves := [i] + rest;
      assert moves[1..] == rest;
    }
  }

  /** Waiting for all senders before draining deadlocks in some interleaving exactly when the errors exceed the capacity. */
  lemma {:induction false} DeadlockIff(cap: nat, s: State)
    requires s.queued == 0
    ensures CanDeadlock(cap, s) <==> Left(s) > cap
  {
    if Left(s) > cap {
      var moves, t := FillUp(cap, s);
    }
    if CanDeadlock(cap, s) && Left(s) <= cap {
      var moves, t :| Reaches(cap, s, moves, t) && Deadlocked(cap, t);
      DoneMeansNoneLeft(t);
      var i := SomeoneLeft(t.left, |t.left|);
      NeverBlocked(cap, s, moves, t, i);
      assert false;
    }
  }
}
