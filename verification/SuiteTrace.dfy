/**
  * What happens to the environment during a run of a test suite: setups, test functions and their reverts, in the order in
  * which they happen, and what makes such a record a good one.
  */
module SuiteTrace {
  /** What a test function returns: whether it skips, whether it fails, and how many reverts it leaves. */
  datatype Result = Result(skip: bool, err: bool, reverts: nat)

  /** How the environment answers: each setup in turn, each test function, each revert. */
  datatype World = World(setup: nat -> bool, test: nat -> Result, revert: (nat, nat) -> bool)

  datatype Event = Setup(ok: bool) | Test(i: nat) | Revert(i: nat, j: nat, ok: bool)

  /** After the first n events the last setup has succeeded and no revert has failed since. */
  predicate CleanAfter(t: seq<Event>, n: nat)
    requires n <= |t|
  {
    n > 0 &&
    match t[n - 1]
    case Setup(ok) => ok
    case Test(_) => CleanAfter(t, n - 1)
    case Revert(_, _, ok) => ok && CleanAfter(t, n - 1)
  }

  /** A test function only runs in a clean environment. */
  predicate Safe(t: seq<Event>) {
    forall k :: 0 <= k < |t| && t[k].Test? ==> CleanAfter(t, k)
  }

  /** Right after a test function all its reverts run, last one first, whether or not some of them fail. */
  predicate RevertsFollow(t: seq<Event>, w: World) {
    forall k :: 0 <= k < |t| && t[k].Test? ==> RevertedAt(t, w, k)
  }

  predicate RevertedAt(t: seq<Event>, w: World, k: nat)
    requires k < |t| && t[k].Test?
  {
    var i := t[k].i;
    var r := w.test(i).reverts;
    && k + r < |t|
    && forall m :: k < m <= k + r ==> t[m] == Revert(i, r - (m - k), w.revert(i, r - (m - k)))
  }

  /** A revert only runs as one of those that follow its test function. */
  predicate RevertsOwned(t: seq<Event>, w: World) {
    forall k :: 0 <= k < |t| && t[k].Revert? ==> OwnedAt(t, w, k)
  }

  predicate OwnedAt(t: seq<Event>, w: World, k: nat)
    requires k < |t| && t[k].Revert?
  {
    var i, j := t[k].i, t[k].j;
    var r := w.test(i).reverts;
    j < r && r - j <= k && t[k - (r - j)] == Test(i)
  }

  /** Test functions run in order, each at most once. */
  predicate InOrder(t: seq<Event>) {
    forall k, l :: 0 <= k < l < |t| && t[k].Test? && t[l].Test? ==> t[k].i < t[l].i
  }

  predicate Below(t: seq<Event>, n: nat) {
    forall k :: 0 <= k < |t| && t[k].Test? ==> t[k].i < n
  }

  /** Between any two test functions there is a successful setup. */
  predicate Isolated(t: seq<Event>) {
    forall k, l :: 0 <= k < l < |t| && t[k].Test? && t[l].Test? ==> exists s :: k < s < l && t[s] == Setup(true)
  }

  predicate Good(t: seq<Event>, w: World) {
    Safe(t) && RevertsFollow(t, w) && RevertsOwned(t, w) && InOrder(t)
  }

  predicate RevertFails(w: World, i: nat, n: nat) {
    exists j: nat :: j < n && !w.revert(i, j)
  }

  /** The first n reverts of a test, last one first. */
  function RevertBlock(w: World, i: nat, n: nat): (r: seq<Event>)
    ensures |r| == n && forall j {:trigger r[j]} :: 0 <= j < n ==> r[j] == Revert(i, n - 1 - j, w.revert(i, n - 1 - j))
  {
    seq(n, j requires 0 <= j < n => Revert(i, n - 1 - j, w.revert(i, n - 1 - j)))
  }

  /** A test function and its reverts. */
  function Block(w: World, i: nat): seq<Event> {
    [Test(i)] + RevertBlock(w, i, w.test(i).reverts)
  }

  lemma {:induction false} CleanPrefix(a: seq<Event>, b: seq<Event>, n: nat)
    requires n <= |a|
    ensures CleanAfter(a + b, n) == CleanAfter(a, n)
  {
    if n > 0 {
      CleanPrefix(a, b, n - 1);
    }
  }

  lemma {:induction false} KeepsGood(t: seq<Event>, more: seq<Event>, w: World)
    requires Good(t, w)
    ensures forall k :: 0 <= k < |t| && t[k].Test? ==> CleanAfter(t + more, k) && RevertedAt(t + more, w, k)
    ensures forall k :: 0 <= k < |t| && t[k].Revert? ==> OwnedAt(t + more, w, k)
  {
    var u := t + more;
    forall k | 0 <= k < |t| && t[k].Test?
      ensures CleanAfter(u, k) && RevertedAt(u, w, k)
    {
      CleanPrefix(t, more, k);
      assert RevertedAt(t, w, k);
      assert u[k] == t[k];
    }
    forall k | 0 <= k < |t| && t[k].Revert?
      ensures OwnedAt(u, w, k)
    {
      assert OwnedAt(t, w, k);
    }
  }

  lemma {:induction false} AppendSetup(t: seq<Event>, w: World, ok: bool)
    requires Good(t, w)
    ensures var u := t + [Setup(ok)];
      && Good(u, w) && CleanAfter(u, |u|) == ok
      && forall n: nat :: Below(t, n) ==> Below(u, n)
    ensures Isolated(t) ==> Isolated(t + [Setup(ok)])
  {
    hide CleanAfter, RevertedAt, OwnedAt;
    var u := t + [Setup(ok)];
    KeepsGood(t, [Setup(ok)], w);
    CleanSetup(t, ok);
    forall k, l | Isolated(t) && 0 <= k < l < |u| && u[k].Test? && u[l].Test?
      ensures exists s :: k < s < l && u[s] == Setup(true)
    {
      var s :| k < s < l && t[s] == Setup(true);
      assert u[s] == Setup(true);
    }
  }

  lemma {:induction false} CleanSetup(t: seq<Event>, ok: bool)
    ensures CleanAfter(t + [Setup(ok)], |t| + 1) == ok
  {
  }

  lemma {:induction false} CleanBlock(t: seq<Event>, w: World, i: nat, n: nat)
    requires n <= w.test(i).reverts && CleanAfter(t, |t|)
    ensures CleanAfter(t + Block(w, i), |t|)
    ensures CleanAfter(t + Block(w, i), |t| + 1 + n) <==>
      forall j: nat :: w.test(i).reverts - n <= j < w.test(i).reverts ==> w.revert(i, j)
  {
    var u, r := t + Block(w, i), w.test(i).reverts;
    CleanPrefix(t, Block(w, i), |t|);
    if n > 0 {
      CleanBlock(t, w, i, n - 1);
      assert u[|t| + n] == Revert(i, r - n, w.revert(i, r - n));
    } else {
      assert u[|t|] == Test(i);
    }
  }

  lemma {:induction false} BlockAt(t: seq<Event>, w: World, i: nat)
    ensures var u := t + Block(w, i);
      && u[|t|] == Test(i) && RevertedAt(u, w, |t|)
      && forall k :: |t| < k < |u| ==> u[k].Revert? && OwnedAt(u, w, k)
  {
    var u, r := t + Block(w, i), w.test(i).reverts;
    forall k | |t| < k < |u|
      ensures u[k].Revert? && OwnedAt(u, w, k)
    {
      assert u[k] == RevertBlock(w, i, r)[k - |t| - 1];
    }
    forall m | |t| < m <= |t| + r
      ensures u[m] == Revert(i, r - (m - |t|), w.revert(i, r - (m - |t|)))
    {
      assert u[m] == RevertBlock(w, i, r)[m - |t| - 1];
    }
  }

  /** Running a test and its reverts in a clean environment keeps the trace good. */
  lemma {:induction false} AppendBlock(t: seq<Event>, w: World, i: nat)
    requires Good(t, w) && Below(t, i) && CleanAfter(t, |t|)
    ensures var u := t + Block(w, i);
      && Good(u, w) && Below(u, i + 1)
      && (CleanAfter(u, |u|) <==> !RevertFails(w, i, w.test(i).reverts))
  {
    hide CleanAfter, RevertedAt, OwnedAt, Block;
    var u := t + Block(w, i);
    KeepsGood(t, Block(w, i), w);
    CleanBlock(t, w, i, w.test(i).reverts);
    BlockLength(w, i);
    BlockAt(t, w, i);
    assert forall k :: 0 <= k < |t| ==> u[k] == t[k];
    assert forall k :: 0 <= k < |u| && u[k].Test? ==> k < |t| || k == |t|;
    assert forall k :: 0 <= k < |u| && u[k].Test? ==> CleanAfter(u, k) && RevertedAt(u, w, k);
    assert forall k :: 0 <= k < |u| && u[k].Revert? ==> OwnedAt(u, w, k);
  }

  lemma {:induction false} BlockLength(w: World, i: nat)
    ensures |Block(w, i)| == 1 + w.test(i).reverts
  {
  }

  /** With a setup right before it the test stays isolated from all earlier ones. */
  lemma {:induction false} BlockIsolated(t: seq<Event>, w: World, i: nat)
    requires Isolated(t) && (Below(t, 0) || (|t| > 0 && t[|t| - 1] == Setup(true)))
    ensures Isolated(t + Block(w, i))
  {
    var u := t + Block(w, i);
    BlockAt(t, w, i);
    hide Block, RevertedAt, OwnedAt;
    forall k, l | 0 <= k < l < |u| && u[k].Test? && u[l].Test?
      ensures exists s :: k < s < l && u[s] == Setup(true)
    {
      if l < |t| {
        var s :| k < s < l && t[s] == Setup(true);
        assert u[s] == Setup(true);
      } else {
        assert l == |t|;
        assert t[k].Test?;
        assert u[|t| - 1] == Setup(true);
      }
    }
  }

  // ---- When the environment is set up ------------------------------------------------------------------------

  function SetupCount(t: seq<Event>, n: nat): nat
    requires n <= |t|
  {
    if n == 0 then 0 else SetupCount(t, n - 1) + if t[n - 1].Setup? then 1 else 0
  }

  function FailedSetups(t: seq<Event>, n: nat): nat
    requires n <= |t|
  {
    if n == 0 then 0 else FailedSetups(t, n - 1) + if t[n - 1] == Setup(false) then 1 else 0
  }

  predicate SomeTest(t: seq<Event>, n: nat)
    requires n <= |t|
  {
    exists k :: 0 <= k < n && t[k].Test?
  }

  /** Setup k is answered in its turn, and is made first of all, between tests that are to be isolated, or in an unclean environment. */
  predicate PromptedAt(t: seq<Event>, w: World, wipe: bool, k: nat)
    requires k < |t| && t[k].Setup?
  {
    t[k].ok == w.setup(SetupCount(t, k)) && (k > 0 ==> (wipe && SomeTest(t, k)) || !CleanAfter(t, k))
  }

  predicate Prompted(t: seq<Event>, w: World, wipe: bool) {
    && |t| > 0 && t[0].Setup?
    && forall k :: 0 <= k < |t| && t[k].Setup? ==> PromptedAt(t, w, wipe, k)
  }

  lemma {:induction false} CountsPrefix(a: seq<Event>, b: seq<Event>, n: nat)
    requires n <= |a|
    ensures SetupCount(a + b, n) == SetupCount(a, n) && FailedSetups(a + b, n) == FailedSetups(a, n)
  {
    if n > 0 {
      CountsPrefix(a, b, n - 1);
    }
  }

  lemma {:induction false} PromptedPrefix(t: seq<Event>, more: seq<Event>, w: World, wipe: bool)
    requires Prompted(t, w, wipe)
    ensures forall k :: 0 <= k < |t| && t[k].Setup? ==> PromptedAt(t + more, w, wipe, k)
  {
    hide CleanAfter, SetupCount, SomeTest;
    forall k | 0 <= k < |t| && t[k].Setup?
      ensures PromptedAt(t + more, w, wipe, k)
    {
      assert PromptedAt(t, w, wipe, k);
      CleanPrefix(t, more, k);
      CountsPrefix(t, more, k);
      TestPrefix(t, more, k);
    }
  }

  lemma {:induction false} TestPrefix(t: seq<Event>, more: seq<Event>, n: nat)
    requires n <= |t|
    ensures SomeTest(t + more, n) <==> SomeTest(t, n)
    ensures SomeTest(t, n) ==> SomeTest(t + more, |t + more|)
  {
    if SomeTest(t, n) {
      var k :| 0 <= k < n && t[k].Test?;
      assert (t + more)[k].Test?;
    }
  }

  lemma {:induction false} PromptedSetup(t: seq<Event>, w: World, wipe: bool)
    requires Prompted(t, w, wipe) && ((wipe && SomeTest(t, |t|)) || !CleanAfter(t, |t|))
    ensures var u := t + [Setup(w.setup(SetupCount(t, |t|)))];
      && Prompted(u, w, wipe) && SetupCount(u, |u|) == SetupCount(t, |t|) + 1
      && FailedSetups(u, |u|) == FailedSetups(t, |t|) + (if w.setup(SetupCount(t, |t|)) then 0 else 1)
      && (SomeTest(t, |t|) ==> SomeTest(u, |u|))
  {
    hide CleanAfter, SomeTest;
    var ok := w.setup(SetupCount(t, |t|));
    var u := t + [Setup(ok)];
    PromptedPrefix(t, [Setup(ok)], w, wipe);
    CountsPrefix(t, [Setup(ok)], |t|);
    CleanPrefix(t, [Setup(ok)], |t|);
    TestPrefix(t, [Setup(ok)], |t|);
    assert u[|t|] == Setup(ok);
    forall k | 0 <= k < |u| && u[k].Setup?
      ensures PromptedAt(u, w, wipe, k)
    {
      assert k < |t| ==> t[k].Setup?;
    }
  }

  lemma {:induction false} NoSetups(t: seq<Event>, more: seq<Event>, n: nat)
    requires n <= |more| && forall k :: 0 <= k < |more| ==> !more[k].Setup?
    ensures SetupCount(t + more, |t| + n) == SetupCount(t, |t|) && FailedSetups(t + more, |t| + n) == FailedSetups(t, |t|)
  {
    if n > 0 {
      NoSetups(t, more, n - 1);
    } else {
      CountsPrefix(t, more, |t|);
    }
  }

  lemma {:induction false} PromptedBlock(t: seq<Event>, w: World, wipe: bool, i: nat)
    requires Prompted(t, w, wipe)
    ensures var u := t + Block(w, i);
      && Prompted(u, w, wipe) && SetupCount(u, |u|) == SetupCount(t, |t|) && FailedSetups(u, |u|) == FailedSetups(t, |t|) && SomeTest(u, |u|)
  {
    hide CleanAfter, SetupCount, FailedSetups;
    var u, more := t + Block(w, i), Block(w, i);
    assert u[|t|] == more[0] == Test(i);
    forall k | 0 <= k < |more|
      ensures !more[k].Setup?
    {
      assert k > 0 ==> more[k] == RevertBlock(w, i, w.test(i).reverts)[k - 1];
    }
    PromptedPrefix(t, more, w, wipe);
    NoSetups(t, more, |more|);
    assert forall k :: |t| <= k < |u| ==> u[k] == more[k - |t|];
    assert forall k :: 0 <= k < |u| && u[k].Setup? ==> k < |t| && t[k].Setup?;
  }
}
