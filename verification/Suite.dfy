/** The runner of a release test suite: selection, setup, tests, reverts and counters. */
module Suite {
  import opened Store
  import opened SuiteTrace

  /** What a test needs from the environment, or what the environment is. */
  datatype Flags = Flags(
    extendedOnly: bool, virtualSwitch: bool, noBGPExternals: bool, noStaticExternals: bool, subInterfaces: bool, roce: bool,
    noFabricLink: bool, noMeshLink: bool, noGateway: bool, noLoki: bool, noProm: bool, noServers: bool)

  /** The test cannot run here: it is extended and those are off, or it lacks something the environment lacks. */
  predicate CannotRun(test: Flags, env: Flags) {
    || (test.extendedOnly && !env.extendedOnly)
    || (test.virtualSwitch && env.virtualSwitch)
    || (test.noBGPExternals && env.noBGPExternals)
    || (test.noStaticExternals && env.noStaticExternals)
    || (test.subInterfaces && env.subInterfaces)
    || (test.roce && env.roce)
    || (test.noFabricLink && env.noFabricLink)
    || (test.noMeshLink && env.noMeshLink)
    || (test.noGateway && env.noGateway)
    || (test.noLoki && env.noLoki)
    || (test.noProm && env.noProm)
    || (test.noServers && env.noServers)
  }

  datatype Case = Case(name: Name, flags: Flags, skipped: bool, failed: bool)

  function FailedCount(cases: seq<Case>, n: nat): nat
    requires n <= |cases|
  {
    if n == 0 then 0 else FailedCount(cases, n - 1) + if cases[n - 1].failed then 1 else 0
  }

  function SkippedCount(cases: seq<Case>, n: nat): nat
    requires n <= |cases|
  {
    if n == 0 then 0 else SkippedCount(cases, n - 1) + if cases[n - 1].skipped then 1 else 0
  }

  lemma {:induction false} CountsAfter(cases: seq<Case>, i: nat, c: Case, n: nat)
    requires i < |cases| && n <= |cases|
    ensures var now := cases[i := c];
      && FailedCount(now, n) == FailedCount(cases, n)
           + (if i < n && c.failed && !cases[i].failed then 1 else 0) - (if i < n && !c.failed && cases[i].failed then 1 else 0)
      && SkippedCount(now, n) == SkippedCount(cases, n)
           + (if i < n && c.skipped && !cases[i].skipped then 1 else 0) - (if i < n && !c.skipped && cases[i].skipped then 1 else 0)
  {
    if n > 0 {
      CountsAfter(cases, i, c, n - 1);
    }
  }

  lemma {:induction false} AllSkipped(cases: seq<Case>, n: nat)
    requires n <= |cases|
    ensures SkippedCount(cases, n) <= n
    ensures SkippedCount(cases, n) == n <==> forall i :: 0 <= i < n ==> cases[i].skipped
  {
    if n > 0 {
      AllSkipped(cases, n - 1);
    }
  }

  /** The expressions leave this case out: it matches and they are inverted, or it does not and they are not. */
  predicate LeftOut(regexes: seq<Name -> bool>, invert: bool, name: Name) {
    |regexes| > 0 && ((exists k :: 0 <= k < |regexes| && regexes[k](name)) == invert)
  }

  datatype RunError = NoError | InitialSetup | Stopped

  predicate Ran(t: seq<Event>, i: nat) {
    Test(i) in t
  }

  /** How a case ends: skipped ones are left alone, ones that ran get their verdict, and ones whose setup failed are failed. */
  predicate Concluded(was: Case, now: Case, w: World, t: seq<Event>, i: nat) {
    if was.skipped then now == was && !Ran(t, i)
    else if Ran(t, i) then
      var r := w.test(i);
      now == was.(skipped := r.skip, failed := (!r.skip && r.err) || RevertFails(w, i, r.reverts))
    else now == was.(failed := true)
  }

  /** The first n cases have been concluded and the rest is untouched. */
  predicate ConcludedUpTo(was: seq<Case>, now: seq<Case>, w: World, t: seq<Event>, n: nat) {
    && n <= |was| == |now|
    && (forall i :: 0 <= i < n ==> Concluded(was[i], now[i], w, t, i))
    && (forall i :: n <= i < |was| ==> now[i] == was[i])
  }

  /** How many of the first n cases are neither skipped nor run. */
  function NotRun(was: seq<Case>, t: seq<Event>, n: nat): nat
    requires n <= |was|
  {
    if n == 0 then 0 else NotRun(was, t, n - 1) + if !was[n - 1].skipped && !Ran(t, n - 1) then 1 else 0
  }

  /** Setups are made when they are due, and each that fails later on costs one of the first n cases its run, no case being lost otherwise. */
  predicate Dutiful(was: seq<Case>, t: seq<Event>, w: World, wipe: bool, n: nat)
    requires n <= |was|
  {
    Prompted(t, w, wipe) && FailedSetups(t, |t|) == NotRun(was, t, n)
  }

  lemma {:induction false} NotRunLater(was: seq<Case>, t: seq<Event>, more: seq<Event>, n: nat)
    requires n <= |was| && forall k :: 0 <= k < |more| && more[k].Test? ==> more[k].i >= n
    ensures NotRun(was, t + more, n) == NotRun(was, t, n)
  {
    hide Ran;
    if n > 0 {
      NotRunLater(was, t, more, n - 1);
      RanLater(t, more, n - 1);
    }
  }

  lemma {:induction false} DutifulStart(was: seq<Case>, w: World, wipe: bool)
    ensures w.setup(0) ==> Dutiful(was, [Setup(true)], w, wipe, 0)
    ensures SetupCount([Setup(w.setup(0))], 1) == 1 && (w.setup(0) ==> CleanAfter([Setup(w.setup(0))], 1))
  {
    var t := [Setup(w.setup(0))];
    assert SetupCount(t, 0) == 0 && FailedSetups(t, 0) == 0;
    assert SetupCount(t, 1) == 1 && t[0] == Setup(w.setup(0));
    assert w.setup(0) ==> FailedSetups(t, 1) == 0;
  }

  lemma {:induction false} DutifulSkip(was: seq<Case>, t: seq<Event>, w: World, wipe: bool, i: nat)
    requires i < |was| && was[i].skipped && Dutiful(was, t, w, wipe, i)
    ensures Dutiful(was, t, w, wipe, i + 1)
  {
    hide Prompted;
  }

  /** A setup that fails costs case i its run; one that succeeds costs none. */
  lemma {:induction false} DutifulSetup(was: seq<Case>, t: seq<Event>, w: World, wipe: bool, i: nat)
    requires i < |was| && !was[i].skipped && Below(t, i) && Dutiful(was, t, w, wipe, i)
    requires (wipe && SomeTest(t, |t|)) || !CleanAfter(t, |t|)
    ensures var ok := w.setup(SetupCount(t, |t|));
      var u := t + [Setup(ok)];
      && SetupCount(u, |u|) == SetupCount(t, |t|) + 1
      && (ok ==> Dutiful(was, u, w, wipe, i)) && (!ok ==> Dutiful(was, u, w, wipe, i + 1))
      && (SomeTest(t, |t|) ==> SomeTest(u, |u|)) && CleanAfter(u, |u|) == ok
  {
    hide Prompted, SetupCount, FailedSetups, Below, SomeTest;
    var ok := w.setup(SetupCount(t, |t|));
    PromptedSetup(t, w, wipe);
    CleanSetup(t, ok);
    NotRunLater(was, t, [Setup(ok)], i);
    NotYetRan(t, i, i);
    RanLater(t, [Setup(ok)], i);
  }

  lemma {:induction false} DutifulBlock(was: seq<Case>, t: seq<Event>, w: World, wipe: bool, i: nat)
    requires i < |was| && Dutiful(was, t, w, wipe, i)
    ensures var u := t + Block(w, i);
      Dutiful(was, u, w, wipe, i + 1) && SetupCount(u, |u|) == SetupCount(t, |t|) && SomeTest(u, |u|)
  {
    hide Prompted, SetupCount, FailedSetups, SomeTest, Block;
    PromptedBlock(t, w, wipe, i);
    BlockTests(w, i);
    NotRunLater(was, t, Block(w, i), i);
    assert Test(i) in t + Block(w, i);
  }

  predicate NoneFailed(cases: seq<Case>, n: nat)
    requires n <= |cases|
  {
    forall i :: 0 <= i < n ==> !cases[i].failed
  }

  lemma {:induction false} RanLater(t: seq<Event>, more: seq<Event>, i: nat)
    ensures Ran(t, i) ==> Ran(t + more, i)
    ensures (forall k :: 0 <= k < |more| ==> more[k] != Test(i)) ==> (Ran(t + more, i) <==> Ran(t, i))
  {
  }

  lemma {:induction false} NotYetRan(t: seq<Event>, n: nat, i: nat)
    requires Below(t, n) && n <= i
    ensures !Ran(t, i)
  {
  }

  /** More events, none of them a test before n, leave the conclusions as they are. */
  lemma {:induction false} StayConcluded(was: seq<Case>, now: seq<Case>, w: World, t: seq<Event>, more: seq<Event>, n: nat)
    requires ConcludedUpTo(was, now, w, t, n)
    requires forall k :: 0 <= k < |more| && more[k].Test? ==> more[k].i >= n
    ensures ConcludedUpTo(was, now, w, t + more, n)
  {
    forall i | 0 <= i < n
      ensures Concluded(was[i], now[i], w, t + more, i)
    {
      assert Concluded(was[i], now[i], w, t, i);
      RanLater(t, more, i);
    }
  }

  lemma {:induction false} BlockTests(w: World, i: nat)
    ensures forall k :: 0 <= k < |Block(w, i)| && Block(w, i)[k].Test? ==> Block(w, i)[k] == Test(i)
    ensures Test(i) in Block(w, i)
  {
    assert Block(w, i)[0] == Test(i);
    forall k | 1 <= k < |Block(w, i)|
      ensures Block(w, i)[k].Revert?
    {
      assert Block(w, i)[k] == RevertBlock(w, i, w.test(i).reverts)[k - 1];
    }
  }

  lemma {:induction false} Started(was: seq<Case>, w: World)
    ensures var t := [Setup(w.setup(0))];
      && Good(t, w) && Isolated(t) && Below(t, 0) && CleanAfter(t, |t|) == w.setup(0)
      && ConcludedUpTo(was, was, w, t, 0)
  {
  }

  lemma {:induction false} OpenAt(was: seq<Case>, now: seq<Case>, w: World, t: seq<Event>, i: nat)
    requires ConcludedUpTo(was, now, w, t, i) && i < |was| && Below(t, i)
    ensures now[i] == was[i] && Below(t, i + 1)
  {
  }

  lemma {:induction false} ConcludeSkipped(was: seq<Case>, now: seq<Case>, w: World, t: seq<Event>, i: nat)
    requires ConcludedUpTo(was, now, w, t, i) && i < |was| && Below(t, i) && was[i].skipped
    ensures ConcludedUpTo(was, now, w, t, i + 1)
  {
    NotYetRan(t, i, i);
  }

  lemma {:induction false} ConcludeNotRun(was: seq<Case>, now: seq<Case>, w: World, t: seq<Event>, i: nat)
    requires ConcludedUpTo(was, now, w, t, i) && i < |was| && Below(t, i) && !was[i].skipped
    ensures ConcludedUpTo(was, now[i := now[i].(failed := true)], w, t, i + 1)
  {
    NotYetRan(t, i, i);
  }

  lemma {:induction false} Conclude(was: seq<Case>, now: seq<Case>, w: World, t: seq<Event>, i: nat)
    requires ConcludedUpTo(was, now, w, t, i) && i < |was| && !was[i].skipped
    ensures var r := w.test(i);
      var c := now[i].(skipped := r.skip, failed := (!r.skip && r.err) || RevertFails(w, i, r.reverts));
      ConcludedUpTo(was, now[i := c], w, t + Block(w, i), i + 1)
  {
    hide Concluded, RevertFails, Block;
    BlockTests(w, i);
    StayConcluded(was, now, w, t, Block(w, i), i);
    ConcludedRan(was[i], w, t, i);
  }

  lemma {:induction false} ConcludedRan(c: Case, w: World, t: seq<Event>, i: nat)
    requires !c.skipped
    ensures var r := w.test(i);
      Concluded(c, c.(skipped := r.skip, failed := (!r.skip && r.err) || RevertFails(w, i, r.reverts)), w, t + Block(w, i), i)
  {
    BlockTests(w, i);
    assert Test(i) in t + Block(w, i);
  }

  /** The run ended with the first case that failed. */
  ghost predicate StoppedAt(was: seq<Case>, now: seq<Case>, w: World, wipe: bool, t: seq<Event>, n: nat) {
    n < |now| && ConcludedUpTo(was, now, w, t, n + 1) && NoneFailed(now, n) && now[n].failed && Below(t, n + 1) && Dutiful(was, t, w, wipe, n + 1)
  }

  class TestSuite {
    const tests: nat
    var cases: seq<Case>
    var failures: nat
    var skipped: nat

    /** A suite as it is built: every case open. */
    constructor (cases: seq<Case>)
      requires forall i :: 0 <= i < |cases| ==> !cases[i].failed && !cases[i].skipped
      ensures this.cases == cases && Counted() && NoneFailed(cases, |cases|)
    {
      this.cases, tests, failures, skipped := cases, |cases|, 0, 0;
      new;
      NothingCounted(cases, |cases|);
    }

    static lemma {:induction false} NothingCounted(cases: seq<Case>, n: nat)
      requires n <= |cases| && forall i :: 0 <= i < |cases| ==> !cases[i].failed && !cases[i].skipped
      ensures FailedCount(cases, n) == 0 && SkippedCount(cases, n) == 0
    {
      if n > 0 {
        NothingCounted(cases, n - 1);
      }
    }

    /** The counters agree with the cases. */
    ghost predicate Counted()
      reads this
    {
      tests == |cases| && failures == FailedCount(cases, |cases|) && skipped == SkippedCount(cases, |cases|)
    }

    /** The reverts of a test, last one first; the first failure of a test that had not failed counts. */
    method RunReverts(w: World, i: nat, err: bool) returns (err': bool, revertsFailed: bool, block: seq<Event>)
      requires i < |cases| && Counted() && cases[i].failed == err
      modifies this`cases, this`failures
      ensures Counted() && block == RevertBlock(w, i, w.test(i).reverts)
      ensures revertsFailed <==> RevertFails(w, i, w.test(i).reverts)
      ensures err' == (err || revertsFailed)
      ensures cases == old(cases)[i := old(cases)[i].(failed := err')]
    {
      var n := w.test(i).reverts;
      ghost var target := RevertBlock(w, i, n);
      err', revertsFailed, block := err, false, [];
      var j := n;
      while j > 0
        invariant 0 <= j <= n
        invariant Counted() && block == target[..n - j]
        invariant revertsFailed <==> exists m: nat :: j <= m < n && !w.revert(i, m)
        invariant err' == (err || revertsFailed)
        invariant cases == old(cases)[i := old(cases)[i].(failed := err')]
      {
        j := j - 1;
        var ok := w.revert(i, j);
        block := block + [Revert(i, j, ok)];
        if !ok {
          CountsAfter(cases, i, cases[i].(failed := true), |cases|);
          if !err' {
            failures := failures + 1;
          }
          err', revertsFailed := true, true;
          cases := cases[i := cases[i].(failed := true)];
        }
      }
    }

    /** A test function and its reverts. */
    method RunTest(w: World, i: nat) returns (err: bool, revertsFailed: bool, block: seq<Event>)
      requires i < |cases| && Counted() && !cases[i].failed && !cases[i].skipped
      modifies this`cases, this`failures, this`skipped
      ensures Counted() && block == Block(w, i)
      ensures revertsFailed <==> RevertFails(w, i, w.test(i).reverts)
      ensures var r := w.test(i);
        && err == ((!r.skip && r.err) || revertsFailed)
        && cases == old(cases)[i := old(cases)[i].(skipped := r.skip, failed := err)]
    {
      var r := w.test(i);
      err := r.err;
      if r.skip {
        err := false;
        CountsAfter(cases, i, cases[i].(skipped := true), |cases|);
        cases, skipped := cases[i := cases[i].(skipped := true)], skipped + 1;
      }
      if err {
        CountsAfter(cases, i, cases[i].(failed := true), |cases|);
        cases, failures := cases[i := cases[i].(failed := true)], failures + 1;
      }
      err, revertsFailed, block := RunReverts(w, i, err);
      block := [Test(i)] + block;
    }

    /** Runs the suite; the trace records what happened to the environment. */
    method DoRun(w: World, wipe: bool, failFast: bool) returns (err: RunError, trace: seq<Event>)
      requires Counted() && NoneFailed(cases, |cases|)
      modifies this`cases, this`failures, this`skipped
      ensures Counted()
      ensures Good(trace, w) && (wipe ==> Isolated(trace))
      ensures err == InitialSetup <==> !w.setup(0)
      ensures err == InitialSetup ==> cases == old(cases) && trace == [Setup(false)]
      ensures err == NoError ==> ConcludedUpTo(old(cases), cases, w, trace, |cases|) && (failFast ==> NoneFailed(cases, |cases|))
      ensures err == NoError ==> |cases| == |old(cases)| && Dutiful(old(cases), trace, w, wipe, |cases|)
      ensures err == Stopped ==> failFast && exists n: nat :: StoppedAt(old(cases), cases, w, wipe, trace, n)
    {
      hide Good, ConcludedUpTo, Isolated, Below, CleanAfter, FailedCount, SkippedCount, Block, Dutiful, SetupCount, SomeTest;
      ghost var was := cases;
      var setups, ranSomeTests, prevRevertsFailed := 1, false, false;
      err, trace := NoError, [Setup(w.setup(0))];
      Started(was, w);
      DutifulStart(was, w, wipe);
      if !w.setup(0) {
        err := InitialSetup;
        return;
      }
      var i := 0;
      while i < |cases|
        invariant 0 <= i <= |cases| == |was| && Counted() && err == NoError
        invariant Good(trace, w) && Below(trace, i) && (wipe ==> Isolated(trace))
        invariant ConcludedUpTo(was, cases, w, trace, i) && NoneFailed(was, |was|)
        invariant !ranSomeTests ==> Below(trace, 0)
        invariant CleanAfter(trace, |trace|) || prevRevertsFailed || (ranSomeTests && wipe)
        invariant failFast ==> NoneFailed(cases, i)
        invariant Dutiful(was, trace, w, wipe, i) && setups == SetupCount(trace, |trace|)
        invariant (ranSomeTests ==> SomeTest(trace, |trace|)) && (prevRevertsFailed ==> !CleanAfter(trace, |trace|))
      {
        OpenAt(was, cases, w, trace, i);
        if cases[i].skipped {
          ConcludeSkipped(was, cases, w, trace, i);
          DutifulSkip(was, trace, w, wipe, i);
          i := i + 1;
          continue;
        }
        var isolate := (ranSomeTests && wipe) || prevRevertsFailed;
        if isolate {
          var ok := w.setup(setups);
          AppendSetup(trace, w, ok);
          DutifulSetup(was, trace, w, wipe, i);
          StayConcluded(was, cases, w, trace, [Setup(ok)], i);
          trace, setups := trace + [Setup(ok)], setups + 1;
          if !ok {
            CountsAfter(cases, i, cases[i].(failed := true), |cases|);
            ConcludeNotRun(was, cases, w, trace, i);
            cases, failures := cases[i := cases[i].(failed := true)], failures + 1;
            if failFast {
              assert StoppedAt(was, cases, w, wipe, trace, i);
              err := Stopped;
              return;
            }
            i := i + 1;
            continue;
          }
        }
        prevRevertsFailed := false;
        var failed, block;
        ghost var before := cases;
        failed, prevRevertsFailed, block := RunTest(w, i);
        Conclude(was, before, w, trace, i);
        AppendBlock(trace, w, i);
        DutifulBlock(was, trace, w, wipe, i);
        if wipe {
          BlockIsolated(trace, w, i);
        }
        trace, ranSomeTests := trace + block, true;
        if failFast && failed {
          assert StoppedAt(was, cases, w, wipe, trace, i);
          err := Stopped;
          return;
        }
        i := i + 1;
      }
    }

    /** Skips the cases the expressions leave out; without expressions nothing is left out. */
    method RegexpSelection(regexes: seq<Name -> bool>, invert: bool)
      requires Counted() && forall i :: 0 <= i < |cases| ==> !cases[i].skipped
      modifies this`cases, this`skipped
      ensures Counted() && |cases| == |old(cases)|
      ensures forall i :: 0 <= i < |cases| ==> cases[i] == old(cases)[i].(skipped := LeftOut(regexes, invert, old(cases)[i].name))
    {
      if |regexes| == 0 {
        return;
      }
      ghost var was := cases;
      var i := 0;
      while i < |cases|
        invariant 0 <= i <= |cases| == |was| && Counted()
        invariant forall k :: 0 <= k < i ==> cases[k] == was[k].(skipped := LeftOut(regexes, invert, was[k].name))
        invariant forall k :: i <= k < |was| ==> cases[k] == was[k]
      {
        var matched := false;
        var j := 0;
        while j < |regexes| && !matched
          invariant 0 <= j <= |regexes|
          invariant matched <==> exists m :: 0 <= m < j && regexes[m](cases[i].name)
        {
          matched := regexes[j](cases[i].name);
          j := j + 1;
        }
        if matched == invert {
          CountsAfter(cases, i, cases[i].(skipped := true), |cases|);
          cases, skipped := cases[i := cases[i].(skipped := true)], skipped + 1;
        }
        i := i + 1;
      }
    }

    /** Skips the cases that cannot run in this environment. */
    method FlagSelection(env: Flags)
      requires Counted()
      modifies this`cases, this`skipped
      ensures Counted() && |cases| == |old(cases)|
      ensures forall i :: 0 <= i < |cases| ==>
        cases[i] == old(cases)[i].(skipped := old(cases)[i].skipped || CannotRun(old(cases)[i].flags, env))
    {
      ghost var was := cases;
      var i := 0;
      while i < |cases|
        invariant 0 <= i <= |cases| == |was| && Counted()
        invariant forall k :: 0 <= k < i ==> cases[k] == was[k].(skipped := was[k].skipped || CannotRun(was[k].flags, env))
        invariant forall k :: i <= k < |was| ==> cases[k] == was[k]
      {
        if !cases[i].skipped && CannotRun(cases[i].flags, env) {
          CountsAfter(cases, i, cases[i].(skipped := true), |cases|);
          cases, skipped := cases[i := cases[i].(skipped := true)], skipped + 1;
        }
        i := i + 1;
      }
    }

    /** Fails every case that is not skipped. */
    method FailAllTests()
      requires Counted() && NoneFailed(cases, |cases|)
      modifies this`cases, this`failures
      ensures Counted() && |cases| == |old(cases)|
      ensures forall i :: 0 <= i < |cases| ==> cases[i] == old(cases)[i].(failed := !old(cases)[i].skipped)
    {
      ghost var was := cases;
      var i := 0;
      while i < |cases|
        invariant 0 <= i <= |cases| == |was| && Counted()
        invariant forall k :: 0 <= k < i ==> cases[k] == was[k].(failed := !was[k].skipped)
        invariant forall k :: i <= k < |was| ==> cases[k] == was[k]
      {
        if !cases[i].skipped {
          CountsAfter(cases, i, cases[i].(failed := true), |cases|);
          cases, failures := cases[i := cases[i].(failed := true)], failures + 1;
        }
        i := i + 1;
      }
    }

    /** Selects the cases and runs them, unless all of them are skipped; ran says whether the suite was started. */
    method SelectAndRun(w: World, wipe: bool, failFast: bool, regexes: seq<Name -> bool>, invert: bool, env: Flags)
      returns (ran: bool, err: RunError, trace: seq<Event>, ghost selected: seq<Case>)
      requires Counted() && forall i :: 0 <= i < |cases| ==> !cases[i].failed && !cases[i].skipped
      modifies this`cases, this`failures, this`skipped
      ensures Counted()
      ensures |selected| == |cases| == |old(cases)| && forall i :: 0 <= i < |cases| ==>
        selected[i] == old(cases)[i].(skipped := LeftOut(regexes, invert, old(cases)[i].name) || CannotRun(old(cases)[i].flags, env))
      ensures ran <==> exists i :: 0 <= i < |selected| && !selected[i].skipped
      ensures !ran ==> trace == [] && cases == selected && err == NoError
      ensures ran ==> Good(trace, w) && (wipe ==> Isolated(trace))
      ensures ran && !w.setup(0) ==> trace == [Setup(false)] && (err == InitialSetup <==> failFast)
      ensures ran && !w.setup(0) ==> forall i :: 0 <= i < |cases| ==> cases[i] == selected[i].(failed := !selected[i].skipped)
      ensures ran && w.setup(0) ==> err != InitialSetup && (err == Stopped ==> failFast && exists n: nat :: StoppedAt(selected, cases, w, wipe, trace, n))
      ensures ran && w.setup(0) && err == NoError ==> ConcludedUpTo(selected, cases, w, trace, |cases|) && (failFast ==> NoneFailed(cases, |cases|))
      ensures ran && w.setup(0) && err == NoError ==> Dutiful(selected, trace, w, wipe, |cases|)
    {
      hide LeftOut, CannotRun, Good, Dutiful, Isolated, ConcludedUpTo, StoppedAt, FailedCount;
      RegexpSelection(regexes, invert);
      FlagSelection(env);
      selected := cases;
      ran, err, trace := false, NoError, [];
      AllSkipped(cases, |cases|);
      if skipped == tests {
        return;
      }
      ran := true;
      err, trace := DoRun(w, wipe, failFast);
      if err == InitialSetup {
        FailAllTests();
      }
      if !failFast {
        err := NoError;
      }
    }
  }
}
