/** Which cases a suite skips, need by need, and what a case's verdict says about what happened. */
module SuiteVerdicts {
  import opened Store
  import opened SuiteTrace
  import opened Suite

  // ---- Selection --------------------------------------------------------------------------------------------

  /** What a test can need of its environment. */
  datatype Need = ExtendedTests | HardwareSwitches | BGPExternals | StaticExternals | SubInterfaces | RoCE
                | FabricLinks | MeshLinks | Gateways | LogStore | MetricsStore | Servers

  predicate Needs(test: Flags, need: Need) {
    match need
    case ExtendedTests => test.extendedOnly
    case HardwareSwitches => test.virtualSwitch
    case BGPExternals => test.noBGPExternals
    case StaticExternals => test.noStaticExternals
    case SubInterfaces => test.subInterfaces
    case RoCE => test.roce
    case FabricLinks => test.noFabricLink
    case MeshLinks => test.noMeshLink
    case Gateways => test.noGateway
    case LogStore => test.noLoki
    case MetricsStore => test.noProm
    case Servers => test.noServers
  }

  /** The environment's flags say what it lacks, except that extended tests have to be asked for. */
  predicate Offers(env: Flags, need: Need) {
    match need
    case ExtendedTests => env.extendedOnly
    case HardwareSwitches => !env.virtualSwitch
    case BGPExternals => !env.noBGPExternals
    case StaticExternals => !env.noStaticExternals
    case SubInterfaces => !env.subInterfaces
    case RoCE => !env.roce
    case FabricLinks => !env.noFabricLink
    case MeshLinks => !env.noMeshLink
    case Gateways => !env.noGateway
    case LogStore => !env.noLoki
    case MetricsStore => !env.noProm
    case Servers => !env.noServers
  }

  /** A test cannot run exactly when it needs something the environment does not offer; one without needs always can. */
  lemma {:induction false} CannotRunIff(test: Flags, env: Flags)
    ensures CannotRun(test, env) <==> exists need :: Needs(test, need) && !Offers(env, need)
  {
    if CannotRun(test, env) {
      var need := FirstUnmet(test, env);
      assert Needs(test, need) && !Offers(env, need);
    }
  }

  function FirstUnmet(test: Flags, env: Flags): Need {
    if test.extendedOnly && !env.extendedOnly then ExtendedTests
    else if test.virtualSwitch && env.virtualSwitch then HardwareSwitches
    else if test.noBGPExternals && env.noBGPExternals then BGPExternals
    else if test.noStaticExternals && env.noStaticExternals then StaticExternals
    else if test.subInterfaces && env.subInterfaces then SubInterfaces
    else if test.roce && env.roce then RoCE
    else if test.noFabricLink && env.noFabricLink then FabricLinks
    else if test.noMeshLink && env.noMeshLink then MeshLinks
    else if test.noGateway && env.noGateway then Gateways
    else if test.noLoki && env.noLoki then LogStore
    else if test.noProm && env.noProm then MetricsStore
    else Servers
  }

  predicate Matches(regexes: seq<Name -> bool>, name: Name) {
    exists k :: 0 <= k < |regexes| && regexes[k](name)
  }

  /** Without expressions every case is selected; otherwise those that match, or inverted those that do not. */
  lemma {:induction false} LeftOutIff(regexes: seq<Name -> bool>, invert: bool, name: Name)
    ensures regexes == [] ==> !LeftOut(regexes, invert, name)
    ensures regexes != [] && !invert ==> (LeftOut(regexes, invert, name) <==> !Matches(regexes, name))
    ensures regexes != [] && invert ==> (LeftOut(regexes, invert, name) <==> Matches(regexes, name))
    ensures regexes != [] ==> LeftOut(regexes, invert, name) != LeftOut(regexes, !invert, name)
  {
  }

  // ---- Verdicts -----------------------------------------------------------------------------------------------

  /** A failed revert of the case is on record. */
  predicate RevertFailed(t: seq<Event>, i: nat) {
    exists k :: 0 <= k < |t| && t[k].Revert? && t[k].i == i && !t[k].ok
  }

  lemma {:induction false} RevertsRecorded(t: seq<Event>, w: World, i: nat)
    requires Good(t, w) && Test(i) in t
    ensures RevertFails(w, i, w.test(i).reverts) <==> RevertFailed(t, i)
  {
    hide CleanAfter;
    var k :| 0 <= k < |t| && t[k] == Test(i);
    assert RevertedAt(t, w, k);
    var r := w.test(i).reverts;
    if RevertFails(w, i, r) {
      var j: nat :| j < r && !w.revert(i, j);
      assert t[k + (r - j)] == Revert(i, j, w.revert(i, j));
    }
    if RevertFailed(t, i) {
      var m :| 0 <= m < |t| && t[m].Revert? && t[m].i == i && !t[m].ok;
      RevertAnswered(t, w, m);
    }
  }

  lemma {:induction false} RevertAnswered(t: seq<Event>, w: World, m: nat)
    requires Good(t, w) && m < |t| && t[m].Revert?
    ensures t[m].j < w.test(t[m].i).reverts && t[m].ok == w.revert(t[m].i, t[m].j)
  {
    hide CleanAfter;
    assert OwnedAt(t, w, m);
    var r := w.test(t[m].i).reverts;
    assert RevertedAt(t, w, m - (r - t[m].j));
  }

  /** A skipped case is left alone. One that ran is skipped if its test says so, and failed if the test fails without skipping or a
      revert of it failed. One that did not run is failed. */
  lemma {:induction false} VerdictRead(was: seq<Case>, now: seq<Case>, w: World, t: seq<Event>, n: nat, i: nat)
    requires Good(t, w) && ConcludedUpTo(was, now, w, t, n) && i < n && !was[i].failed
    ensures now[i].name == was[i].name && now[i].flags == was[i].flags
    ensures was[i].skipped ==> now[i].skipped && !now[i].failed && Test(i) !in t
    ensures !was[i].skipped ==> (now[i].skipped <==> Test(i) in t && w.test(i).skip)
    ensures !was[i].skipped ==> (now[i].failed <==> Test(i) !in t || (w.test(i).err && !w.test(i).skip) || RevertFailed(t, i))
  {
    hide Good, RevertFails;
    assert Concluded(was[i], now[i], w, t, i);
    if Test(i) in t {
      RevertsRecorded(t, w, i);
    }
  }

  // ---- Setups -------------------------------------------------------------------------------------------------

  lemma {:induction false} NoneLost(was: seq<Case>, t: seq<Event>, n: nat)
    requires n <= |was|
    ensures NotRun(was, t, n) == 0 <==> forall i :: 0 <= i < n && !was[i].skipped ==> Test(i) in t
  {
    if n > 0 {
      NoneLost(was, t, n - 1);
    }
  }

  lemma {:induction false} NoneFails(t: seq<Event>, n: nat)
    requires n <= |t|
    ensures FailedSetups(t, n) == 0 <==> forall k :: 0 <= k < n ==> t[k] != Setup(false)
  {
    if n > 0 {
      NoneFails(t, n - 1);
    }
  }

  /** Every selected case runs exactly when no setup fails. */
  lemma {:induction false} AllRunIff(was: seq<Case>, t: seq<Event>, w: World, wipe: bool, n: nat)
    requires n <= |was| && Dutiful(was, t, w, wipe, n)
    ensures Setup(false) !in t <==> forall i :: 0 <= i < n && !was[i].skipped ==> Test(i) in t
  {
    hide Prompted;
    NoneLost(was, t, n);
    NoneFails(t, |t|);
  }

  /** Without isolation the environment is set up again only after a failed revert or a failed setup. */
  lemma {:induction false} SetupDue(t: seq<Event>, w: World, k: nat)
    requires Prompted(t, w, false) && 0 < k < |t| && t[k].Setup?
    ensures exists m :: 0 <= m < k && Spoils(t[m]) && forall l :: m < l < k ==> !t[l].Setup?
  {
    assert PromptedAt(t, w, false, k);
    SpoiledBy(t, k);
  }

  /** A failed revert or setup. */
  predicate Spoils(e: Event) {
    (e.Revert? && !e.ok) || e == Setup(false)
  }

  lemma {:induction false} SpoiledBy(t: seq<Event>, n: nat)
    requires 0 < n <= |t| && t[0].Setup? && !CleanAfter(t, n)
    ensures exists m :: 0 <= m < n && Spoils(t[m]) && forall l :: m < l < n ==> !t[l].Setup?
  {
    if Spoils(t[n - 1]) {
      assert 0 <= n - 1 < n;
    } else if n > 1 {
      SpoiledBy(t, n - 1);
      var m :| 0 <= m < n - 1 && Spoils(t[m]) && forall l :: m < l < n - 1 ==> !t[l].Setup?;
      assert forall l :: m < l < n ==> !t[l].Setup?;
    }
  }
}
