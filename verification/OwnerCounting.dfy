/**
  * How many leaf ASNs and VTEP addresses a wiring takes, counted without sorting: one for each standalone leaf and one
  * for each MCLAG group that has a leaf.
  */
module OwnerCounting {
  import opened WiringModel
  import opened Store
  import opened Sorting
  import opened Allocator
  import opened FitSwitches
  import opened HydrationFits

  predicate MclagOnLeaves(sws: seq<Switch>) {
    forall i :: 0 <= i < |sws| && sws[i].spec.red.MCLAG? ==> IsLeaf(sws[i])
  }

  function StandaloneUpTo(sws: seq<Switch>, n: nat): set<Name>
    requires n <= |sws|
  {
    set i | 0 <= i < n && IsLeaf(sws[i]) && !sws[i].spec.red.MCLAG? :: sws[i].name
  }

  function GroupsUpTo(sws: seq<Switch>, n: nat): set<Name>
    requires n <= |sws|
  {
    set i | 0 <= i < n && sws[i].spec.red.MCLAG? :: sws[i].spec.red.group
  }

  lemma {:induction false} FirstMeansNew(sws: seq<Switch>, g: Name, n: nat)
    requires n <= |sws|
    ensures FirstInGroup(sws, g, n).None? <==> g !in GroupsUpTo(sws, n)
  {
    FirstInGroupIsFirst(sws, g, n);
  }

  lemma {:induction false} StandaloneStep(sws: seq<Switch>, n: nat)
    requires n < |sws| && DistinctNames(sws)
    ensures |StandaloneUpTo(sws, n + 1)| == |StandaloneUpTo(sws, n)| + if IsLeaf(sws[n]) && !sws[n].spec.red.MCLAG? then 1 else 0
  {
    DistinctPairs(sws, |sws|);
    var before := StandaloneUpTo(sws, n);
    assert sws[n].name !in before;
    assert StandaloneUpTo(sws, n + 1) == before + (if IsLeaf(sws[n]) && !sws[n].spec.red.MCLAG? then {sws[n].name} else {});
  }

  lemma {:induction false} GroupsStep(sws: seq<Switch>, n: nat)
    requires n < |sws|
    ensures |GroupsUpTo(sws, n + 1)| == |GroupsUpTo(sws, n)| + if sws[n].spec.red.MCLAG? && Leads(sws, n) then 1 else 0
  {
    if sws[n].spec.red.MCLAG? {
      FirstMeansNew(sws, sws[n].spec.red.group, n);
    }
    var before := GroupsUpTo(sws, n);
    if sws[n].spec.red.MCLAG? && Leads(sws, n) {
      assert GroupsUpTo(sws, n + 1) == before + {sws[n].spec.red.group};
    } else {
      assert GroupsUpTo(sws, n + 1) == before;
    }
  }

  lemma {:induction false} OwnersSorted(sws: seq<Switch>, n: nat)
    requires n <= |sws| && MclagOnLeaves(sws) && DistinctNames(sws)
    ensures Owners(sws, n) == |StandaloneUpTo(sws, n)| + |GroupsUpTo(sws, n)|
  {
    if n > 0 {
      OwnersSorted(sws, n - 1);
      hide StandaloneUpTo, GroupsUpTo;
      StandaloneStep(sws, n - 1);
      GroupsStep(sws, n - 1);
    } else {
      assert StandaloneUpTo(sws, 0) == {} && GroupsUpTo(sws, 0) == {};
    }
  }

  lemma {:induction false} CountsReordered(a: seq<Switch>, b: seq<Switch>)
    requires multiset(a) == multiset(b)
    ensures StandaloneUpTo(a, |a|) <= StandaloneUpTo(b, |b|)
    ensures GroupsUpTo(a, |a|) <= GroupsUpTo(b, |b|)
    ensures MclagOnLeaves(b) ==> MclagOnLeaves(a)
  {
    SameMembers(a, b);
  }

  /** With MCLAG on leaves only, every standalone leaf and every MCLAG group takes one ASN and one VTEP address. */
  lemma {:induction false} OwnersCounted(w: Wiring)
    requires Valid(w) && MclagOnLeaves(w.switches)
    ensures OwnerCount(w) == |StandaloneUpTo(w.switches, |w.switches|)| + |GroupsUpTo(w.switches, |w.switches|)|
    ensures LeafLed(Sort(w.switches, SwitchRank))
  {
    hide StandaloneUpTo, GroupsUpTo, DistinctNames, Sorted;
    var sorted := Sort(w.switches, SwitchRank);
    SortSorts(w.switches, SwitchRank);
    CountsReordered(sorted, w.switches);
    CountsReordered(w.switches, sorted);
    OwnersSorted(sorted, |sorted|);
    assert StandaloneUpTo(sorted, |sorted|) == StandaloneUpTo(w.switches, |w.switches|);
    assert GroupsUpTo(sorted, |sorted|) == GroupsUpTo(w.switches, |w.switches|);
    forall i | 0 <= i < |sorted| && IsLeaf(sorted[i])
      ensures IsLeaf(sorted[Leader(sorted, i)])
    {
      LeaderLeads(sorted, i);
    }
  }
}
