/** Which settings a run of the builder accepts, and what it then builds, setting by setting. */
module Settings {
  import opened VlabPorts
  import opened Topology
  import opened Store

  /** The settings as they are built: p is what the settings ask for, completed. */
  ghost predicate Completed(settings: Params, p: Params) {
    && FabricCompleted(settings, p) && LeavesCompleted(settings, p) && UplinksCompleted(settings, p) && Kept(settings, p)
    && p.eslagServers == if InGroups(p) % 256 == 0 then 0 else settings.eslagServers
  }

  /** The grouped leaves. */
  function InGroups(p: Params): nat {
    GroupLeaves(p.groups, |p.groups|)
  }

  /** All leaves, as the builder counts them: in 8 bits. */
  function CountedLeaves(p: Params): nat {
    (p.orphans + InGroups(p)) % 256
  }

  /** A mesh has neither spines nor fabric links; otherwise there are two of each unless the settings say how many. */
  predicate FabricCompleted(settings: Params, p: Params) {
    && p.meshLinks == settings.meshLinks
    && (settings.meshLinks > 0 ==> settings.spines == 0 && settings.fabricLinks == 0 && p.spines == 0 && p.fabricLinks == 0)
    && (settings.meshLinks == 0 ==> p.spines == if settings.spines == 0 then 2 else settings.spines)
    && (settings.meshLinks == 0 ==> p.fabricLinks == if settings.fabricLinks == 0 then 2 else settings.fabricLinks)
  }

  /** Without any leaf asked for there are a group of two and an orphan. */
  predicate LeavesCompleted(settings: Params, p: Params) {
    if settings.groups == [] && settings.orphans == 0 then p.groups == [2] && p.orphans == 1
    else p.groups == settings.groups && p.orphans == settings.orphans
  }

  /** Where there are gateways they have as many uplinks as asked for, or two, but no more than there are spines, or in a mesh leaves. */
  predicate UplinksCompleted(settings: Params, p: Params) {
    var most := if p.meshLinks > 0 then CountedLeaves(p) else p.spines;
    && p.gateways == settings.gateways
    && (p.gateways == 0 || settings.uplinks > 0 ==> p.uplinks == settings.uplinks)
    && (p.gateways > 0 && settings.uplinks == 0 ==> p.uplinks == if most < 2 then most else 2)
  }

  predicate Kept(settings: Params, p: Params) {
    && p.unbundled == settings.unbundled && p.bundled == settings.bundled && p.multihomed == settings.multihomed
    && p.extEslag == settings.extEslag && p.extOrphan == settings.extOrphan && p.all == settings.all
  }

  /** What is refused: groups of other than two to four leaves, more uplinks than switches for them, multihomed servers without
      two leaves, more external connections than leaves of their kind, and several of them unless all are asked for. */
  predicate Accepted(p: Params) {
    && (forall i :: 0 <= i < |p.groups| ==> 2 <= p.groups[i] <= 4)
    && (p.gateways > 0 ==> p.uplinks <= if p.meshLinks > 0 then CountedLeaves(p) else p.spines)
    && (p.multihomed > 0 ==> CountedLeaves(p) >= 2)
    && p.extEslag <= InGroups(p) % 256 && p.extOrphan <= p.orphans
    && ((p.extEslag + p.extOrphan) % 256 <= 1 || p.all)
  }

  lemma {:induction false} SumIn8(groups: seq<U8>, n: nat)
    requires n <= |groups|
    ensures GroupLeaves8(groups, n) == GroupLeaves(groups, n) % 256
  {
    if n > 0 {
      SumIn8(groups, n - 1);
    }
  }

  lemma {:induction false} CountIs(p: Params)
    ensures Leaves8(p) == CountedLeaves(p) && GroupLeaves8(p.groups, |p.groups|) == InGroups(p) % 256
  {
    SumIn8(p.groups, |p.groups|);
  }

  lemma {:induction false} CountDepends(p: Params, q: Params)
    requires p.groups == q.groups && p.orphans == q.orphans
    ensures CountedLeaves(p) == CountedLeaves(q) && InGroups(p) == InGroups(q)
  {
  }

  lemma {:induction false} DefaultsIff(settings: Params, p: Params)
    ensures WithDefaults(settings) == Some(p) <==>
      FabricCompleted(settings, p) && LeavesCompleted(settings, p) && Kept(settings, p)
      && p.eslagServers == settings.eslagServers && p.gateways == settings.gateways && p.uplinks == settings.uplinks
  {
  }

  lemma {:induction false} PreparedCompletes(settings: Params)
    requires Prepared(settings).Some?
    ensures Completed(settings, Prepared(settings).value) && Accepted(Prepared(settings).value)
  {
    hide GroupLeaves8, GroupLeaves, WithDefaults;
    var d := WithDefaults(settings).value;
    DefaultsIff(settings, d);
    CountIs(d);
    CountIs(Prepared(settings).value);
  }

  lemma {:induction false} CompletedPrepares(settings: Params, p: Params)
    requires Completed(settings, p) && Accepted(p)
    ensures Prepared(settings) == Some(p)
  {
    hide GroupLeaves8, GroupLeaves, WithDefaults, CountedLeaves, InGroups;
    var d := p.(eslagServers := settings.eslagServers, uplinks := settings.uplinks);
    DefaultsIff(settings, d);
    CountIs(p);
    CountIs(d);
    CountDepends(p, d);
    var u := p.(eslagServers := settings.eslagServers);
    assert WithUplinks(d) == Some(u);
    CountIs(u);
    CountDepends(p, u);
    assert Acceptable(u);
  }

  /** The settings are built as p exactly when p completes and meets them. */
  lemma {:induction false} PreparedIff(settings: Params, p: Params)
    ensures Prepared(settings) == Some(p) <==> Completed(settings, p) && Accepted(p)
  {
    hide Prepared, Completed, Accepted;
    if Prepared(settings) == Some(p) {
      PreparedCompletes(settings);
    }
    if Completed(settings, p) && Accepted(p) {
      CompletedPrepares(settings, p);
    }
  }
}
