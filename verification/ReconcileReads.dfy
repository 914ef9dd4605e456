/** What reconciling leaves listed, endpoint by endpoint and field by field. */
module ReconcileReads {
  import opened Net
  import opened Store
  import opened Matrix
  import opened Reconcile

  /** Endpoints of one server in one subnet of one VPC. */
  predicate SamePlace(a: Endpoint, b: Endpoint) {
    a.Server? && b.Server? && a.name == b.name && a.vpc == b.vpc && a.subnet == b.subnet
  }

  predicate ServerNamed(ends: map<Ref, Endpoint>, r: Ref, name: Name) {
    r in ends && ends[r].Server? && ends[r].name == name
  }

  /** New endpoint objects of the server, no two in one place. */
  predicate Discovered(m: Matrix, name: Name, newEPs: seq<Ref>) {
    && (forall i :: 0 <= i < |newEPs| ==> ServerNamed(m.ends, newEPs[i], name) && newEPs[i] !in m.all)
    && (forall i, j :: 0 <= i < j < |newEPs| && newEPs[i] in m.ends && newEPs[j] in m.ends ==> !SamePlace(m.ends[newEPs[i]], m.ends[newEPs[j]]))
  }

  /** One of the endpoints is in the place of r. */
  predicate Placed(ends: map<Ref, Endpoint>, l: seq<Ref>, r: Ref) {
    r in ends && exists x :: x in l && x in ends && SamePlace(ends[x], ends[r])
  }

  lemma {:induction false} DiscoveredFresh(m: Matrix, name: Name, newEPs: seq<Ref>)
    requires Discovered(m, name, newEPs)
    ensures FreshFor(m, name, newEPs)
  {
    forall i, j | 0 <= i < j < |newEPs|
      ensures !SameServerKey(m.ends, newEPs[i], newEPs[j])
    {
      assert ServerNamed(m.ends, newEPs[i], name) && ServerNamed(m.ends, newEPs[j], name);
    }
  }

  /** A new endpoint is found under its key exactly by the endpoints in its place. */
  lemma {:induction false} KeyFinds(m: Matrix, name: Name, newEPs: seq<Ref>, r: Ref)
    requires Discovered(m, name, newEPs) && ServerNamed(m.ends, r, name)
    ensures var byKey := ByKey(m.ends, newEPs, name, |newEPs|);
      && (KeyOf(m.ends[r]) in byKey <==> Placed(m.ends, newEPs, r))
      && (KeyOf(m.ends[r]) in byKey ==> byKey[KeyOf(m.ends[r])] in newEPs && byKey[KeyOf(m.ends[r])] in m.ends && SamePlace(m.ends[byKey[KeyOf(m.ends[r])]], m.ends[r]))
      && forall x :: x in newEPs && x in m.ends && SamePlace(m.ends[x], m.ends[r]) ==> KeyOf(m.ends[r]) in byKey && byKey[KeyOf(m.ends[r])] == x
  {
    DiscoveredFresh(m, name, newEPs);
    var byKey := ByKey(m.ends, newEPs, name, |newEPs|);
    assert newEPs[..|newEPs|] == newEPs;
    forall x | x in newEPs && x in m.ends && SamePlace(m.ends[x], m.ends[r])
      ensures KeyOf(m.ends[r]) in byKey && byKey[KeyOf(m.ends[r])] == x
    {
      var i :| 0 <= i < |newEPs| && newEPs[i] == x;
      ByKeyOf(m, name, newEPs, |newEPs|, i);
    }
    if KeyOf(m.ends[r]) in byKey {
      assert Of(m.ends, byKey[KeyOf(m.ends[r])], name);
    }
  }

  /** Of the endpoints that were listed the server's stay exactly if a new one is in their place, and all others stay; a new one is added
      exactly if none that was listed is in its place. */
  lemma {:induction false} ListedRead(m: Matrix, name: Name, newEPs: seq<Ref>, now: map<Ref, Endpoint>, r: Ref)
    requires WellFormed(m) && Discovered(m, name, newEPs)
    ensures var after := Reconciled(m, name, newEPs, now).all;
      && (r in m.all ==> (r in after <==> !ServerNamed(m.ends, r, name) || Placed(m.ends, newEPs, r)))
      && (r !in m.all ==> (r in after <==> r in newEPs && !Placed(m.ends, m.all, r)))
  {
    hide ByKey, Placed, SamePlace;
    var byKey, after := ByKey(m.ends, newEPs, name, |newEPs|), Reconciled(m, name, newEPs, now).all;
    assert newEPs[..|newEPs|] == newEPs && m.all[..|m.all|] == m.all;
    if r in m.all {
      assert r !in newEPs;
      if ServerNamed(m.ends, r, name) {
        KeyFinds(m, name, newEPs, r);
      }
    } else if r in newEPs {
      MatchedIff(m, name, newEPs, r);
    }
  }

  lemma {:induction false} MatchedIff(m: Matrix, name: Name, newEPs: seq<Ref>, x: Ref)
    requires WellFormed(m) && Discovered(m, name, newEPs) && x in newEPs
    ensures Matched(m.ends, ByKey(m.ends, newEPs, name, |newEPs|), name, m.all, |m.all|, x) <==> Placed(m.ends, m.all, x)
  {
    hide ByKey;
    var byKey := ByKey(m.ends, newEPs, name, |newEPs|);
    if Matched(m.ends, byKey, name, m.all, |m.all|, x) {
      var j :| 0 <= j < |m.all| && Of(m.ends, m.all[j], name) && KeyOf(m.ends[m.all[j]]) in byKey && byKey[KeyOf(m.ends[m.all[j]])] == x;
      KeyFinds(m, name, newEPs, m.all[j]);
      assert SamePlace(m.ends[m.all[j]], m.ends[x]);
    }
    if Placed(m.ends, m.all, x) {
      var y :| y in m.all && y in m.ends && SamePlace(m.ends[y], m.ends[x]);
      var j :| 0 <= j < |m.all| && m.all[j] == y;
      KeyFinds(m, name, newEPs, y);
      assert SamePlace(m.ends[x], m.ends[y]);
    }
  }

  /** An endpoint that stays takes over the address and host-BGP flag of the new one in its place, and nothing else changes. */
  lemma {:induction false} FieldsRead(m: Matrix, name: Name, newEPs: seq<Ref>, now: map<Ref, Endpoint>, r: Ref, x: Ref)
    requires WellFormed(m) && Discovered(m, name, newEPs)
    requires forall k :: k in ByKey(m.ends, newEPs, name, |newEPs|) ==> Of(m.ends, ByKey(m.ends, newEPs, name, |newEPs|)[k], name)
    requires EndsAfter(m.ends, now, ByKey(m.ends, newEPs, name, |newEPs|), name, m.all, |m.all|) && r in m.ends
    ensures r in now
    ensures r in m.all && x in newEPs && x in m.ends && SamePlace(m.ends[x], m.ends[r]) ==>
      SamePlace(now[r], m.ends[r]) && now[r].ip == m.ends[x].ip && now[r].hostBGP == m.ends[x].hostBGP
    ensures !(r in m.all && Placed(m.ends, newEPs, r)) ==> now[r] == m.ends[r]
  {
    hide ByKey;
    assert m.all[..|m.all|] == m.all;
    if ServerNamed(m.ends, r, name) {
      KeyFinds(m, name, newEPs, r);
    }
    if x in newEPs {
      assert ServerNamed(m.ends, x, name);
    }
  }

  /** The entries that go are those of the endpoints that are listed no more. */
  lemma {:induction false} EntriesRead(m: Matrix, name: Name, newEPs: seq<Ref>, now: map<Ref, Endpoint>, p: Pair)
    requires WellFormed(m) && Discovered(m, name, newEPs)
    ensures var after := Reconciled(m, name, newEPs, now);
      && (p in after.entries <==> p in m.entries && Stays(m.all, after.all, p.source) && Stays(m.all, after.all, p.destination))
      && (p in after.entries ==> after.entries[p] == m.entries[p])
      && after.dropped == m.dropped
  {
    hide ByKey;
    var byKey, after := ByKey(m.ends, newEPs, name, |newEPs|), Reconciled(m, name, newEPs, now);
    assert newEPs[..|newEPs|] == newEPs && m.all[..|m.all|] == m.all;
    forall r | r in m.all
      ensures r in after.all <==> Survives(m.ends, byKey, name, r)
    {
      assert r !in newEPs;
    }
  }

  predicate Stays(was: seq<Ref>, now: seq<Ref>, r: Ref) {
    r in was ==> r in now
  }

  /** In the order they are listed in was. */
  predicate InOrder(was: seq<Ref>, a: Ref, b: Ref) {
    exists i, j :: 0 <= i < j < |was| && was[i] == a && was[j] == b
  }

  lemma {:induction false} KeptOrder(ends: map<Ref, Endpoint>, byKey: map<Key, Ref>, name: Name, all: seq<Ref>, n: nat, a: nat, b: nat)
    requires n <= |all| && a < b < |Kept(ends, byKey, name, all, n)|
    ensures InOrder(all[..n], Kept(ends, byKey, name, all, n)[a], Kept(ends, byKey, name, all, n)[b])
  {
    hide Survives;
    var before := Kept(ends, byKey, name, all, n - 1);
    assert all[..n] == all[..n - 1] + [all[n - 1]];
    if b < |before| {
      KeptOrder(ends, byKey, name, all, n - 1, a, b);
      var i, j :| 0 <= i < j < n - 1 && all[..n - 1][i] == before[a] && all[..n - 1][j] == before[b];
      assert all[..n][i] == before[a] && all[..n][j] == before[b];
    } else {
      assert before[a] in all[..n - 1];
      var i :| 0 <= i < n - 1 && all[..n - 1][i] == before[a];
      assert all[..n][i] == before[a] && all[..n][n - 1] == all[n - 1];
    }
  }

  /** What stays listed keeps its order, and comes before what is added. */
  lemma {:induction false} OrderRead(m: Matrix, name: Name, newEPs: seq<Ref>, now: map<Ref, Endpoint>, a: nat, b: nat)
    requires Discovered(m, name, newEPs) && a < b < |Reconciled(m, name, newEPs, now).all|
    ensures var after := Reconciled(m, name, newEPs, now).all;
      after[b] in m.all ==> InOrder(m.all, after[a], after[b])
  {
    hide ByKey, InOrder;
    var byKey := ByKey(m.ends, newEPs, name, |newEPs|);
    assert newEPs[..|newEPs|] == newEPs && m.all[..|m.all|] == m.all;
    var kept, found := Kept(m.ends, byKey, name, m.all, |m.all|), Fresh(m.ends, byKey, name, m.all, newEPs, |newEPs|);
    if b < |kept| {
      KeptOrder(m.ends, byKey, name, m.all, |m.all|, a, b);
    } else {
      assert found[b - |kept|] in newEPs;
    }
  }

  // ---- Drops ----------------------------------------------------------------------------------------------------

  lemma {:induction false} DropsCounted(l: seq<Drop>, name: Name, wanted: bool, n: nat, d: Drop)
    requires n <= |l|
    ensures multiset(DropsOf(l, name, wanted, n))[d] == if (d.server == name) == wanted then multiset(l[..n])[d] else 0
  {
    if n > 0 {
      DropsCounted(l, name, wanted, n - 1, d);
      assert l[..n] == l[..n - 1] + [l[n - 1]];
    }
  }

  /** The server's drops are the newly found ones, another server's are those there were, each as often. */
  lemma {:induction false} DropsRead(was: seq<Drop>, name: Name, found: seq<Drop>, d: Drop)
    ensures multiset(ReplacedDrops(was, name, found))[d] == if d.server == name then multiset(found)[d] else multiset(was)[d]
  {
    DropsCounted(was, name, false, |was|, d);
    DropsCounted(found, name, true, |found|, d);
    assert was[..|was|] == was && found[..|found|] == found;
  }
}
