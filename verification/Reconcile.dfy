/**
  * Reconciling a matrix with what discovery newly found on one server: listed endpoints are updated, dropped or added by
  * their VPC and subnet, and stale entries go.
  */
module Reconcile {
  import opened Net
  import opened Store
  import opened Matrix

  type Key = (Name, Name)

  function KeyOf(e: Endpoint): Key
    requires e.Server?
  {
    (e.vpc, e.subnet)
  }

  predicate Of(ends: map<Ref, Endpoint>, r: Ref, name: Name) {
    r in ends && ends[r].Server? && ends[r].name == name
  }

  /** The new endpoint of each key; a later one replaces an earlier one. */
  function ByKey(ends: map<Ref, Endpoint>, newEPs: seq<Ref>, name: Name, n: nat): (r: map<Key, Ref>)
    requires n <= |newEPs|
    ensures forall k :: k in r ==> Of(ends, r[k], name) && KeyOf(ends[r[k]]) == k && r[k] in newEPs[..n]
    ensures forall i :: 0 <= i < n && Of(ends, newEPs[i], name) ==> KeyOf(ends[newEPs[i]]) in r
  {
    if n == 0 then map[]
    else
      var before := ByKey(ends, newEPs, name, n - 1);
      assert newEPs[..n] == newEPs[..n - 1] + [newEPs[n - 1]];
      if Of(ends, newEPs[n - 1], name) then before[KeyOf(ends[newEPs[n - 1]]) := newEPs[n - 1]] else before
  }

  /** An endpoint that stays listed. */
  predicate Survives(ends: map<Ref, Endpoint>, byKey: map<Key, Ref>, name: Name, r: Ref) {
    Of(ends, r, name) ==> KeyOf(ends[r]) in byKey
  }

  function Kept(ends: map<Ref, Endpoint>, byKey: map<Key, Ref>, name: Name, all: seq<Ref>, n: nat): (r: seq<Ref>)
    requires n <= |all|
    ensures forall x :: x in r <==> x in all[..n] && Survives(ends, byKey, name, x)
  {
    if n == 0 then []
    else
      var before := Kept(ends, byKey, name, all, n - 1);
      assert all[..n] == all[..n - 1] + [all[n - 1]];
      if Survives(ends, byKey, name, all[n - 1]) then before + [all[n - 1]] else before
  }

  /** The new endpoints that update a listed one. */
  ghost predicate Matched(ends: map<Ref, Endpoint>, byKey: map<Key, Ref>, name: Name, all: seq<Ref>, n: nat, x: Ref)
    requires n <= |all|
  {
    exists i :: 0 <= i < n && Of(ends, all[i], name) && KeyOf(ends[all[i]]) in byKey && byKey[KeyOf(ends[all[i]])] == x
  }

  /** The new endpoints to append. */
  ghost function Fresh(ends: map<Ref, Endpoint>, byKey: map<Key, Ref>, name: Name, all: seq<Ref>, newEPs: seq<Ref>, n: nat): (r: seq<Ref>)
    requires n <= |newEPs|
    ensures forall x :: x in r <==> x in newEPs[..n] && !Matched(ends, byKey, name, all, |all|, x)
  {
    if n == 0 then []
    else
      var before := Fresh(ends, byKey, name, all, newEPs, n - 1);
      assert newEPs[..n] == newEPs[..n - 1] + [newEPs[n - 1]];
      if Matched(ends, byKey, name, all, |all|, newEPs[n - 1]) then before else before + [newEPs[n - 1]]
  }

  /** A listed endpoint takes over the address and host-BGP flag of the new endpoint of its key. */
  function Updated(ends: map<Ref, Endpoint>, byKey: map<Key, Ref>, name: Name, r: Ref): Endpoint
    requires r in ends && forall k :: k in byKey ==> Of(ends, byKey[k], name)
  {
    if Of(ends, r, name) && KeyOf(ends[r]) in byKey then
      var x := byKey[KeyOf(ends[r])];
      assert Of(ends, x, name);
      ends[r].(ip := ends[x].ip, hostBGP := ends[x].hostBGP)
    else ends[r]
  }

  /** The endpoint fields after the first n listed endpoints have been visited. */
  ghost predicate EndsAfter(ends: map<Ref, Endpoint>, now: map<Ref, Endpoint>, byKey: map<Key, Ref>, name: Name, all: seq<Ref>, n: nat)
    requires n <= |all| && forall k :: k in byKey ==> Of(ends, byKey[k], name)
  {
    && now.Keys == ends.Keys
    && forall r :: r in ends ==> now[r] == if r in all[..n] then Updated(ends, byKey, name, r) else ends[r]
  }

  /** The pairs that do not touch an endpoint that stopped being listed. */
  function Unstale(entries: Entries, stale: set<Ref>): Entries {
    map p | p in entries && p.source !in stale && p.destination !in stale :: entries[p]
  }

  ghost function StaleRefs(ends: map<Ref, Endpoint>, byKey: map<Key, Ref>, name: Name, all: seq<Ref>): set<Ref> {
    set r | r in all && !Survives(ends, byKey, name, r)
  }

  ghost function Reconciled(m: Matrix, name: Name, newEPs: seq<Ref>, now: map<Ref, Endpoint>): Matrix {
    var byKey := ByKey(m.ends, newEPs, name, |newEPs|);
    Matrix(now, Kept(m.ends, byKey, name, m.all, |m.all|) + Fresh(m.ends, byKey, name, m.all, newEPs, |newEPs|),
           Unstale(m.entries, StaleRefs(m.ends, byKey, name, m.all)), m.dropped)
  }

  // ---- What reconciling achieves ---------------------------------------------------------------------

  /** Discovery's result for a server: endpoints of that server, new objects, one for each key. */
  predicate FreshFor(m: Matrix, name: Name, newEPs: seq<Ref>) {
    && (forall i :: 0 <= i < |newEPs| ==> Of(m.ends, newEPs[i], name) && newEPs[i] !in m.all)
    && KeysDistinct(m.ends, newEPs)
  }

  predicate SameServerKey(ends: map<Ref, Endpoint>, a: Ref, b: Ref) {
    && a in ends && b in ends && ends[a].Server? && ends[b].Server?
    && ends[a].name == ends[b].name && KeyOf(ends[a]) == KeyOf(ends[b])
  }

  predicate KeysDistinct(ends: map<Ref, Endpoint>, l: seq<Ref>) {
    forall i, j :: 0 <= i < j < |l| ==> !SameServerKey(ends, l[i], l[j])
  }

  /** Some listed endpoint of the server has this key. */
  predicate Lists(ends: map<Ref, Endpoint>, l: seq<Ref>, name: Name, key: Key) {
    exists r :: r in l && Of(ends, r, name) && KeyOf(ends[r]) == key
  }

  lemma {:induction false} DifferentKeys(m: Matrix, name: Name, newEPs: seq<Ref>, i: nat, j: nat)
    requires FreshFor(m, name, newEPs) && i < |newEPs| && j < |newEPs|
    ensures Of(m.ends, newEPs[i], name) && Of(m.ends, newEPs[j], name)
    ensures i < j ==> KeyOf(m.ends[newEPs[i]]) != KeyOf(m.ends[newEPs[j]])
  {
    assert i < j ==> !SameServerKey(m.ends, newEPs[i], newEPs[j]);
  }

  lemma {:induction false} ByKeyOf(m: Matrix, name: Name, newEPs: seq<Ref>, n: nat, i: nat)
    requires FreshFor(m, name, newEPs) && i < n <= |newEPs|
    ensures Of(m.ends, newEPs[i], name)
    ensures KeyOf(m.ends[newEPs[i]]) in ByKey(m.ends, newEPs, name, n)
    ensures ByKey(m.ends, newEPs, name, n)[KeyOf(m.ends[newEPs[i]])] == newEPs[i]
  {
    hide FreshFor;
    DifferentKeys(m, name, newEPs, i, n - 1);
    if i < n - 1 {
      ByKeyOf(m, name, newEPs, n - 1, i);
    }
  }

  /** An endpoint field that reconciling does not change: every field but the address and the host-BGP flag. */
  lemma {:induction false} IdentityKept(ends: map<Ref, Endpoint>, now: map<Ref, Endpoint>, byKey: map<Key, Ref>, name: Name, all: seq<Ref>, r: Ref)
    requires forall k :: k in byKey ==> Of(ends, byKey[k], name)
    requires EndsAfter(ends, now, byKey, name, all, |all|) && r in ends
    ensures forall s: Name :: Of(now, r, s) <==> Of(ends, r, s)
    ensures ends[r].Server? ==> KeyOf(now[r]) == KeyOf(ends[r])
    ensures !Of(ends, r, name) || r !in all ==> now[r] == ends[r]
  {
    assert all[..|all|] == all;
  }

  /** Afterwards the server's listed keys are exactly the new ones. */
  lemma {:induction false} KeysReplaced(m: Matrix, name: Name, newEPs: seq<Ref>, now: map<Ref, Endpoint>, key: Key)
    requires WellFormed(m) && FreshFor(m, name, newEPs)
    requires EndsAfter(m.ends, now, ByKey(m.ends, newEPs, name, |newEPs|), name, m.all, |m.all|)
    ensures Lists(now, Reconciled(m, name, newEPs, now).all, name, key) <==> Lists(m.ends, newEPs, name, key)
  {
    var byKey, after := ByKey(m.ends, newEPs, name, |newEPs|), Reconciled(m, name, newEPs, now).all;
    assert newEPs[..|newEPs|] == newEPs && m.all[..|m.all|] == m.all;
    if Lists(now, after, name, key) {
      var r :| r in after && Of(now, r, name) && KeyOf(now[r]) == key;
      IdentityKept(m.ends, now, byKey, name, m.all, r);
      if r in m.all {
        assert Survives(m.ends, byKey, name, r);
        assert byKey[key] in newEPs;
      } else {
        assert r in newEPs;
      }
    }
    if Lists(m.ends, newEPs, name, key) {
      var r :| r in newEPs && Of(m.ends, r, name) && KeyOf(m.ends[r]) == key;
      ListedAfter(m, name, newEPs, now, r);
    }
  }

  /** Every new endpoint is listed afterwards, itself or through the listed endpoint it updates. */
  lemma {:induction false} ListedAfter(m: Matrix, name: Name, newEPs: seq<Ref>, now: map<Ref, Endpoint>, x: Ref)
    requires WellFormed(m) && FreshFor(m, name, newEPs) && x in newEPs
    requires EndsAfter(m.ends, now, ByKey(m.ends, newEPs, name, |newEPs|), name, m.all, |m.all|)
    ensures exists r :: r in Reconciled(m, name, newEPs, now).all && Of(now, r, name) && KeyOf(now[r]) == KeyOf(m.ends[x])
  {
    var byKey, after := ByKey(m.ends, newEPs, name, |newEPs|), Reconciled(m, name, newEPs, now).all;
    assert newEPs[..|newEPs|] == newEPs && m.all[..|m.all|] == m.all;
    var i :| 0 <= i < |newEPs| && newEPs[i] == x;
    ByKeyOf(m, name, newEPs, |newEPs|, i);
    if Matched(m.ends, byKey, name, m.all, |m.all|, x) {
      var j :| 0 <= j < |m.all| && Of(m.ends, m.all[j], name) && KeyOf(m.ends[m.all[j]]) in byKey && byKey[KeyOf(m.ends[m.all[j]])] == x;
      IdentityKept(m.ends, now, byKey, name, m.all, m.all[j]);
      assert m.all[j] in after;
    } else {
      IdentityKept(m.ends, now, byKey, name, m.all, x);
      assert x in after;
    }
  }

  /** Each listed endpoint of the server has the address discovery found for its key. */
  lemma {:induction false} AddressesReplaced(m: Matrix, name: Name, newEPs: seq<Ref>, now: map<Ref, Endpoint>, r: Ref, i: nat)
    requires WellFormed(m) && FreshFor(m, name, newEPs)
    requires EndsAfter(m.ends, now, ByKey(m.ends, newEPs, name, |newEPs|), name, m.all, |m.all|)
    requires r in Reconciled(m, name, newEPs, now).all && Of(now, r, name)
    requires i < |newEPs| && KeyOf(m.ends[newEPs[i]]) == KeyOf(now[r])
    ensures now[r].ip == m.ends[newEPs[i]].ip && now[r].hostBGP == m.ends[newEPs[i]].hostBGP
  {
    var byKey := ByKey(m.ends, newEPs, name, |newEPs|);
    assert newEPs[..|newEPs|] == newEPs && m.all[..|m.all|] == m.all;
    IdentityKept(m.ends, now, byKey, name, m.all, r);
    ByKeyOf(m, name, newEPs, |newEPs|, i);
    if r !in m.all {
      var j :| 0 <= j < |newEPs| && newEPs[j] == r;
      ByKeyOf(m, name, newEPs, |newEPs|, j);
    }
  }

  /** Endpoints of other servers and externals stay listed with all their fields, and every entry between survivors stays. */
  lemma {:induction false} OthersUntouched(m: Matrix, name: Name, newEPs: seq<Ref>, now: map<Ref, Endpoint>, r: Ref)
    requires WellFormed(m) && FreshFor(m, name, newEPs)
    requires EndsAfter(m.ends, now, ByKey(m.ends, newEPs, name, |newEPs|), name, m.all, |m.all|)
    requires r in m.all && !Of(m.ends, r, name)
    ensures r in Reconciled(m, name, newEPs, now).all && now[r] == m.ends[r]
  {
    assert m.all[..|m.all|] == m.all;
    IdentityKept(m.ends, now, ByKey(m.ends, newEPs, name, |newEPs|), name, m.all, r);
  }

  /** Entries refer to listed endpoints. */
  predicate EntriesListed(m: Matrix) {
    forall p :: p in m.entries ==> p.source in m.all && p.destination in m.all
  }

  /** Exactly the entries between endpoints that stay listed are kept, unchanged. */
  lemma {:induction false} EntriesReconciled(m: Matrix, name: Name, newEPs: seq<Ref>, now: map<Ref, Endpoint>, p: Pair)
    requires WellFormed(m) && FreshFor(m, name, newEPs) && EntriesListed(m)
    ensures var after := Reconciled(m, name, newEPs, now);
      && (p in after.entries <==> p in m.entries && p.source in after.all && p.destination in after.all)
      && (p in after.entries ==> after.entries[p] == m.entries[p])
    ensures EntriesListed(Reconciled(m, name, newEPs, now))
  {
    var byKey, after := ByKey(m.ends, newEPs, name, |newEPs|), Reconciled(m, name, newEPs, now);
    assert newEPs[..|newEPs|] == newEPs && m.all[..|m.all|] == m.all;
    forall r | r in m.all
      ensures r in after.all <==> Survives(m.ends, byKey, name, r)
    {
    }
  }

  // ---- What reconciling keeps -------------------------------------------------------------------------

  lemma {:induction false} KeptDistinct(ends: map<Ref, Endpoint>, byKey: map<Key, Ref>, name: Name, all: seq<Ref>, n: nat)
    requires DistinctRefs(all) && n <= |all|
    ensures DistinctRefs(Kept(ends, byKey, name, all, n))
  {
    hide Survives;
    if n > 0 {
      KeptDistinct(ends, byKey, name, all, n - 1);
    }
  }

  lemma {:induction false} FreshDistinct(ends: map<Ref, Endpoint>, byKey: map<Key, Ref>, name: Name, all: seq<Ref>, newEPs: seq<Ref>, n: nat)
    requires DistinctRefs(newEPs) && n <= |newEPs|
    ensures DistinctRefs(Fresh(ends, byKey, name, all, newEPs, n))
  {
    hide Matched;
    if n > 0 {
      FreshDistinct(ends, byKey, name, all, newEPs, n - 1);
    }
  }

  /** Endpoints stay listed once. */
  lemma {:induction false} RefsStayDistinct(m: Matrix, name: Name, newEPs: seq<Ref>, now: map<Ref, Endpoint>)
    requires FreshFor(m, name, newEPs) && DistinctRefs(newEPs) && DistinctRefs(m.all)
    ensures DistinctRefs(Reconciled(m, name, newEPs, now).all)
  {
    var byKey := ByKey(m.ends, newEPs, name, |newEPs|);
    KeptDistinct(m.ends, byKey, name, m.all, |m.all|);
    FreshDistinct(m.ends, byKey, name, m.all, newEPs, |newEPs|);
    assert newEPs[..|newEPs|] == newEPs && m.all[..|m.all|] == m.all;
    var kept, found := Kept(m.ends, byKey, name, m.all, |m.all|), Fresh(m.ends, byKey, name, m.all, newEPs, |newEPs|);
    forall i, j | 0 <= i < |kept| && 0 <= j < |found|
      ensures kept[i] != found[j]
    {
      assert kept[i] in m.all && found[j] in newEPs;
    }
  }

  lemma {:induction false} StaysWellFormed(m: Matrix, name: Name, newEPs: seq<Ref>, now: map<Ref, Endpoint>)
    requires WellFormed(m) && FreshFor(m, name, newEPs) && now.Keys == m.ends.Keys
    ensures WellFormed(Reconciled(m, name, newEPs, now))
  {
    var after := Reconciled(m, name, newEPs, now);
    assert newEPs[..|newEPs|] == newEPs && m.all[..|m.all|] == m.all;
    forall i | 0 <= i < |after.all|
      ensures after.all[i] in after.ends
    {
      assert after.all[i] in m.all || after.all[i] in newEPs;
    }
    forall p | p in after.entries
      ensures EntryWellFormed(after, p)
    {
      assert EntryWellFormed(m, p);
    }
  }

  /** Two endpoints listed afterwards with the same server and key were, already before, the same endpoint. */
  lemma {:induction false} KeysStayDistinct(m: Matrix, name: Name, newEPs: seq<Ref>, now: map<Ref, Endpoint>, a: Ref, b: Ref)
    requires WellFormed(m) && FreshFor(m, name, newEPs) && KeysDistinct(m.ends, m.all)
    requires EndsAfter(m.ends, now, ByKey(m.ends, newEPs, name, |newEPs|), name, m.all, |m.all|)
    requires var after := Reconciled(m, name, newEPs, now); a in after.all && b in after.all
    requires SameServerKey(now, a, b)
    ensures a == b
  {
    var byKey := ByKey(m.ends, newEPs, name, |newEPs|);
    assert newEPs[..|newEPs|] == newEPs && m.all[..|m.all|] == m.all;
    IdentityKept(m.ends, now, byKey, name, m.all, a);
    IdentityKept(m.ends, now, byKey, name, m.all, b);
    if a in m.all && b in m.all {
      OneListed(m, a, b);
    } else if a in m.all {
      NewNotListed(m, name, newEPs, b, a);
    } else if b in m.all {
      NewNotListed(m, name, newEPs, a, b);
    } else {
      var i :| 0 <= i < |newEPs| && newEPs[i] == a;
      var j :| 0 <= j < |newEPs| && newEPs[j] == b;
      assert Of(m.ends, newEPs[i], name) && Of(m.ends, newEPs[j], name);
      ByKeyOf(m, name, newEPs, |newEPs|, i);
      ByKeyOf(m, name, newEPs, |newEPs|, j);
    }
  }

  lemma {:induction false} OneListed(m: Matrix, a: Ref, b: Ref)
    requires KeysDistinct(m.ends, m.all) && a in m.all && b in m.all
    ensures SameServerKey(m.ends, a, b) ==> a == b
  {
    var i :| 0 <= i < |m.all| && m.all[i] == a;
    var j :| 0 <= j < |m.all| && m.all[j] == b;
    assert i < j ==> !SameServerKey(m.ends, m.all[i], m.all[j]);
    assert j < i ==> !SameServerKey(m.ends, m.all[j], m.all[i]);
  }

  /** A new endpoint that gets listed has a key that no listed endpoint of the server has. */
  lemma {:induction false} NewNotListed(m: Matrix, name: Name, newEPs: seq<Ref>, x: Ref, r: Ref)
    requires FreshFor(m, name, newEPs) && x in newEPs && r in m.all
    requires !Matched(m.ends, ByKey(m.ends, newEPs, name, |newEPs|), name, m.all, |m.all|, x)
    ensures !SameServerKey(m.ends, x, r) && !SameServerKey(m.ends, r, x)
  {
    var i :| 0 <= i < |newEPs| && newEPs[i] == x;
    var j :| 0 <= j < |m.all| && m.all[j] == r;
    ByKeyOf(m, name, newEPs, |newEPs|, i);
  }

  // ---- Drops ----------------------------------------------------------------------------------------------

  function DropsOf(l: seq<Drop>, name: Name, wanted: bool, n: nat): (r: seq<Drop>)
    requires n <= |l|
    ensures forall i :: 0 <= i < |r| ==> (r[i].server == name) == wanted
  {
    if n == 0 then []
    else if (l[n - 1].server == name) == wanted then DropsOf(l, name, wanted, n - 1) + [l[n - 1]]
    else DropsOf(l, name, wanted, n - 1)
  }

  function ReplacedDrops(was: seq<Drop>, name: Name, found: seq<Drop>): seq<Drop> {
    DropsOf(was, name, false, |was|) + DropsOf(found, name, true, |found|)
  }

  lemma {:induction false} DropsAppend(a: seq<Drop>, b: seq<Drop>, name: Name, wanted: bool, n: nat)
    requires n <= |b|
    ensures DropsOf(a + b, name, wanted, |a| + n) == DropsOf(a, name, wanted, |a|) + DropsOf(b, name, wanted, n)
  {
    if n > 0 {
      DropsAppend(a, b, name, wanted, n - 1);
    } else {
      DropsPrefix(a, b, name, wanted, |a|);
    }
  }

  lemma {:induction false} DropsPrefix(a: seq<Drop>, b: seq<Drop>, name: Name, wanted: bool, n: nat)
    requires n <= |a|
    ensures DropsOf(a + b, name, wanted, n) == DropsOf(a, name, wanted, n)
  {
    if n > 0 {
      DropsPrefix(a, b, name, wanted, n - 1);
    }
  }

  lemma {:induction false} DropsAll(l: seq<Drop>, name: Name, wanted: bool, n: nat)
    requires n <= |l| && forall i :: 0 <= i < |l| ==> (l[i].server == name) == wanted
    ensures DropsOf(l, name, wanted, n) == l[..n] && DropsOf(l, name, !wanted, n) == []
  {
    if n > 0 {
      DropsAll(l, name, wanted, n - 1);
    }
  }

  /** Afterwards the server's drops are exactly the new ones, and every other server's are as before. */
  lemma {:induction false} DropsReplaced(was: seq<Drop>, name: Name, found: seq<Drop>)
    ensures var r := ReplacedDrops(was, name, found);
      && DropsOf(r, name, true, |r|) == DropsOf(found, name, true, |found|)
      && DropsOf(r, name, false, |r|) == DropsOf(was, name, false, |was|)
  {
    var a, b := DropsOf(was, name, false, |was|), DropsOf(found, name, true, |found|);
    DropsAppend(a, b, name, true, |b|);
    DropsAppend(a, b, name, false, |b|);
    DropsAll(a, name, false, |a|);
    DropsAll(b, name, true, |b|);
  }
}
