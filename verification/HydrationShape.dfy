/**
  * What hydration leaves alone, even when it stops half way: names, roles and links keep their places in every list,
  * so that the checker sees the same wiring as the allocator.
  */
module HydrationShape {
  import opened Net
  import opened WiringModel
  import opened Store
  import opened Allocator
  import opened Sorting

  /** What hydration never touches on a switch. */
  predicate SameSwitch(a: Switch, b: Switch) {
    a.name == b.name && a.spec.role == b.spec.role && a.spec.red == b.spec.red
  }

  predicate SameLink(a: Link, b: Link) {
    a.near.port == b.near.port && a.far.port == b.far.port
  }

  predicate SameConn(a: Conn, b: Conn) {
    a.name == b.name && a.spec.kind == b.spec.kind && |a.spec.links| == |b.spec.links| &&
    forall i :: 0 <= i < |a.spec.links| ==> SameLink(a.spec.links[i], b.spec.links[i])
  }

  predicate SameGateway(a: Gateway, b: Gateway) {
    a.name == b.name && a.spec.interfaces.Keys == b.spec.interfaces.Keys
  }

  predicate SwitchesSame(a: seq<Switch>, b: seq<Switch>) {
    |a| == |b| && forall i :: 0 <= i < |a| ==> SameSwitch(a[i], b[i])
  }

  predicate ConnsSame(a: seq<Conn>, b: seq<Conn>) {
    |a| == |b| && forall i :: 0 <= i < |a| ==> SameConn(a[i], b[i])
  }

  predicate GatewaysSame(a: seq<Gateway>, b: seq<Gateway>) {
    |a| == |b| && forall i :: 0 <= i < |a| ==> SameGateway(a[i], b[i])
  }

  /** The API objects keep their identity, order and everything that is not an assigned address. */
  predicate SameShape(a: Wiring, b: Wiring) {
    SwitchesSame(a.switches, b.switches) && ConnsSame(a.conns, b.conns) && GatewaysSame(a.gateways, b.gateways)
  }

  lemma {:induction false} SameShapeReflexive(w: Wiring)
    ensures SameShape(w, w)
  {
  }

  ghost predicate LinkedSomehow(sws: seq<Switch>, was: seq<Gateway>, now: seq<Gateway>) {
    exists part: seq<Link> :: now == AllWithLinks(sws, was, part)
  }

  ghost predicate UpdatedSomehow(was: seq<Conn>, target: seq<Conn>, now: seq<Conn>) {
    exists n: nat :: n <= |target| && now == PutAll(was, target[..n])
  }

  lemma {:induction false} ResolveConcat(sws: seq<Switch>, gws: seq<Gateway>, a: seq<Link>, b: seq<Link>)
    ensures AllResolve(sws, gws, a + b) <==> AllResolve(sws, gws, a) && AllResolve(sws, gws, b)
  {
    assert forall k :: 0 <= k < |a| ==> (a + b)[k] == a[k];
    assert forall k :: 0 <= k < |b| ==> (a + b)[|a| + k] == b[k];
  }

  lemma {:induction false} GatewayLinksPrefix(conns: seq<Conn>, c: nat, n: nat)
    requires c <= n <= |conns|
    ensures GatewayLinks(conns, c) <= GatewayLinks(conns, n)
    ensures c < n ==> GatewayLinks(conns, c) + OwnGatewayLinks(conns[c]) <= GatewayLinks(conns, n)
  {
    if c < n {
      GatewayLinksPrefix(conns, c, n - 1);
    }
  }

  /** The links of the first c connections resolve, and then those of connection c decide about one more. */
  lemma {:induction false} ConnResolves(sws: seq<Switch>, gws: seq<Gateway>, conns: seq<Conn>, c: nat)
    requires c < |conns| && AllResolve(sws, gws, GatewayLinks(conns, c))
    ensures AllResolve(sws, gws, OwnGatewayLinks(conns[c])) ==> AllResolve(sws, gws, GatewayLinks(conns, c + 1))
    ensures !AllResolve(sws, gws, OwnGatewayLinks(conns[c])) ==> !AllResolve(sws, gws, GatewayLinks(conns, |conns|))
  {
    var before, own, all := GatewayLinks(conns, c), OwnGatewayLinks(conns[c]), GatewayLinks(conns, |conns|);
    GatewayLinksPrefix(conns, c, |conns|);
    ResolveConcat(sws, gws, before, own);
    ResolveConcat(sws, gws, before + own, all[|before + own|..]);
    assert before + own + all[|before + own|..] == all;
  }

  lemma {:induction false} SortedConnsDistinct(conns: seq<Conn>)
    requires DistinctNames(conns)
    ensures DistinctNames(Sort(conns, ByName))
    ensures forall i :: 0 <= i < |conns| ==> conns[i] in Sort(conns, ByName)
    ensures forall c :: 0 <= c < |conns| ==> Sort(conns, ByName)[c] in conns
  {
    SortSorts(conns, ByName);
  }

  /** Skipping the update of a connection without addresses changes nothing. */
  lemma {:induction false} UnchangedConn(was: seq<Conn>, sorted: seq<Conn>, target: seq<Conn>, c: nat)
    requires DistinctNames(was) && DistinctNames(sorted)
    requires |target| == |sorted| && forall j :: 0 <= j < |sorted| ==> target[j].name == sorted[j].name
    requires c < |sorted| && sorted[c] in was && target[c] == sorted[c]
    ensures Put(PutAll(was, target[..c]), target[c]) == PutAll(was, target[..c])
  {
    var part := target[..c];
    DistinctTransfer(sorted, part);
    DistinctPairs(sorted, |sorted|);
    DistinctPairs(was, |was|);
    PutAllNames(was, part);
    forall i | 0 <= i < |was| && was[i].name == target[c].name
      ensures PutAll(was, part)[i] == target[c]
    {
      PutAllAt(was, part, i);
    }
  }

  lemma {:induction false} SameGatewayFound(sws: seq<Switch>, gws: seq<Gateway>, done: seq<Link>, name: Name)
    requires DistinctNames(gws)
    ensures Find(AllWithLinks(sws, gws, done), name) == Find(gws, name)
    ensures DistinctNames(AllWithLinks(sws, gws, done))
  {
    var after := AllWithLinks(sws, gws, done);
    DistinctTransfer(gws, after);
    var r := Find(gws, name);
    if r.Some? {
      FindUnique(after, r.value);
    } else {
      FindFromMisses(gws, name, 0);
      FindFromMisses(after, name, 0);
    }
  }

  lemma {:induction false} OneMoreLink(sws: seq<Switch>, gws: seq<Gateway>, done: seq<Link>, l: Link)
    ensures var r := AllWithLinks(sws, gws, done + [l]);
      forall i {:trigger r[i]} :: 0 <= i < |gws| ==> r[i] == WithLink(sws, WithLinks(sws, gws[i], done), l)
  {
    assert (done + [l])[..|done|] == done;
  }

  /** Sorting the switches does not change whether their roles are valid. */
  lemma {:induction false} RolesSorted(sws: seq<Switch>)
    ensures RolesValid(Sort(sws, SwitchRank)) <==> RolesValid(sws)
  {
    var sorted := Sort(sws, SwitchRank);
    SameMembers(sorted, sws);
  }

  lemma {:induction false} SwitchesKeepShape(f: FabConfig, w: Wiring)
    requires Valid(w)
    ensures SwitchesSame(w.switches, PutAll(w.switches, NewSwitches(f, w)))
  {
    hide AssignedASN, AssignedVtep, MgmtAt, ProtoAt, PutAll;
    var sorted, items := Sort(w.switches, SwitchRank), NewSwitches(f, w);
    SortSorts(w.switches, SwitchRank);
    DistinctTransfer(sorted, items);
    SameMembers(sorted, w.switches);
    forall i | 0 <= i < |w.switches|
      ensures SameSwitch(w.switches[i], PutAll(w.switches, items)[i])
    {
      var j :| 0 <= j < |sorted| && sorted[j] == w.switches[i];
      assert SameSwitch(sorted[j], items[j]);
      PutAllAt(w.switches, items, i);
    }
  }

  lemma {:induction false} ConnKeepsShape(was: seq<Conn>, sorted: seq<Conn>, target: seq<Conn>, i: nat)
    requires i < |was| && was[i] in sorted && DistinctNames(sorted)
    requires |target| <= |sorted| && forall j :: 0 <= j < |target| ==> SameConn(sorted[j], target[j])
    ensures SameConn(was[i], PutAll(was, target)[i])
  {
    var j :| 0 <= j < |sorted| && sorted[j] == was[i];
    DistinctPairs(sorted, |sorted|);
    assert forall k :: 0 <= k < |target| ==> SameConn(sorted[k], target[k]);
    DistinctTransfer(sorted, target);
    PutAllAt(was, target, i);
  }

  lemma {:induction false} ConnsKeepShape(f: FabConfig, was: seq<Conn>, now: seq<Conn>)
    requires DistinctNames(was)
    requires UpdatedSomehow(was, AssignedConns(f, Sort(was, ByName)), now)
    ensures ConnsSame(was, now)
  {
    var sorted := Sort(was, ByName);
    var target := AssignedConns(f, sorted);
    var n: nat :| n <= |target| && now == PutAll(was, target[..n]);
    SortedConnsDistinct(was);
    var part := target[..n];
    forall j | 0 <= j < n
      ensures SameConn(sorted[j], part[j])
    {
      assert part[j] == AssignedConn(f, sorted, j);
    }
    forall i | 0 <= i < |was|
      ensures SameConn(was[i], now[i])
    {
      ConnKeepsShape(was, sorted, part, i);
    }
  }

  lemma {:induction false} GatewaysKeepShape(sws: seq<Switch>, was: seq<Gateway>, now: seq<Gateway>)
    requires LinkedSomehow(sws, was, now)
    ensures GatewaysSame(was, now)
  {
  }

  lemma {:induction false} GatewaysTransitive(a: seq<Gateway>, b: seq<Gateway>, c: seq<Gateway>)
    requires GatewaysSame(a, b) && GatewaysSame(b, c)
    ensures GatewaysSame(a, c)
  {
    forall i | 0 <= i < |a|
      ensures SameGateway(a[i], c[i])
    {
      assert SameGateway(a[i], b[i]) && SameGateway(b[i], c[i]);
    }
  }

  lemma {:induction false} StoredGatewaysKeepShape(linked: seq<Gateway>, sorted: seq<Gateway>, items: seq<Gateway>)
    requires GatewaysSame(sorted, items) && DistinctNames(sorted) && forall i :: 0 <= i < |linked| ==> linked[i] in sorted
    ensures GatewaysSame(linked, PutAll(linked, items))
  {
    DistinctTransfer(sorted, items);
    forall i | 0 <= i < |linked|
      ensures SameGateway(linked[i], PutAll(linked, items)[i])
    {
      var j :| 0 <= j < |sorted| && sorted[j] == linked[i];
      assert SameGateway(sorted[j], items[j]);
      PutAllAt(linked, items, i);
    }
  }

  lemma {:induction false} AssignedGatewaysSame(f: FabConfig, switches: nat, owners: nat, gws: seq<Gateway>)
    ensures GatewaysSame(gws, AssignedGateways(f, switches, owners, gws))
  {
  }

  lemma {:induction false} HydratedGatewaysKeepShape(f: FabConfig, w: Wiring)
    requires Valid(w)
    ensures GatewaysSame(w.gateways, PutAll(LinkedGateways(f, w), NewGateways(f, w)))
  {
    hide WithLinks, GatewaysSame, AssignedGateways, Valid;
    var linked, links, sws := LinkedGateways(f, w), NewGatewayLinks(f, w), NewSwitches(f, w);
    assert linked == AllWithLinks(sws, w.gateways, links);
    GatewaysKeepShape(sws, w.gateways, linked);
    LinkedDistinct(w.gateways, linked, w);
    SortSorts(linked, ByName);
    AssignedGatewaysSame(f, |w.switches|, Owners(Sort(w.switches, SwitchRank), |w.switches|), Sort(linked, ByName));
    StoredGatewaysKeepShape(linked, Sort(linked, ByName), NewGateways(f, w));
    GatewaysTransitive(w.gateways, linked, PutAll(linked, NewGateways(f, w)));
  }

  lemma {:induction false} LinkedDistinct(was: seq<Gateway>, now: seq<Gateway>, w: Wiring)
    requires Valid(w) && was == w.gateways && GatewaysSame(was, now)
    ensures DistinctNames(now)
  {
    forall i | 0 <= i < |now|
      ensures now[i].name == was[i].name
    {
      assert SameGateway(was[i], now[i]);
    }
    DistinctTransfer(was, now);
  }

  /** A run without errors keeps everything that is not an assigned address. */
  lemma {:induction false} HydratedKeepsShape(f: FabConfig, w: Wiring)
    requires Valid(w)
    ensures SameShape(w, Hydrated(f, w))
  {
    hide SwitchesSame, ConnsSame, GatewaysSame, NewSwitches, NewGateways, LinkedGateways;
    SwitchesKeepShape(f, w);
    var target := NewConns(f, w);
    assert target[..|target|] == target;
    ConnsKeepShape(f, w.conns, PutAll(w.conns, target));
    HydratedGatewaysKeepShape(f, w);
  }
}
