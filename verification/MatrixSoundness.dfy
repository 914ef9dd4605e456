/** What validation buys: no phase acts on an undecided verdict, and no pair is left out. */
module MatrixSoundness {
  import opened Net
  import opened Store
  import opened Matrix
  import opened MatrixPhases
  import opened MatrixRun
  import Grid

  /** A stored entry that is undecided. */
  predicate Undecided(m: Matrix, src: Ref, dst: Ref, pp: ProtoPort) {
    var p := Pair(src, dst);
    p in m.entries && pp in m.entries[p] && m.entries[p][pp].verdict == Unknown
  }

  lemma {:induction false} OnlyExcused(m: Matrix, src: Ref, dst: Ref, pp: ProtoPort)
    requires Valid(m) && Undecided(m, src, dst, pp)
    ensures Excused(m, Pair(src, dst), pp, m.entries[Pair(src, dst)][pp])
  {
    assert PairDecided(m, Pair(src, dst));
  }

  /** Every pair the server phase probes has a decided expectation. */
  lemma {:induction false} ServersDecided(m: Matrix, o: Opts, src: Ref, dst: Ref)
    requires Valid(m) && OwnedByServers(m, o, src, dst)
    ensures Lookup(m, src, dst, DEFAULT).verdict != Unknown
  {
    hide Valid;
    if Undecided(m, src, dst, DEFAULT) {
      OnlyExcused(m, src, dst, DEFAULT);
    }
  }

  /** Every forwarded port between servers has a decided expectation, so the forward phase skips none for being undecided. */
  lemma {:induction false} ForwardsDecided(m: Matrix, o: Opts, src: Ref, dst: Ref)
    requires Valid(m) && ServerPair(m, o, src, dst) && HasPort(Lookup(m, src, dst, DEFAULT))
    ensures Lookup(m, src, dst, DEFAULT).verdict != Unknown
  {
    hide Valid;
    if Undecided(m, src, dst, DEFAULT) {
      OnlyExcused(m, src, dst, DEFAULT);
    }
  }

  /** Every protocol/port entry between servers has a decided expectation. */
  lemma {:induction false} PortsDecided(m: Matrix, o: Opts, src: Ref, dst: Ref, pp: ProtoPort)
    requires Valid(m) && ServerPair(m, o, src, dst) && pp in PortsOf(m, src, dst)
    ensures m.entries[Pair(src, dst)][pp].verdict != Unknown
  {
    hide Valid;
    if Undecided(m, src, dst, pp) {
      OnlyExcused(m, src, dst, pp);
    }
  }

  /** A server that is expected not to get out has no undecided entry to any external, from any of its endpoints. */
  lemma {:induction false} CurlDecided(m: Matrix, o: Opts, expected: map<Name, Reachability>, src: Ref, dst: Ref, pp: ProtoPort)
    requires Valid(m) && CurlTable(m, o, |m.all|, expected)
    requires src in m.all && IsServer(m, src) && IsExternal(m, dst)
    requires m.ends[src].name in expected && !expected[m.ends[src].name].reachable
    ensures !Undecided(m, src, dst, pp)
  {
    hide Valid, CurlAllowed;
    var i :| 0 <= i < |m.all| && m.all[i] == src;
    assert CurlAllowed(m, m.all[i]).None?;
    if Undecided(m, src, dst, pp) {
      OnlyExcused(m, src, dst, pp);
      assert false;
    }
  }

  // ---- Coverage ------------------------------------------------------------------------------

  /** A forwarded port always comes with an address: what every overlay keeps. */
  predicate PortsAddressed(m: Matrix) {
    forall p :: p in m.entries ==> forall pp :: pp in m.entries[p] ==> (HasPort(m.entries[p][pp]) ==> HasDNAT(m.entries[p][pp]))
  }

  predicate OpenFilters(o: Opts) {
    |o.sources| == 0 && |o.destinations| == 0
  }

  /** Servers on different nodes. */
  predicate DifferentServers(m: Matrix, src: Ref, dst: Ref) {
    IsServer(m, src) && IsServer(m, dst) && m.ends[src].name != m.ends[dst].name
  }

  lemma {:induction false} LookupAddressed(m: Matrix, src: Ref, dst: Ref)
    requires PortsAddressed(m)
    ensures HasPort(Lookup(m, src, dst, DEFAULT)) ==> HasDNAT(Lookup(m, src, dst, DEFAULT))
  {
  }

  /** Each ordered pair of servers belongs to one phase: protocol/port entries first, then a forwarded port, else the server phase. */
  lemma {:induction false} PairOwned(m: Matrix, o: Opts, i: nat, j: nat)
    requires Valid(m) && PortsAddressed(m) && OpenFilters(o)
    requires i < |m.all| && j < |m.all| && DifferentServers(m, m.all[i], m.all[j])
    ensures var src, dst := m.all[i], m.all[j];
      if HasProtoPortEntries(m, src, dst) then
        |PortPlan(m, o, i, j)| == |PortsOf(m, src, dst)| > 0 && ServerPlan(m, o, i, j) == []
      else if HasPort(Lookup(m, src, dst, DEFAULT)) then
        |ForwardPlan(m, o, i, j)| == 1 && PortPlan(m, o, i, j) == [] && ServerPlan(m, o, i, j) == []
      else
        |ServerPlan(m, o, i, j)| == 1 && ForwardPlan(m, o, i, j) == [] && PortPlan(m, o, i, j) == []
  {
    hide Valid, Lookup, PortsAddressed;
    var src, dst := m.all[i], m.all[j];
    assert ServerPair(m, o, src, dst);
    LookupAddressed(m, src, dst);
    if HasPort(Lookup(m, src, dst, DEFAULT)) {
      ForwardsDecided(m, o, src, dst);
    }
  }

  /** What a plan holds for a pair. */
  predicate Covers(m: Matrix, o: Opts, p: Plan, i: nat, j: nat) {
    || (exists x :: x in ServerPlan(m, o, i, j) && x in p.servers)
    || (exists x :: x in ForwardPlan(m, o, i, j) && x in p.forwards)
    || (exists x :: x in PortPlan(m, o, i, j) && x in p.ports)
  }

  lemma {:induction false} Collected(f: (nat, nat) -> seq<Probe>, n: nat, i: nat, j: nat)
    requires i < n && j < n && |f(i, j)| > 0
    ensures exists x :: x in f(i, j) && x in Grid.All(f, n)
  {
    var x := f(i, j)[0];
    Grid.Members(f, n, x);
    assert x in f(i, j);
  }

  /** With open filters and every kind of probe on, a test that runs probes every ordered pair of servers on different nodes. */
  lemma {:induction false} NoPairUnprobed(m: Matrix, o: Opts, p: Plan, i: nat, j: nat)
    requires Valid(m) && PortsAddressed(m) && OpenFilters(o) && o.pings > 0 && o.iperfs > 0
    requires Planned(m, o, p)
    requires i < |m.all| && j < |m.all| && DifferentServers(m, m.all[i], m.all[j])
    ensures Covers(m, o, p, i, j)
  {
    hide Valid, PortsAddressed, DifferentServers, Grid.All, CurlTable, TargetTable, ServerPlan, ForwardPlan, PortPlan;
    PairOwned(m, o, i, j);
    var src, dst := m.all[i], m.all[j];
    if HasProtoPortEntries(m, src, dst) {
      assert PortPlans(m, o)(i, j) == PortPlan(m, o, i, j);
      Collected(PortPlans(m, o), |m.all|, i, j);
    } else if HasPort(Lookup(m, src, dst, DEFAULT)) {
      assert ForwardPlans(m, o)(i, j) == ForwardPlan(m, o, i, j);
      Collected(ForwardPlans(m, o), |m.all|, i, j);
    } else {
      assert ServerPlans(m, o)(i, j) == ServerPlan(m, o, i, j);
      Collected(ServerPlans(m, o), |m.all|, i, j);
    }
  }

  // ---- Throughput tests that nobody drives ------------------------------------------------------

  /** The probe from src to dst measures throughput once its pings get through: nothing is measured of a denied pair, or by the larger name of two directions. */
  predicate Drives(m: Matrix, o: Opts, src: Ref, dst: Ref)
    requires IsServer(m, src) && IsServer(m, dst)
  {
    && OwnedByServers(m, o, src, dst) && o.iperfs > 0
    && Lookup(m, src, dst, DEFAULT).verdict == Allow
    && !(Bidirectional(m, o, src, dst) && m.ends[src].name > m.ends[dst].name)
  }

  /** The throughput of src to dst is measured, by its own probe or by that of the other direction. */
  predicate Driven(m: Matrix, o: Opts, src: Ref, dst: Ref)
    requires IsServer(m, src) && IsServer(m, dst)
  {
    Drives(m, o, src, dst) || (Drives(m, o, dst, src) && Bidirectional(m, o, dst, src))
  }

  /** The throughput of a pair is measured iff the pair is allowed and does not leave the measurement to a direction that another phase owns. */
  lemma {:induction false} DrivenIff(m: Matrix, o: Opts, src: Ref, dst: Ref)
    requires PortsAddressed(m) && OwnedByServers(m, o, src, dst) && o.iperfs > 0
    ensures Driven(m, o, src, dst) <==>
      && Lookup(m, src, dst, DEFAULT).verdict == Allow
      && !(Bidirectional(m, o, src, dst) && m.ends[dst].name < m.ends[src].name && HasProtoPortEntries(m, dst, src))
  {
    hide Lookup, PortsAddressed;
    LookupAddressed(m, src, dst);
    LookupAddressed(m, dst, src);
  }

  /** Two servers that may reach each other, with one protocol entry in one direction: nobody measures the other direction. */
  lemma {:induction false} NobodyDrives() returns (m: Matrix, o: Opts)
    ensures WellFormed(m) && Valid(m) && PortsAddressed(m) && OpenFilters(o) && o.pings > 0 && o.iperfs > 0
    ensures OwnedByServers(m, o, 1, 0) && Lookup(m, 1, 0, DEFAULT).verdict == Allow && !Driven(m, o, 1, 0)
  {
    var allow := Expectation(Allow, None, IntraVPC, None, DEFAULT);
    var icmp := ProtoPort(ICMP, 0);
    m := Matrix(map[0 := Server(0, 0, 0, false, V4(1)), 1 := Server(1, 0, 0, false, V4(2))], [0, 1],
                map[Pair(1, 0) := map[DEFAULT := allow], Pair(0, 1) := map[DEFAULT := allow, icmp := allow.(protoPort := icmp)]], []);
    o := Opts(1, 1, 1, [], []);
    assert icmp in m.entries[Pair(0, 1)] && icmp != DEFAULT;
    assert m.all[0] == 0 && m.all[1] == 1;
  }

  // ---- Shared port-forward targets ----------------------------------------------------------------

  /** The pair forwards to this virtual address and port at an external. */
  predicate ForwardsTo(m: Matrix, o: Opts, src: Ref, dst: Ref, key: PfKey) {
    && Forwards(m, o, src, dst) && IsExternal(m, dst)
    && key == PfKey(m.ends[src].name, Lookup(m, src, dst, DEFAULT).translation.value.destinationIP,
                    Lookup(m, src, dst, DEFAULT).translation.value.destinationPort)
  }

  predicate ForwardsAt(m: Matrix, o: Opts, i: nat, j: nat, key: PfKey) {
    i < |m.all| && j < |m.all| && ForwardsTo(m, o, m.all[i], m.all[j], key)
  }

  lemma {:induction false} TargetListed(m: Matrix, o: Opts, key: PfKey, allowed: bool) returns (i: nat, j: nat)
    requires var l := Grid.All(ExternalPlans(m, o), |m.all|);
      exists k :: 0 <= k < |l| && l[k].key == key && (allowed ==> l[k].expected.reachable)
    ensures ForwardsAt(m, o, i, j, key) && (allowed ==> Lookup(m, m.all[i], m.all[j], DEFAULT).verdict == Allow)
  {
    hide Lookup, Grid.All;
    var f := ExternalPlans(m, o);
    var l := Grid.All(f, |m.all|);
    var k :| 0 <= k < |l| && l[k].key == key && (allowed ==> l[k].expected.reachable);
    Grid.Members(f, |m.all|, l[k]);
    i, j :| i < |m.all| && j < |m.all| && l[k] in f(i, j);
    assert f(i, j) == ExternalPlan(m, o, i, j);
  }

  lemma {:induction false} ListedTarget(m: Matrix, o: Opts, key: PfKey, i: nat, j: nat)
    requires ForwardsAt(m, o, i, j, key)
    ensures var l := Grid.All(ExternalPlans(m, o), |m.all|);
      exists k :: 0 <= k < |l| && l[k].key == key && (Lookup(m, m.all[i], m.all[j], DEFAULT).verdict == Allow ==> l[k].expected.reachable)
  {
    hide Lookup, Grid.All;
    var f := ExternalPlans(m, o);
    assert f(i, j) == ExternalPlan(m, o, i, j);
    var x := ExternalPlan(m, o, i, j)[0];
    assert x in f(i, j);
    Grid.Members(f, |m.all|, x);
    var l := Grid.All(f, |m.all|);
    var k :| 0 <= k < |l| && l[k] == x;
  }

  /** A virtual target at an external is probed iff some pair forwards to it, and expected to answer iff one that does is allowed. */
  lemma {:induction false} TargetReachable(m: Matrix, o: Opts, p: Plan, key: PfKey)
    requires Planned(m, o, p) && o.iperfs > 0
    ensures key in p.targets <==> exists i: nat, j: nat :: ForwardsAt(m, o, i, j, key)
    ensures key in p.targets ==>
      (p.targets[key].reachable <==>
       exists i: nat, j: nat :: ForwardsAt(m, o, i, j, key) && Lookup(m, m.all[i], m.all[j], DEFAULT).verdict == Allow)
  {
    hide ForwardsTo, Lookup, Grid.All, CurlTable;
    if key in p.targets {
      var i, j := TargetListed(m, o, key, false);
      if p.targets[key].reachable {
        var a, b := TargetListed(m, o, key, true);
      }
    }
    forall i: nat, j: nat | ForwardsAt(m, o, i, j, key)
      ensures key in p.targets && (Lookup(m, m.all[i], m.all[j], DEFAULT).verdict == Allow ==> p.targets[key].reachable)
    {
      ListedTarget(m, o, key, i, j);
    }
  }
}
