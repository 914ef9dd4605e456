/** A connectivity test from the matrix: validation, the error channel's size, and the phases. */
module MatrixRun {
  import opened Net
  import opened Store
  import opened Matrix
  import opened MatrixPhases
  import Grid

  datatype Plan = Plan(servers: seq<Probe>, curls: map<Name, Reachability>, forwards: seq<Probe>,
                       targets: map<PfKey, Reachability>, ports: seq<Probe>)

  /** How many errors the probes of a plan send at most. */
  function Errors(p: Plan): nat {
    2 * |p.servers| + |p.curls| + |p.forwards| + |p.targets| + |p.ports|
  }

  datatype Outcome = Refused | Ran(capacity: nat, plan: Plan)

  function PortsAt(m: Matrix, i: nat, j: nat): seq<ProtoPort> {
    if i < |m.all| && j < |m.all| && m.all[i] != m.all[j] then PortsOf(m, m.all[i], m.all[j]) else []
  }

  function PortsAts(m: Matrix): (nat, nat) -> seq<ProtoPort> {
    (i: nat, j: nat) => PortsAt(m, i, j)
  }

  /** The number of protocol/port entries over all pairs of list positions. */
  function PortEntryCount(m: Matrix): nat {
    |Grid.All(PortsAts(m), |m.all|)|
  }

  method CountPortEntries(m: Matrix) returns (count: nat)
    requires WellFormed(m)
    ensures count == PortEntryCount(m)
  {
    hide PortsAts, Grid.Row;
    count := 0;
    var i := 0;
    while i < |m.all|
      invariant 0 <= i <= |m.all|
      invariant count == |Grid.Rows(PortsAts(m), i, |m.all|)|
    {
      var row := CountRow(m, i);
      count, i := count + row, i + 1;
    }
  }

  method CountRow(m: Matrix, i: nat) returns (count: nat)
    requires WellFormed(m) && i < |m.all|
    ensures count == |Grid.Row(PortsAts(m), i, |m.all|)|
  {
    hide PortsOf;
    ghost var f := PortsAts(m);
    count := 0;
    var j := 0;
    while j < |m.all|
      invariant 0 <= j <= |m.all|
      invariant count == |Grid.Row(f, i, j)|
    {
      assert f(i, j) == PortsAt(m, i, j);
      if m.all[i] != m.all[j] {
        count := count + |PortsOf(m, m.all[i], m.all[j])|;
      }
      j := j + 1;
    }
  }

  predicate ServersReachable(m: Matrix, ssh: set<Name>) {
    forall i :: 0 <= i < |m.all| && IsServer(m, m.all[i]) ==> m.ends[m.all[i]].name in ssh
  }

  predicate Probing(o: Opts) {
    o.pings > 0 || o.iperfs > 0
  }

  /** What a test that is not refused plans. */
  ghost predicate Planned(m: Matrix, o: Opts, p: Plan) {
    && p.servers == (if Probing(o) then Grid.All(ServerPlans(m, o), |m.all|) else [])
    && (if o.curls > 0 then CurlTable(m, o, |m.all|, p.curls) else p.curls == map[])
    && p.forwards == (if o.iperfs > 0 then Grid.All(ForwardPlans(m, o), |m.all|) else [])
    && (if o.iperfs > 0 then TargetTable(Grid.All(ExternalPlans(m, o), |m.all|), p.targets) else p.targets == map[])
    && p.ports == (if Probing(o) then Grid.All(PortPlans(m, o), |m.all|) else [])
  }

  /** A pair costs two errors in the server phase, or one in a port forward, never both. */
  lemma {:induction false} PairCost(m: Matrix, o: Opts)
    ensures Grid.TwoPerPair(ServerPlans(m, o), ForwardPlans(m, o), ExternalPlans(m, o))
  {
    hide SameNode, Lookup, HasProtoPortEntries, WellFormed;
    forall i: nat, j: nat
      ensures 2 * |ServerPlans(m, o)(i, j)| + |ForwardPlans(m, o)(i, j)| + |ExternalPlans(m, o)(i, j)| <= 2
    {
      assert ServerPlans(m, o)(i, j) == ServerPlan(m, o, i, j);
      assert ForwardPlans(m, o)(i, j) == ForwardPlan(m, o, i, j);
      assert ExternalPlans(m, o)(i, j) == ExternalPlan(m, o, i, j);
    }
  }

  lemma {:induction false} PortCost(m: Matrix, o: Opts)
    ensures Grid.Dominated(PortPlans(m, o), PortsAts(m))
  {
    hide SameNode, HasProtoPortEntries;
    forall i: nat, j: nat
      ensures |PortPlans(m, o)(i, j)| <= |PortsAts(m)(i, j)|
    {
      assert PortPlans(m, o)(i, j) == PortPlan(m, o, i, j);
      assert PortsAts(m)(i, j) == PortsAt(m, i, j);
    }
  }

  /** The capacity of the error channel. */
  function Capacity(m: Matrix): nat {
    2 * |m.all| * |m.all| + |m.all| + PortEntryCount(m)
  }

  lemma {:induction false} PairsBound(m: Matrix, o: Opts)
    ensures 2 * |Grid.All(ServerPlans(m, o), |m.all|)| + |Grid.All(ForwardPlans(m, o), |m.all|)|
      + |Grid.All(ExternalPlans(m, o), |m.all|)| <= 2 * |m.all| * |m.all|
  {
    hide ServerPlans, ForwardPlans, ExternalPlans, Grid.Rows;
    var n := |m.all|;
    PairCost(m, o);
    Grid.RowsTwo(ServerPlans(m, o), ForwardPlans(m, o), ExternalPlans(m, o), n, n);
  }

  lemma {:induction false} PortsBound(m: Matrix, o: Opts)
    ensures |Grid.All(PortPlans(m, o), |m.all|)| <= PortEntryCount(m)
  {
    hide PortPlans, PortsAts, Grid.Rows;
    PortCost(m, o);
    Grid.RowsDominated(PortPlans(m, o), PortsAts(m), |m.all|, |m.all|);
  }

  /** The error channel holds every error a plan can send. */
  lemma {:induction false} ChannelFits(m: Matrix, o: Opts, p: Plan)
    requires Planned(m, o, p)
    ensures Errors(p) <= Capacity(m)
  {
    hide ServerPlans, ForwardPlans, ExternalPlans, PortPlans, PortEntryCount, Grid.All, SourceServer, LetOut, SomeAllows;
    PairsBound(m, o);
    PortsBound(m, o);
  }

  lemma {:induction false} ReachableIff(m: Matrix, ssh: set<Name>)
    requires WellFormed(m)
    ensures ServersReachable(m, ssh) <==> forall i :: 0 <= i < |m.all| && m.ends[m.all[i]].Server? ==> m.ends[m.all[i]].name in ssh
  {
  }

  method TestConnectivity(m: Matrix, o: Opts, ssh: set<Name>, listenersStart: bool) returns (out: Outcome)
    requires WellFormed(m)
    ensures out.Ran? <==>
      && !(o.pings == 0 && o.iperfs == 0 && o.curls == 0)
      && Valid(m) && (forall i :: 0 <= i < |m.all| && m.ends[m.all[i]].Server? ==> m.ends[m.all[i]].name in ssh)
      && (o.pings > 0 || o.iperfs > 0 ==> listenersStart && Targeted(m, o))
    ensures out.Ran? ==> Planned(m, o, out.plan) && out.capacity == 2 * |m.all| * |m.all| + |m.all| + PortEntryCount(m)
    ensures out.Ran? ==> Errors(out.plan) <= out.capacity
  {
    hide Valid, Targeted, CurlTable, TargetTable, PortEntryCount, ServerPlans, ForwardPlans, ExternalPlans, PortPlans, WellFormed;
    out := Refused;
    ReachableIff(m, ssh);
    if o.pings == 0 && o.iperfs == 0 && o.curls == 0 {
      return;
    }
    var fine := Validate(m);
    if !fine || !ServersReachable(m, ssh) {
      return;
    }
    var count := CountPortEntries(m);
    var capacity := 2 * |m.all| * |m.all| + |m.all| + count;
    var p := Plan([], map[], [], map[], []);
    if o.pings > 0 || o.iperfs > 0 {
      if !listenersStart {
        return;
      }
      var servers;
      fine, servers := ServerServerPhase(m, o);
      if !fine {
        return;
      }
      p := p.(servers := servers);
    }
    if o.curls > 0 {
      var curls := CurlPhase(m, o);
      p := p.(curls := curls);
    }
    if o.iperfs > 0 {
      var forwards, targets := PortForwardPhase(m, o);
      p := p.(forwards := forwards, targets := targets);
    }
    if o.pings > 0 || o.iperfs > 0 {
      var ports := ProtoPortPhase(m, o);
      p := p.(ports := ports);
    }
    ChannelFits(m, o, p);
    out := Ran(capacity, p);
  }
}
