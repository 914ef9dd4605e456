/** The four phases that turn the matrix into probes, and the size of the error channel they share. */
module MatrixPhases {
  import opened Net
  import opened Store
  import opened Matrix
  import Grid

  datatype Opts = Opts(pings: int, iperfs: int, curls: int, sources: seq<Name>, destinations: seq<Name>)

  predicate Selected(filter: seq<Name>, name: Name) {
    |filter| == 0 || name in filter
  }

  datatype Reachability = Reachability(reachable: bool, reason: Reason, peering: Option<Name>)

  const UNREACHABLE := Reachability(false, NoReason, None)

  function FromExpectation(e: Expectation): Reachability {
    Reachability(e.verdict == Allow, e.reason, e.peering)
  }

  datatype Probe =
    | PingIperf(from: Name, to: Name, ip: Addr, expected: Reachability, bidir: bool)
    | PortForward(from: Name, ip: Addr, port: nat, expected: Reachability)
    | PortProbe(from: Name, to: Name, ip: Addr, protoPort: ProtoPort, expected: Reachability)
    // Not a probe: an error sent to the channel at once.
    | Fault(from: Name, to: Name, protoPort: ProtoPort)

  predicate SameNode(m: Matrix, a: Ref, b: Ref) {
    a in m.ends && b in m.ends && m.ends[a].Server? == m.ends[b].Server? && m.ends[a].name == m.ends[b].name
  }

  /** A pair of servers on different nodes that both filters let through. */
  predicate ServerPair(m: Matrix, o: Opts, src: Ref, dst: Ref) {
    && IsServer(m, src) && IsServer(m, dst) && src != dst
    && Selected(o.sources, m.ends[src].name)
    && !SameNode(m, src, dst)
    && Selected(o.destinations, m.ends[dst].name)
  }

  predicate HasDNAT(e: Expectation) {
    e.translation.Some? && e.translation.value.destinationIP.V4?
  }

  function Target(m: Matrix, dst: Ref, e: Expectation): Addr
    requires IsServer(m, dst)
  {
    if HasDNAT(e) then e.translation.value.destinationIP else m.ends[dst].ip
  }

  // ---- Server to server ---------------------------------------------------------------------

  predicate OwnedByServers(m: Matrix, o: Opts, src: Ref, dst: Ref) {
    && ServerPair(m, o, src, dst)
    && !HasProtoPortEntries(m, src, dst)
    && !HasPort(Lookup(m, src, dst, DEFAULT))
  }

  predicate Bidirectional(m: Matrix, o: Opts, src: Ref, dst: Ref)
    requires IsServer(m, src) && IsServer(m, dst)
  {
    var e, r := Lookup(m, src, dst, DEFAULT), Lookup(m, dst, src, DEFAULT);
    && o.iperfs > 0 && e.verdict == Allow
    && Selected(o.sources, m.ends[dst].name) && Selected(o.destinations, m.ends[src].name)
    && r.verdict == Allow && !HasDNAT(e) && !HasDNAT(r)
  }

  function ServerProbe(m: Matrix, o: Opts, src: Ref, dst: Ref): Probe
    requires IsServer(m, src) && IsServer(m, dst)
  {
    var e := Lookup(m, src, dst, DEFAULT);
    PingIperf(m.ends[src].name, m.ends[dst].name, Target(m, dst, e), FromExpectation(e), Bidirectional(m, o, src, dst))
  }

  function ServerPlan(m: Matrix, o: Opts, i: nat, j: nat): (r: seq<Probe>)
    ensures |r| <= 1
  {
    if i < |m.all| && j < |m.all| && OwnedByServers(m, o, m.all[i], m.all[j]) then [ServerProbe(m, o, m.all[i], m.all[j])] else []
  }

  function ServerPlans(m: Matrix, o: Opts): (nat, nat) -> seq<Probe> {
    (i: nat, j: nat) => ServerPlan(m, o, i, j)
  }

  predicate Aimed(m: Matrix, o: Opts, src: Ref, dst: Ref) {
    OwnedByServers(m, o, src, dst) ==> Target(m, dst, Lookup(m, src, dst, DEFAULT)).V4?
  }

  predicate RowAimed(m: Matrix, o: Opts, i: nat, n: nat)
    requires i < |m.all| && n <= |m.all|
  {
    forall j :: 0 <= j < n ==> Aimed(m, o, m.all[i], m.all[j])
  }

  /** Every owned pair has an address to aim at. */
  predicate Targeted(m: Matrix, o: Opts) {
    forall i :: 0 <= i < |m.all| ==> RowAimed(m, o, i, |m.all|)
  }

  method ServerServerPhase(m: Matrix, o: Opts) returns (ok: bool, probes: seq<Probe>)
    requires WellFormed(m)
    ensures ok <==> Targeted(m, o)
    ensures ok ==> probes == Grid.All(ServerPlans(m, o), |m.all|)
  {
    ghost var n := |m.all|;
    hide RowAimed, ServerPlans, Grid.Row;
    ghost var f := ServerPlans(m, o);
    ok, probes := false, [];
    var i := 0;
    while i < |m.all|
      invariant 0 <= i <= |m.all|
      invariant !ok && probes == Grid.Rows(f, i, n)
      invariant forall a :: 0 <= a < i ==> RowAimed(m, o, a, n)
    {
      var row;
      ok, row := ServerRow(m, o, i);
      if !ok {
        return;
      }
      ok, probes, i := false, probes + row, i + 1;
    }
    ok := true;
  }

  /** The inner loop for one source. */
  method ServerRow(m: Matrix, o: Opts, i: nat) returns (ok: bool, row: seq<Probe>)
    requires WellFormed(m) && i < |m.all|
    ensures ok <==> RowAimed(m, o, i, |m.all|)
    ensures ok ==> row == Grid.Row(ServerPlans(m, o), i, |m.all|)
  {
    hide OwnedByServers, ServerProbe, Target, Aimed, EntryWellFormed;
    ghost var f := ServerPlans(m, o);
    ok, row := false, [];
    var j := 0;
    while j < |m.all|
      invariant 0 <= j <= |m.all|
      invariant !ok && row == Grid.Row(f, i, j)
      invariant RowAimed(m, o, i, j)
    {
      assert f(i, j) == ServerPlan(m, o, i, j);
      var fine, probes := ServerCell(m, o, m.all[i], m.all[j]);
      if !fine {
        return;
      }
      row, j := row + probes, j + 1;
    }
    ok := true;
  }

  /** The body of the inner loop. */
  method ServerCell(m: Matrix, o: Opts, src: Ref, dst: Ref) returns (ok: bool, probes: seq<Probe>)
    requires src in m.ends && dst in m.ends
    ensures ok <==> Aimed(m, o, src, dst)
    ensures ok ==> probes == if OwnedByServers(m, o, src, dst) then [ServerProbe(m, o, src, dst)] else []
  {
    ok, probes := true, [];
    if !ServerPair(m, o, src, dst) || |PortsOf(m, src, dst)| > 0 {
      return;
    }
    var e := Lookup(m, src, dst, DEFAULT);
    if e.translation.Some? && e.translation.value.destinationPort != 0 {
      return;
    }
    var ip := m.ends[dst].ip;
    if e.translation.Some? && e.translation.value.destinationIP.V4? {
      ip := e.translation.value.destinationIP;
    }
    if !ip.V4? {
      ok := false;
      return;
    }
    var expected, bidir := FromExpectation(e), false;
    if o.iperfs > 0 && expected.reachable && Selected(o.sources, m.ends[dst].name) && Selected(o.destinations, m.ends[src].name) {
      var reverse := Lookup(m, dst, src, DEFAULT);
      if reverse.verdict == Allow {
        var forwardDNAT := e.translation.Some? && e.translation.value.destinationIP.V4?;
        var reverseDNAT := reverse.translation.Some? && reverse.translation.value.destinationIP.V4?;
        bidir := !forwardDNAT && !reverseDNAT;
      }
    }
    probes := [PingIperf(m.ends[src].name, m.ends[dst].name, ip, expected, bidir)];
  }

  // ---- External reachability ----------------------------------------------------------------

  /** A source server of this name whose endpoint is let out to some external. */
  predicate LetOut(m: Matrix, name: Name, n: nat)
    requires n <= |m.all|
  {
    exists i :: 0 <= i < n && IsServer(m, m.all[i]) && m.ends[m.all[i]].name == name && CurlAllowed(m, m.all[i]).Some?
  }

  predicate SourceServer(m: Matrix, o: Opts, name: Name, n: nat)
    requires n <= |m.all|
  {
    Selected(o.sources, name) && exists i :: 0 <= i < n && IsServer(m, m.all[i]) && m.ends[m.all[i]].name == name
  }

  ghost predicate CurlTable(m: Matrix, o: Opts, n: nat, expected: map<Name, Reachability>)
    requires n <= |m.all|
  {
    && |expected| <= n
    && (forall name: Name :: name in expected <==> SourceServer(m, o, name, n))
    && forall name :: name in expected ==> (expected[name].reachable <==> LetOut(m, name, n))
  }

  lemma {:induction false} NoCurls(m: Matrix, o: Opts)
    ensures CurlTable(m, o, 0, map[])
  {
  }

  /** One connection attempt for each source server; it is expected to get through iff any of the server's endpoints is let out. */
  method CurlPhase(m: Matrix, o: Opts) returns (expected: map<Name, Reachability>)
    requires WellFormed(m)
    ensures CurlTable(m, o, |m.all|, expected)
  {
    expected := map[];
    NoCurls(m, o);
    hide CurlTable, WellFormed;
    var i := 0;
    while i < |m.all|
      invariant 0 <= i <= |m.all|
      invariant CurlTable(m, o, i, expected)
    {
      expected := CurlStep(m, o, i, expected);
      i := i + 1;
    }
  }

  method CurlStep(m: Matrix, o: Opts, i: nat, was: map<Name, Reachability>) returns (expected: map<Name, Reachability>)
    requires WellFormed(m) && i < |m.all| && CurlTable(m, o, i, was)
    ensures CurlTable(m, o, i + 1, expected)
  {
    expected := was;
    var src := m.all[i];
    CurlGrows(m, o, i);
    if !m.ends[src].Server? {
      return;
    }
    var name := m.ends[src].name;
    if !Selected(o.sources, name) {
      return;
    }
    hide CurlAllowed, SourceServer, LetOut, IsServer;
    if name !in expected {
      expected := expected[name := UNREACHABLE];
    }
    if expected[name].reachable {
      return;
    }
    var e := ExternalCurlAllowed(m, src);
    if e.Some? {
      CurlLetsOut(m, src);
      expected := expected[name := FromExpectation(e.value)];
    }
  }

  lemma {:induction false} CurlLetsOut(m: Matrix, src: Ref)
    ensures CurlAllowed(m, src).Some? ==> CurlAllowed(m, src).value.verdict == Allow
  {
    CurlFromMeaning(m, src, 0);
  }

  /** What endpoint i adds to the table. */
  lemma {:induction false} CurlGrows(m: Matrix, o: Opts, i: nat)
    requires i < |m.all|
    ensures forall name: Name {:trigger SourceServer(m, o, name, i + 1)} :: SourceServer(m, o, name, i + 1) <==>
      SourceServer(m, o, name, i) || (Selected(o.sources, name) && IsServer(m, m.all[i]) && m.ends[m.all[i]].name == name)
    ensures forall name: Name {:trigger LetOut(m, name, i + 1)} :: LetOut(m, name, i + 1) <==>
      LetOut(m, name, i) || (IsServer(m, m.all[i]) && m.ends[m.all[i]].name == name && CurlAllowed(m, m.all[i]).Some?)
    ensures forall name: Name {:trigger LetOut(m, name, i)} :: LetOut(m, name, i) && Selected(o.sources, name) ==> SourceServer(m, o, name, i)
  {
    hide CurlAllowed;
  }

  // ---- Port forwards ---------------------------------------------------------------------------

  /** A default entry that forwards a port to a decided verdict. */
  predicate Forwards(m: Matrix, o: Opts, src: Ref, dst: Ref) {
    var e := Lookup(m, src, dst, DEFAULT);
    && IsServer(m, src) && Selected(o.sources, m.ends[src].name) && src != dst
    && e.verdict != Unknown && HasDNAT(e) && HasPort(e)
  }

  function ForwardPlan(m: Matrix, o: Opts, i: nat, j: nat): (r: seq<Probe>)
    ensures |r| <= 1
  {
    if i < |m.all| && j < |m.all| && Forwards(m, o, m.all[i], m.all[j]) && ServerPair(m, o, m.all[i], m.all[j]) then
      var e := Lookup(m, m.all[i], m.all[j], DEFAULT);
      [PortForward(m.ends[m.all[i]].name, e.translation.value.destinationIP, e.translation.value.destinationPort, FromExpectation(e))]
    else []
  }

  function ForwardPlans(m: Matrix, o: Opts): (nat, nat) -> seq<Probe> {
    (i: nat, j: nat) => ForwardPlan(m, o, i, j)
  }

  /** The virtual address and port a source aims at. */
  datatype PfKey = PfKey(from: Name, ip: Addr, port: nat)

  datatype PfTarget = PfTarget(key: PfKey, expected: Reachability)

  /** What a pair with an external contributes. */
  function ExternalPlan(m: Matrix, o: Opts, i: nat, j: nat): (r: seq<PfTarget>)
    ensures |r| <= 1
  {
    if i < |m.all| && j < |m.all| && Forwards(m, o, m.all[i], m.all[j]) && IsExternal(m, m.all[j]) then
      var e := Lookup(m, m.all[i], m.all[j], DEFAULT);
      [PfTarget(PfKey(m.ends[m.all[i]].name, e.translation.value.destinationIP, e.translation.value.destinationPort), FromExpectation(e))]
    else []
  }

  function ExternalPlans(m: Matrix, o: Opts): (nat, nat) -> seq<PfTarget> {
    (i: nat, j: nat) => ExternalPlan(m, o, i, j)
  }

  predicate SomeAllows(l: seq<PfTarget>, key: PfKey) {
    exists k :: 0 <= k < |l| && l[k].key == key && l[k].expected.reachable
  }

  /** The table of external targets: one probe a key, expected to get through iff any contribution is. */
  ghost predicate TargetTable(l: seq<PfTarget>, targets: map<PfKey, Reachability>) {
    && |targets| <= |l|
    && (forall key :: key in targets <==> exists k :: 0 <= k < |l| && l[k].key == key)
    && forall key :: key in targets ==> (targets[key].reachable <==> SomeAllows(l, key))
  }

  method AddTarget(ghost l: seq<PfTarget>, t: PfTarget, was: map<PfKey, Reachability>) returns (targets: map<PfKey, Reachability>)
    requires TargetTable(l, was)
    ensures TargetTable(l + [t], targets)
  {
    targets := was;
    ghost var l' := l + [t];
    assert forall k :: 0 <= k < |l| ==> l'[k] == l[k];
    assert l'[|l|] == t;
    if t.key in targets && (targets[t.key].reachable || !t.expected.reachable) {
      assert forall key :: SomeAllows(l', key) <==> SomeAllows(l, key) || (key == t.key && t.expected.reachable);
      return;
    }
    assert forall key :: SomeAllows(l', key) <==> SomeAllows(l, key) || (key == t.key && t.expected.reachable);
    targets := targets[t.key := t.expected];
  }

  method PortForwardPhase(m: Matrix, o: Opts) returns (probes: seq<Probe>, targets: map<PfKey, Reachability>)
    requires WellFormed(m)
    ensures probes == Grid.All(ForwardPlans(m, o), |m.all|)
    ensures TargetTable(Grid.All(ExternalPlans(m, o), |m.all|), targets)
  {
    ghost var n := |m.all|;
    ghost var f, g := ForwardPlans(m, o), ExternalPlans(m, o);
    probes, targets := [], map[];
    EmptyTable();
    hide TargetTable, ForwardPlans, ExternalPlans, Grid.Row;
    var i := 0;
    while i < |m.all|
      invariant 0 <= i <= |m.all|
      invariant probes == Grid.Rows(f, i, n)
      invariant TargetTable(Grid.Rows(g, i, n), targets)
    {
      probes, targets := ForwardRow(m, o, i, probes, targets, Grid.Rows(g, i, n));
      i := i + 1;
    }
  }

  lemma {:induction false} EmptyTable()
    ensures TargetTable([], map[])
  {
  }

  /** The inner loop for one source. */
  method ForwardRow(m: Matrix, o: Opts, i: nat, probes: seq<Probe>, targets: map<PfKey, Reachability>, ghost before: seq<PfTarget>)
    returns (probes': seq<Probe>, targets': map<PfKey, Reachability>)
    requires WellFormed(m) && i < |m.all| && TargetTable(before, targets)
    ensures probes' == probes + Grid.Row(ForwardPlans(m, o), i, |m.all|)
    ensures TargetTable(before + Grid.Row(ExternalPlans(m, o), i, |m.all|), targets')
  {
    hide TargetTable, ForwardPlan, ExternalPlan;
    ghost var f, g := ForwardPlans(m, o), ExternalPlans(m, o);
    probes', targets' := probes, targets;
    assert before + [] == before;
    var j := 0;
    while j < |m.all|
      invariant 0 <= j <= |m.all|
      invariant probes' == probes + Grid.Row(f, i, j)
      invariant TargetTable(before + Grid.Row(g, i, j), targets')
    {
      assert f(i, j) == ForwardPlan(m, o, i, j) && g(i, j) == ExternalPlan(m, o, i, j);
      assert before + Grid.Row(g, i, j) + g(i, j) == before + Grid.Row(g, i, j + 1);
      var more;
      more, targets' := ForwardCell(m, o, i, j, targets', before + Grid.Row(g, i, j));
      probes', j := probes' + more, j + 1;
    }
  }

  /** The body of the inner loop. */
  method ForwardCell(m: Matrix, o: Opts, i: nat, j: nat, targets: map<PfKey, Reachability>, ghost before: seq<PfTarget>)
    returns (probes: seq<Probe>, targets': map<PfKey, Reachability>)
    requires WellFormed(m) && i < |m.all| && j < |m.all| && TargetTable(before, targets)
    ensures probes == ForwardPlan(m, o, i, j)
    ensures TargetTable(before + ExternalPlan(m, o, i, j), targets')
  {
    hide TargetTable;
    probes, targets' := [], targets;
    assert before + [] == before;
    var src, dst := m.all[i], m.all[j];
    if !m.ends[src].Server? || !Selected(o.sources, m.ends[src].name) || src == dst {
      return;
    }
    var e := Lookup(m, src, dst, DEFAULT);
    if e.translation.None? || (e.verdict != Allow && e.verdict != Deny) {
      return;
    }
    if !e.translation.value.destinationIP.V4? || e.translation.value.destinationPort == 0 {
      return;
    }
    var from, ip, port, expected := m.ends[src].name, e.translation.value.destinationIP, e.translation.value.destinationPort, FromExpectation(e);
    if m.ends[dst].External? {
      targets' := AddTarget(before, PfTarget(PfKey(from, ip, port), expected), targets');
    } else if !SameNode(m, src, dst) && Selected(o.destinations, m.ends[dst].name) {
      probes := [PortForward(from, ip, port, expected)];
    }
  }

  // ---- Protocol and port entries --------------------------------------------------------------

  function PortProbeOf(m: Matrix, src: Ref, dst: Ref, pp: ProtoPort): Probe
    requires IsServer(m, src) && IsServer(m, dst) && Pair(src, dst) in m.entries && pp in m.entries[Pair(src, dst)]
  {
    var e := m.entries[Pair(src, dst)][pp];
    var from, to, ip := m.ends[src].name, m.ends[dst].name, Target(m, dst, e);
    if ip.V4? && (pp.protocol == ICMP || pp.protocol == TCP || pp.protocol == UDP)
    then PortProbe(from, to, ip, pp, FromExpectation(e)) else Fault(from, to, pp)
  }

  /** The probes for the first n of the pair's ports. */
  function PortProbes(m: Matrix, src: Ref, dst: Ref, n: nat): (r: seq<Probe>)
    requires IsServer(m, src) && IsServer(m, dst) && n <= |PortsOf(m, src, dst)|
    ensures |r| == n
  {
    if n == 0 then []
    else
      var pp := PortsOf(m, src, dst)[n - 1];
      assert pp in PortsOf(m, src, dst);
      PortProbes(m, src, dst, n - 1) + [PortProbeOf(m, src, dst, pp)]
  }

  function PortPlan(m: Matrix, o: Opts, i: nat, j: nat): seq<Probe> {
    if i < |m.all| && j < |m.all| && ServerPair(m, o, m.all[i], m.all[j]) then PortProbes(m, m.all[i], m.all[j], |PortsOf(m, m.all[i], m.all[j])|) else []
  }

  function PortPlans(m: Matrix, o: Opts): (nat, nat) -> seq<Probe> {
    (i: nat, j: nat) => PortPlan(m, o, i, j)
  }

  method ProtoPortPhase(m: Matrix, o: Opts) returns (probes: seq<Probe>)
    requires WellFormed(m)
    ensures probes == Grid.All(PortPlans(m, o), |m.all|)
  {
    probes := [];
    var i := 0;
    while i < |m.all|
      invariant 0 <= i <= |m.all|
      invariant probes == Grid.Rows(PortPlans(m, o), i, |m.all|)
    {
      var row := PortRow(m, o, i);
      probes, i := probes + row, i + 1;
    }
  }

  method PortRow(m: Matrix, o: Opts, i: nat) returns (row: seq<Probe>)
    requires WellFormed(m) && i < |m.all|
    ensures row == Grid.Row(PortPlans(m, o), i, |m.all|)
  {
    ghost var f := PortPlans(m, o);
    row := [];
    var j := 0;
    while j < |m.all|
      invariant 0 <= j <= |m.all|
      invariant row == Grid.Row(f, i, j)
    {
      assert f(i, j) == PortPlan(m, o, i, j);
      if ServerPair(m, o, m.all[i], m.all[j]) {
        var probes := PortCell(m, m.all[i], m.all[j]);
        row := row + probes;
      }
      j := j + 1;
    }
  }

  method PortCell(m: Matrix, src: Ref, dst: Ref) returns (probes: seq<Probe>)
    requires WellFormed(m) && IsServer(m, src) && IsServer(m, dst)
    ensures probes == PortProbes(m, src, dst, |PortsOf(m, src, dst)|)
  {
    hide PortProbeOf;
    var ports := PortsOf(m, src, dst);
    probes := [];
    for k := 0 to |ports|
      invariant probes == PortProbes(m, src, dst, k)
    {
      assert ports[k] in ports;
      var probe := PlanPort(m, src, dst, ports[k]);
      probes := probes + [probe];
    }
  }

  /** The probe for one protocol/port entry, or the error sent in its place. */
  method PlanPort(m: Matrix, src: Ref, dst: Ref, pp: ProtoPort) returns (probe: Probe)
    requires IsServer(m, src) && IsServer(m, dst) && Pair(src, dst) in m.entries && pp in m.entries[Pair(src, dst)]
    ensures probe == PortProbeOf(m, src, dst, pp)
  {
    var entry := m.entries[Pair(src, dst)][pp];
    var from, to, ip := m.ends[src].name, m.ends[dst].name, m.ends[dst].ip;
    if entry.translation.Some? && entry.translation.value.destinationIP.V4? {
      ip := entry.translation.value.destinationIP;
    }
    if !ip.V4? {
      return Fault(from, to, pp);
    }
    if pp.protocol == ICMP || pp.protocol == TCP || pp.protocol == UDP {
      return PortProbe(from, to, ip, pp, FromExpectation(entry));
    }
    return Fault(from, to, pp);
  }
}
