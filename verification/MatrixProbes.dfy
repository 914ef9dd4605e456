/** What a test probes, read off the endpoints and the stored entries. */
module MatrixProbes {
  import opened Net
  import opened Store
  import opened Matrix
  import opened MatrixPhases
  import opened MatrixRun
  import opened MatrixSoundness
  import Grid

  // ---- What the entries say --------------------------------------------------------------------------------

  ghost predicate HasEntry(entries: Entries, p: Pair, pp: ProtoPort) {
    p in entries && pp in entries[p]
  }

  /** A plain connection of the pair meets e: its default entry, or isolation. */
  ghost predicate Reads(m: Matrix, src: Ref, dst: Ref, e: Expectation) {
    if HasEntry(m.entries, Pair(src, dst), DEFAULT) then e == m.entries[Pair(src, dst)][DEFAULT]
    else e.verdict == Deny && e.translation.None? && e.reason == NoReason && e.peering.None?
  }

  ghost predicate Redirected(e: Expectation) {
    e.translation.Some? && e.translation.value.destinationIP.V4?
  }

  ghost predicate PortForwarded(e: Expectation) {
    e.translation.Some? && e.translation.value.destinationPort != 0
  }

  /** A redirected connection aims at the entry's address, any other at the server's own. */
  ghost predicate AimsAt(e: Expectation, d: Endpoint, ip: Addr) {
    if Redirected(e) then ip == e.translation.value.destinationIP else d.Server? && ip == d.ip
  }

  ghost predicate Expects(e: Expectation, r: Reachability) {
    (r.reachable <==> e.verdict == Allow) && r.reason == e.reason && r.peering == e.peering
  }

  ghost predicate Chosen(filter: seq<Name>, name: Name) {
    filter == [] || name in filter
  }

  /** Servers on different nodes, the first a chosen source and the second a chosen destination. */
  ghost predicate Eligible(m: Matrix, o: Opts, src: Ref, dst: Ref) {
    && src in m.ends && dst in m.ends && m.ends[src].Server? && m.ends[dst].Server?
    && m.ends[src].name != m.ends[dst].name
    && Chosen(o.sources, m.ends[src].name) && Chosen(o.destinations, m.ends[dst].name)
  }

  /** The pair has no protocol/port entry. */
  ghost predicate Plain(m: Matrix, src: Ref, dst: Ref) {
    forall pp :: HasEntry(m.entries, Pair(src, dst), pp) ==> pp == DEFAULT
  }

  /** One session can measure both directions: allowed both ways, redirected neither way, and chosen both ways. */
  ghost predicate OneSession(m: Matrix, o: Opts, src: Ref, dst: Ref, e: Expectation) {
    && o.iperfs > 0 && e.verdict == Allow && !Redirected(e) && Eligible(m, o, dst, src)
    && HasEntry(m.entries, Pair(dst, src), DEFAULT)
    && m.entries[Pair(dst, src)][DEFAULT].verdict == Allow && !Redirected(m.entries[Pair(dst, src)][DEFAULT])
  }

  ghost predicate PingFor(m: Matrix, o: Opts, src: Ref, dst: Ref, e: Expectation, x: Probe) {
    && Eligible(m, o, src, dst) && Plain(m, src, dst) && Reads(m, src, dst, e) && !PortForwarded(e)
    && x.PingIperf? && x.from == m.ends[src].name && x.to == m.ends[dst].name
    && AimsAt(e, m.ends[dst], x.ip) && Expects(e, x.expected)
    && (x.bidir <==> OneSession(m, o, src, dst, e))
  }

  ghost predicate PingAt(m: Matrix, o: Opts, i: nat, j: nat, x: Probe) {
    i < |m.all| && j < |m.all| && exists e :: PingFor(m, o, m.all[i], m.all[j], e, x)
  }

  /** A decided default entry that forwards a port at an address. */
  ghost predicate ForwardEntry(m: Matrix, src: Ref, dst: Ref, e: Expectation) {
    HasEntry(m.entries, Pair(src, dst), DEFAULT) && e == m.entries[Pair(src, dst)][DEFAULT] && e.verdict != Unknown && Redirected(e) && PortForwarded(e)
  }

  ghost predicate ForwardFor(m: Matrix, o: Opts, src: Ref, dst: Ref, e: Expectation, x: Probe) {
    && Eligible(m, o, src, dst) && ForwardEntry(m, src, dst, e)
    && x.PortForward? && x.from == m.ends[src].name && x.ip == e.translation.value.destinationIP
    && x.port == e.translation.value.destinationPort && Expects(e, x.expected)
  }

  ghost predicate ForwardAt(m: Matrix, o: Opts, i: nat, j: nat, x: Probe) {
    i < |m.all| && j < |m.all| && exists e :: ForwardFor(m, o, m.all[i], m.all[j], e, x)
  }

  /** The entry's address and port at an external, for a chosen source. */
  ghost predicate VirtualFor(m: Matrix, o: Opts, src: Ref, dst: Ref, e: Expectation, key: PfKey) {
    && src in m.ends && dst in m.ends && m.ends[src].Server? && m.ends[dst].External? && Chosen(o.sources, m.ends[src].name)
    && ForwardEntry(m, src, dst, e)
    && key.from == m.ends[src].name && key.ip == e.translation.value.destinationIP && key.port == e.translation.value.destinationPort
  }

  ghost predicate VirtualAt(m: Matrix, o: Opts, i: nat, j: nat, key: PfKey) {
    i < |m.all| && j < |m.all| && exists e :: VirtualFor(m, o, m.all[i], m.all[j], e, key)
  }

  ghost predicate VirtualAllowed(m: Matrix, o: Opts, i: nat, j: nat, key: PfKey) {
    i < |m.all| && j < |m.all| && exists e :: VirtualFor(m, o, m.all[i], m.all[j], e, key) && e.verdict == Allow
  }

  ghost predicate Probed(pp: ProtoPort) {
    pp.protocol == ICMP || pp.protocol == TCP || pp.protocol == UDP
  }

  /** The probe of a protocol/port entry, or the error that stands in for it when it has no address or no such probe exists. */
  ghost predicate PortFor(m: Matrix, o: Opts, src: Ref, dst: Ref, pp: ProtoPort, x: Probe) {
    && Eligible(m, o, src, dst) && pp != DEFAULT && HasEntry(m.entries, Pair(src, dst), pp)
    && (x.PortProbe? || x.Fault?) && x.from == m.ends[src].name && x.to == m.ends[dst].name && x.protoPort == pp
    && var e := m.entries[Pair(src, dst)][pp];
       && (x.PortProbe? <==> Probed(pp) && (Redirected(e) || m.ends[dst].ip.V4?))
       && (x.PortProbe? ==> AimsAt(e, m.ends[dst], x.ip) && Expects(e, x.expected))
  }

  ghost predicate PortAt(m: Matrix, o: Opts, i: nat, j: nat, x: Probe) {
    i < |m.all| && j < |m.all| && exists pp :: PortFor(m, o, m.all[i], m.all[j], pp, x)
  }

  /** A chosen source of this name. */
  ghost predicate Source(m: Matrix, o: Opts, name: Name, i: nat) {
    i < |m.all| && m.all[i] in m.ends && m.ends[m.all[i]].Server? && m.ends[m.all[i]].name == name && Chosen(o.sources, name)
  }

  /** A plain connection from endpoint i gets out through external k: allowed, and with a source pool if translated at all. */
  ghost predicate WayOut(m: Matrix, i: nat, k: nat, e: Expectation) {
    && i < |m.all| && k < |m.all| && m.all[k] in m.ends && m.ends[m.all[k]].External?
    && HasEntry(m.entries, Pair(m.all[i], m.all[k]), DEFAULT) && e == m.entries[Pair(m.all[i], m.all[k])][DEFAULT]
    && e.verdict == Allow && (e.translation.Some? ==> e.translation.value.sourcePool.Some?)
  }

  ghost predicate SourceOut(m: Matrix, o: Opts, name: Name, i: nat) {
    Source(m, o, name, i) && exists k: nat, e :: WayOut(m, i, k, e)
  }

  // ---- Server to server --------------------------------------------------------------------------------------

  lemma {:induction false} LookupReads(m: Matrix, src: Ref, dst: Ref, e: Expectation)
    ensures Reads(m, src, dst, Lookup(m, src, dst, DEFAULT))
    ensures Reads(m, src, dst, e) ==> e.(protoPort := Lookup(m, src, dst, DEFAULT).protoPort) == Lookup(m, src, dst, DEFAULT)
  {
  }

  lemma {:induction false} EligibleIff(m: Matrix, o: Opts, src: Ref, dst: Ref)
    ensures ServerPair(m, o, src, dst) <==> Eligible(m, o, src, dst)
  {
  }

  lemma {:induction false} PlainIff(m: Matrix, src: Ref, dst: Ref)
    ensures HasProtoPortEntries(m, src, dst) <==> !Plain(m, src, dst)
  {
    if HasProtoPortEntries(m, src, dst) {
      var pp :| pp in m.entries[Pair(src, dst)] && pp != DEFAULT;
      assert HasEntry(m.entries, Pair(src, dst), pp);
    }
    if !Plain(m, src, dst) {
      var pp :| HasEntry(m.entries, Pair(src, dst), pp) && pp != DEFAULT;
      assert pp in m.entries[Pair(src, dst)];
    }
  }

  lemma {:induction false} SessionIff(m: Matrix, o: Opts, src: Ref, dst: Ref, e: Expectation)
    requires Eligible(m, o, src, dst) && Reads(m, src, dst, e)
    ensures OneSession(m, o, src, dst, e) <==> Bidirectional(m, o, src, dst)
  {
  }

  lemma {:induction false} AimIff(m: Matrix, dst: Ref, e: Expectation, d: Expectation, ip: Addr, r: Reachability)
    requires IsServer(m, dst) && d == e.(protoPort := d.protoPort)
    ensures AimsAt(e, m.ends[dst], ip) <==> ip == Target(m, dst, d)
    ensures Expects(e, r) <==> r == FromExpectation(d)
  {
  }

  lemma {:induction false} PingIff(m: Matrix, o: Opts, src: Ref, dst: Ref, x: Probe)
    ensures (exists e :: PingFor(m, o, src, dst, e, x)) <==> OwnedByServers(m, o, src, dst) && x == ServerProbe(m, o, src, dst)
  {
    hide HasProtoPortEntries, Plain, SameNode, OneSession, Bidirectional, AimsAt, Target, Expects, FromExpectation, Lookup, Reads;
    var e := Lookup(m, src, dst, DEFAULT);
    LookupReads(m, src, dst, e);
    EligibleIff(m, o, src, dst);
    EligibleIff(m, o, dst, src);
    PlainIff(m, src, dst);
    if OwnedByServers(m, o, src, dst) && x == ServerProbe(m, o, src, dst) {
      SessionIff(m, o, src, dst, e);
      AimIff(m, dst, e, e, x.ip, x.expected);
      assert PingFor(m, o, src, dst, e, x);
    }
    forall d | PingFor(m, o, src, dst, d, x)
      ensures OwnedByServers(m, o, src, dst) && x == ServerProbe(m, o, src, dst)
    {
      LookupReads(m, src, dst, d);
      SessionIff(m, o, src, dst, d);
      AimIff(m, dst, d, e, x.ip, x.expected);
    }
  }

  /** The pings and throughput tests: one for each eligible pair without protocol entries or a forwarded port, aimed as its entry says. */
  lemma {:induction false} PingsRead(m: Matrix, o: Opts, p: Plan, x: Probe)
    requires Planned(m, o, p)
    ensures x in p.servers <==> (o.pings > 0 || o.iperfs > 0) && exists i: nat, j: nat :: PingAt(m, o, i, j, x)
  {
    hide Grid.All, PingFor, OwnedByServers, ServerProbe, CurlTable, TargetTable;
    var f := ServerPlans(m, o);
    Grid.Members(f, |m.all|, x);
    forall i: nat, j: nat | i < |m.all| && j < |m.all|
      ensures x in f(i, j) <==> PingAt(m, o, i, j, x)
    {
      PingIff(m, o, m.all[i], m.all[j], x);
      assert f(i, j) == ServerPlan(m, o, i, j);
    }
  }

  /** A test whose pairs all have an address to aim at. */
  lemma {:induction false} TargetedRead(m: Matrix, o: Opts)
    ensures Targeted(m, o) <==> forall i: nat, j: nat, x :: PingAt(m, o, i, j, x) ==> x.PingIperf? && x.ip.V4?
  {
    hide OwnedByServers, ServerProbe, PingFor, Bidirectional, FromExpectation, Target;
    forall i: nat, j: nat | i < |m.all| && j < |m.all|
      ensures Aimed(m, o, m.all[i], m.all[j]) <==> forall x :: PingAt(m, o, i, j, x) ==> x.PingIperf? && x.ip.V4?
    {
      AimedIff(m, o, i, j);
    }
    if Targeted(m, o) {
      forall i: nat, j: nat, x | PingAt(m, o, i, j, x)
        ensures x.PingIperf? && x.ip.V4?
      {
        assert RowAimed(m, o, i, |m.all|);
        assert Aimed(m, o, m.all[i], m.all[j]);
      }
    }
  }

  lemma {:induction false} AimedIff(m: Matrix, o: Opts, i: nat, j: nat)
    requires i < |m.all| && j < |m.all|
    ensures Aimed(m, o, m.all[i], m.all[j]) <==> forall x :: PingAt(m, o, i, j, x) ==> x.PingIperf? && x.ip.V4?
  {
    hide PingFor;
    var src, dst := m.all[i], m.all[j];
    forall x
      ensures PingAt(m, o, i, j, x) <==> OwnedByServers(m, o, src, dst) && x == ServerProbe(m, o, src, dst)
    {
      PingIff(m, o, src, dst, x);
    }
    if OwnedByServers(m, o, src, dst) {
      assert PingAt(m, o, i, j, ServerProbe(m, o, src, dst));
    }
  }

  // ---- Port forwards -----------------------------------------------------------------------------------------

  lemma {:induction false} ForwardIff(m: Matrix, o: Opts, i: nat, j: nat, x: Probe)
    requires i < |m.all| && j < |m.all|
    ensures ForwardAt(m, o, i, j, x) <==> x in ForwardPlan(m, o, i, j)
  {
    hide SameNode;
    var src, dst := m.all[i], m.all[j];
    var e := Lookup(m, src, dst, DEFAULT);
    EligibleIff(m, o, src, dst);
    if x in ForwardPlan(m, o, i, j) {
      assert ForwardFor(m, o, src, dst, e, x);
    }
  }

  /** The throughput tests of forwarded ports between servers. */
  lemma {:induction false} ForwardsRead(m: Matrix, o: Opts, p: Plan, x: Probe)
    requires Planned(m, o, p)
    ensures x in p.forwards <==> o.iperfs > 0 && exists i: nat, j: nat :: ForwardAt(m, o, i, j, x)
  {
    hide Grid.All, ForwardFor, ForwardPlan, CurlTable, TargetTable;
    var f := ForwardPlans(m, o);
    Grid.Members(f, |m.all|, x);
    forall i: nat, j: nat | i < |m.all| && j < |m.all|
      ensures x in f(i, j) <==> ForwardAt(m, o, i, j, x)
    {
      ForwardIff(m, o, i, j, x);
      assert f(i, j) == ForwardPlan(m, o, i, j);
    }
  }

  lemma {:induction false} VirtualIff(m: Matrix, o: Opts, src: Ref, dst: Ref, e: Expectation, key: PfKey)
    ensures VirtualFor(m, o, src, dst, e, key) ==> e == Lookup(m, src, dst, DEFAULT) && ForwardsTo(m, o, src, dst, key)
    ensures ForwardsTo(m, o, src, dst, key) ==> VirtualFor(m, o, src, dst, Lookup(m, src, dst, DEFAULT), key)
  {
  }

  lemma {:induction false} VirtualListed(m: Matrix, o: Opts, i: nat, j: nat, key: PfKey)
    ensures VirtualAt(m, o, i, j, key) <==> ForwardsAt(m, o, i, j, key)
    ensures VirtualAllowed(m, o, i, j, key) <==> ForwardsAt(m, o, i, j, key) && Lookup(m, m.all[i], m.all[j], DEFAULT).verdict == Allow
  {
    hide VirtualFor, ForwardsTo, Lookup;
    if i < |m.all| && j < |m.all| {
      var src, dst := m.all[i], m.all[j];
      forall e
        ensures VirtualFor(m, o, src, dst, e, key) ==> e == Lookup(m, src, dst, DEFAULT) && ForwardsTo(m, o, src, dst, key)
      {
        VirtualIff(m, o, src, dst, e, key);
      }
      if ForwardsAt(m, o, i, j, key) {
        VirtualIff(m, o, src, dst, Lookup(m, src, dst, DEFAULT), key);
      }
    }
  }

  /** The virtual targets at externals: each probed once, and expected to answer iff some entry that forwards to it allows it. */
  lemma {:induction false} VirtualsRead(m: Matrix, o: Opts, p: Plan, key: PfKey)
    requires Planned(m, o, p)
    ensures key in p.targets <==> o.iperfs > 0 && exists i: nat, j: nat :: VirtualAt(m, o, i, j, key)
    ensures key in p.targets ==> (p.targets[key].reachable <==> exists i: nat, j: nat :: VirtualAllowed(m, o, i, j, key))
  {
    hide ForwardsTo, VirtualAt, VirtualAllowed, Grid.All, CurlTable, Lookup, TargetTable;
    if o.iperfs > 0 {
      TargetReachable(m, o, p, key);
      forall i: nat, j: nat
        ensures VirtualAt(m, o, i, j, key) <==> ForwardsAt(m, o, i, j, key)
        ensures VirtualAllowed(m, o, i, j, key) <==> ForwardsAt(m, o, i, j, key) && Lookup(m, m.all[i], m.all[j], DEFAULT).verdict == Allow
      {
        VirtualListed(m, o, i, j, key);
      }
    }
  }

  // ---- Protocol and port entries -----------------------------------------------------------------------------

  lemma {:induction false} PortIff(m: Matrix, o: Opts, src: Ref, dst: Ref, pp: ProtoPort, x: Probe)
    ensures PortFor(m, o, src, dst, pp, x) <==>
      ServerPair(m, o, src, dst) && pp != DEFAULT && HasEntry(m.entries, Pair(src, dst), pp) && x == PortProbeOf(m, src, dst, pp)
  {
    hide SameNode;
    EligibleIff(m, o, src, dst);
  }

  lemma {:induction false} PortListed(m: Matrix, src: Ref, dst: Ref, n: nat, x: Probe)
    requires IsServer(m, src) && IsServer(m, dst) && n <= |PortsOf(m, src, dst)|
    ensures x in PortProbes(m, src, dst, n) <==>
      exists k :: 0 <= k < n && PortsOf(m, src, dst)[k] in PortsOf(m, src, dst) && x == PortProbeOf(m, src, dst, PortsOf(m, src, dst)[k])
  {
    hide PortProbeOf, PortsOf;
    if n > 0 {
      assert PortsOf(m, src, dst)[n - 1] in PortsOf(m, src, dst);
      PortListed(m, src, dst, n - 1, x);
    }
  }

  lemma {:induction false} PortPlanned(m: Matrix, o: Opts, i: nat, j: nat, x: Probe)
    requires i < |m.all| && j < |m.all|
    ensures PortAt(m, o, i, j, x) <==> x in PortPlan(m, o, i, j)
  {
    hide PortFor, PortProbeOf, SameNode;
    var src, dst := m.all[i], m.all[j];
    forall pp
      ensures PortFor(m, o, src, dst, pp, x) <==>
        ServerPair(m, o, src, dst) && pp != DEFAULT && HasEntry(m.entries, Pair(src, dst), pp) && x == PortProbeOf(m, src, dst, pp)
    {
      PortIff(m, o, src, dst, pp, x);
    }
    if ServerPair(m, o, src, dst) {
      var ports := PortsOf(m, src, dst);
      PortListed(m, src, dst, |ports|, x);
      if x in PortPlan(m, o, i, j) {
        var k :| 0 <= k < |ports| && ports[k] in ports && x == PortProbeOf(m, src, dst, ports[k]);
        assert PortFor(m, o, src, dst, ports[k], x);
      }
      if PortAt(m, o, i, j, x) {
        var pp :| PortFor(m, o, src, dst, pp, x);
        assert pp in ports;
      }
    }
  }

  /** The probes of protocol/port entries, aimed as each entry says. */
  lemma {:induction false} PortsRead(m: Matrix, o: Opts, p: Plan, x: Probe)
    requires Planned(m, o, p)
    ensures x in p.ports <==> (o.pings > 0 || o.iperfs > 0) && exists i: nat, j: nat :: PortAt(m, o, i, j, x)
  {
    hide Grid.All, PortFor, PortPlan, CurlTable, TargetTable;
    var f := PortPlans(m, o);
    Grid.Members(f, |m.all|, x);
    forall i: nat, j: nat | i < |m.all| && j < |m.all|
      ensures x in f(i, j) <==> PortAt(m, o, i, j, x)
    {
      PortPlanned(m, o, i, j, x);
      assert f(i, j) == PortPlan(m, o, i, j);
    }
  }

  // ---- External reachability -----------------------------------------------------------------------------------

  lemma {:induction false} WayOutIff(m: Matrix, i: nat)
    requires i < |m.all| && IsServer(m, m.all[i])
    ensures CurlAllowed(m, m.all[i]).Some? <==> exists k: nat, e :: WayOut(m, i, k, e)
  {
    CurlFromMeaning(m, m.all[i], 0);
    if CurlAllowed(m, m.all[i]).Some? {
      var k :| 0 <= k < |m.all| && IsExternal(m, m.all[k]) && LetsOut(Lookup(m, m.all[i], m.all[k], DEFAULT));
      assert WayOut(m, i, k, Lookup(m, m.all[i], m.all[k], DEFAULT));
    }
  }

  lemma {:induction false} SourcesIff(m: Matrix, o: Opts, name: Name)
    ensures SourceServer(m, o, name, |m.all|) <==> exists i: nat :: Source(m, o, name, i)
    ensures SourceServer(m, o, name, |m.all|) ==> (LetOut(m, name, |m.all|) <==> exists i: nat :: SourceOut(m, o, name, i))
  {
    hide CurlAllowed, WayOut;
    forall i: nat | i < |m.all| && IsServer(m, m.all[i])
      ensures CurlAllowed(m, m.all[i]).Some? <==> exists k: nat, e :: WayOut(m, i, k, e)
    {
      WayOutIff(m, i);
    }
    if SourceServer(m, o, name, |m.all|) {
      var i :| 0 <= i < |m.all| && IsServer(m, m.all[i]) && m.ends[m.all[i]].name == name;
      assert Source(m, o, name, i);
    }
    if SourceServer(m, o, name, |m.all|) && LetOut(m, name, |m.all|) {
      var i :| 0 <= i < |m.all| && IsServer(m, m.all[i]) && m.ends[m.all[i]].name == name && CurlAllowed(m, m.all[i]).Some?;
      assert SourceOut(m, o, name, i);
    }
    if exists i: nat :: Source(m, o, name, i) {
      var i: nat :| Source(m, o, name, i);
      assert IsServer(m, m.all[i]) && m.ends[m.all[i]].name == name;
    }
    if exists i: nat :: SourceOut(m, o, name, i) {
      var i: nat :| SourceOut(m, o, name, i);
      assert IsServer(m, m.all[i]) && m.ends[m.all[i]].name == name && CurlAllowed(m, m.all[i]).Some?;
    }
  }

  /** One connection attempt for each chosen source server, expected to get out iff some endpoint of it has a way out. */
  lemma {:induction false} CurlsRead(m: Matrix, o: Opts, p: Plan, name: Name)
    requires Planned(m, o, p)
    ensures name in p.curls <==> o.curls > 0 && exists i: nat :: Source(m, o, name, i)
    ensures name in p.curls ==> (p.curls[name].reachable <==> exists i: nat :: SourceOut(m, o, name, i))
  {
    hide Grid.All, SourceServer, LetOut, Source, SourceOut, TargetTable, ServerPlans, ForwardPlans, PortPlans, ExternalPlans;
    SourcesIff(m, o, name);
  }

  // ---- Validation ------------------------------------------------------------------------------------------------

  /** The source is a listed server with a way out. */
  ghost predicate GetsOut(m: Matrix, src: Ref) {
    src in m.ends && m.ends[src].Server? && exists i: nat, k: nat, e :: WayOut(m, i, k, e) && m.all[i] == src
  }

  /** No phase needs the entry's verdict: it leads to an external and its source gets out anyway, or it is the default entry
      of a pair of servers that has protocol/port entries, and forwards no port. */
  ghost predicate Unread(m: Matrix, p: Pair, pp: ProtoPort)
    requires HasEntry(m.entries, p, pp)
  {
    || (p.destination in m.ends && m.ends[p.destination].External? && GetsOut(m, p.source))
    || (&& pp == DEFAULT && !PortForwarded(m.entries[p][pp]) && !Plain(m, p.source, p.destination)
        && p.source in m.ends && m.ends[p.source].Server? && p.destination in m.ends && m.ends[p.destination].Server?)
  }

  ghost predicate UndecidedUnread(m: Matrix) {
    forall p, pp :: HasEntry(m.entries, p, pp) && m.entries[p][pp].verdict == Unknown ==> Unread(m, p, pp)
  }

  lemma {:induction false} GetsOutIff(m: Matrix, src: Ref)
    ensures src in m.all && CurlAllowed(m, src).Some? <==> GetsOut(m, src)
  {
    hide CurlAllowed;
    if IsServer(m, src) && src in m.all {
      var i :| 0 <= i < |m.all| && m.all[i] == src;
      WayOutIff(m, i);
    }
    if GetsOut(m, src) {
      var i: nat, k: nat, e :| WayOut(m, i, k, e) && m.all[i] == src;
      WayOutIff(m, i);
    }
    NoServerNoCurl(m, src);
  }

  lemma {:induction false} NoServerNoCurl(m: Matrix, src: Ref)
    ensures CurlAllowed(m, src).Some? ==> IsServer(m, src)
  {
  }

  lemma {:induction false} UnreadIff(m: Matrix, p: Pair, pp: ProtoPort)
    requires HasEntry(m.entries, p, pp)
    ensures Excused(m, p, pp, m.entries[p][pp]) <==> Unread(m, p, pp)
  {
    hide GetsOut, CurlAllowed, Plain, HasProtoPortEntries;
    GetsOutIff(m, p.source);
    PlainIff(m, p.source, p.destination);
  }

  /** A matrix is valid exactly when it lists endpoints, dropped none, and every undecided entry is one that no phase needs. */
  lemma {:induction false} ValidRead(m: Matrix)
    ensures Valid(m) <==> m.all != [] && m.dropped == [] && UndecidedUnread(m)
  {
    hide Excused, Unread;
    forall p, pp | HasEntry(m.entries, p, pp)
      ensures Excused(m, p, pp, m.entries[p][pp]) <==> Unread(m, p, pp)
    {
      UnreadIff(m, p, pp);
    }
    if Valid(m) {
      forall p, pp | HasEntry(m.entries, p, pp) && m.entries[p][pp].verdict == Unknown
        ensures Unread(m, p, pp)
      {
        assert PairDecided(m, p);
      }
    }
    if UndecidedUnread(m) {
      forall p | p in m.entries
        ensures PairDecided(m, p)
      {
        assert forall pp :: pp in m.entries[p] ==> HasEntry(m.entries, p, pp);
      }
    }
  }
}
