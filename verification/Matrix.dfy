/** The connectivity matrix: expectations keyed by ordered endpoint pair and protocol/port. */
module Matrix {
  import opened Net
  import opened Store

  /** The identity of an endpoint: entries are keyed by it, whatever the endpoint's fields say. */
  type Ref = nat

  datatype Endpoint =
    | Server(name: Name, vpc: Name, subnet: Name, hostBGP: bool, ip: Addr)
    | External(name: Name)

  datatype Verdict = Allow | Deny | Unknown

  /** Protocol names; only these three have probes. */
  type Protocol = nat
  const NO_PROTOCOL: Protocol := 0
  const ICMP: Protocol := 1
  const TCP: Protocol := 2
  const UDP: Protocol := 3

  datatype ProtoPort = ProtoPort(protocol: Protocol, port: nat)

  /** The key of a pair's default entry. */
  const DEFAULT := ProtoPort(NO_PROTOCOL, 0)

  datatype Translation = Translation(sourcePool: Option<Prefix>, destinationIP: Addr, destinationPort: nat)

  const NO_TRANSLATION := Translation(None, Invalid, 0)

  datatype Reason = NoReason | IntraVPC | SwitchPeering | GatewayPeering

  datatype Expectation = Expectation(verdict: Verdict, translation: Option<Translation>, reason: Reason, peering: Option<Name>, protoPort: ProtoPort)

  datatype Pair = Pair(source: Ref, destination: Ref)

  datatype Drop = Drop(server: Name, where_: Option<(Name, Name)>)

  type Entries = map<Pair, map<ProtoPort, Expectation>>

  datatype Matrix = Matrix(ends: map<Ref, Endpoint>, all: seq<Ref>, entries: Entries, dropped: seq<Drop>)

  /** Every listed endpoint and every entry's endpoints exist; entries are stored under their own port. */
  predicate WellFormed(m: Matrix) {
    && (forall i :: 0 <= i < |m.all| ==> m.all[i] in m.ends)
    && (forall p :: p in m.entries ==> EntryWellFormed(m, p))
  }

  predicate EntryWellFormed(m: Matrix, p: Pair)
    requires p in m.entries
  {
    && p.source in m.ends && p.destination in m.ends
    && forall pp :: pp in m.entries[p] ==> m.entries[p][pp].protoPort == pp
  }

  predicate DistinctRefs(all: seq<Ref>) {
    forall i, j :: 0 <= i < j < |all| ==> all[i] != all[j]
  }

  predicate IsServer(m: Matrix, r: Ref) {
    r in m.ends && m.ends[r].Server?
  }

  predicate IsExternal(m: Matrix, r: Ref) {
    r in m.ends && m.ends[r].External?
  }

  function PutEntry(entries: Entries, p: Pair, e: Expectation): Entries {
    entries[p := (if p in entries then entries[p] else map[])[e.protoPort := e]]
  }

  /** The entry of the pair and port, else the pair's default entry, else isolation. */
  function Lookup(m: Matrix, src: Ref, dst: Ref, pp: ProtoPort): Expectation {
    var p := Pair(src, dst);
    if p in m.entries && pp in m.entries[p] then m.entries[p][pp]
    else if p in m.entries && DEFAULT in m.entries[p] then m.entries[p][DEFAULT]
    else Expectation(Deny, None, NoReason, None, pp)
  }

  predicate HasProtoPortEntries(m: Matrix, src: Ref, dst: Ref) {
    Pair(src, dst) in m.entries && exists pp :: pp in m.entries[Pair(src, dst)] && pp != DEFAULT
  }

  predicate HasPort(e: Expectation) {
    e.translation.Some? && e.translation.value.destinationPort != 0
  }

  // ---- The entries of a pair in order ---------------------------------------------------

  predicate Less(a: ProtoPort, b: ProtoPort) {
    a.protocol < b.protocol || (a.protocol == b.protocol && a.port < b.port)
  }

  predicate IsLeast(s: set<ProtoPort>, x: ProtoPort) {
    x in s && forall p :: p in s && p != x ==> Less(x, p)
  }

  lemma {:induction false} LeastExists(s: set<ProtoPort>)
    requires s != {}
    ensures exists x :: IsLeast(s, x)
  {
    var x :| x in s;
    if s == {x} {
      assert IsLeast(s, x);
    } else {
      var rest := s - {x};
      assert rest != {};
      LeastExists(rest);
      var y :| IsLeast(rest, y);
      var least := if Less(x, y) then x else y;
      forall p | p in s && p != least
        ensures Less(least, p)
      {
        assert p in rest || p == x;
      }
      assert IsLeast(s, least);
    }
  }

  function SortedPorts(s: set<ProtoPort>): (r: seq<ProtoPort>)
    ensures |r| == |s|
    ensures forall p :: p in s <==> p in r
  {
    if s == {} then []
    else
      LeastExists(s);
      var least :| IsLeast(s, least);
      [least] + SortedPorts(s - {least})
  }

  /** The ports come in the order of their protocols, then of their numbers, each once. */
  lemma {:induction false} PortsIncrease(s: set<ProtoPort>, i: nat, j: nat)
    requires i < j < |SortedPorts(s)|
    ensures Less(SortedPorts(s)[i], SortedPorts(s)[j])
  {
    var r := SortedPorts(s);
    var rest := s - {r[0]};
    LeastExists(s);
    assert IsLeast(s, r[0]) && r == [r[0]] + SortedPorts(rest);
    if i == 0 {
      assert SortedPorts(rest)[j - 1] in rest;
    } else {
      PortsIncrease(rest, i - 1, j - 1);
    }
  }

  /** The keys of a pair's protocol/port entries, sorted. */
  function PortsOf(m: Matrix, src: Ref, dst: Ref): (r: seq<ProtoPort>)
    ensures forall pp :: pp in r <==> pp != DEFAULT && Pair(src, dst) in m.entries && pp in m.entries[Pair(src, dst)]
    ensures |r| > 0 <==> HasProtoPortEntries(m, src, dst)
  {
    if Pair(src, dst) !in m.entries then []
    else
      var keys := m.entries[Pair(src, dst)].Keys - {DEFAULT};
      var r := SortedPorts(keys);
      assert |r| > 0 ==> r[0] in keys;
      r
  }

  // ---- External reachability ----------------------------------------------------------------

  /** A default entry that lets a plain connection out: allowed, and source-translated if translated at all. */
  predicate LetsOut(e: Expectation) {
    e.verdict == Allow && (e.translation.Some? ==> e.translation.value.sourcePool.Some?)
  }

  function CurlFrom(m: Matrix, src: Ref, i: nat): Option<Expectation>
    requires i <= |m.all|
    decreases |m.all| - i
  {
    if i == |m.all| then None
    else
      var e := Lookup(m, src, m.all[i], DEFAULT);
      if IsExternal(m, m.all[i]) && LetsOut(e) then Some(e) else CurlFrom(m, src, i + 1)
  }

  function CurlAllowed(m: Matrix, src: Ref): Option<Expectation> {
    if IsServer(m, src) then CurlFrom(m, src, 0) else None
  }

  lemma {:induction false} CurlFromMeaning(m: Matrix, src: Ref, i: nat)
    requires i <= |m.all|
    ensures CurlFrom(m, src, i).Some? <==> exists k :: i <= k < |m.all| && IsExternal(m, m.all[k]) && LetsOut(Lookup(m, src, m.all[k], DEFAULT))
    ensures CurlFrom(m, src, i).Some? ==> LetsOut(CurlFrom(m, src, i).value)
    decreases |m.all| - i
  {
    if i < |m.all| {
      CurlFromMeaning(m, src, i + 1);
    }
  }

  // ---- Validation -----------------------------------------------------------------------------

  /** A default entry between servers that no phase reads. */
  predicate DefaultShadowed(m: Matrix, p: Pair, pp: ProtoPort, e: Expectation) {
    && pp == DEFAULT
    && IsServer(m, p.source) && IsServer(m, p.destination)
    && !HasPort(e)
    && HasProtoPortEntries(m, p.source, p.destination)
  }

  /** An undecided entry that validation lets pass. */
  predicate Excused(m: Matrix, p: Pair, pp: ProtoPort, e: Expectation) {
    || (IsExternal(m, p.destination) && p.source in m.all && CurlAllowed(m, p.source).Some?)
    || DefaultShadowed(m, p, pp, e)
  }

  predicate PairDecided(m: Matrix, p: Pair)
    requires p in m.entries
  {
    forall pp :: pp in m.entries[p] ==> m.entries[p][pp].verdict != Unknown || Excused(m, p, pp, m.entries[p][pp])
  }

  /** The matrix can serve as an oracle. */
  predicate Valid(m: Matrix) {
    && |m.all| > 0 && |m.dropped| == 0
    && forall p :: p in m.entries ==> PairDecided(m, p)
  }

  method ExternalCurlAllowed(m: Matrix, src: Ref) returns (r: Option<Expectation>)
    ensures r == CurlAllowed(m, src)
  {
    if !IsServer(m, src) {
      return None;
    }
    var i := 0;
    while i < |m.all|
      invariant 0 <= i <= |m.all|
      invariant CurlFrom(m, src, 0) == CurlFrom(m, src, i)
    {
      if IsExternal(m, m.all[i]) {
        var e := Lookup(m, src, m.all[i], DEFAULT);
        if e.verdict == Allow && !(e.translation.Some? && e.translation.value.sourcePool.None?) {
          return Some(e);
        }
      }
      i := i + 1;
    }
    r := None;
  }

  /** The undecided entries of one pair, whatever order the map yields them in. */
  method CheckPair(m: Matrix, p: Pair, extAllowBySource: set<Ref>) returns (ok: bool)
    requires p in m.entries
    requires forall r :: r in extAllowBySource <==> r in m.all && CurlAllowed(m, r).Some?
    ensures ok <==> PairDecided(m, p)
  {
    var todo := m.entries[p].Keys;
    ok := true;
    while todo != {}
      invariant todo <= m.entries[p].Keys
      invariant ok <==> forall pp :: pp in m.entries[p] && pp !in todo ==>
        m.entries[p][pp].verdict != Unknown || Excused(m, p, pp, m.entries[p][pp])
    {
      var pp :| pp in todo;
      var e := m.entries[p][pp];
      todo := todo - {pp};
      if e.verdict == Unknown && !(IsExternal(m, p.destination) && p.source in extAllowBySource) && !DefaultShadowed(m, p, pp, e) {
        ok := false;
      }
    }
  }

  method AllowedSources(m: Matrix) returns (s: set<Ref>)
    ensures forall r :: r in s <==> r in m.all && CurlAllowed(m, r).Some?
  {
    s := {};
    for i := 0 to |m.all|
      invariant forall r :: r in s <==> r in m.all[..i] && CurlAllowed(m, r).Some?
    {
      var e := ExternalCurlAllowed(m, m.all[i]);
      assert m.all[..i + 1] == m.all[..i] + [m.all[i]];
      if e.Some? {
        s := s + {m.all[i]};
      }
    }
    assert m.all[..|m.all|] == m.all;
  }

  method Validate(m: Matrix) returns (ok: bool)
    ensures ok <==> Valid(m)
  {
    ok := |m.all| > 0 && |m.dropped| == 0;
    var extAllowBySource := AllowedSources(m);
    var todo := m.entries.Keys;
    while todo != {}
      invariant todo <= m.entries.Keys
      invariant ok <==> |m.all| > 0 && |m.dropped| == 0 && forall p :: p in m.entries && p !in todo ==> PairDecided(m, p)
    {
      var p :| p in todo;
      var fine := CheckPair(m, p, extAllowBySource);
      todo := todo - {p};
      ok := ok && fine;
    }
  }
}
