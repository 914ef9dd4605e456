/** Addressing of the GPU rail topology: one /31 for each server on each rail, summarised by a /24 at its leaf. */
module GpuRail {
  import opened Net

  const RAILS := 8
  const LEAFS_PER_UNIT := 4

  /** A server's place on a rail of a VPC. */
  datatype Slot = Slot(vpc: nat, rail: nat, unit: nat, server: nat)

  /** A leaf switch: its scalable unit and its number in the unit. */
  datatype Leaf = Leaf(unit: nat, id: nat)

  /** The octets of an address. */
  function Address(a: nat, b: nat, c: nat, d: nat): nat {
    ((a * 256 + b) * 256 + c) * 256 + d
  }

  predicate Octets(a: nat, b: nat, c: nat, d: nat) {
    a < 256 && b < 256 && c < 256 && d < 256
  }

  /** How much the builder is asked for. */
  datatype Scale = Scale(vpcs: nat, units: nat, servers: nat)

  predicate InScale(z: Scale, s: Slot) {
    s.vpc < z.vpcs && s.rail < RAILS && s.unit < z.units && s.server < z.servers
  }

  /** The octets of the slot's /31 are those of an address. */
  predicate Valid(s: Slot) {
    Octets(10, RAILS * s.vpc + s.rail, s.unit, 2 * s.server)
  }

  /** Every /31 that is written down is a valid address exactly within 32 VPCs, 256 units and 128 servers. */
  lemma {:induction false} AllValidIff(z: Scale)
    requires z.vpcs > 0 && z.units > 0 && z.servers > 0
    ensures (forall s: Slot :: InScale(z, s) ==> Valid(s)) <==> z.vpcs <= 32 && z.units <= 256 && z.servers <= 128
  {
    if forall s: Slot :: InScale(z, s) ==> Valid(s) {
      assert InScale(z, Slot(z.vpcs - 1, 7, 0, 0)) ==> Valid(Slot(z.vpcs - 1, 7, 0, 0));
      assert InScale(z, Slot(0, 0, z.units - 1, 0)) ==> Valid(Slot(0, 0, z.units - 1, 0));
      assert InScale(z, Slot(0, 0, 0, z.servers - 1)) ==> Valid(Slot(0, 0, 0, z.servers - 1));
    }
  }

  lemma {:induction false} AddressFits(a: nat, b: nat, c: nat, d: nat)
    requires Octets(a, b, c, d)
    ensures Address(a, b, c, d) < ADDRS
  {
  }

  lemma {:induction false} AddressInjective(b: nat, c: nat, d: nat, b': nat, c': nat, d': nat)
    requires Octets(10, b, c, d) && Octets(10, b', c', d')
    ensures Address(10, b, c, d) == Address(10, b', c', d') ==> b == b' && c == c' && d == d'
  {
  }

  /** The first address of the slot's /31. */
  function P2P(s: Slot): U32
    requires Valid(s)
  {
    AddressFits(10, RAILS * s.vpc + s.rail, s.unit, 2 * s.server);
    Address(10, RAILS * s.vpc + s.rail, s.unit, 2 * s.server)
  }

  /** The subnet of a VPC. */
  function VpcSubnet(vpc: nat): Prefix
    requires vpc < 32
  {
    AddressFits(10, RAILS * vpc, 0, 0);
    PrefixRaw.Prefix(Address(10, RAILS * vpc, 0, 0), 13)
  }

  /** The route summary for a rail of a VPC in a unit. */
  function Summary(vpc: nat, rail: nat, unit: nat): Prefix
    requires vpc < 32 && rail < RAILS && unit < 256
  {
    AddressFits(10, RAILS * vpc + rail, unit, 0);
    PrefixRaw.Prefix(Address(10, RAILS * vpc + rail, unit, 0), 24)
  }

  /** The leaf a slot is attached to, and the leaf that holds the summary of its rail. */
  function LeafOf(unit: nat, rail: nat): Leaf {
    Leaf(unit, rail % LEAFS_PER_UNIT)
  }

  lemma {:induction false} Powers()
    ensures Pow2(1) == 2 && Pow2(8) == 0x100 && Pow2(19) == 0x8_0000
  {
    assert Pow2(4) == 16;
    assert Pow2(12) == 0x1000;
    assert Pow2(16) == 0x1_0000;
  }

  /** An aligned prefix holds exactly the addresses of its block. */
  lemma {:induction false} AlignedContains(p: Prefix, c: nat, a: U32)
    requires p.addr == c * Pow2(32 - p.bits)
    ensures Contains(p, a) <==> p.addr <= a < p.addr + Pow2(32 - p.bits)
  {
    MaskAligned(c, 32 - p.bits);
    ContainsRange(p, a);
  }

  lemma {:induction false} InSubnet(vpc: nat, a: U32)
    requires vpc < 32
    ensures Contains(VpcSubnet(vpc), a) <==> Address(10, RAILS * vpc, 0, 0) <= a < Address(10, RAILS * vpc, 0, 0) + 0x8_0000
  {
    Powers();
    AlignedContains(VpcSubnet(vpc), 320 + vpc, a);
  }

  lemma {:induction false} InSummary(vpc: nat, rail: nat, unit: nat, a: U32)
    requires vpc < 32 && rail < RAILS && unit < 256
    ensures Contains(Summary(vpc, rail, unit), a) <==>
      Address(10, RAILS * vpc + rail, unit, 0) <= a < Address(10, RAILS * vpc + rail, unit, 0) + 0x100
  {
    Powers();
    AlignedContains(Summary(vpc, rail, unit), (10 * 256 + RAILS * vpc + rail) * 256 + unit, a);
  }

  lemma {:induction false} RailSplit(v: nat, r: nat, w: nat, q: nat)
    requires r < RAILS && q < RAILS
    ensures RAILS * v + r == RAILS * w + q <==> v == w && r == q
  {
  }

  /** An address lies in the /24 of its own first three octets, and in no other. */
  lemma {:induction false} OneBlock(b: nat, c: nat, d: nat, b': nat, c': nat)
    requires Octets(10, b, c, d) && Octets(10, b', c', 0)
    ensures Address(10, b', c', 0) <= Address(10, b, c, d) < Address(10, b', c', 0) + 0x100 <==> b == b' && c == c'
  {
  }

  /** Different slots have disjoint /31s, each starting at an even address. */
  lemma {:induction false} SlotsDisjoint(s: Slot, t: Slot)
    requires Valid(s) && Valid(t) && s.rail < RAILS && t.rail < RAILS && s != t
    ensures P2P(s) % 2 == 0 && P2P(t) % 2 == 0
    ensures P2P(s) + 1 < P2P(t) || P2P(t) + 1 < P2P(s)
  {
    AddressInjective(RAILS * s.vpc + s.rail, s.unit, 2 * s.server, RAILS * t.vpc + t.rail, t.unit, 2 * t.server);
    RailSplit(s.vpc, s.rail, t.vpc, t.rail);
    Even(RAILS * s.vpc + s.rail, s.unit, s.server);
    Even(RAILS * t.vpc + t.rail, t.unit, t.server);
    hide Address;
  }

  lemma {:induction false} Even(b: nat, c: nat, half: nat)
    ensures Address(10, b, c, 2 * half) % 2 == 0
  {
  }

  /** A slot's /31 lies in its VPC's subnet and in no other's. */
  lemma {:induction false} SlotInVpc(s: Slot, vpc: nat)
    requires Valid(s) && s.rail < RAILS && vpc < 32
    ensures Contains(VpcSubnet(vpc), P2P(s)) <==> vpc == s.vpc
    ensures P2P(s) + 1 < ADDRS && (Contains(VpcSubnet(vpc), P2P(s) + 1) <==> vpc == s.vpc)
  {
    InSubnet(vpc, P2P(s));
    InSubnet(vpc, P2P(s) + 1);
  }

  /** Exactly one summary covers a slot's /31: that of its own rail and unit, held by the leaf the slot is attached to. */
  lemma {:induction false} OneSummary(s: Slot, vpc: nat, rail: nat, unit: nat)
    requires Valid(s) && s.rail < RAILS && vpc < 32 && rail < RAILS && unit < 256
    ensures P2P(s) + 1 < ADDRS
    ensures Contains(Summary(vpc, rail, unit), P2P(s)) <==> vpc == s.vpc && rail == s.rail && unit == s.unit
    ensures Contains(Summary(vpc, rail, unit), P2P(s) + 1) <==> vpc == s.vpc && rail == s.rail && unit == s.unit
    ensures Contains(Summary(vpc, rail, unit), P2P(s)) ==> LeafOf(unit, rail) == LeafOf(s.unit, s.rail)
  {
    hide Address, Contains, Summary;
    NextAddress(RAILS * s.vpc + s.rail, s.unit, 2 * s.server);
    InSummary(vpc, rail, unit, P2P(s));
    InSummary(vpc, rail, unit, P2P(s) + 1);
    OneBlock(RAILS * s.vpc + s.rail, s.unit, 2 * s.server, RAILS * vpc + rail, unit);
    OneBlock(RAILS * s.vpc + s.rail, s.unit, 2 * s.server + 1, RAILS * vpc + rail, unit);
    RailSplit(s.vpc, s.rail, vpc, rail);
  }

  lemma {:induction false} NextAddress(b: nat, c: nat, d: nat)
    requires Octets(10, b, c, d) && d < 255
    ensures Address(10, b, c, d) + 1 == Address(10, b, c, d + 1) < ADDRS
  {
  }

  /** The subnets of different VPCs have no address in common. */
  lemma {:induction false} VpcsDisjoint(v: nat, w: nat, a: U32)
    requires v < w < 32
    ensures !(Contains(VpcSubnet(v), a) && Contains(VpcSubnet(w), a))
  {
    InSubnet(v, a);
    InSubnet(w, a);
  }

  // ---- The loops that write the addresses down ---------------------------------------------------------

  datatype Attachment = Attachment(leaf: Leaf, slot: Slot)

  datatype Hint = Hint(vpc: nat, rail: nat, unit: nat)

  function RailAttachments(vpc: nat, unit: nat, server: nat, n: nat): seq<Attachment> {
    if n == 0 then [] else RailAttachments(vpc, unit, server, n - 1) + [Attachment(LeafOf(unit, n - 1), Slot(vpc, n - 1, unit, server))]
  }

  function ServerAttachments(vpc: nat, unit: nat, n: nat): seq<Attachment> {
    if n == 0 then [] else ServerAttachments(vpc, unit, n - 1) + RailAttachments(vpc, unit, n - 1, RAILS)
  }

  function UnitAttachments(vpc: nat, n: nat, servers: nat): seq<Attachment> {
    if n == 0 then [] else UnitAttachments(vpc, n - 1, servers) + ServerAttachments(vpc, n - 1, servers)
  }

  function VpcAttachments(n: nat, units: nat, servers: nat): seq<Attachment> {
    if n == 0 then [] else VpcAttachments(n - 1, units, servers) + UnitAttachments(n - 1, units, servers)
  }

  /** The route summaries each leaf is given. */
  type Summaries = map<Leaf, seq<Hint>>

  function HintsOf(m: Summaries, leaf: Leaf): seq<Hint> {
    if leaf in m then m[leaf] else []
  }

  predicate OnceEach(hints: seq<Hint>) {
    forall i, j :: 0 <= i < j < |hints| ==> hints[i] != hints[j]
  }

  /** A leaf holds the summaries of its own unit's rails, each once, for the VPCs and units visited so far. */
  ghost predicate HoldsUpTo(m: Summaries, vpcs: nat, units: nat, unit: nat, rails: nat) {
    && (forall leaf: Leaf :: OnceEach(HintsOf(m, leaf)))
    && forall leaf: Leaf, h: Hint :: h in HintsOf(m, leaf) <==>
      leaf == LeafOf(h.unit, h.rail) && h.rail < RAILS && h.unit < units &&
      (h.vpc < vpcs || (h.vpc == vpcs && (h.unit < unit || (h.unit == unit && h.rail < rails))))
  }

  method Build(z: Scale) returns (attachments: seq<Attachment>, summaries: Summaries)
    ensures attachments == VpcAttachments(z.vpcs, z.units, z.servers)
    ensures HoldsUpTo(summaries, z.vpcs, z.units, 0, 0)
  {
    attachments, summaries := [], map[];
    for vpc := 0 to z.vpcs
      invariant attachments == VpcAttachments(vpc, z.units, z.servers)
      invariant HoldsUpTo(summaries, vpc, z.units, 0, 0)
    {
      var own;
      own, summaries := BuildVpc(z, vpc, summaries);
      attachments := attachments + own;
    }
  }

  method BuildVpc(z: Scale, vpc: nat, was: Summaries) returns (own: seq<Attachment>, summaries: Summaries)
    requires HoldsUpTo(was, vpc, z.units, 0, 0)
    ensures own == UnitAttachments(vpc, z.units, z.servers)
    ensures HoldsUpTo(summaries, vpc + 1, z.units, 0, 0)
  {
    own, summaries := [], was;
    for unit := 0 to z.units
      invariant own == UnitAttachments(vpc, unit, z.servers)
      invariant HoldsUpTo(summaries, vpc, z.units, unit, 0)
    {
      var attached := [];
      for server := 0 to z.servers
        invariant attached == ServerAttachments(vpc, unit, server)
      {
        var rails := [];
        for rail := 0 to RAILS
          invariant rails == RailAttachments(vpc, unit, server, rail)
        {
          rails := rails + [Attachment(LeafOf(unit, rail), Slot(vpc, rail, unit, server))];
        }
        attached := attached + rails;
      }
      own := own + attached;
      summaries := AddSummaries(z, vpc, unit, summaries);
    }
  }

  method AddSummaries(z: Scale, vpc: nat, unit: nat, was: Summaries) returns (summaries: Summaries)
    requires unit < z.units && HoldsUpTo(was, vpc, z.units, unit, 0)
    ensures HoldsUpTo(summaries, vpc, z.units, unit + 1, 0)
  {
    summaries := was;
    for rail := 0 to RAILS
      invariant HoldsUpTo(summaries, vpc, z.units, unit, rail)
    {
      var leaf := LeafOf(unit, rail);
      var hints := HintsOf(summaries, leaf) + [Hint(vpc, rail, unit)];
      AddHint(summaries, z, vpc, unit, rail);
      summaries := summaries[leaf := hints];
    }
  }

  lemma {:induction false} AddHint(m: Summaries, z: Scale, vpc: nat, unit: nat, rail: nat)
    requires unit < z.units && rail < RAILS && HoldsUpTo(m, vpc, z.units, unit, rail)
    ensures HoldsUpTo(m[LeafOf(unit, rail) := HintsOf(m, LeafOf(unit, rail)) + [Hint(vpc, rail, unit)]], vpc, z.units, unit, rail + 1)
  {
    var own := LeafOf(unit, rail);
    var now := m[own := HintsOf(m, own) + [Hint(vpc, rail, unit)]];
    forall leaf: Leaf, h: Hint
      ensures h in HintsOf(now, leaf) <==> h in HintsOf(m, leaf) || (leaf == own && h == Hint(vpc, rail, unit))
    {
    }
    assert Hint(vpc, rail, unit) !in HintsOf(m, own);
    forall leaf: Leaf
      ensures OnceEach(HintsOf(now, leaf))
    {
      assert OnceEach(HintsOf(m, leaf));
    }
  }

  lemma {:induction false} RailMembers(vpc: nat, unit: nat, server: nat, n: nat, a: Attachment)
    ensures a in RailAttachments(vpc, unit, server, n) <==>
      a.slot.vpc == vpc && a.slot.unit == unit && a.slot.server == server && a.slot.rail < n && a.leaf == LeafOf(unit, a.slot.rail)
  {
    if n > 0 {
      RailMembers(vpc, unit, server, n - 1, a);
    }
  }

  lemma {:induction false} ServerMembers(vpc: nat, unit: nat, n: nat, a: Attachment)
    ensures a in ServerAttachments(vpc, unit, n) <==>
      a.slot.vpc == vpc && a.slot.unit == unit && a.slot.server < n && a.slot.rail < RAILS && a.leaf == LeafOf(unit, a.slot.rail)
  {
    hide RailAttachments, LeafOf;
    if n > 0 {
      ServerMembers(vpc, unit, n - 1, a);
      RailMembers(vpc, unit, n - 1, RAILS, a);
    }
  }

  lemma {:induction false} UnitMembers(vpc: nat, n: nat, servers: nat, a: Attachment)
    ensures a in UnitAttachments(vpc, n, servers) <==>
      a.slot.vpc == vpc && a.slot.unit < n && a.slot.server < servers && a.slot.rail < RAILS && a.leaf == LeafOf(a.slot.unit, a.slot.rail)
  {
    hide ServerAttachments, LeafOf;
    if n > 0 {
      UnitMembers(vpc, n - 1, servers, a);
      ServerMembers(vpc, n - 1, servers, a);
    }
  }

  /** The builder attaches exactly the slots in scale, each at the leaf of its rail. */
  lemma {:induction false} AttachedMembers(n: nat, units: nat, servers: nat, a: Attachment)
    ensures a in VpcAttachments(n, units, servers) <==> InScale(Scale(n, units, servers), a.slot) && a.leaf == LeafOf(a.slot.unit, a.slot.rail)
  {
    hide UnitAttachments, LeafOf;
    if n > 0 {
      AttachedMembers(n - 1, units, servers, a);
      UnitMembers(n - 1, units, servers, a);
    }
  }

  /** Every attached /31 is covered by exactly one summary over all leaves, and that one is at the attachment's own leaf. */
  lemma {:induction false} CoveredOnce(z: Scale, m: Summaries, a: Attachment, leaf: Leaf, h: Hint)
    requires 0 < z.vpcs <= 32 && 0 < z.units <= 256 && 0 < z.servers <= 128
    requires HoldsUpTo(m, z.vpcs, z.units, 0, 0) && a in VpcAttachments(z.vpcs, z.units, z.servers)
    ensures Valid(a.slot)
    ensures h in HintsOf(m, leaf) ==> h.vpc < 32 && h.rail < RAILS && h.unit < 256
    ensures h in HintsOf(m, leaf) && Contains(Summary(h.vpc, h.rail, h.unit), P2P(a.slot)) <==>
      leaf == a.leaf && h == Hint(a.slot.vpc, a.slot.rail, a.slot.unit)
  {
    hide P2P, Summary, Contains;
    AttachedMembers(z.vpcs, z.units, z.servers, a);
    AllValidIff(z);
    if h in HintsOf(m, leaf) {
      OneSummary(a.slot, h.vpc, h.rail, h.unit);
    } else {
      assert leaf == a.leaf && h == Hint(a.slot.vpc, a.slot.rail, a.slot.unit) ==> h in HintsOf(m, leaf);
    }
  }

  function Count(l: seq<Attachment>, a: Attachment): nat {
    multiset(l)[a]
  }

  lemma {:induction false} CountJoin(x: seq<Attachment>, y: seq<Attachment>, a: Attachment)
    ensures Count(x + y, a) == Count(x, a) + Count(y, a)
  {
  }

  lemma {:induction false} CountOne(x: Attachment, a: Attachment)
    ensures Count([x], a) == if a == x then 1 else 0
  {
  }

  lemma {:induction false} RailOnce(vpc: nat, unit: nat, server: nat, n: nat, a: Attachment)
    ensures Count(RailAttachments(vpc, unit, server, n), a) <= if a.slot.vpc == vpc && a.slot.unit == unit && a.slot.server == server && a.slot.rail < n then 1 else 0
  {
    hide Count, LeafOf;
    if n > 0 {
      RailOnce(vpc, unit, server, n - 1, a);
      CountJoin(RailAttachments(vpc, unit, server, n - 1), [Attachment(LeafOf(unit, n - 1), Slot(vpc, n - 1, unit, server))], a);
      CountOne(Attachment(LeafOf(unit, n - 1), Slot(vpc, n - 1, unit, server)), a);
    } else {
      CountNone(a);
    }
  }

  lemma {:induction false} CountNone(a: Attachment)
    ensures Count([], a) == 0
  {
  }

  lemma {:induction false} ServerOnce(vpc: nat, unit: nat, n: nat, a: Attachment)
    ensures Count(ServerAttachments(vpc, unit, n), a) <= if a.slot.vpc == vpc && a.slot.unit == unit && a.slot.server < n then 1 else 0
  {
    hide Count, RailAttachments;
    if n > 0 {
      ServerOnce(vpc, unit, n - 1, a);
      RailOnce(vpc, unit, n - 1, RAILS, a);
      CountJoin(ServerAttachments(vpc, unit, n - 1), RailAttachments(vpc, unit, n - 1, RAILS), a);
    } else {
      CountNone(a);
    }
  }

  lemma {:induction false} UnitOnce(vpc: nat, n: nat, servers: nat, a: Attachment)
    ensures Count(UnitAttachments(vpc, n, servers), a) <= if a.slot.vpc == vpc && a.slot.unit < n then 1 else 0
  {
    hide Count, ServerAttachments;
    if n > 0 {
      UnitOnce(vpc, n - 1, servers, a);
      ServerOnce(vpc, n - 1, servers, a);
      CountJoin(UnitAttachments(vpc, n - 1, servers), ServerAttachments(vpc, n - 1, servers), a);
    } else {
      CountNone(a);
    }
  }

  /** No slot is attached twice. */
  lemma {:induction false} AttachedOnce(n: nat, units: nat, servers: nat, a: Attachment)
    ensures Count(VpcAttachments(n, units, servers), a) <= if a.slot.vpc < n then 1 else 0
  {
    hide Count, UnitAttachments;
    if n > 0 {
      AttachedOnce(n - 1, units, servers, a);
      UnitOnce(n - 1, units, servers, a);
      CountJoin(VpcAttachments(n - 1, units, servers), UnitAttachments(n - 1, units, servers), a);
    } else {
      CountNone(a);
    }
  }

  /** The rails of a server that are attached to a leaf. */
  ghost function RailsAt(attachments: seq<Attachment>, vpc: nat, unit: nat, server: nat, leaf: Leaf): set<nat> {
    set rail: nat | rail < RAILS && Attachment(leaf, Slot(vpc, rail, unit, server)) in attachments
  }

  /** The eight rails of a server spread over the four leaves of its unit: each leaf has two of them, four apart, and no other leaf any. */
  lemma {:induction false} RailsSpread(z: Scale, vpc: nat, unit: nat, server: nat, leaf: Leaf)
    requires vpc < z.vpcs && unit < z.units && server < z.servers
    ensures RailsAt(VpcAttachments(z.vpcs, z.units, z.servers), vpc, unit, server, leaf) ==
      if leaf.unit == unit && leaf.id < 4 then {leaf.id, leaf.id + 4} else {}
  {
    var attachments := VpcAttachments(z.vpcs, z.units, z.servers);
    forall rail: nat | rail < RAILS
      ensures Attachment(leaf, Slot(vpc, rail, unit, server)) in attachments <==> leaf.unit == unit && (rail == leaf.id || rail == leaf.id + 4) && leaf.id < 4
    {
      AttachedMembers(z.vpcs, z.units, z.servers, Attachment(leaf, Slot(vpc, rail, unit, server)));
    }
  }
}
