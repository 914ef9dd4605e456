/**
  * How many switch and server ports a generated topology takes, in closed form: connection by connection, loop by loop,
  * and switch by switch for a whole run.
  */
module TopologyLoad {
  import opened VlabPorts
  import opened Topology
  import opened TopologyNames

  /** How many ports of a device a connection takes. */
  function Takes(x: Shape, d: Device): nat {
    match x
    case FabricShape(s, l, n) => if d == Spine(s) || d == Leaf(l) then n else 0
    case MeshShape(a, b, n) => (if d == Leaf(a) then n else 0) + if d == Leaf(b) then n else 0
    case GatewayShape(dev, _, _) => Once(d == dev)
    case ESLAGShape(s, ls) => if d == Server(s) then |ls| else if d.Leaf? then multiset(ls)[d.id] else 0
    case UnbundledShape(s, l) => Once(d == Server(s) || d == Leaf(l))
    case BundledShape(s, l) => 2 * Once(d == Server(s) || d == Leaf(l))
    case ExternalShape(l) => Once(d == Leaf(l))
  }

  function TakenUpTo(l: seq<Shape>, n: nat, d: Device): nat
    requires n <= |l|
  {
    if n == 0 then 0 else TakenUpTo(l, n - 1, d) + Takes(l[n - 1], d)
  }

  function Taken(l: seq<Shape>, d: Device): nat {
    TakenUpTo(l, |l|, d)
  }

  lemma {:induction false} TakenConcat(a: seq<Shape>, b: seq<Shape>, n: nat, d: Device)
    requires n <= |b|
    ensures TakenUpTo(a + b, |a| + n, d) == Taken(a, d) + TakenUpTo(b, n, d)
  {
    if n > 0 {
      TakenConcat(a, b, n - 1, d);
    } else {
      TakenPrefix(a, b, |a|, d);
    }
  }

  lemma {:induction false} TakenPrefix(a: seq<Shape>, b: seq<Shape>, n: nat, d: Device)
    requires n <= |a|
    ensures TakenUpTo(a + b, n, d) == TakenUpTo(a, n, d)
  {
    if n > 0 {
      TakenPrefix(a, b, n - 1, d);
    }
  }

  lemma {:induction false} TakenAppend(a: seq<Shape>, b: seq<Shape>, d: Device)
    ensures Taken(a + b, d) == Taken(a, d) + Taken(b, d)
  {
    TakenConcat(a, b, |b|, d);
    assert |a + b| == |a| + |b|;
  }

  lemma {:induction false} TakenOne(x: Shape, d: Device)
    ensures Taken([x], d) == Takes(x, d)
  {
    assert TakenUpTo([x], 1, d) == TakenUpTo([x], 0, d) + Takes([x][0], d);
  }

  lemma {:induction false} LeafShapesTake(spine: nat, leaves: nat, links: nat, d: Device)
    ensures Taken(LeafShapes(spine, leaves, links), d) ==
      if d == Spine(spine) then leaves * links else if d.Leaf? && 1 <= d.id <= leaves then links else 0
  {
    if leaves > 0 {
      LeafShapesTake(spine, leaves - 1, links, d);
      TakenAppend(LeafShapes(spine, leaves - 1, links), [FabricShape(spine, leaves, links)], d);
      TakenOne(FabricShape(spine, leaves, links), d);
      assert leaves * links == (leaves - 1) * links + links;
    }
  }

  lemma {:induction false} GatewayRowTakes(device: Device, gateways: nat, port: nat, d: Device)
    ensures Taken(GatewayRow(device, gateways, port), d) == if d == device then gateways else 0
  {
    if gateways > 0 {
      GatewayRowTakes(device, gateways - 1, port, d);
      TakenAppend(GatewayRow(device, gateways - 1, port), [GatewayShape(device, gateways - 1, port)], d);
      TakenOne(GatewayShape(device, gateways - 1, port), d);
    }
  }

  /** Ports taken in a spine-leaf fabric: every link to a leaf and every gateway on a spine, every link to a spine on a leaf. */
  lemma {:induction false} SpineShapesTake(spines: nat, leaves: nat, links: nat, gateways: nat, uplinks: nat, d: Device)
    ensures Taken(SpineShapes(spines, leaves, links, gateways, uplinks), d) ==
      match d
      case Spine(s) => if 1 <= s <= spines then leaves * links + (if s <= uplinks then gateways else 0) else 0
      case Leaf(l) => if 1 <= l <= leaves then spines * links else 0
      case Server(_) => 0
  {
    hide Taken, SpineRow;
    if spines > 0 {
      SpineShapesTake(spines - 1, leaves, links, gateways, uplinks, d);
      SpineRowTakes(spines, leaves, links, gateways, uplinks, d);
      TakenAppend(SpineShapes(spines - 1, leaves, links, gateways, uplinks), SpineRow(spines, leaves, links, gateways, uplinks), d);
      assert spines * links == (spines - 1) * links + links;
    } else {
      NothingTaken(d);
    }
  }

  lemma {:induction false} SpineRowTakes(spine: nat, leaves: nat, links: nat, gateways: nat, uplinks: nat, d: Device)
    ensures Taken(SpineRow(spine, leaves, links, gateways, uplinks), d) ==
      if d == Spine(spine) then leaves * links + (if spine <= uplinks then gateways else 0)
      else if d.Leaf? && 1 <= d.id <= leaves then links else 0
  {
    var row := if spine <= uplinks then GatewayRow(Spine(spine), gateways, spine) else [];
    LeafShapesTake(spine, leaves, links, d);
    GatewayRowTakes(Spine(spine), gateways, spine, d);
    TakenAppend(LeafShapes(spine, leaves, links), row, d);
    assert row == [] ==> Taken(row, d) == 0;
  }

  lemma {:induction false} MeshRowTakes(leaf: nat, upTo: nat, links: nat, d: Device)
    requires leaf <= upTo
    ensures Taken(MeshRow(leaf, upTo, links), d) ==
      if d == Leaf(leaf) then (upTo - leaf) * links else if d.Leaf? && leaf < d.id <= upTo then links else 0
  {
    if upTo > leaf {
      MeshRowTakes(leaf, upTo - 1, links, d);
      TakenAppend(MeshRow(leaf, upTo - 1, links), [MeshShape(leaf, upTo, links)], d);
      TakenOne(MeshShape(leaf, upTo, links), d);
      assert (upTo - leaf) * links == (upTo - 1 - leaf) * links + links;
    }
  }

  lemma {:induction false} MeshRowsTake(rows: nat, leaves: nat, links: nat, d: Device)
    requires rows <= leaves
    ensures Taken(MeshShapes(rows, leaves, links), d) ==
      if d.Leaf? && 1 <= d.id <= leaves then (if d.id <= rows then (d.id - 1) * links + (leaves - d.id) * links else rows * links) else 0
  {
    if rows > 0 {
      MeshRowsTake(rows - 1, leaves, links, d);
      MeshRowTakes(rows, leaves, links, d);
      TakenAppend(MeshShapes(rows - 1, leaves, links), MeshRow(rows, leaves, links), d);
      assert rows * links == (rows - 1) * links + links;
    }
  }

  /** Ports taken in a full mesh: the links to every other leaf. */
  lemma {:induction false} MeshShapesTake(leaves: nat, links: nat, d: Device)
    ensures Taken(MeshShapes(leaves, leaves, links), d) == if d.Leaf? && 1 <= d.id <= leaves then (leaves - 1) * links else 0
  {
    MeshRowsTake(leaves, leaves, links, d);
    if d.Leaf? && 1 <= d.id <= leaves {
      assert (d.id - 1) * links + (leaves - d.id) * links == (leaves - 1) * links;
    }
  }

  /** Ports taken by the gateways of a mesh: one a gateway on each of the first leaves. */
  lemma {:induction false} MeshGatewaysTake(leaves: nat, gateways: nat, d: Device)
    ensures Taken(MeshGateways(leaves, gateways), d) == if d.Leaf? && 1 <= d.id <= leaves then gateways else 0
  {
    if leaves > 0 {
      MeshGatewaysTake(leaves - 1, gateways, d);
      GatewayRowTakes(Leaf(leaves), gateways, leaves, d);
      TakenAppend(MeshGateways(leaves - 1, gateways), GatewayRow(Leaf(leaves), gateways, leaves), d);
    }
  }

  // ---- Multihomed servers round robin ------------------------------------------------------------------------

  function Rounds(m: nat, t: nat): nat
    requires m > 0
  {
    if t == 0 then 0 else Rounds(m, t - 1) + if Turn(m, t) == 0 then 1 else 0
  }

  /** How many of the first t attachments go to position i. */
  function TurnsAt(m: nat, t: nat, i: nat): nat
    requires m > 0
  {
    if t == 0 then 0 else TurnsAt(m, t - 1, i) + if Turn(m, t - 1) == i then 1 else 0
  }

  lemma {:induction false} TurnsClosed(m: nat, t: nat, i: nat)
    requires m > 0 && i < m
    ensures TurnsAt(m, t, i) == Rounds(m, t) + if i < Turn(m, t) then 1 else 0
  {
    if t > 0 {
      TurnsClosed(m, t - 1, i);
    }
  }

  /** The turns are shared out evenly: whole rounds, and the rest to the first candidates. */
  lemma {:induction false} RoundsClosed(m: nat, t: nat)
    requires m > 0
    ensures m * Rounds(m, t) + Turn(m, t) == t
  {
    if t > 0 {
      RoundsClosed(m, t - 1);
      assert m * (Rounds(m, t - 1) + 1) == m * Rounds(m, t - 1) + m;
    }
  }

  lemma {:induction false} HomedServerTakes(homes: seq<nat>, server: nat, k: nat, i: nat)
    requires Distinct(homes) && i < |homes|
    ensures Taken(HomedServer(homes, server, k), Leaf(homes[i])) ==
      Once(Turn(|homes|, 2 * k) == i) + Once(Turn(|homes|, 2 * k + 1) == i)
  {
    var d, one := Leaf(homes[i]), HomedServer(homes, server, k);
    TakenAppend([one[0]], [one[1]], d);
    TakenOne(one[0], d);
    TakenOne(one[1], d);
    assert one == [one[0]] + [one[1]];
  }

  /** The ports that multihomed servers take of a candidate are its turns. */
  lemma {:induction false} HomedServersTake(homes: seq<nat>, first: nat, n: nat, i: nat)
    requires Distinct(homes) && i < |homes|
    ensures Taken(HomedServers(homes, first, n), Leaf(homes[i])) == TurnsAt(|homes|, 2 * n, i)
  {
    hide Taken, HomedServer, Turn, Distinct, Id;
    if n > 0 {
      HomedServersTake(homes, first, n - 1, i);
      HomedServerTakes(homes, Id(first + n - 1), n - 1, i);
      TakenAppend(HomedServers(homes, first, n - 1), HomedServer(homes, Id(first + n - 1), n - 1), Leaf(homes[i]));
      assert TurnsAt(|homes|, 2 * n - 1, i) == TurnsAt(|homes|, 2 * (n - 1), i) + Once(Turn(|homes|, 2 * (n - 1)) == i);
    } else {
      NothingTaken(Leaf(homes[i]));
    }
  }

  /** Multihomed servers have two different leaves each, and load any two candidates with numbers of links that differ by at most one. */
  lemma {:induction false} RoundRobinFair(homes: seq<nat>, first: nat, n: nat, i: nat, j: nat)
    requires Distinct(homes) && |homes| >= 2 && i < |homes| && j < |homes|
    ensures Taken(HomedServers(homes, first, n), Leaf(homes[i])) <= Taken(HomedServers(homes, first, n), Leaf(homes[j])) + 1
    ensures forall server: nat, k: nat {:trigger HomedServer(homes, server, k)} ::
      HomedServer(homes, server, k)[0].leaf != HomedServer(homes, server, k)[1].leaf
  {
    hide Taken, TurnsAt, Rounds;
    HomedServersTake(homes, first, n, i);
    HomedServersTake(homes, first, n, j);
    TurnsClosed(|homes|, 2 * n, i);
    TurnsClosed(|homes|, 2 * n, j);
  }

  lemma {:induction false} NotHomed(homes: seq<nat>, first: nat, n: nat, leaf: nat)
    requires leaf !in homes
    ensures Taken(HomedServers(homes, first, n), Leaf(leaf)) == 0
  {
    if n > 0 && |homes| > 0 {
      NotHomed(homes, first, n - 1, leaf);
      var one := HomedServer(homes, Id(first + n - 1), n - 1);
      TakenAppend(HomedServers(homes, first, n - 1), one, Leaf(leaf));
      TakenAppend([one[0]], [one[1]], Leaf(leaf));
      TakenOne(one[0], Leaf(leaf));
      TakenOne(one[1], Leaf(leaf));
      assert one == [one[0]] + [one[1]];
    }
  }

  // ---- The servers behind one leaf --------------------------------------------------------------------------------

  lemma {:induction false} IdOccurs(first: nat, n: nat, l: nat)
    requires first + n < 255
    ensures multiset(LeafIds(first, n))[l] == Once(first < l <= first + n)
  {
    if n > 0 {
      IdOccurs(first, n - 1, l);
      CountsUp(first + n - 1);
    }
  }

  lemma {:induction false} ExternalsTake(first: nat, n: nat, base: nat, most: nat, l: nat)
    requires first + n < 255
    ensures Taken(Externals(first, n, base, most), Leaf(l)) == Once(first < l <= first + n && l <= base + most)
  {
    if n > 0 {
      ExternalsTake(first, n - 1, base, most, l);
      CountsUp(first + n - 1);
      var x := ExternalShape(Id(first + n - 1));
      if first + n - 1 < base + most {
        TakenAppend(Externals(first, n - 1, base, most), [x], Leaf(l));
        TakenOne(x, Leaf(l));
      } else {
        assert Externals(first, n, base, most) == Externals(first, n - 1, base, most);
      }
    }
  }

  lemma {:induction false} ESLAGTake(leaves: seq<nat>, first: nat, n: nat, l: nat)
    requires multiset(leaves)[l] <= 1
    ensures Taken(ESLAGServers(leaves, first, n), Leaf(l)) == if multiset(leaves)[l] == 1 then n else 0
  {
    if n > 0 {
      ESLAGTake(leaves, first, n - 1, l);
      var x := ESLAGShape(Id(first + n - 1), leaves);
      TakenAppend(ESLAGServers(leaves, first, n - 1), [x], Leaf(l));
      TakenOne(x, Leaf(l));
    }
  }

  lemma {:induction false} UnbundledTake(leaf: nat, first: nat, n: nat, l: nat)
    ensures Taken(UnbundledServers(leaf, first, n), Leaf(l)) == if l == leaf then n else 0
  {
    if n > 0 {
      UnbundledTake(leaf, first, n - 1, l);
      var x := UnbundledShape(Id(first + n - 1), leaf);
      TakenAppend(UnbundledServers(leaf, first, n - 1), [x], Leaf(l));
      TakenOne(x, Leaf(l));
    }
  }

  lemma {:induction false} BundledTake(leaf: nat, first: nat, n: nat, l: nat)
    ensures Taken(BundledServers(leaf, first, n), Leaf(l)) == if l == leaf then 2 * n else 0
  {
    if n > 0 {
      BundledTake(leaf, first, n - 1, l);
      var x := BundledShape(Id(first + n - 1), leaf);
      TakenAppend(BundledServers(leaf, first, n - 1), [x], Leaf(l));
      TakenOne(x, Leaf(l));
    }
  }

  /** The ports of the k-th leaf of a group, which has the given index among all leaves, for externals and servers. */
  function GroupLoad(p: Params, index: nat, k: nat): nat {
    Once(index < p.extEslag) + p.eslagServers + (if k == 0 then p.unbundled else 0) + if k == 1 then 2 * p.bundled else 0
  }

  function OrphanLoad(p: Params, o: nat): nat {
    Once(o < p.extOrphan) + p.unbundled + 2 * p.bundled
  }

  lemma {:induction false} GroupTakes(p: Params, g: nat, l: nat)
    requires NoOverflow(p) && g < |p.groups|
    ensures var first := GroupLeaves(p.groups, g);
      Taken(GroupShapes(p, g), Leaf(l)) == if first < l <= first + p.groups[g] then GroupLoad(p, l - 1, l - 1 - first) else 0
  {
    hide Taken, LeafIds, Id;
    var first, server, size := GroupLeaves(p.groups, g), GroupServers(p, g), p.groups[g];
    LeavesGrow(p.groups, g, |p.groups|);
    var ids := LeafIds(first, size);
    var a, b := Externals(first, size, 0, p.extEslag), ESLAGServers(ids, server, p.eslagServers);
    var c := UnbundledServers(Id(first), server + p.eslagServers, p.unbundled);
    var d := BundledServers(Id(first + 1), server + p.eslagServers + p.unbundled, p.bundled);
    CountsUp(first);
    CountsUp(first + 1);
    ExternalsTake(first, size, 0, p.extEslag, l);
    IdOccurs(first, size, l);
    ESLAGTake(ids, server, p.eslagServers, l);
    UnbundledTake(Id(first), server + p.eslagServers, p.unbundled, l);
    BundledTake(Id(first + 1), server + p.eslagServers + p.unbundled, p.bundled, l);
    TakenAppend(a, b, Leaf(l));
    TakenAppend(a + b, c, Leaf(l));
    TakenAppend(a + b + c, d, Leaf(l));
  }

  lemma {:induction false} AllGroupsTake(p: Params, n: nat, g: nat, k: nat)
    requires NoOverflow(p) && n <= |p.groups| && g < |p.groups| && k < p.groups[g]
    ensures var index := GroupLeaves(p.groups, g) + k;
      Taken(AllGroups(p, n), Leaf(index + 1)) == if g < n then GroupLoad(p, index, k) else 0
  {
    hide Taken, GroupShapes, GroupLoad;
    var l := GroupLeaves(p.groups, g) + k + 1;
    if n > 0 {
      AllGroupsTake(p, n - 1, g, k);
      GroupTakes(p, n - 1, l);
      TakenAppend(AllGroups(p, n - 1), GroupShapes(p, n - 1), Leaf(l));
      if n - 1 < g {
        LeavesGrow(p.groups, n - 1, g);
      } else if g < n - 1 {
        LeavesGrow(p.groups, g, n - 1);
      }
    } else {
      NothingTaken(Leaf(l));
    }
  }

  lemma {:induction false} NothingTaken(d: Device)
    ensures Taken([], d) == 0
  {
  }

  lemma {:induction false} GroupsTakeNone(p: Params, n: nat, l: nat)
    requires NoOverflow(p) && n <= |p.groups| && (l == 0 || GroupLeaves(p.groups, n) < l)
    ensures Taken(AllGroups(p, n), Leaf(l)) == 0
  {
    hide Taken, GroupShapes, GroupLoad;
    if n > 0 {
      GroupsTakeNone(p, n - 1, l);
      GroupTakes(p, n - 1, l);
      TakenAppend(AllGroups(p, n - 1), GroupShapes(p, n - 1), Leaf(l));
    } else {
      NothingTaken(Leaf(l));
    }
  }

  lemma {:induction false} OrphanTakes(p: Params, o: nat, l: nat)
    requires NoOverflow(p) && o < p.orphans
    ensures Taken(OrphanShapes(p, o), Leaf(l)) == if l == Grouped(p) + o + 1 then OrphanLoad(p, o) else 0
  {
    hide Taken, Id, GroupServers, OrphanServers;
    Counts8(p);
    var leaf, server := Grouped(p) + o, GroupServers(p, GroupsBuilt(p)) + OrphanServers(p, o);
    var a, c := Externals(leaf, 1, Grouped(p), p.extOrphan), UnbundledServers(Id(leaf), server, p.unbundled);
    var d := BundledServers(Id(leaf), server + p.unbundled, p.bundled);
    CountsUp(leaf);
    ExternalsTake(leaf, 1, Grouped(p), p.extOrphan, l);
    UnbundledTake(Id(leaf), server, p.unbundled, l);
    BundledTake(Id(leaf), server + p.unbundled, p.bundled, l);
    TakenAppend(a, c, Leaf(l));
    TakenAppend(a + c, d, Leaf(l));
  }

  lemma {:induction false} AllOrphansTake(p: Params, n: nat, l: nat)
    requires NoOverflow(p) && n <= p.orphans
    ensures Taken(AllOrphans(p, n), Leaf(l)) == if Grouped(p) < l <= Grouped(p) + n then OrphanLoad(p, l - 1 - Grouped(p)) else 0
  {
    hide Taken, OrphanShapes, OrphanLoad, Grouped;
    if n > 0 {
      AllOrphansTake(p, n - 1, l);
      OrphanTakes(p, n - 1, l);
      TakenAppend(AllOrphans(p, n - 1), OrphanShapes(p, n - 1), Leaf(l));
    } else {
      NothingTaken(Leaf(l));
    }
  }

  // ---- Whole topologies ------------------------------------------------------------------------------------------------

  /** Where multihomed servers are built there are two candidates at least, no candidate twice, and their loads differ by at most one. */
  lemma {:induction false} MultihomedFair(p: Params, i: nat, j: nat)
    requires NoOverflow(p) && Acceptable(p) && p.multihomed > 0 && i < |Homes(p)| && j < |Homes(p)|
    ensures |Homes(p)| >= 2 && Distinct(Homes(p))
    ensures var l := HomedServers(Homes(p), LeafServers(p), p.multihomed);
      Taken(l, Leaf(Homes(p)[i])) <= Taken(l, Leaf(Homes(p)[j])) + 1
  {
    hide Taken, Homes, HomedServers, Distinct;
    HomesDistinct(p);
    RoundRobinFair(Homes(p), LeafServers(p), p.multihomed, i, j);
  }

  /** The turns of the leaf with this index among all leaves. */
  function HomedLoad(p: Params, index: nat): nat {
    var m := |Homes(p)|;
    if p.orphans < 2 then (if index < m then TurnsAt(m, 2 * p.multihomed, index) else 0)
    else if Grouped(p) <= index < Grouped(p) + m then TurnsAt(m, 2 * p.multihomed, index - Grouped(p))
    else 0
  }

  lemma {:induction false} HomedTake(p: Params, index: nat)
    requires NoOverflow(p)
    ensures Taken(HomedServers(Homes(p), LeafServers(p), p.multihomed), Leaf(index + 1)) == HomedLoad(p, index)
  {
    hide Taken, TurnsAt, HomedServers, Homes, Grouped;
    HomesDistinct(p);
    var homes, i := Homes(p), if p.orphans < 2 then index else index - Grouped(p);
    if 0 <= i < |homes| {
      HomedServersTake(homes, LeafServers(p), p.multihomed, i);
    } else {
      NotHomed(homes, LeafServers(p), p.multihomed, index + 1);
    }
  }

  function SpineLoad(p: Params, s: nat): nat {
    Times(Leaves8(p), p.fabricLinks) + if s <= p.uplinks then p.gateways else 0
  }

  function LeafLoad(p: Params, l: nat): nat {
    if p.meshLinks == 0 then Times(p.spines, p.fabricLinks)
    else if Leaves8(p) == 0 then 0
    else Times(Leaves8(p) - 1, p.meshLinks) + if l <= p.uplinks then p.gateways else 0
  }

  /** The ports between switches and to gateways. */
  function SwitchLoad(p: Params, d: Device): nat {
    match d
    case Spine(s) => if 1 <= s <= p.spines then SpineLoad(p, s) else 0
    case Leaf(l) => if 1 <= l <= Leaves8(p) then LeafLoad(p, l) else 0
    case Server(_) => 0
  }

  /** There are fabric links or mesh links, and no spines with the latter. */
  predicate OneFabric(p: Params) {
    p.meshLinks > 0 ==> p.spines == 0
  }

  lemma {:induction false} SwitchPartTakes(p: Params, d: Device)
    requires OneFabric(p)
    ensures Taken(SwitchPart(p), d) == SwitchLoad(p, d)
  {
    hide Taken, SpineShapes, MeshShapes, MeshGateways, Leaves8;
    var l := Leaves8(p);
    var fabric := SpineShapes(p.spines, l, p.fabricLinks, p.gateways, p.uplinks);
    SpineShapesTake(p.spines, l, p.fabricLinks, p.gateways, p.uplinks, d);
    if p.meshLinks > 0 {
      var mesh, links := MeshShapes(l, l, p.meshLinks), MeshGateways(Least(l, p.uplinks), p.gateways);
      MeshShapesTake(l, p.meshLinks, d);
      MeshGatewaysTake(Least(l, p.uplinks), p.gateways, d);
      TakenAppend(mesh, links, d);
      TakenAppend(fabric, mesh + links, d);
    } else {
      assert SwitchPart(p) == fabric;
    }
  }

  lemma {:induction false} PartsTake(p: Params, d: Device)
    requires GroupsOk(p.groups) && OneFabric(p)
    ensures Taken(AllShapes(p), d) ==
      Taken(AllGroups(p, GroupsBuilt(p)), d) + Taken(AllOrphans(p, p.orphans), d) +
      Taken(HomedServers(Homes(p), LeafServers(p), p.multihomed), d) + SwitchLoad(p, d)
  {
    hide Taken, AllGroups, AllOrphans, HomedServers, SwitchPart, SwitchLoad, Homes;
    var a, b, c := AllGroups(p, GroupsBuilt(p)), AllOrphans(p, p.orphans), HomedServers(Homes(p), LeafServers(p), p.multihomed);
    TakenAppend(a, b, d);
    TakenAppend(a + b, c, d);
    TakenAppend(a + b + c, SwitchPart(p), d);
    SwitchPartTakes(p, d);
  }

  /** The ports that the whole topology takes of the k-th leaf of group g. */
  lemma {:induction false} GroupedLeafPorts(p: Params, g: nat, k: nat)
    requires NoOverflow(p) && OneFabric(p) && g < |p.groups| && k < p.groups[g]
    ensures var index := GroupLeaves(p.groups, g) + k;
      Taken(AllShapes(p), Leaf(index + 1)) == GroupLoad(p, index, k) + HomedLoad(p, index) + SwitchLoad(p, Leaf(index + 1))
  {
    hide Taken, AllGroups, AllOrphans, HomedServers, SwitchLoad, Homes, GroupLoad, OrphanLoad, HomedLoad, AllShapes;
    var index := GroupLeaves(p.groups, g) + k;
    Counts8(p);
    LeavesGrow(p.groups, g, |p.groups|);
    PartsTake(p, Leaf(index + 1));
    AllGroupsTake(p, |p.groups|, g, k);
    AllOrphansTake(p, p.orphans, index + 1);
    HomedTake(p, index);
  }

  /** The ports that the whole topology takes of the o-th orphan leaf. */
  lemma {:induction false} OrphanLeafPorts(p: Params, o: nat)
    requires NoOverflow(p) && OneFabric(p) && o < p.orphans
    ensures var index := Grouped(p) + o;
      Taken(AllShapes(p), Leaf(index + 1)) == OrphanLoad(p, o) + HomedLoad(p, index) + SwitchLoad(p, Leaf(index + 1))
  {
    hide Taken, AllGroups, AllOrphans, HomedServers, SwitchLoad, Homes, GroupLoad, OrphanLoad, HomedLoad, AllShapes;
    var index := Grouped(p) + o;
    Counts8(p);
    PartsTake(p, Leaf(index + 1));
    GroupsTakeNone(p, |p.groups|, index + 1);
    AllOrphansTake(p, p.orphans, index + 1);
    HomedTake(p, index);
  }

  /** Connections of servers take no port of a spine. */
  lemma {:induction false} ServingTakesNone(l: seq<Shape>, n: nat, s0: nat, s1: nat, l0: nat, l1: nat, s: nat)
    requires n <= |l| && Block(l, s0, s1, l0, l1)
    ensures TakenUpTo(l, n, Spine(s)) == 0
  {
    if n > 0 {
      ServingTakesNone(l, n - 1, s0, s1, l0, l1, s);
      assert Serves(l[n - 1], s0, s1, l0, l1);
    }
  }

  /** The ports that the whole topology takes of a spine. */
  lemma {:induction false} SpinePorts(p: Params, s: nat)
    requires NoOverflow(p) && OneFabric(p) && Acceptable(p)
    ensures Taken(AllShapes(p), Spine(s)) == SwitchLoad(p, Spine(s))
  {
    hide Block, ServerPart, SwitchPart, SwitchLoad, Acceptable;
    ServerPartBlock(p);
    ServingTakesNone(ServerPart(p), |ServerPart(p)|, 0, Servers(p), 0, Leaves(p), s);
    SwitchPartTakes(p, Spine(s));
    TakenAppend(ServerPart(p), SwitchPart(p), Spine(s));
  }

  /** No port is taken of a leaf that is not built. */
  lemma {:induction false} OtherLeafPorts(p: Params, l: nat)
    requires NoOverflow(p) && OneFabric(p) && (l == 0 || Leaves(p) < l)
    ensures Taken(AllShapes(p), Leaf(l)) == 0
  {
    hide Taken, AllGroups, AllOrphans, HomedServers, Homes, GroupLoad, OrphanLoad, AllShapes, Distinct;
    Counts8(p);
    PartsTake(p, Leaf(l));
    GroupsTakeNone(p, |p.groups|, l);
    AllOrphansTake(p, p.orphans, l);
    HomesDistinct(p);
    NotHomed(Homes(p), LeafServers(p), p.multihomed, l);
  }

  /** The group of a leaf and its place there. */
  lemma {:induction false} InGroup(groups: seq<U8>, n: nat, index: nat) returns (g: nat, k: nat)
    requires n <= |groups| && index < GroupLeaves(groups, n)
    ensures g < n && k < groups[g] && GroupLeaves(groups, g) + k == index
  {
    if index < GroupLeaves(groups, n - 1) {
      g, k := InGroup(groups, n - 1, index);
    } else {
      g, k := n - 1, index - GroupLeaves(groups, n - 1);
    }
  }

  function GroupedLoad(p: Params, g: nat, k: nat): nat
    requires g < |p.groups|
  {
    var index := GroupLeaves(p.groups, g) + k;
    GroupLoad(p, index, k) + HomedLoad(p, index) + SwitchLoad(p, Leaf(index + 1))
  }

  function OrphanTotal(p: Params, o: nat): nat {
    OrphanLoad(p, o) + HomedLoad(p, Grouped(p) + o) + SwitchLoad(p, Leaf(Grouped(p) + o + 1))
  }

  /** The loads of all switches, read off the settings, are within a limit. */
  predicate LoadsWithin(p: Params, most: nat) {
    && (forall g, k :: 0 <= g < |p.groups| && 0 <= k < p.groups[g] ==> GroupedLoad(p, g, k) <= most)
    && (forall o :: 0 <= o < p.orphans ==> OrphanTotal(p, o) <= most)
    && (forall s :: 1 <= s <= p.spines ==> SpineLoad(p, s) <= most)
  }

  /** No switch takes more than so many ports. */
  ghost predicate PortsWithin(p: Params, most: nat)
    requires GroupsOk(p.groups)
  {
    forall d: Device :: !d.Server? ==> Taken(AllShapes(p), d) <= most
  }

  lemma {:induction false} LoadsBound(p: Params, most: nat, d: Device)
    requires NoOverflow(p) && Acceptable(p) && OneFabric(p) && LoadsWithin(p, most) && !d.Server?
    ensures Taken(AllShapes(p), d) <= most
  {
    hide Taken, AllShapes, Acceptable, GroupLoad, OrphanLoad, HomedLoad, SpineLoad, LeafLoad;
    Counts8(p);
    if d.Spine? {
      SpinePorts(p, d.id);
      assert 1 <= d.id <= p.spines ==> SpineLoad(p, d.id) <= most;
    } else if d.id == 0 || Leaves(p) < d.id {
      OtherLeafPorts(p, d.id);
    } else if d.id <= Grouped(p) {
      var g, k := InGroup(p.groups, |p.groups|, d.id - 1);
      GroupedLeafPorts(p, g, k);
      assert GroupedLoad(p, g, k) <= most;
    } else {
      var o := d.id - 1 - Grouped(p);
      OrphanLeafPorts(p, o);
      assert OrphanTotal(p, o) <= most;
    }
  }

  /** Whether the ports of all switches are within a limit can be read off the settings. */
  lemma {:induction false} WithinIff(p: Params, most: nat)
    requires NoOverflow(p) && Acceptable(p) && OneFabric(p)
    ensures PortsWithin(p, most) <==> LoadsWithin(p, most)
  {
    hide Taken, AllShapes, Acceptable, GroupLoad, OrphanLoad, HomedLoad, SpineLoad, LeafLoad;
    if PortsWithin(p, most) {
      forall g, k | 0 <= g < |p.groups| && 0 <= k < p.groups[g]
        ensures GroupedLoad(p, g, k) <= most
      {
        GroupedLeafPorts(p, g, k);
      }
      forall o | 0 <= o < p.orphans
        ensures OrphanTotal(p, o) <= most
      {
        OrphanLeafPorts(p, o);
      }
      forall s | 1 <= s <= p.spines
        ensures SpineLoad(p, s) <= most
      {
        SpinePorts(p, s);
      }
    }
    if LoadsWithin(p, most) {
      hide LoadsWithin;
      forall d: Device | !d.Server?
        ensures Taken(AllShapes(p), d) <= most
      {
        LoadsBound(p, most, d);
      }
    }
  }

  // ---- Servers -----------------------------------------------------------------------------------------------------

  /** Servers with numbers in the range are given at most four ports, the others none. */
  ghost predicate ServerLoads(l: seq<Shape>, s0: nat, s1: nat) {
    forall s: nat :: Taken(l, Server(s)) <= if s0 < s <= s1 then 4 else 0
  }

  lemma {:induction false} LoadsJoin(a: seq<Shape>, b: seq<Shape>, s0: nat, s1: nat, s2: nat)
    requires s0 <= s1 <= s2 && ServerLoads(a, s0, s1) && ServerLoads(b, s1, s2)
    ensures ServerLoads(a + b, s0, s2)
  {
    hide Taken;
    forall s: nat
      ensures Taken(a + b, Server(s)) <= if s0 < s <= s2 then 4 else 0
    {
      TakenAppend(a, b, Server(s));
      assert Taken(a, Server(s)) <= if s0 < s <= s1 then 4 else 0;
      assert Taken(b, Server(s)) <= if s1 < s <= s2 then 4 else 0;
    }
  }

  lemma {:induction false} NoLoads(s: nat)
    ensures ServerLoads([], s, s)
  {
    forall t: nat
      ensures Taken([], Server(t)) == 0
    {
      NothingTaken(Server(t));
    }
  }

  lemma {:induction false} OneLoads(x: Shape, s: nat)
    requires Serves(x, s, s + 1, 0, 0) && (x.ESLAGShape? ==> |x.leaves| <= 4)
    ensures ServerLoads([x], s, s + 1)
  {
    forall t: nat
      ensures Taken([x], Server(t)) <= if s < t <= s + 1 then 4 else 0
    {
      TakenOne(x, Server(t));
    }
  }

  lemma {:induction false} ExternalsLoad(first: nat, n: nat, base: nat, most: nat, s: nat)
    ensures ServerLoads(Externals(first, n, base, most), s, s)
  {
    hide ServerLoads, Taken;
    NoLoads(s);
    if n > 0 {
      ExternalsLoad(first, n - 1, base, most, s);
      var x := ExternalShape(Id(first + n - 1));
      ExternalLoads(x, s);
      LoadsJoin(Externals(first, n - 1, base, most), if first + n - 1 < base + most then [x] else [], s, s, s);
    }
  }

  lemma {:induction false} ExternalLoads(x: Shape, s: nat)
    requires x.ExternalShape?
    ensures ServerLoads([x], s, s)
  {
    forall t: nat
      ensures Taken([x], Server(t)) == 0
    {
      TakenOne(x, Server(t));
    }
  }

  lemma {:induction false} ESLAGLoad(leaves: seq<nat>, first: nat, n: nat)
    requires first + n <= 255 && |leaves| <= 4
    ensures ServerLoads(ESLAGServers(leaves, first, n), first, first + n)
  {
    hide ServerLoads, Taken;
    NoLoads(first);
    if n > 0 {
      ESLAGLoad(leaves, first, n - 1);
      CountsUp(first + n - 1);
      OneLoads(ESLAGShape(first + n, leaves), first + n - 1);
      LoadsJoin(ESLAGServers(leaves, first, n - 1), [ESLAGShape(first + n, leaves)], first, first + n - 1, first + n);
    }
  }

  lemma {:induction false} UnbundledLoad(leaf: nat, first: nat, n: nat)
    requires first + n <= 255
    ensures ServerLoads(UnbundledServers(leaf, first, n), first, first + n)
  {
    hide ServerLoads, Taken;
    NoLoads(first);
    if n > 0 {
      UnbundledLoad(leaf, first, n - 1);
      CountsUp(first + n - 1);
      OneLoads(UnbundledShape(first + n, leaf), first + n - 1);
      LoadsJoin(UnbundledServers(leaf, first, n - 1), [UnbundledShape(first + n, leaf)], first, first + n - 1, first + n);
    }
  }

  lemma {:induction false} BundledLoad(leaf: nat, first: nat, n: nat)
    requires first + n <= 255
    ensures ServerLoads(BundledServers(leaf, first, n), first, first + n)
  {
    hide ServerLoads, Taken;
    NoLoads(first);
    if n > 0 {
      BundledLoad(leaf, first, n - 1);
      CountsUp(first + n - 1);
      OneLoads(BundledShape(first + n, leaf), first + n - 1);
      LoadsJoin(BundledServers(leaf, first, n - 1), [BundledShape(first + n, leaf)], first, first + n - 1, first + n);
    }
  }

  lemma {:induction false} HomedServerLoad(homes: seq<nat>, s: nat, k: nat)
    requires |homes| > 0
    ensures ServerLoads(HomedServer(homes, s + 1, k), s, s + 1)
  {
    var one := HomedServer(homes, s + 1, k);
    forall t: nat
      ensures Taken(one, Server(t)) <= if s < t <= s + 1 then 4 else 0
    {
      TakenAppend([one[0]], [one[1]], Server(t));
      TakenOne(one[0], Server(t));
      TakenOne(one[1], Server(t));
      assert one == [one[0]] + [one[1]];
    }
  }

  lemma {:induction false} HomedLoads(homes: seq<nat>, first: nat, n: nat)
    requires first + n <= 255 && (n > 0 ==> |homes| > 0)
    ensures ServerLoads(HomedServers(homes, first, n), first, first + n)
  {
    hide ServerLoads, Taken, HomedServer;
    NoLoads(first);
    if n > 0 {
      HomedLoads(homes, first, n - 1);
      CountsUp(first + n - 1);
      HomedServerLoad(homes, first + n - 1, n - 1);
      LoadsJoin(HomedServers(homes, first, n - 1), HomedServer(homes, first + n, n - 1), first, first + n - 1, first + n);
    }
  }

  lemma {:induction false} GroupLoads(p: Params, g: nat)
    requires NoOverflow(p) && g < |p.groups|
    ensures ServerLoads(GroupShapes(p, g), GroupServers(p, g), GroupServers(p, g + 1))
  {
    hide ServerLoads, Id, Taken;
    Counts8(p);
    ServersGrow(p, g, |p.groups|);
    var leaf, s0, size := GroupLeaves(p.groups, g), GroupServers(p, g), p.groups[g];
    var s1 := s0 + p.eslagServers;
    var s2 := s1 + p.unbundled;
    var s3 := s2 + p.bundled;
    var a, b := Externals(leaf, size, 0, p.extEslag), ESLAGServers(LeafIds(leaf, size), s0, p.eslagServers);
    var c, d := UnbundledServers(Id(leaf), s1, p.unbundled), BundledServers(Id(leaf + 1), s2, p.bundled);
    ExternalsLoad(leaf, size, 0, p.extEslag, s0);
    ESLAGLoad(LeafIds(leaf, size), s0, p.eslagServers);
    UnbundledLoad(Id(leaf), s1, p.unbundled);
    BundledLoad(Id(leaf + 1), s2, p.bundled);
    LoadsJoin(a, b, s0, s0, s1);
    LoadsJoin(a + b, c, s0, s1, s2);
    LoadsJoin(a + b + c, d, s0, s2, s3);
  }

  lemma {:induction false} AllGroupsLoads(p: Params, n: nat)
    requires NoOverflow(p) && n <= |p.groups|
    ensures ServerLoads(AllGroups(p, n), 0, GroupServers(p, n))
  {
    hide ServerLoads, GroupShapes, Taken;
    NoLoads(0);
    if n > 0 {
      AllGroupsLoads(p, n - 1);
      GroupLoads(p, n - 1);
      ServersGrow(p, n - 1, n);
      LoadsJoin(AllGroups(p, n - 1), GroupShapes(p, n - 1), 0, GroupServers(p, n - 1), GroupServers(p, n));
    }
  }

  lemma {:induction false} OrphanLoads(p: Params, o: nat)
    requires NoOverflow(p) && o < p.orphans
    ensures var s := GroupServers(p, GroupsBuilt(p));
      ServerLoads(OrphanShapes(p, o), s + OrphanServers(p, o), s + OrphanServers(p, o + 1))
  {
    hide ServerLoads, Id, Taken, GroupServers;
    ServersGrow(p, o, p.orphans);
    var leaf, s0 := Grouped(p) + o, GroupServers(p, GroupsBuilt(p)) + OrphanServers(p, o);
    var s1 := s0 + p.unbundled;
    var s2 := s1 + p.bundled;
    var a := Externals(leaf, 1, Grouped(p), p.extOrphan);
    var c, d := UnbundledServers(Id(leaf), s0, p.unbundled), BundledServers(Id(leaf), s1, p.bundled);
    ExternalsLoad(leaf, 1, Grouped(p), p.extOrphan, s0);
    UnbundledLoad(Id(leaf), s0, p.unbundled);
    BundledLoad(Id(leaf), s1, p.bundled);
    LoadsJoin(a, c, s0, s0, s1);
    LoadsJoin(a + c, d, s0, s1, s2);
  }

  lemma {:induction false} AllOrphansLoads(p: Params, n: nat)
    requires NoOverflow(p) && n <= p.orphans
    ensures var s := GroupServers(p, GroupsBuilt(p)); ServerLoads(AllOrphans(p, n), s, s + OrphanServers(p, n))
  {
    hide ServerLoads, OrphanShapes, Taken, GroupServers;
    var s := GroupServers(p, GroupsBuilt(p));
    NoLoads(s);
    if n > 0 {
      AllOrphansLoads(p, n - 1);
      OrphanLoads(p, n - 1);
      ServersGrow(p, n - 1, n);
      LoadsJoin(AllOrphans(p, n - 1), OrphanShapes(p, n - 1), s, s + OrphanServers(p, n - 1), s + OrphanServers(p, n));
    }
  }

  /** No server has more than four ports. */
  lemma {:induction false} ServerPorts(p: Params, s: nat)
    requires NoOverflow(p) && OneFabric(p) && Acceptable(p)
    ensures Taken(AllShapes(p), Server(s)) <= 4
  {
    hide Taken, AllGroups, AllOrphans, HomedServers, Homes, AllShapes, Acceptable, Distinct;
    Counts8(p);
    HomesDistinct(p);
    ServersGrow(p, 0, |p.groups|);
    ServersGrow(p, 0, p.orphans);
    var a, b, c := AllGroups(p, GroupsBuilt(p)), AllOrphans(p, p.orphans), HomedServers(Homes(p), LeafServers(p), p.multihomed);
    AllGroupsLoads(p, |p.groups|);
    AllOrphansLoads(p, p.orphans);
    HomedLoads(Homes(p), LeafServers(p), p.multihomed);
    LoadsJoin(a, b, 0, GroupServers(p, |p.groups|), LeafServers(p));
    LoadsJoin(a + b, c, 0, LeafServers(p), Servers(p));
    assert Taken(a + b + c, Server(s)) <= if 0 < s <= Servers(p) then 4 else 0;
    TakenAppend(a, b, Server(s));
    TakenAppend(a + b, c, Server(s));
    PartsTake(p, Server(s));
  }
}
