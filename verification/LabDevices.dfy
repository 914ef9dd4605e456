/** The network devices of a lab, card by card. */
module LabDevices {
  import opened Store
  import opened Sorting
  import opened VlabLinks
  import opened VlabSockets

  /** The number in a card's name, if it fits eight bits; the management card is card 0. */
  ghost predicate Numbered(nic: NicName, n: nat) {
    n < 256 && match nic
      case Management => n == 0
      case ServerPort(k) => k == n
      case SwitchPort(k) => k == n
      case GatewayPort(k) => k == n
      case RenamedPort(k, _) => k == n
      case OtherName(_) => false
  }

  /** The port numbers from 22100 on, a hundred for each machine. */
  ghost predicate CardPort(port: nat, machine: nat, card: nat) {
    port == 22100 + 100 * machine + card
  }

  /** The port of another machine's card, by the names of both. */
  ghost predicate PeerPort(order: seq<Object<VM>>, port: nat, peer: Port) {
    exists j: nat, l: nat :: j < |order| && order[j].name == peer.device && Numbered(peer.nic, l) && CardPort(port, j, l)
  }

  /** What card k of machine i becomes. */
  ghost predicate Becomes(order: seq<Object<VM>>, i: nat, k: nat, c: NicCfg, d: Netdev) {
    match c
    case Noop => d.Listen? && CardPort(d.port, i, k)
    case Direct(peer) => d.Socket? && CardPort(d.udp, i, k) && PeerPort(order, d.localaddr, peer)
    case Usernet => d.User? && d.ssh == 22000 + i
    case Tap(_) => d.TapDevice?
    case Passthrough(pci) => d.Passed? && d.pci == pci
  }

  lemma {:induction false} NumberedIff(nic: NicName, n: nat)
    ensures Numbered(nic, n) <==> NicID(nic) == Some(n)
  {
  }

  lemma {:induction false} DeviceBecomes(order: seq<Object<VM>>, i: nat, table: seq<NicCfg>, k: nat, taps: nat)
    requires k < |table| && Resolvable(order, table[k])
    ensures Becomes(order, i, k, table[k], DeviceOf(order, i, table, k, taps))
  {
    if table[k].Direct? {
      var peer := table[k].peer;
      var j, l := Find(order, peer.device).value, NicID(peer.nic).value;
      NumberedIff(peer.nic, l);
      assert CardPort(DirectPort(j, l), j, l);
    }
  }

  /** Every device is that of the card in its slot: the machine's card of that number, or a filler when there is none. */
  lemma {:induction false} SlotRead(order: seq<Object<VM>>, tables: seq<seq<NicCfg>>, devs: seq<seq<Netdev>>, i: nat, k: nat)
    requires LabOf(order, tables, devs, |order|) && i < |order| && k < |devs[i]|
    ensures |devs[i]| <= 64
    ensures || (exists nic :: nic in order[i].spec.nics && Numbered(nic, k) && Becomes(order, i, k, order[i].spec.nics[nic], devs[i][k]))
            || (Becomes(order, i, k, Noop, devs[i][k]) && forall nic :: nic in order[i].spec.nics ==> !Numbered(nic, k))
  {
    hide Becomes, DeviceOf, NicID, Resolvable, Numbered;
    assert MachineOf(order, tables, devs, i);
    DeviceBecomes(order, i, tables[i], k, TapsBefore(tables, i));
    forall nic
      ensures Numbered(nic, k) <==> NicID(nic) == Some(k)
    {
      NumberedIff(nic, k);
    }
    assert SlotFilled(order[i].spec, tables[i], k);
  }

  /** Where the cards of a machine have different numbers, each gets its own device. */
  lemma {:induction false} CardRead(order: seq<Object<VM>>, tables: seq<seq<NicCfg>>, devs: seq<seq<Netdev>>, i: nat, nic: NicName) returns (k: nat)
    requires LabOf(order, tables, devs, |order|) && i < |order| && nic in order[i].spec.nics && DistinctIDs(order[i].spec)
    ensures Numbered(nic, k) && k < |devs[i]| && Becomes(order, i, k, order[i].spec.nics[nic], devs[i][k])
  {
    hide Becomes, DeviceOf, Resolvable;
    assert MachineOf(order, tables, devs, i);
    TableHolds(order[i].spec, tables[i], nic);
    k := NicID(nic).value;
    NumberedIff(nic, k);
    DeviceBecomes(order, i, tables[i], k, TapsBefore(tables, i));
  }

  // ---- Host ports ---------------------------------------------------------------------------------------------

  lemma {:induction false} DevicePorts(order: seq<Object<VM>>, tables: seq<seq<NicCfg>>, devs: seq<seq<Netdev>>, i: nat, k: nat)
    requires LabOf(order, tables, devs, |order|) && i < |order| && k < |devs[i]|
    ensures var d := devs[i][k];
      && (d.User? ==> d.ssh == 22000 + i)
      && (d.Listen? ==> d.port >= 22100) && (d.Socket? ==> d.udp >= 22100 && d.localaddr >= 22100)
  {
    hide DeviceOf, Resolvable, PeerPort;
    assert MachineOf(order, tables, devs, i);
    DeviceBecomes(order, i, tables[i], k, TapsBefore(tables, i));
    if devs[i][k].Socket? {
      PeerAbove(order, devs[i][k].localaddr, tables[i][k].peer);
    }
  }

  lemma {:induction false} PeerAbove(order: seq<Object<VM>>, port: nat, peer: Port)
    ensures PeerPort(order, port, peer) ==> port >= 22100
  {
  }

  /** User networks of different machines forward different ports. */
  lemma {:induction false} UserPortsApart(order: seq<Object<VM>>, tables: seq<seq<NicCfg>>, devs: seq<seq<Netdev>>, i: nat, k: nat, j: nat, l: nat)
    requires LabOf(order, tables, devs, |order|) && i < |order| && k < |devs[i]| && j < |order| && l < |devs[j]|
    requires devs[i][k].User? && devs[j][l].User?
    ensures devs[i][k].ssh == devs[j][l].ssh <==> i == j
  {
    hide LabOf;
    DevicePorts(order, tables, devs, i, k);
    DevicePorts(order, tables, devs, j, l);
  }

  ghost predicate Uses(d: Netdev, port: nat) {
    (d.Listen? && d.port == port) || (d.Socket? && (d.udp == port || d.localaddr == port))
  }

  /** In a lab of at most a hundred machines no forwarded port is one that a card listens on or sends from. */
  lemma {:induction false} UserPortsFree(order: seq<Object<VM>>, tables: seq<seq<NicCfg>>, devs: seq<seq<Netdev>>, i: nat, k: nat, j: nat, l: nat)
    requires LabOf(order, tables, devs, |order|) && |order| <= 100
    requires i < |order| && k < |devs[i]| && devs[i][k].User? && j < |order| && l < |devs[j]|
    ensures !Uses(devs[j][l], devs[i][k].ssh)
  {
    hide LabOf;
    DevicePorts(order, tables, devs, i, k);
    DevicePorts(order, tables, devs, j, l);
  }

  // ---- Taps -------------------------------------------------------------------------------------------------------

  /** The tap devices are numbered from zero, machine after machine and card after card. */
  lemma {:induction false} TapNumber(order: seq<Object<VM>>, tables: seq<seq<NicCfg>>, devs: seq<seq<Netdev>>, i: nat, k: nat)
    requires LabOf(order, tables, devs, |order|) && i < |order| && k < |devs[i]| && devs[i][k].TapDevice?
    ensures devs[i][k].n == |Taps(devs, i, k)|
  {
    hide DeviceOf;
    assert MachineOf(order, tables, devs, i);
    TapsCounted(order, tables, devs, i);
    RowCounted(order, i, tables[i], TapsBefore(tables, i), devs[i], k);
    DeviceBecomes(order, i, tables[i], k, TapsBefore(tables, i));
    TapAt(order, i, tables[i], k, TapsBefore(tables, i));
  }

  lemma {:induction false} TapAt(order: seq<Object<VM>>, i: nat, table: seq<NicCfg>, k: nat, taps: nat)
    requires k < |table| && Resolvable(order, table[k])
    ensures DeviceOf(order, i, table, k, taps).TapDevice? ==> DeviceOf(order, i, table, k, taps).n == taps + Count(table, k, false)
  {
  }

  /** The tap devices among the first n of a machine. */
  function TapsIn(row: seq<Netdev>, n: nat): seq<Netdev>
    requires n <= |row|
  {
    if n == 0 then [] else TapsIn(row, n - 1) + if row[n - 1].TapDevice? then [row[n - 1]] else []
  }

  /** Those of the machines before machine i. */
  function TapsOf(devs: seq<seq<Netdev>>, i: nat): seq<Netdev>
    requires i <= |devs|
  {
    if i == 0 then [] else TapsOf(devs, i - 1) + TapsIn(devs[i - 1], |devs[i - 1]|)
  }

  /** The tap devices before card k of machine i. */
  function Taps(devs: seq<seq<Netdev>>, i: nat, k: nat): seq<Netdev>
    requires i < |devs| && k <= |devs[i]|
  {
    TapsOf(devs, i) + TapsIn(devs[i], k)
  }

  lemma {:induction false} RowCounted(order: seq<Object<VM>>, i: nat, table: seq<NicCfg>, taps: nat, row: seq<Netdev>, n: nat)
    requires DevicesOf(order, i, table, taps, row, |table|) && n <= |table|
    ensures |TapsIn(row, n)| == Count(table, n, false)
  {
    hide DeviceOf;
    if n > 0 {
      RowCounted(order, i, table, taps, row, n - 1);
      DeviceBecomes(order, i, table, n - 1, taps);
    }
  }

  lemma {:induction false} TapsCounted(order: seq<Object<VM>>, tables: seq<seq<NicCfg>>, devs: seq<seq<Netdev>>, n: nat)
    requires LabOf(order, tables, devs, |order|) && n <= |order|
    ensures |TapsOf(devs, n)| == TapsBefore(tables, n)
  {
    hide DeviceOf;
    if n > 0 {
      TapsCounted(order, tables, devs, n - 1);
      assert MachineOf(order, tables, devs, n - 1);
      RowCounted(order, n - 1, tables[n - 1], TapsBefore(tables, n - 1), devs[n - 1], |tables[n - 1]|);
    }
  }

  // ---- Which machines, and which are refused ------------------------------------------------------------------------

  /** Control machines come first, then the external one, gateways, servers and switches. */
  ghost predicate TypeBefore(a: VMType, b: VMType) {
    match a
    case Control => b != Control
    case ExternalVM => b != Control && b != ExternalVM
    case Gateway => b == Server || b == Switch
    case Server => b == Switch
    case Switch => false
  }

  ghost predicate InTurn(a: Object<VM>, b: Object<VM>) {
    TypeBefore(a.spec.vmType, b.spec.vmType) || (a.spec.vmType == b.spec.vmType && a.name < b.name)
  }

  /** Machines are numbered by type, and by name within a type, whatever order they are given in. */
  lemma {:induction false} MachinesNumbered(list: seq<Object<VM>>, order: seq<Object<VM>>)
    requires DistinctNames(list) && order == Sort(list, TypeRank)
    ensures multiset(order) == multiset(list)
    ensures forall i, j :: 0 <= i < j < |order| ==> InTurn(order[i], order[j])
  {
    SortSorts(list, TypeRank);
    forall i, j | 0 <= i < j < |order|
      ensures InTurn(order[i], order[j])
    {
      RankRead(order[i], order[j]);
    }
  }

  lemma {:induction false} RankRead(a: Object<VM>, b: Object<VM>)
    ensures Before(a, b, TypeRank) ==> InTurn(a, b)
  {
    assert TypeRank(a.spec) < 5 && TypeRank(b.spec) < 5;
  }

  /** A card that cannot be built: its name has no number below 64, or it is linked to a machine or a card there is not. */
  ghost predicate BadCard(order: seq<Object<VM>>, vm: VM, nic: NicName) {
    nic in vm.nics && (
      || !(exists n: nat :: n < 64 && Numbered(nic, n))
      || (vm.nics[nic].Direct? && !(exists j :: 0 <= j < |order| && order[j].name == vm.nics[nic].peer.device))
      || (vm.nics[nic].Direct? && !(exists n: nat :: Numbered(vm.nics[nic].peer.nic, n))))
  }

  ghost predicate TwoUserNetworks(vm: VM) {
    exists a, b :: a in vm.nics && b in vm.nics && a != b && vm.nics[a].Usernet? && vm.nics[b].Usernet?
  }

  ghost predicate Bad(order: seq<Object<VM>>, vm: VM) {
    TwoUserNetworks(vm) || exists nic :: BadCard(order, vm, nic)
  }

  lemma {:induction false} NicRead(nic: NicName)
    ensures NicID(nic).Some? <==> exists n: nat :: Numbered(nic, n)
    ensures NicID(nic).Some? && NicID(nic).value < 64 <==> exists n: nat :: n < 64 && Numbered(nic, n)
  {
    if NicID(nic).Some? {
      NumberedIff(nic, NicID(nic).value);
    }
    forall n: nat | Numbered(nic, n)
      ensures NicID(nic) == Some(n)
    {
      NumberedIff(nic, n);
    }
  }

  lemma {:induction false} FindRead(order: seq<Object<VM>>, name: Name)
    ensures Find(order, name).Some? <==> exists j :: 0 <= j < |order| && order[j].name == name
  {
    FindFromMisses(order, name, 0);
  }

  lemma {:induction false} CardResolves(order: seq<Object<VM>>, vm: VM, nic: NicName)
    requires nic in vm.nics
    ensures !BadCard(order, vm, nic) <==> NicID(nic).Some? && NicID(nic).value < 64 && Resolvable(order, vm.nics[nic])
  {
    hide Numbered, NicID;
    NicRead(nic);
    if vm.nics[nic].Direct? {
      NicRead(vm.nics[nic].peer.nic);
      FindRead(order, vm.nics[nic].peer.device);
    }
  }

  /** The user networks among the first n slots: none, one, or two in different slots. */
  lemma {:induction false} UserSlots(table: seq<NicCfg>, n: nat)
    requires n <= |table|
    ensures Count(table, n, true) == 0 <==> forall k :: 0 <= k < n ==> !table[k].Usernet?
    ensures Count(table, n, true) > 1 <==> exists k, l :: 0 <= k < l < n && table[k].Usernet? && table[l].Usernet?
  {
    if n > 0 {
      UserSlots(table, n - 1);
      if Count(table, n, true) > 1 && Count(table, n - 1, true) == 1 {
        var k :| 0 <= k < n - 1 && table[k].Usernet?;
        assert table[n - 1].Usernet?;
      }
    }
  }

  lemma {:induction false} TableBad(order: seq<Object<VM>>, vm: VM, table: seq<NicCfg>)
    requires IsTable(vm, table) && DistinctIDs(vm)
    ensures Unbuildable(order, table) <==> Bad(order, vm)
  {
    hide NicID, Numbered, BadCard, Resolvable;
    UserSlots(table, |table|);
    if Unbuildable(order, table) {
      UnbuildableBad(order, vm, table);
    }
    if TwoUserNetworks(vm) {
      var a, b :| a in vm.nics && b in vm.nics && a != b && vm.nics[a].Usernet? && vm.nics[b].Usernet?;
      TableHolds(vm, table, a);
      TableHolds(vm, table, b);
      var k, l := NicID(a).value, NicID(b).value;
      assert k != l;
      assert table[if k < l then k else l].Usernet? && table[if k < l then l else k].Usernet?;
    }
    if exists nic :: BadCard(order, vm, nic) {
      var nic :| BadCard(order, vm, nic);
      BadNamed(order, vm, nic);
      TableHolds(vm, table, nic);
      CardResolves(order, vm, nic);
    }
  }

  lemma {:induction false} BadNamed(order: seq<Object<VM>>, vm: VM, nic: NicName)
    ensures BadCard(order, vm, nic) ==> nic in vm.nics
  {
  }

  lemma {:induction false} UnbuildableBad(order: seq<Object<VM>>, vm: VM, table: seq<NicCfg>)
    requires IsTable(vm, table) && Unbuildable(order, table)
    ensures Bad(order, vm)
  {
    hide NicID, Numbered, BadCard;
    if !AllResolvable(order, table, |table|) {
      var k :| 0 <= k < |table| && !Resolvable(order, table[k]);
      assert SlotFilled(vm, table, k);
      var nic :| nic in vm.nics && NicID(nic) == Some(k) && table[k] == vm.nics[nic];
      CardResolves(order, vm, nic);
    } else {
      UserSlots(table, |table|);
      var k, l :| 0 <= k < l < |table| && table[k].Usernet? && table[l].Usernet?;
      assert SlotFilled(vm, table, k) && SlotFilled(vm, table, l);
      var a :| a in vm.nics && NicID(a) == Some(k) && table[k] == vm.nics[a];
      var b :| b in vm.nics && NicID(b) == Some(l) && table[l] == vm.nics[b];
      assert a != b;
    }
  }

  /** A refused configuration has a machine with a bad card or two user networks. */
  lemma {:induction false} RefusedRead(order: seq<Object<VM>>, i: nat)
    requires i < |order| && Broken(order, i)
    ensures Bad(order, order[i].spec)
  {
    hide IsTable, BadCard;
    if !NicsValid(order[i].spec) {
      var nic :| nic in order[i].spec.nics && !(NicID(nic).Some? && NicID(nic).value < MAX_NICS);
      CardResolves(order, order[i].spec, nic);
    } else {
      var table :| IsTable(order[i].spec, table) && Unbuildable(order, table);
      UnbuildableBad(order, order[i].spec, table);
    }
  }

  /** One that is not, if the cards of a machine have different numbers, has neither on that machine. */
  lemma {:induction false} AcceptedRead(order: seq<Object<VM>>, tables: seq<seq<NicCfg>>, devs: seq<seq<Netdev>>, i: nat)
    requires LabOf(order, tables, devs, |order|) && i < |order| && DistinctIDs(order[i].spec) && !Broken(order, i)
    ensures !Bad(order, order[i].spec)
  {
    hide IsTable, DevicesOf, Bad;
    assert MachineOf(order, tables, devs, i);
    TableBad(order, order[i].spec, tables[i]);
  }
}
