/** From a configuration of virtual machines to their QEMU network devices. */
module VlabSockets {
  import opened Store
  import opened Sorting
  import opened VlabLinks

  const MAX_NICS := 64
  const NICS_PER_BRIDGE := 32
  const BRIDGES := 2
  const BASE_SSH_PORT := 22000
  const BASE_DIRECT_PORT := 22100

  /** The order of the machine types' names. */
  function TypeRank(vm: VM): nat {
    match vm.vmType
    case Control => 0
    case ExternalVM => 1
    case Gateway => 2
    case Server => 3
    case Switch => 4
  }

  /** The card's number, when its name has one that fits eight bits. */
  function NicID(nic: NicName): Option<nat> {
    match nic
    case Management => Some(0)
    case ServerPort(n) => if n < 256 then Some(n) else None
    case SwitchPort(n) => if n < 256 then Some(n) else None
    case GatewayPort(n) => if n < 256 then Some(n) else None
    case RenamedPort(n, _) => if n < 256 then Some(n) else None
    case OtherName(_) => None
  }

  function DirectPort(vmID: nat, nicID: nat): nat {
    BASE_DIRECT_PORT + 100 * vmID + nicID
  }

  function SSHPort(vmID: nat): nat {
    BASE_SSH_PORT + vmID
  }

  // ---- Ports --------------------------------------------------------------------------------

  /** Different cards of a lab have different direct ports. */
  lemma {:induction false} DirectPortsDistinct(i: nat, k: nat, j: nat, l: nat)
    requires k < 100 && l < 100
    ensures DirectPort(i, k) == DirectPort(j, l) <==> i == j && k == l
  {
  }

  /** The direct ports of n machines avoid the SSH ports of all of them iff there are at most a hundred machines. */
  lemma {:induction false} PortsAvoidSSH(n: nat)
    ensures (forall i: nat, k: nat, j: nat :: i < n && k < MAX_NICS && j < n ==> DirectPort(i, k) != SSHPort(j)) <==> n <= 100
  {
    if n > 100 {
      assert DirectPort(0, 0) == SSHPort(100);
    }
  }

  /** All direct ports of a machine are 16-bit port numbers iff its number is at most 433. */
  lemma {:induction false} PortsFit(i: nat)
    ensures (forall k: nat :: k < MAX_NICS ==> DirectPort(i, k) < 0x1_0000) <==> i <= 433
  {
    if i > 433 {
      assert DirectPort(i, 63) >= 0x1_0000;
    }
  }

  /** Cards of a machine sit in different slots of the two PCI bridges. */
  lemma {:induction false} SlotsDistinct(k: nat, l: nat)
    requires k < MAX_NICS && l < MAX_NICS
    ensures k / NICS_PER_BRIDGE < BRIDGES && k % NICS_PER_BRIDGE < NICS_PER_BRIDGE
    ensures k / NICS_PER_BRIDGE == l / NICS_PER_BRIDGE && k % NICS_PER_BRIDGE == l % NICS_PER_BRIDGE ==> k == l
  {
  }

  // ---- Card tables ------------------------------------------------------------------------------

  predicate NicsValid(vm: VM) {
    forall nic :: nic in vm.nics ==> NicID(nic).Some? && NicID(nic).value < MAX_NICS
  }

  /** No two cards of the machine have the same number. */
  ghost predicate DistinctIDs(vm: VM) {
    forall a, b :: a in vm.nics && b in vm.nics && NicID(a).Some? && NicID(a) == NicID(b) ==> a == b
  }

  /** Slot k holds a card numbered k, or a filler when there is none; the last slot is that of the highest number. */
  ghost predicate IsTable(vm: VM, table: seq<NicCfg>) {
    && 0 < |table| <= MAX_NICS
    && (|table| == 1 || exists nic :: nic in vm.nics && NicID(nic) == Some(|table| - 1))
    && (forall nic :: nic in vm.nics ==> NicID(nic).Some? && NicID(nic).value < |table|)
    && (forall k :: 0 <= k < |table| ==> SlotFilled(vm, table, k))
  }

  ghost predicate SlotFilled(vm: VM, table: seq<NicCfg>, k: nat)
    requires k < |table|
  {
    || (exists nic :: nic in vm.nics && NicID(nic) == Some(k) && table[k] == vm.nics[nic])
    || (table[k] == Noop && forall nic :: nic in vm.nics ==> NicID(nic) != Some(k))
  }

  lemma {:induction false} TableHolds(vm: VM, table: seq<NicCfg>, nic: NicName)
    requires IsTable(vm, table) && DistinctIDs(vm) && nic in vm.nics
    ensures NicID(nic).Some? && NicID(nic).value < |table| && table[NicID(nic).value] == vm.nics[nic]
  {
    assert SlotFilled(vm, table, NicID(nic).value);
  }

  /** A machine whose cards have different numbers has one table. */
  lemma {:induction false} TableUnique(vm: VM, a: seq<NicCfg>, b: seq<NicCfg>)
    requires IsTable(vm, a) && IsTable(vm, b) && DistinctIDs(vm)
    ensures a == b
  {
    forall k | 0 <= k < |a|
      ensures a[k] == b[k]
    {
      assert SlotFilled(vm, a, k) && SlotFilled(vm, b, k);
    }
  }

  /** The cards by number, in whatever order the map yields them. */
  method CollectNics(vm: VM) returns (ok: bool, byID: map<nat, NicCfg>, maxID: nat)
    ensures ok <==> forall nic :: nic in vm.nics ==> NicID(nic).Some?
    ensures ok ==> forall nic :: nic in vm.nics ==> NicID(nic).value in byID && NicID(nic).value <= maxID
    ensures ok ==> forall k :: k in byID ==> exists nic :: nic in vm.nics && NicID(nic) == Some(k) && byID[k] == vm.nics[nic]
    ensures ok ==> maxID == 0 || exists nic :: nic in vm.nics && NicID(nic) == Some(maxID)
  {
    ok, byID, maxID := true, map[], 0;
    var todo := vm.nics.Keys;
    while todo != {}
      invariant todo <= vm.nics.Keys && ok
      invariant forall nic :: nic in vm.nics && nic !in todo ==> NicID(nic).Some? && NicID(nic).value in byID && NicID(nic).value <= maxID
      invariant forall k :: k in byID ==> exists nic :: nic in vm.nics && NicID(nic) == Some(k) && byID[k] == vm.nics[nic]
      invariant maxID == 0 || exists nic :: nic in vm.nics && NicID(nic) == Some(maxID)
    {
      var nic :| nic in todo;
      todo := todo - {nic};
      var id := NicID(nic);
      if id.None? {
        ok := false;
        return;
      }
      if id.value > maxID {
        maxID := id.value;
      }
      byID := byID[id.value := vm.nics[nic]];
    }
  }

  method BuildTable(vm: VM) returns (ok: bool, table: seq<NicCfg>)
    ensures ok <==> NicsValid(vm)
    ensures ok ==> IsTable(vm, table)
  {
    var byID, maxID;
    table := [];
    ok, byID, maxID := CollectNics(vm);
    if !ok {
      return;
    }
    if maxID >= MAX_NICS {
      ok := false;
      return;
    }
    var idx := 0;
    while idx <= maxID
      invariant 0 <= idx <= maxID + 1 && |table| == idx
      invariant forall k :: 0 <= k < idx ==> table[k] == if k in byID then byID[k] else Noop
    {
      table := table + [if idx in byID then byID[idx] else Noop];
      idx := idx + 1;
    }
  }

  // ---- Devices ------------------------------------------------------------------------------------

  datatype Netdev = Listen(port: nat) | Socket(udp: nat, localaddr: nat) | User(ssh: nat) | TapDevice(n: nat) | Passed(pci: Name)

  function Count(table: seq<NicCfg>, n: nat, usernet: bool): nat
    requires n <= |table|
  {
    if n == 0 then 0
    else Count(table, n - 1, usernet) + if (usernet && table[n - 1].Usernet?) || (!usernet && table[n - 1].Tap?) then 1 else 0
  }

  predicate Resolvable(order: seq<Object<VM>>, c: NicCfg) {
    c.Direct? ==> Find(order, c.peer.device).Some? && NicID(c.peer.nic).Some?
  }

  predicate AllResolvable(order: seq<Object<VM>>, table: seq<NicCfg>, n: nat)
    requires n <= |table|
  {
    forall k :: 0 <= k < n ==> Resolvable(order, table[k])
  }

  /** The device of card k; taps are numbered through all machines. */
  function DeviceOf(order: seq<Object<VM>>, vmID: nat, table: seq<NicCfg>, k: nat, taps: nat): Netdev
    requires k < |table| && Resolvable(order, table[k])
  {
    match table[k]
    case Noop => Listen(DirectPort(vmID, k))
    case Direct(peer) => Socket(DirectPort(vmID, k), DirectPort(Find(order, peer.device).value, NicID(peer.nic).value))
    case Usernet => User(SSHPort(vmID))
    case Tap(_) => TapDevice(taps + Count(table, k, false))
    case Passthrough(pci) => Passed(pci)
  }

  ghost predicate DevicesOf(order: seq<Object<VM>>, vmID: nat, table: seq<NicCfg>, taps: nat, devs: seq<Netdev>, n: nat)
    requires n <= |table|
  {
    |devs| == n && AllResolvable(order, table, n) && forall k :: 0 <= k < n ==> devs[k] == DeviceOf(order, vmID, table, k, taps)
  }

  lemma {:induction false} CountGrows(table: seq<NicCfg>, i: nat, n: nat, usernet: bool)
    requires i <= n <= |table|
    ensures Count(table, i, usernet) <= Count(table, n, usernet)
  {
    if i < n {
      CountGrows(table, i, n - 1, usernet);
    }
  }

  method BuildDevices(order: seq<Object<VM>>, vmID: nat, table: seq<NicCfg>, taps: nat) returns (ok: bool, devs: seq<Netdev>, taps': nat)
    ensures ok <==> AllResolvable(order, table, |table|) && Count(table, |table|, true) <= 1
    ensures ok ==> DevicesOf(order, vmID, table, taps, devs, |table|) && taps' == taps + Count(table, |table|, false)
  {
    ok, devs, taps' := false, [], taps;
    var usernet := 0;
    var k := 0;
    while k < |table|
      invariant 0 <= k <= |table| && !ok
      invariant DevicesOf(order, vmID, table, taps, devs, k)
      invariant taps' == taps + Count(table, k, false) && usernet == Count(table, k, true) <= 1
    {
      var dev;
      CountGrows(table, k + 1, |table|, true);
      match table[k] {
        case Noop =>
          dev := Listen(DirectPort(vmID, k));
        case Direct(peer) =>
          var other := Find(order, peer.device);
          if other.None? {
            return;
          }
          var otherNic := NicID(peer.nic);
          if otherNic.None? {
            return;
          }
          dev := Socket(DirectPort(vmID, k), DirectPort(other.value, otherNic.value));
        case Usernet =>
          if usernet > 0 {
            return;
          }
          usernet := usernet + 1;
          dev := User(SSHPort(vmID));
        case Tap(_) =>
          dev := TapDevice(taps');
          taps' := taps' + 1;
        case Passthrough(pci) =>
          dev := Passed(pci);
      }
      devs, k := devs + [dev], k + 1;
    }
    ok := true;
  }

  // ---- The whole lab ----------------------------------------------------------------------------------

  /** The list holds exactly the machines of the configuration. */
  ghost predicate Lists(list: seq<Object<VM>>, vms: VMs) {
    && DistinctNames(list)
    && (forall i :: 0 <= i < |list| ==> list[i].name in vms && vms[list[i].name] == list[i].spec)
    && (forall name :: name in vms ==> exists i :: 0 <= i < |list| && list[i].name == name)
  }

  /** What the lab's devices are, machine by machine. */
  ghost predicate LabOf(order: seq<Object<VM>>, tables: seq<seq<NicCfg>>, devs: seq<seq<Netdev>>, n: nat)
    requires n <= |order|
  {
    && |tables| == |devs| == n
    && forall i :: 0 <= i < n ==> MachineOf(order, tables, devs, i)
  }

  ghost predicate MachineOf(order: seq<Object<VM>>, tables: seq<seq<NicCfg>>, devs: seq<seq<Netdev>>, i: nat)
    requires i < |order| && i < |tables| && i < |devs|
  {
    IsTable(order[i].spec, tables[i]) && DevicesOf(order, i, tables[i], TapsBefore(tables, i), devs[i], |tables[i]|)
  }

  /** How many tap devices the first n machines have. */
  function TapsBefore(tables: seq<seq<NicCfg>>, n: nat): nat
    requires n <= |tables|
  {
    if n == 0 then 0 else TapsBefore(tables, n - 1) + Count(tables[n - 1], |tables[n - 1]|, false)
  }

  lemma {:induction false} TapsPrefix(tables: seq<seq<NicCfg>>, table: seq<NicCfg>, n: nat)
    requires n <= |tables|
    ensures TapsBefore(tables + [table], n) == TapsBefore(tables, n)
  {
    if n > 0 {
      TapsPrefix(tables, table, n - 1);
    }
  }

  lemma {:induction false} TapsGrow(tables: seq<seq<NicCfg>>, i: nat, n: nat)
    requires i <= n <= |tables|
    ensures TapsBefore(tables, i) <= TapsBefore(tables, n)
    ensures i < n ==> TapsBefore(tables, i) + Count(tables[i], |tables[i]|, false) <= TapsBefore(tables, n)
  {
    if i < n {
      TapsGrow(tables, i, n - 1);
    }
  }

  /** Every management card of the lab has a tap device of its own. */
  lemma {:induction false} TapsDistinct(order: seq<Object<VM>>, tables: seq<seq<NicCfg>>, devs: seq<seq<Netdev>>, i: nat, k: nat, j: nat, l: nat)
    requires LabOf(order, tables, devs, |order|)
    requires i < |order| && k < |tables[i]| && tables[i][k].Tap?
    requires j < |order| && l < |tables[j]| && tables[j][l].Tap?
    requires i < j || (i == j && k < l)
    ensures k < |devs[i]| && l < |devs[j]|
    ensures devs[i][k].TapDevice? && devs[j][l].TapDevice? && devs[i][k].n < devs[j][l].n
  {
    assert MachineOf(order, tables, devs, i) && MachineOf(order, tables, devs, j);
    CountGrows(tables[i], k + 1, if i == j then l else |tables[i]|, false);
    TapsGrow(tables, i, j);
  }

  /** A machine with an unusable card number, a link to nowhere, or two user networks. */
  ghost predicate Broken(order: seq<Object<VM>>, i: nat)
    requires i < |order|
  {
    !NicsValid(order[i].spec) || exists table :: IsTable(order[i].spec, table) && Unbuildable(order, table)
  }

  predicate Unbuildable(order: seq<Object<VM>>, table: seq<NicCfg>) {
    !AllResolvable(order, table, |table|) || Count(table, |table|, true) > 1
  }

  lemma {:induction false} BuiltNotBroken(order: seq<Object<VM>>, tables: seq<seq<NicCfg>>, devs: seq<seq<Netdev>>, taps: nat, i: nat)
    requires i < |order| && i < |tables| && i < |devs| && DistinctIDs(order[i].spec)
    requires IsTable(order[i].spec, tables[i]) && DevicesOf(order, i, tables[i], taps, devs[i], |tables[i]|) && Count(tables[i], |tables[i]|, true) <= 1
    ensures !Broken(order, i)
  {
    forall table | IsTable(order[i].spec, table)
      ensures !Unbuildable(order, table)
    {
      TableUnique(order[i].spec, table, tables[i]);
    }
  }

  method FromConfig(list: seq<Object<VM>>) returns (ok: bool, order: seq<Object<VM>>, tables: seq<seq<NicCfg>>, devs: seq<seq<Netdev>>)
    requires DistinctNames(list)
    ensures order == Sort(list, TypeRank)
    ensures ok ==> LabOf(order, tables, devs, |order|)
    ensures !ok ==> exists i :: 0 <= i < |order| && Broken(order, i)
    ensures ok ==> forall i :: 0 <= i < |order| && DistinctIDs(order[i].spec) ==> !Broken(order, i)
  {
    hide DevicesOf, IsTable, NicsValid, AllResolvable, DistinctIDs;
    order := SortObjects(list, TypeRank);
    ok, tables, devs := false, [], [];
    var taps := 0;
    var i := 0;
    while i < |order|
      invariant 0 <= i <= |order| && !ok
      invariant LabOf(order, tables, devs, i) && taps == TapsBefore(tables, i)
      invariant forall k :: 0 <= k < i && DistinctIDs(order[k].spec) ==> !Broken(order, k)
    {
      var fine, table, own;
      fine, table := BuildTable(order[i].spec);
      if !fine {
        assert Broken(order, i);
        return;
      }
      fine, own, taps := BuildDevices(order, i, table, taps);
      if !fine {
        assert Unbuildable(order, table);
        assert Broken(order, i);
        return;
      }
      LabGrows(order, tables, devs, i, table, own);
      if DistinctIDs(order[i].spec) {
        BuiltNotBroken(order, tables + [table], devs + [own], TapsBefore(tables, i), i);
      }
      tables, devs, i := tables + [table], devs + [own], i + 1;
    }
    ok := true;
  }

  lemma {:induction false} LabGrows(order: seq<Object<VM>>, tables: seq<seq<NicCfg>>, devs: seq<seq<Netdev>>, i: nat, table: seq<NicCfg>, own: seq<Netdev>)
    requires i < |order| && LabOf(order, tables, devs, i)
    requires IsTable(order[i].spec, table) && DevicesOf(order, i, table, TapsBefore(tables, i), own, |table|)
    ensures LabOf(order, tables + [table], devs + [own], i + 1)
    ensures TapsBefore(tables + [table], i + 1) == TapsBefore(tables, i) + Count(table, |table|, false)
  {
    hide DevicesOf, IsTable;
    TapsPrefix(tables, table, i);
    forall k | 0 <= k < i + 1
      ensures MachineOf(order, tables + [table], devs + [own], k)
    {
      if k < i {
        assert MachineOf(order, tables, devs, k);
        TapsPrefix(tables, table, k);
        assert (tables + [table])[k] == tables[k] && (devs + [own])[k] == devs[k];
      } else {
        assert (tables + [table])[k] == table && (devs + [own])[k] == own;
      }
    }
  }

  // ---- Sockets pair up -----------------------------------------------------------------------------------

  /** A configuration with paired cards and distinct card numbers, and the lab made from it. */
  ghost predicate PairedLab(vms: VMs, order: seq<Object<VM>>, tables: seq<seq<NicCfg>>, devs: seq<seq<Netdev>>) {
    && Symmetric(vms) && Lists(order, vms) && LabOf(order, tables, devs, |order|)
    && forall name :: name in vms ==> DistinctIDs(vms[name])
  }

  function IdOf(order: seq<Object<VM>>, name: Name): nat
    requires Find(order, name).Some?
  {
    Find(order, name).value
  }

  /** Where a card ends up. */
  lemma {:induction false} Placed(vms: VMs, order: seq<Object<VM>>, tables: seq<seq<NicCfg>>, devs: seq<seq<Netdev>>, p: Port)
    requires PairedLab(vms, order, tables, devs) && HasNic(vms, p)
    ensures Find(order, p.device).Some? && NicID(p.nic).Some?
    ensures var i, k := IdOf(order, p.device), NicID(p.nic).value;
      && i < |tables| && k < |tables[i]| <= MAX_NICS && tables[i][k] == NicAt(vms, p) && order[i].name == p.device
  {
    hide Symmetric, DistinctIDs, IsTable, DevicesOf;
    var x :| 0 <= x < |order| && order[x].name == p.device;
    FindUnique(order, x);
    assert MachineOf(order, tables, devs, x);
    TableHolds(order[x].spec, tables[x], p.nic);
    TableBound(order[x].spec, tables[x]);
  }

  lemma {:induction false} TableBound(vm: VM, table: seq<NicCfg>)
    requires IsTable(vm, table)
    ensures |table| <= MAX_NICS
  {
  }

  /** A direct card's device sends to its own port and listens on its peer's. */
  lemma {:induction false} DirectDevice(vms: VMs, order: seq<Object<VM>>, tables: seq<seq<NicCfg>>, devs: seq<seq<Netdev>>, p: Port)
    requires PairedLab(vms, order, tables, devs) && HasNic(vms, p) && NicAt(vms, p).Direct?
    ensures Find(order, p.device).Some? && NicID(p.nic).Some?
    ensures var q := NicAt(vms, p).peer;
      && Find(order, q.device).Some? && NicID(q.nic).Some?
      && var i, k, j, l := IdOf(order, p.device), NicID(p.nic).value, IdOf(order, q.device), NicID(q.nic).value;
        i < |devs| && k < |devs[i]| && devs[i][k] == Socket(DirectPort(i, k), DirectPort(j, l))
  {
    hide Symmetric, DistinctIDs, IsTable, Lists;
    Placed(vms, order, tables, devs, p);
    var i := IdOf(order, p.device);
    assert MachineOf(order, tables, devs, i);
    assert Resolvable(order, tables[i][NicID(p.nic).value]);
  }

  /** The sockets of two directly linked cards match crosswise. */
  lemma {:induction false} SocketsPair(vms: VMs, order: seq<Object<VM>>, tables: seq<seq<NicCfg>>, devs: seq<seq<Netdev>>, p: Port)
    requires PairedLab(vms, order, tables, devs) && HasNic(vms, p) && NicAt(vms, p).Direct?
    ensures var q := NicAt(vms, p).peer;
      && Find(order, p.device).Some? && NicID(p.nic).Some? && Find(order, q.device).Some? && NicID(q.nic).Some?
      && var i, k, j, l := IdOf(order, p.device), NicID(p.nic).value, IdOf(order, q.device), NicID(q.nic).value;
        && i < |devs| && k < |devs[i]| && j < |devs| && l < |devs[j]|
        && devs[i][k].Socket? && devs[j][l].Socket?
        && devs[i][k].udp == devs[j][l].localaddr && devs[i][k].localaddr == devs[j][l].udp
  {
    hide LabOf, Lists, DistinctIDs;
    assert PeerOf(vms, p);
    DirectDevice(vms, order, tables, devs, p);
    DirectDevice(vms, order, tables, devs, NicAt(vms, p).peer);
  }

  /** No two direct cards of a lab listen on the same port. */
  lemma {:induction false} LocalPortsDistinct(vms: VMs, order: seq<Object<VM>>, tables: seq<seq<NicCfg>>, devs: seq<seq<Netdev>>, p: Port, r: Port)
    requires PairedLab(vms, order, tables, devs) && p != r
    requires HasNic(vms, p) && NicAt(vms, p).Direct? && HasNic(vms, r) && NicAt(vms, r).Direct?
    ensures Find(order, p.device).Some? && NicID(p.nic).Some? && Find(order, r.device).Some? && NicID(r.nic).Some?
    ensures var i, k, j, l := IdOf(order, p.device), NicID(p.nic).value, IdOf(order, r.device), NicID(r.nic).value;
      && i < |devs| && k < |devs[i]| && j < |devs| && l < |devs[j]|
      && devs[i][k].Socket? && devs[j][l].Socket? && devs[i][k].localaddr != devs[j][l].localaddr
  {
    hide LabOf, Lists;
    assert PeerOf(vms, p) && PeerOf(vms, r);
    DirectDevice(vms, order, tables, devs, p);
    DirectDevice(vms, order, tables, devs, r);
    PlacesDistinct(vms, order, tables, devs, NicAt(vms, p).peer, NicAt(vms, r).peer);
  }

  lemma {:induction false} PlacesDistinct(vms: VMs, order: seq<Object<VM>>, tables: seq<seq<NicCfg>>, devs: seq<seq<Netdev>>, p: Port, r: Port)
    requires PairedLab(vms, order, tables, devs) && HasNic(vms, p) && HasNic(vms, r) && p != r
    ensures Find(order, p.device).Some? && NicID(p.nic).Some? && Find(order, r.device).Some? && NicID(r.nic).Some?
    ensures DirectPort(IdOf(order, p.device), NicID(p.nic).value) != DirectPort(IdOf(order, r.device), NicID(r.nic).value)
  {
    hide LabOf, Lists, Symmetric;
    Placed(vms, order, tables, devs, p);
    Placed(vms, order, tables, devs, r);
    DirectPortsDistinct(IdOf(order, p.device), NicID(p.nic).value, IdOf(order, r.device), NicID(r.nic).value);
    assert DistinctIDs(vms[p.device]);
  }
}
