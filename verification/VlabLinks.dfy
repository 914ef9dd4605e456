/** From wiring links to the network cards of virtual machines. */
module VlabLinks {
  import opened Store

  /** Network card names: the management card, server, switch and gateway ports, ports renamed by their driver, and other names. */
  datatype NicName = Management | ServerPort(n: nat) | SwitchPort(n: nat) | GatewayPort(n: nat) | RenamedPort(n: nat, phys: nat) | OtherName(id: nat)

  datatype Port = Port(device: Name, nic: NicName)

  datatype NicCfg = Noop | Direct(peer: Port) | Usernet | Tap(mac: Option<Name>) | Passthrough(pci: Name)

  datatype VMType = Control | Gateway | Server | Switch | ExternalVM

  datatype VM = VM(vmType: VMType, nics: map<NicName, NicCfg>)

  type VMs = map<Name, VM>

  predicate HasNic(vms: VMs, p: Port) {
    p.device in vms && p.nic in vms[p.device].nics
  }

  function NicAt(vms: VMs, p: Port): NicCfg
    requires HasNic(vms, p)
  {
    vms[p.device].nics[p.nic]
  }

  /** Cards are directly linked in pairs. */
  ghost predicate Symmetric(vms: VMs) {
    forall p: Port :: HasNic(vms, p) && NicAt(vms, p).Direct? ==> PeerOf(vms, p)
  }

  predicate PeerOf(vms: VMs, p: Port)
    requires HasNic(vms, p) && NicAt(vms, p).Direct?
  {
    var q := NicAt(vms, p).peer;
    HasNic(vms, q) && NicAt(vms, q) == Direct(p)
  }

  function SetNic(vms: VMs, p: Port, c: NicCfg): VMs
    requires p.device in vms
  {
    vms[p.device := vms[p.device].(nics := vms[p.device].nics[p.nic := c])]
  }

  lemma {:induction false} SetNicAt(vms: VMs, p: Port, c: NicCfg, q: Port)
    requires p.device in vms
    ensures HasNic(SetNic(vms, p, c), q) <==> q == p || HasNic(vms, q)
    ensures HasNic(SetNic(vms, p, c), q) ==> NicAt(SetNic(vms, p, c), q) == if q == p then c else NicAt(vms, q)
  {
  }

  /** The links of a hardware device reach the VMs through PCI passthrough. */
  datatype Hardware = Hardware(devices: set<Name>, passthrough: map<Port, Name>)

  predicate IsControl(vms: VMs, device: Name) {
    device in vms && vms[device].vmType == Control
  }

  /** The link can be made at all. */
  predicate Linkable(vms: VMs, hw: Hardware, a: Port, b: Port) {
    && (a.device !in hw.devices ==> a.device in vms)
    && (b.device !in hw.devices ==> b.device in vms)
    && !IsControl(vms, a.device) && !IsControl(vms, b.device)
  }

  /** The machines after a link between two ports, or none when it fails. */
  function Linked(vms: VMs, hw: Hardware, a: Port, b: Port): Option<VMs> {
    var aHW, bHW := a.device in hw.devices, b.device in hw.devices;
    if aHW && bHW then Some(vms)
    else if !Linkable(vms, hw, a, b) then None
    else if !aHW && !bHW then
      if HasNic(vms, a) || HasNic(vms, b) then None
      else Some(SetNic(SetNic(vms, a, Direct(b)), b, Direct(a)))
    else if aHW then
      if a !in hw.passthrough then None else Some(SetNic(vms, b, Passthrough(hw.passthrough[a])))
    else
      if b !in hw.passthrough then None else Some(SetNic(vms, a, Passthrough(hw.passthrough[b])))
  }

  /** The card that a link to a hardware device takes on the virtual side, if it is such a link. */
  function TakesOver(hw: Hardware, a: Port, b: Port): Option<Port> {
    var aHW, bHW := a.device in hw.devices, b.device in hw.devices;
    if aHW == bHW then None else if aHW then Some(b) else Some(a)
  }

  /** A card that is directly linked to another card. */
  predicate PairedElsewhere(vms: VMs, p: Port) {
    HasNic(vms, p) && NicAt(vms, p).Direct? && NicAt(vms, p).peer != p
  }

  lemma {:induction false} DirectKeeps(vms: VMs, a: Port, b: Port)
    requires Symmetric(vms) && a.device in vms && b.device in vms && !HasNic(vms, a) && !HasNic(vms, b)
    ensures Symmetric(SetNic(SetNic(vms, a, Direct(b)), b, Direct(a)))
  {
    var mid := SetNic(vms, a, Direct(b));
    var now := SetNic(mid, b, Direct(a));
    forall p: Port | HasNic(now, p) && NicAt(now, p).Direct?
      ensures PeerOf(now, p)
    {
      SetNicAt(vms, a, Direct(b), p);
      SetNicAt(mid, b, Direct(a), p);
      var q := NicAt(now, p).peer;
      SetNicAt(vms, a, Direct(b), q);
      SetNicAt(mid, b, Direct(a), q);
      assert p != a && p != b ==> PeerOf(vms, p);
    }
  }

  lemma {:induction false} PassthroughKeeps(vms: VMs, p: Port, pci: Name)
    requires Symmetric(vms) && p.device in vms
    ensures Symmetric(SetNic(vms, p, Passthrough(pci))) <==> !PairedElsewhere(vms, p)
  {
    var now := SetNic(vms, p, Passthrough(pci));
    if PairedElsewhere(vms, p) {
      var q := NicAt(vms, p).peer;
      assert PeerOf(vms, p);
      SetNicAt(vms, p, Passthrough(pci), q);
      SetNicAt(vms, p, Passthrough(pci), p);
      assert !PeerOf(now, q);
    } else {
      forall q: Port | HasNic(now, q) && NicAt(now, q).Direct?
        ensures PeerOf(now, q)
      {
        SetNicAt(vms, p, Passthrough(pci), q);
        assert PeerOf(vms, q);
        SetNicAt(vms, p, Passthrough(pci), NicAt(vms, q).peer);
      }
    }
  }

  /** A link keeps cards paired, except when a hardware link takes over a card that is already paired with another. */
  lemma {:induction false} LinkKeeps(vms: VMs, hw: Hardware, a: Port, b: Port)
    requires Symmetric(vms) && Linked(vms, hw, a, b).Some?
    ensures Symmetric(Linked(vms, hw, a, b).value) <==>
      !(TakesOver(hw, a, b).Some? && PairedElsewhere(vms, TakesOver(hw, a, b).value))
  {
    hide Symmetric, PairedElsewhere;
    var aHW, bHW := a.device in hw.devices, b.device in hw.devices;
    if !aHW && !bHW {
      DirectKeeps(vms, a, b);
    } else if aHW && !bHW {
      PassthroughKeeps(vms, b, hw.passthrough[a]);
    } else if bHW && !aHW {
      PassthroughKeeps(vms, a, hw.passthrough[b]);
    }
  }

  /** Two links of virtual switches, then a hardware link to a port already in use: nothing objects and the pair is broken. */
  lemma {:induction false} TakeoverBreaksPair()
    ensures exists vms: VMs, hw: Hardware, a: Port, b: Port, c: Port ::
      && Symmetric(vms) && Linked(vms, hw, a, b).Some?
      && Linked(Linked(vms, hw, a, b).value, hw, c, a).Some?
      && !Symmetric(Linked(Linked(vms, hw, a, b).value, hw, c, a).value)
  {
    var vms: VMs := map[0 := VM(Switch, map[]), 1 := VM(Switch, map[])];
    var a, b, c := Port(0, SwitchPort(1)), Port(1, SwitchPort(1)), Port(2, SwitchPort(1));
    var hw := Hardware({2}, map[c := 7]);
    forall p: Port
      ensures !HasNic(vms, p)
    {
    }
    LinkKeeps(vms, hw, a, b);
    var mid := Linked(vms, hw, a, b).value;
    SetNicAt(SetNic(vms, a, Direct(b)), b, Direct(a), a);
    SetNicAt(vms, a, Direct(b), a);
    LinkKeeps(mid, hw, c, a);
  }

  // ---- A whole list of links -------------------------------------------------------------------------

  datatype LinkPair = LinkPair(a: Port, b: Port)

  predicate NoSharedPort(x: LinkPair, y: LinkPair) {
    x.a != y.a && x.b != y.b && x.a != y.b && x.b != y.a
  }

  /** Every end of the listed links is a port that no other end uses. */
  predicate UsedOnce(links: seq<LinkPair>) {
    forall i, j :: 0 <= i < j < |links| ==> NoSharedPort(links[i], links[j])
  }

  predicate Free(vms: VMs, links: seq<LinkPair>, n: nat)
    requires n <= |links|
  {
    forall i :: n <= i < |links| ==> !HasNic(vms, links[i].a) && !HasNic(vms, links[i].b)
  }

  lemma {:induction false} LinkedNics(vms: VMs, hw: Hardware, a: Port, b: Port, q: Port)
    requires Linked(vms, hw, a, b).Some?
    ensures HasNic(Linked(vms, hw, a, b).value, q) ==> HasNic(vms, q) || q == a || q == b
  {
    var aHW, bHW := a.device in hw.devices, b.device in hw.devices;
    if !aHW && !bHW {
      SetNicAt(vms, a, Direct(b), q);
      SetNicAt(SetNic(vms, a, Direct(b)), b, Direct(a), q);
    } else if aHW && !bHW {
      SetNicAt(vms, b, Passthrough(hw.passthrough[a]), q);
    } else if bHW && !aHW {
      SetNicAt(vms, a, Passthrough(hw.passthrough[b]), q);
    }
  }

  /** The configuration whose machines the links fill in. */
  class VlabConfig {
    var vms: VMs
    const hw: Hardware

    constructor (vms: VMs, hw: Hardware)
      ensures this.vms == vms && this.hw == hw
    {
      this.vms, this.hw := vms, hw;
    }

    method AddLink(a: Port, b: Port) returns (ok: bool)
      modifies this
      ensures ok <==> Linked(old(vms), hw, a, b).Some?
      ensures vms == if ok then Linked(old(vms), hw, a, b).value else old(vms)
    {
      var aHW, bHW := a.device in hw.devices, b.device in hw.devices;
      ok := false;
      if aHW && bHW {
        return true;
      }
      if !aHW && a.device !in vms {
        return;
      }
      if !bHW && b.device !in vms {
        return;
      }
      if IsControl(vms, a.device) || IsControl(vms, b.device) {
        return;
      }
      if !aHW && !bHW {
        if HasNic(vms, a) || HasNic(vms, b) {
          return;
        }
        vms := SetNic(vms, a, Direct(b));
        vms := SetNic(vms, b, Direct(a));
      } else if aHW {
        if a !in hw.passthrough {
          return;
        }
        vms := SetNic(vms, b, Passthrough(hw.passthrough[a]));
      } else {
        if b !in hw.passthrough {
          return;
        }
        vms := SetNic(vms, a, Passthrough(hw.passthrough[b]));
      }
      ok := true;
    }

    /** The connection loop: links are added until one fails. */
    method AddLinks(links: seq<LinkPair>) returns (ok: bool)
      modifies this
      ensures ok <==> LinkedAll(old(vms), hw, links, |links|).Some?
      ensures ok ==> vms == LinkedAll(old(vms), hw, links, |links|).value
    {
      hide Linked;
      ok := true;
      var i := 0;
      while i < |links|
        invariant 0 <= i <= |links| && ok
        invariant LinkedAll(old(vms), hw, links, i) == Some(vms)
      {
        ok := AddLink(links[i].a, links[i].b);
        if !ok {
          FailedStays(old(vms), hw, links, i + 1, |links|);
          return;
        }
        i := i + 1;
      }
    }
  }

  /** The machines after the first n links, or none when one of them failed. */
  function LinkedAll(vms: VMs, hw: Hardware, links: seq<LinkPair>, n: nat): Option<VMs>
    requires n <= |links|
  {
    if n == 0 then Some(vms)
    else
      var before := LinkedAll(vms, hw, links, n - 1);
      if before.None? then None else Linked(before.value, hw, links[n - 1].a, links[n - 1].b)
  }

  lemma {:induction false} FailedStays(vms: VMs, hw: Hardware, links: seq<LinkPair>, i: nat, n: nat)
    requires i <= n <= |links| && LinkedAll(vms, hw, links, i).None?
    ensures LinkedAll(vms, hw, links, n).None?
  {
    if i < n {
      FailedStays(vms, hw, links, i, n - 1);
    }
  }

  /** Links that use each port once, and none that is in use already, leave all cards paired. */
  lemma {:induction false} OnceMeansPaired(vms: VMs, hw: Hardware, links: seq<LinkPair>, n: nat)
    requires Symmetric(vms) && UsedOnce(links) && Free(vms, links, 0) && n <= |links|
    ensures var r := LinkedAll(vms, hw, links, n); r.Some? ==> Symmetric(r.value) && Free(r.value, links, n)
  {
    hide Symmetric, Linked, UsedOnce;
    if n > 0 {
      OnceMeansPaired(vms, hw, links, n - 1);
      var before := LinkedAll(vms, hw, links, n - 1);
      if before.Some? && LinkedAll(vms, hw, links, n).Some? {
        LinkKeeps(before.value, hw, links[n - 1].a, links[n - 1].b);
        StaysFree(before.value, hw, links, n - 1);
      }
    }
  }

  /** Without hardware the checks against ports in use are enough: whatever the links, success leaves all cards paired. */
  lemma {:induction false} VirtualMeansPaired(vms: VMs, hw: Hardware, links: seq<LinkPair>, n: nat)
    requires Symmetric(vms) && hw.devices == {} && n <= |links|
    ensures var r := LinkedAll(vms, hw, links, n); r.Some? ==> Symmetric(r.value)
  {
    hide Symmetric, Linked;
    if n > 0 {
      VirtualMeansPaired(vms, hw, links, n - 1);
      var before := LinkedAll(vms, hw, links, n - 1);
      if before.Some? && LinkedAll(vms, hw, links, n).Some? {
        LinkKeeps(before.value, hw, links[n - 1].a, links[n - 1].b);
      }
    }
  }

  lemma {:induction false} StaysFree(vms: VMs, hw: Hardware, links: seq<LinkPair>, i: nat)
    requires i < |links| && UsedOnce(links) && Free(vms, links, i)
    ensures var r := Linked(vms, hw, links[i].a, links[i].b); r.Some? ==> Free(r.value, links, i + 1)
  {
    hide Linked;
    var r := Linked(vms, hw, links[i].a, links[i].b);
    if r.Some? {
      forall k | i + 1 <= k < |links|
        ensures !HasNic(r.value, links[k].a) && !HasNic(r.value, links[k].b)
      {
        assert NoSharedPort(links[i], links[k]);
        LinkedNics(vms, hw, links[i].a, links[i].b, links[k].a);
        LinkedNics(vms, hw, links[i].a, links[i].b, links[k].b);
      }
    }
  }

  lemma {:induction false} StaysLinkable(vms: VMs, hw: Hardware, a: Port, b: Port, c: Port, d: Port)
    requires Linked(vms, hw, a, b).Some? && hw.devices == {} && Linkable(vms, hw, c, d)
    ensures Linkable(Linked(vms, hw, a, b).value, hw, c, d)
  {
  }

  /** Without hardware, links between machines that use each port once, and none that is in use already, are all accepted. */
  lemma {:induction false} OnceMeansLinked(vms: VMs, hw: Hardware, links: seq<LinkPair>, n: nat)
    requires UsedOnce(links) && Free(vms, links, 0) && hw.devices == {} && n <= |links|
    requires forall i :: 0 <= i < |links| ==> Linkable(vms, hw, links[i].a, links[i].b)
    ensures var r := LinkedAll(vms, hw, links, n);
      r.Some? && Free(r.value, links, n) && forall i :: 0 <= i < |links| ==> Linkable(r.value, hw, links[i].a, links[i].b)
  {
    hide UsedOnce, Linkable;
    if n > 0 {
      OnceMeansLinked(vms, hw, links, n - 1);
      var before, x := LinkedAll(vms, hw, links, n - 1).value, links[n - 1];
      FreeLinks(before, hw, x.a, x.b);
      StaysFree(before, hw, links, n - 1);
      forall i | 0 <= i < |links|
        ensures Linkable(Linked(before, hw, x.a, x.b).value, hw, links[i].a, links[i].b)
      {
        StaysLinkable(before, hw, x.a, x.b, links[i].a, links[i].b);
      }
    }
  }

  lemma {:induction false} FreeLinks(vms: VMs, hw: Hardware, a: Port, b: Port)
    requires hw.devices == {} && Linkable(vms, hw, a, b) && !HasNic(vms, a) && !HasNic(vms, b)
    ensures Linked(vms, hw, a, b).Some?
  {
  }
}
