/** What adding a link does to the machines, card by card. */
module LinkReads {
  import opened Store
  import opened VlabLinks

  predicate Virtual(hw: Hardware, p: Port) {
    p.device !in hw.devices
  }

  predicate IsMachine(vms: VMs, p: Port) {
    p.device in vms
  }

  predicate InUse(vms: VMs, p: Port) {
    p.device in vms && p.nic in vms[p.device].nics
  }

  predicate OnControl(vms: VMs, p: Port) {
    p.device in vms && vms[p.device].vmType == Control
  }

  /** A link with a virtual end fails if a virtual end has no machine, an end is on a control machine, both ends are virtual and one is in use, or the hardware end has no passthrough. */
  predicate Fails(vms: VMs, hw: Hardware, a: Port, b: Port) {
    (Virtual(hw, a) || Virtual(hw, b)) && (
      || (Virtual(hw, a) && !IsMachine(vms, a)) || (Virtual(hw, b) && !IsMachine(vms, b))
      || OnControl(vms, a) || OnControl(vms, b)
      || (Virtual(hw, a) && Virtual(hw, b) && (InUse(vms, a) || InUse(vms, b)))
      || (!Virtual(hw, a) && a !in hw.passthrough) || (!Virtual(hw, b) && b !in hw.passthrough))
  }

  /** The card of a virtual end: linked to the other end, or passed through to the hardware there. */
  predicate Wired(hw: Hardware, other: Port, c: NicCfg) {
    if Virtual(hw, other) then c.Direct? && c.peer == other
    else c.Passthrough? && other in hw.passthrough && c.pci == hw.passthrough[other]
  }

  lemma {:induction false} FailsIff(vms: VMs, hw: Hardware, a: Port, b: Port)
    ensures Linked(vms, hw, a, b).None? <==> Fails(vms, hw, a, b)
  {
  }

  /** A link that does not fail wires its virtual ends and leaves all other cards, and the machines themselves, as they are. */
  lemma {:induction false} LinkRead(vms: VMs, hw: Hardware, a: Port, b: Port, q: Port)
    requires Linked(vms, hw, a, b).Some?
    ensures var now := Linked(vms, hw, a, b).value;
      && now.Keys == vms.Keys && (forall d :: d in vms ==> now[d].vmType == vms[d].vmType)
      && (Virtual(hw, a) ==> InUse(now, a) && Wired(hw, b, now[a.device].nics[a.nic]))
      && (Virtual(hw, b) ==> InUse(now, b) && Wired(hw, a, now[b.device].nics[b.nic]))
      && (!(Virtual(hw, a) && q == a) && !(Virtual(hw, b) && q == b) ==>
            (InUse(now, q) <==> InUse(vms, q)) && (InUse(now, q) ==> now[q.device].nics[q.nic] == vms[q.device].nics[q.nic]))
  {
    if Virtual(hw, a) && Virtual(hw, b) {
      BothWired(vms, a, b, q);
    }
  }

  lemma {:induction false} BothWired(vms: VMs, a: Port, b: Port, q: Port)
    requires a.device in vms && b.device in vms
    ensures var now := SetNic(SetNic(vms, a, Direct(b)), b, Direct(a));
      && InUse(now, a) && now[a.device].nics[a.nic] == Direct(b) && InUse(now, b) && now[b.device].nics[b.nic] == Direct(a)
      && (q != a && q != b ==> (InUse(now, q) <==> InUse(vms, q)) && (InUse(now, q) ==> now[q.device].nics[q.nic] == vms[q.device].nics[q.nic]))
  {
  }
}
