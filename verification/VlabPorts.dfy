/** Port counters of the topology builder: 8-bit, with a wider stride for the ports behind the first 48. */
module VlabPorts {
  import opened Store

  const BYTES: nat := 256

  type U8 = n: nat | n < BYTES

  /** 8-bit wrap-around of a sum of two 8-bit numbers. */
  function Wrap(sum: nat): U8
    requires sum < 2 * BYTES
  {
    if sum < BYTES then sum else sum - BYTES
  }

  /** The counter of a switch after n calls that started from zero. */
  function Counter(n: nat): (r: U8)
  {
    if n == 0 then 0 else Advance(Counter(n - 1))
  }

  function Advance(id: U8): U8 {
    Wrap(id + if id >= 48 then 4 else 1)
  }

  /** The number in the name of the (n+1)-th port. */
  function PortNumber(n: nat): nat {
    Wrap(Counter(n) + 1)
  }

  lemma {:induction false} NextModHundred(n: nat)
    ensures (n + 1) % 100 == if n % 100 == 99 then 0 else n % 100 + 1
  {
  }

  /** The counter in closed form: a hundred calls bring it back to zero. */
  lemma {:induction false} CounterClosed(n: nat)
    ensures Counter(n) == (if n % 100 <= 48 then n % 100 else 48 + 4 * (n % 100 - 48))
  {
    if n > 0 {
      CounterClosed(n - 1);
      NextModHundred(n - 1);
    }
  }

  lemma {:induction false} PortClosed(n: nat)
    ensures PortNumber(n) == (if n % 100 <= 48 then 1 + n % 100 else 49 + 4 * (n % 100 - 48))
  {
    hide Counter;
    CounterClosed(n);
  }

  /** The first hundred ports of a switch are distinct, and the next one is the first again. */
  lemma {:induction false} FirstHundredDistinct(a: nat, b: nat)
    requires a < b < 100
    ensures PortNumber(a) != PortNumber(b)
    ensures PortNumber(100) == PortNumber(0)
  {
    hide PortNumber;
    PortClosed(a);
    PortClosed(b);
    PortClosed(100);
    PortClosed(0);
  }

  /** Two calls get the same port exactly when a multiple of a hundred calls lies between them. */
  lemma {:induction false} RepeatsEveryHundred(a: nat, b: nat)
    ensures PortNumber(a) == PortNumber(b) <==> a % 100 == b % 100
  {
    hide PortNumber;
    PortClosed(a);
    PortClosed(b);
  }

  const MAX_NICS := 64

  /** Among the first hundred calls: the counter is reported as too high exactly from the 56th call to the 99th. */
  lemma {:induction false} TooManyReported(n: nat)
    requires 1 <= n <= 100
    ensures Counter(n) > 76 <==> 55 < n < 100
  {
    hide Counter;
    CounterClosed(n);
  }

  /** Among the first hundred calls: exactly the first 52 give a port that fits a VM's network cards. */
  lemma {:induction false} FitsNICs(n: nat)
    requires n < 100
    ensures PortNumber(n) < MAX_NICS <==> n < 52
  {
    hide PortNumber;
    PortClosed(n);
  }

  // ---- The ports of one device -------------------------------------------------------------------

  datatype Device = Spine(id: nat) | Leaf(id: nat) | Server(id: nat)

  /** The counter of a server after n calls. */
  function ServerCounter(n: nat): U8 {
    if n == 0 then 0 else Wrap(ServerCounter(n - 1) + 1)
  }

  function CounterOf(d: Device, n: nat): U8 {
    if d.Server? then ServerCounter(n) else Counter(n)
  }

  /** The number in the name of a device's (n+1)-th port. */
  function NumberOf(d: Device, n: nat): nat {
    Wrap(CounterOf(d, n) + 1)
  }

  /** The ports a device can have before one comes again. */
  function PortLimit(d: Device): nat {
    if d.Server? then BYTES else 100
  }

  lemma {:induction false} ServerClosed(n: nat)
    requires n < BYTES
    ensures ServerCounter(n) == n
  {
    if n > 0 {
      ServerClosed(n - 1);
    }
  }

  lemma {:induction false} NumbersDistinct(d: Device, a: nat, b: nat)
    requires a < b < PortLimit(d)
    ensures NumberOf(d, a) != NumberOf(d, b)
  {
    if d.Server? {
      ServerClosed(a);
      ServerClosed(b);
    } else {
      FirstHundredDistinct(a, b);
    }
  }

  /** A port handed out to a device. */
  datatype Handed = Handed(device: Device, port: nat)

  /** How many of the first n ports went to the device. */
  function CallsIn(log: seq<Handed>, n: nat, d: Device): nat
    requires n <= |log|
  {
    if n == 0 then 0 else CallsIn(log, n - 1, d) + if log[n - 1].device == d then 1 else 0
  }

  lemma {:induction false} CallsPrefix(a: seq<Handed>, b: seq<Handed>, n: nat, d: Device)
    requires n <= |a|
    ensures CallsIn(a + b, n, d) == CallsIn(a, n, d)
  {
    if n > 0 {
      CallsPrefix(a, b, n - 1, d);
    }
  }

  lemma {:induction false} CallsGrow(log: seq<Handed>, i: nat, n: nat, d: Device)
    requires i <= n <= |log|
    ensures CallsIn(log, i, d) <= CallsIn(log, n, d)
    ensures i < n && log[i].device == d ==> CallsIn(log, i, d) < CallsIn(log, n, d)
  {
    if i < n {
      CallsGrow(log, i, n - 1, d);
    }
  }

  /** Every port of the log has the number that its device's next call gives. */
  predicate Sequential(log: seq<Handed>) {
    forall k :: 0 <= k < |log| ==> NumberedAt(log, k)
  }

  predicate NumberedAt(log: seq<Handed>, k: nat)
    requires k < |log|
  {
    log[k].port == NumberOf(log[k].device, CallsIn(log, k, log[k].device))
  }

  lemma {:induction false} SequentialAppend(log: seq<Handed>, x: Handed)
    requires Sequential(log) && x.port == NumberOf(x.device, CallsIn(log, |log|, x.device))
    ensures Sequential(log + [x])
    ensures forall d: Device :: CallsIn(log + [x], |log| + 1, d) == CallsIn(log, |log|, d) + if d == x.device then 1 else 0
  {
    var now := log + [x];
    forall k | 0 <= k < |now|
      ensures NumberedAt(now, k)
    {
      CallsPrefix(log, [x], k, now[k].device);
      assert k < |log| ==> NumberedAt(log, k);
    }
    forall d: Device
      ensures CallsIn(now, |log| + 1, d) == CallsIn(log, |log|, d) + if d == x.device then 1 else 0
    {
      CallsPrefix(log, [x], |log|, d);
    }
  }

  /** A switch that is given at most a hundred ports, or a server at most 256, is given each of them once. */
  lemma {:induction false} PortsUsedOnce(log: seq<Handed>, i: nat, j: nat)
    requires Sequential(log) && i < j < |log| && log[i].device == log[j].device
    requires CallsIn(log, |log|, log[i].device) <= PortLimit(log[i].device)
    ensures log[i].port != log[j].port
  {
    hide NumberOf, PortLimit;
    var d := log[i].device;
    assert NumberedAt(log, i) && NumberedAt(log, j);
    CallsGrow(log, i, j, d);
    CallsGrow(log, j, |log|, d);
    NumbersDistinct(d, CallsIn(log, i, d), CallsIn(log, j, d));
  }

  /** The ports of a switch that is given at most 52, or of a server that is given at most 63, fit its machine's cards. */
  lemma {:induction false} PortsFit(log: seq<Handed>, i: nat)
    requires Sequential(log) && i < |log|
    requires CallsIn(log, |log|, log[i].device) <= if log[i].device.Server? then 63 else 52
    ensures 0 < log[i].port < MAX_NICS
  {
    var d := log[i].device;
    assert NumberedAt(log, i);
    CallsGrow(log, i, |log|, d);
    var n := CallsIn(log, i, d);
    if d.Server? {
      ServerClosed(n);
    } else {
      FitsNICs(n);
      PortClosed(n);
    }
  }

  /** The builder's table of port counters, and a log of the ports it has handed out. */
  class PortTracker {
    var counters: map<Device, U8>
    ghost var log: seq<Handed>

    constructor ()
      ensures Valid() && log == []
    {
      counters, log := map[], [];
    }

    /** How often a device has been given a port. */
    ghost function Calls(device: Device): nat
      reads this
    {
      CallsIn(log, |log|, device)
    }

    ghost predicate Valid()
      reads this
    {
      && Sequential(log)
      && (forall d :: d in counters ==> counters[d] == CounterOf(d, Calls(d)))
      && (forall d :: d !in counters ==> Calls(d) == 0)
    }

    method NextSwitchPort(device: Device) returns (port: nat, tooMany: bool)
      requires Valid() && !device.Server?
      modifies this
      ensures Valid() && log == old(log) + [Handed(device, port)]
      ensures port == PortNumber(old(Calls(device)))
      ensures tooMany <==> Counter(old(Calls(device)) + 1) > 76
    {
      hide CallsIn, Sequential;
      var id: U8 := if device in counters then counters[device] else 0;
      port := Wrap(id + 1);
      SequentialAppend(log, Handed(device, port));
      var offset := 1;
      if id >= 48 {
        offset := 4;
      }
      id := Wrap(id + offset);
      tooMany := id > 76;
      counters, log := counters[device := id], log + [Handed(device, port)];
    }

    method NextServerPort(device: Device) returns (port: nat)
      requires Valid() && device.Server?
      modifies this
      ensures Valid() && log == old(log) + [Handed(device, port)]
      ensures port == Wrap(ServerCounter(old(Calls(device))) + 1)
    {
      hide CallsIn, Sequential;
      var id: U8 := if device in counters then counters[device] else 0;
      port := Wrap(id + 1);
      SequentialAppend(log, Handed(device, port));
      id := Wrap(id + 1);
      counters, log := counters[device := id], log + [Handed(device, port)];
    }
  }
}
