/** Static NAT: an address keeps its offset when it moves from its subnet to the pool. */
module StaticNat {
  import opened Net
  import opened Store

  /** The NAT address of a source address; the sum is taken in 32 bits. */
  function NatIP(source: Addr, subnetStart: Addr, poolStart: Addr): Option<Addr> {
    if !source.V4? || !subnetStart.V4? || !poolStart.V4? then None
    else if source.n < subnetStart.n then None
    else
      var sum := poolStart.n + (source.n - subnetStart.n);
      Some(V4(if sum < ADDRS then sum else sum - ADDRS))
  }

  function Start(p: Prefix): Addr {
    V4(Masked(p))
  }

  /** The address lands in the pool exactly when its offset is one of the pool's, and then nothing wraps. */
  lemma {:induction false} LandsInPool(ip: U32, subnet: Prefix, pool: Prefix)
    requires Contains(subnet, ip)
    ensures var r := NatIP(V4(ip), Start(subnet), Start(pool));
      && r.Some? && r.value.V4?
      && (Contains(pool, r.value.n) <==> ip - Masked(subnet) < Size(pool))
      && (Contains(pool, r.value.n) ==> r.value.n == Masked(pool) + (ip - Masked(subnet)))
  {
    ContainsRange(subnet, ip);
    ContainsRange(pool, NatIP(V4(ip), Start(subnet), Start(pool)).value.n);
  }

  lemma {:induction false} FirstAndLast(p: Prefix)
    ensures Masked(p) + Size(p) <= ADDRS
    ensures Contains(p, Masked(p)) && Contains(p, Masked(p) + Size(p) - 1)
  {
    ContainsRange(p, p.addr);
    ContainsRange(p, Masked(p));
    ContainsRange(p, Masked(p) + Size(p) - 1);
  }

  /** Every address of the subnet lands in the pool iff the pool is at least as large. */
  lemma {:induction false} PoolLargeEnough(subnet: Prefix, pool: Prefix)
    ensures (forall ip: U32 :: Contains(subnet, ip) ==> Contains(pool, NatIP(V4(ip), Start(subnet), Start(pool)).value.n))
      <==> Size(subnet) <= Size(pool)
  {
    if Size(subnet) <= Size(pool) {
      forall ip: U32 | Contains(subnet, ip)
        ensures Contains(pool, NatIP(V4(ip), Start(subnet), Start(pool)).value.n)
      {
        LandsInPool(ip, subnet, pool);
        ContainsRange(subnet, ip);
      }
    } else {
      FirstAndLast(subnet);
      LandsInPool(Masked(subnet) + Size(subnet) - 1, subnet, pool);
    }
  }

  /** Swapping the bases maps every NAT address back, so distinct addresses get distinct NAT addresses. */
  lemma {:induction false} RoundTrip(ip: U32, subnet: Prefix, pool: Prefix)
    requires Contains(subnet, ip) && Size(subnet) <= Size(pool)
    ensures var r := NatIP(V4(ip), Start(subnet), Start(pool));
      r.Some? && NatIP(r.value, Start(pool), Start(subnet)) == Some(V4(ip))
  {
    LandsInPool(ip, subnet, pool);
    ContainsRange(subnet, ip);
  }

  lemma {:induction false} Injective(a: U32, b: U32, subnet: Prefix, pool: Prefix)
    requires Contains(subnet, a) && Contains(subnet, b) && Size(subnet) <= Size(pool)
    ensures NatIP(V4(a), Start(subnet), Start(pool)) == NatIP(V4(b), Start(subnet), Start(pool)) ==> a == b
  {
    RoundTrip(a, subnet, pool);
    RoundTrip(b, subnet, pool);
  }

  /** With pools of the same size every pool address is the NAT address of some subnet address. */
  lemma {:induction false} Onto(target: U32, subnet: Prefix, pool: Prefix) returns (ip: U32)
    requires Contains(pool, target) && Size(subnet) == Size(pool)
    ensures Contains(subnet, ip) && NatIP(V4(ip), Start(subnet), Start(pool)) == Some(V4(target))
  {
    LandsInPool(target, pool, subnet);
    ContainsRange(pool, target);
    ip := NatIP(V4(target), Start(pool), Start(subnet)).value.n;
    RoundTrip(target, pool, subnet);
  }
}
