/** IPv4 addresses and prefixes, with the overflow behaviour of the Go netip package. */
module Net {
  const ADDRS: nat := 0x1_0000_0000

  type U32 = n: nat | n < ADDRS

  /** An address value; stepping past 255.255.255.255 leaves the zero (invalid) address. */
  datatype Addr = Invalid | V4(n: U32)

  /** The text of an address field: empty, unparsable, or an address with a prefix length. */
  datatype Text = Unset | Garbage | Cidr(addr: U32, bits: nat)

  datatype PrefixRaw = Prefix(addr: U32, bits: nat)
  type Prefix = p: PrefixRaw | p.bits <= 32 witness PrefixRaw.Prefix(0, 0)

  function Pow2(k: nat): (r: nat)
    ensures r >= 1
  {
    if k == 0 then 1 else 2 * Pow2(k - 1)
  }

  /** How many addresses a prefix has. */
  function Size(p: Prefix): (r: nat)
    ensures r >= 1
  {
    Pow2(32 - p.bits)
  }

  /** Clears the low k bits of an address. */
  function Mask(a: nat, k: nat): (r: nat)
    ensures r <= a
  {
    if k == 0 then a else 2 * Mask(a / 2, k - 1)
  }

  /** The base address of a prefix: its address with the host bits cleared. */
  function Masked(p: Prefix): U32 {
    Mask(p.addr, 32 - p.bits)
  }

  predicate Contains(p: Prefix, a: U32) {
    Mask(a, 32 - p.bits) == Masked(p)
  }

  function Next(a: Addr): Addr {
    if a.V4? && a.n + 1 < ADDRS then V4(a.n + 1) else Invalid
  }

  /** k steps of Next. */
  function Plus(a: Addr, k: nat): Addr {
    if a.V4? && a.n + k < ADDRS then V4(a.n + k) else Invalid
  }

  /** Rendering an address with a prefix length: an invalid address renders to text that never parses. */
  function Render(a: Addr, bits: nat): Text {
    if a.V4? then Cidr(a.n, bits) else Garbage
  }

  /** Unsigned 32-bit increment. */
  function Inc32(a: U32): U32 {
    if a + 1 < ADDRS then a + 1 else 0
  }

  /** k unsigned 32-bit increments. */
  function Steps32(a: U32, k: nat): U32 {
    if k == 0 then a else Inc32(Steps32(a, k - 1))
  }

  lemma {:induction false} StepsWithoutWrap(a: U32, k: nat)
    requires a + k < ADDRS
    ensures Steps32(a, k) == a + k
  {
    if k > 0 {
      StepsWithoutWrap(a, k - 1);
    }
  }

  /** Two addresses agree above the low k bits iff one lies in the 2^k addresses from the other's base. */
  lemma {:induction false} MaskRange(a: nat, b: nat, k: nat)
    ensures Mask(a, k) == Mask(b, k) <==> Mask(b, k) <= a < Mask(b, k) + Pow2(k)
  {
    if k > 0 {
      MaskRange(a / 2, b / 2, k - 1);
    }
  }

  /** A multiple of 2^k has no low bits to clear. */
  lemma {:induction false} MaskAligned(c: nat, k: nat)
    ensures Mask(c * Pow2(k), k) == c * Pow2(k)
  {
    if k > 0 {
      MaskAligned(c, k - 1);
      assert c * Pow2(k) == 2 * (c * Pow2(k - 1));
    }
  }

  lemma {:induction false} MaskLimit(b: nat, k: nat, n: nat)
    requires k <= n && b < Pow2(n)
    ensures Mask(b, k) + Pow2(k) <= Pow2(n)
  {
    if k > 0 {
      MaskLimit(b / 2, k - 1, n - 1);
    } else {
      assert Pow2(0) == 1;
    }
  }

  lemma {:induction false} Pow2At32()
    ensures Pow2(32) == ADDRS
  {
    assert Pow2(8) == 256;
    assert Pow2(16) == 0x1_0000;
    assert Pow2(24) == 0x100_0000;
  }

  /** A prefix contains exactly the Size addresses from its base, and they all exist. */
  lemma {:induction false} ContainsRange(p: Prefix, a: U32)
    ensures Contains(p, a) <==> Masked(p) <= a < Masked(p) + Size(p)
    ensures Masked(p) + Size(p) <= ADDRS
  {
    MaskRange(a, p.addr, 32 - p.bits);
    Pow2At32();
    MaskLimit(p.addr, 32 - p.bits, 32);
  }

  /** A prefix of two or more addresses starts at an even address and has even size. */
  lemma {:induction false} EvenBlock(p: Prefix)
    requires p.bits <= 31
    ensures Masked(p) % 2 == 0 && Size(p) % 2 == 0
  {
    assert Size(p) == 2 * Pow2(31 - p.bits);
  }
}
