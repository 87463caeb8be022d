/** Byte counts, unit counts and alignment (src/allocator.rs:37-96). Addresses count
    32-byte units too: every pointer the allocator forms is a multiple of 32 bytes. */
module Sizes {
  import opened Bits
  import opened Bins
  import opened Wrappers

  const HEADER_SIZE: u32 := 1
  const FREE_CHUNK_HEADER_SIZE: u32 := 1

  /** An address in units; zero is the null pointer. 64-bit byte addresses. */
  type Address = x: int | 0 <= x < 0x800_0000_0000_0000

  /** A 64-bit word that a header may keep an address in. It is counted in units too: the value
      is that of its bits rotated right by five, so an address stands for itself and every
      content has a value. */
  type Word = x: int | 0 <= x < 0x1_0000_0000_0000_0000

  /** The largest address space whose size in bytes still fits a `u32`. */
  const SPACE_LIMIT: u32 := 0x800_0000

  const USIZE_LIMIT: nat := 0x1_0000_0000_0000_0000

  /** `Size::from_bytes_usize`. */
  function FromBytes(bytes: nat): (s: Option<u32>)
    requires bytes < USIZE_LIMIT
  {
    if bytes + 31 >= USIZE_LIMIT then None
    else
      var size := (bytes + 31) / 32;
      if size > 0xFFFF_FFFF then None else Some(size)
  }

  /** `Size::bytes`, defined while the shift loses no bit. */
  function Bytes(s: u32): (b: u32)
    requires s < SPACE_LIMIT
  {
    32 * s
  }

  function CheckedAdd(a: u32, b: u32): Option<u32> {
    if a + b < 0x1_0000_0000 then Some(a + b) else None
  }

  /** Additions and subtractions the code does not check: their bounds are obligations. */
  function UncheckedAdd(a: u32, b: u32): u32
    requires a + b < 0x1_0000_0000
  {
    a + b
  }

  function UncheckedSub(a: u32, b: u32): u32
    requires b <= a
  {
    a - b
  }

  function PtrAdd(p: Address, offset: u32): Address
    requires offset < SPACE_LIMIT && p + offset < 0x800_0000_0000_0000
  {
    p + offset
  }

  function PtrSub(p: Address, offset: u32): Address
    requires offset < SPACE_LIMIT && offset <= p
  {
    p - offset
  }

  /** `Size::from_pointer_and_base_unchecked`. */
  function OffsetFrom(p: Address, base: Address): u32
    requires base <= p < base + 0x1_0000_0000
  {
    p - base
  }

  /** Offset at or after `x` whose distance from address zero is a multiple of `a`. */
  function AlignOffset(x: u32, a: u32, b: Address): nat
    requires IsPow2(a)
  {
    assert a >= 1;
    MaskFits(a);
    var mask := a - 1;
    var rounded := And(b + x + mask, Not(64, mask));
    AlignRounds(b + x, a);
    rounded - b
  }

  lemma Pow2At64()
    ensures Pow2(32) == 0x1_0000_0000
    ensures Pow2(64) == USIZE_LIMIT
  {
    Pow2At8();
    hide Pow2;
    Pow2Add(8, 8);
    Pow2Add(16, 16);
    Pow2Add(32, 32);
  }

  lemma Pow2At8()
    ensures Pow2(5) == 32 && Pow2(8) == 256
  {}

  lemma MaskFits(a: u32)
    ensures a < Pow2(64)
  {
    Pow2At64();
  }

  /** Adding the mask and clearing it rounds up to the next multiple. */
  lemma AlignRounds(v: nat, a: u32)
    requires IsPow2(a) && v < 0x800_0001_0000_0000
    ensures a - 1 < Pow2(64)
    ensures var r := And(v + (a - 1), Not(64, a - 1));
      v <= r < v + a && r % a == 0
  {
    hide And, Not, Pow2, IsPow2;
    Pow2At64();
    var k := IsPow2Log(a);
    if k > 64 { Pow2Mono(64, k); }
    AndHighMask(v + (a - 1), k, 64);
    RemainderMultiple(v + (a - 1), a);
  }

  lemma RemainderMultiple(s: nat, a: nat)
    requires a > 0
    ensures (s - s % a) % a == 0 && s % a < a && s - s % a >= 0
  {
    assert s == (s / a) * a + s % a;
    DivUnique(s - s % a, a, s / a, 0);
  }

  predicate Aligned(address: nat, a: nat)
    requires a > 0
  {
    address % a == 0
  }

  /** `align_offset` gives the least aligned address at or after `b + x`, relative to `b`. */
  lemma AlignOffsetLeast(x: u32, a: u32, b: Address)
    requires IsPow2(a)
    ensures var y := AlignOffset(x, a, b);
      && x <= y < x + a
      && Aligned(b + y, a)
      && forall z: nat | b + x <= z && Aligned(z, a) :: b + y <= z
  {
    hide And, Not, Pow2, IsPow2;
    AlignRounds(b + x, a);
    var y := AlignOffset(x, a, b);
    forall z: nat | b + x <= z && Aligned(z, a)
      ensures b + y <= z
    {
      if z < b + y { MultiplesApart(z, b + y, a); }
    }
  }

  lemma MultiplesApart(u: nat, v: nat, a: nat)
    requires a > 0 && u % a == 0 && v % a == 0 && u < v
    ensures u + a <= v
  {
    assert u == (u / a) * a && v == (v / a) * a;
    if u / a >= v / a { MulMono(v / a, u / a, a); }
    MulMono(u / a + 1, v / a, a);
  }

  /** The chosen number of units is the least that covers the bytes. */
  lemma FromBytesCovers(bytes: nat)
    requires bytes < USIZE_LIMIT
    ensures FromBytes(bytes).Some? <==> bytes <= 32 * 0xFFFF_FFFF
    ensures var s := FromBytes(bytes);
      s.Some? ==> bytes <= 32 * s.value && (s.value > 0 ==> 32 * (s.value - 1) < bytes)
  {}

  /** What divides 32 divides every byte address. */
  lemma DivisorAligned(address: nat, align: nat, m: nat)
    requires align > 0 && m * align == 32
    ensures (32 * address) % align == 0
  {
    MulSwap(m, align, address);
    DivUnique(32 * address, align, m * address, 0);
  }

  lemma UnitsAligned(address: nat, units: nat)
    requires units > 0 && address % units == 0
    ensures (32 * address) % (32 * units) == 0
  {
    var q := address / units;
    assert address == q * units;
    MulSwap(32, units, q);
    DivUnique(32 * address, 32 * units, q, 0);
  }

  lemma UnitsOf(align: nat, k: nat)
    requires align == Pow2(k) < USIZE_LIMIT && FromBytes(align).Some?
    ensures FromBytes(align).value == if k <= 5 then 1 else Pow2(k - 5)
    ensures if k <= 5 then Pow2(5 - k) * align == 32 else align == 32 * Pow2(k - 5)
  {
    assert Pow2(5) == 32;
    if k <= 5 {
      Pow2Mono(k, 5);
      Pow2Add(5 - k, k);
    } else {
      Pow2Add(k - 5, 5);
    }
  }

  /** Rounding a power-of-two alignment to units keeps it a power of two, and an address
      aligned in units is aligned in bytes. */
  lemma {:induction false} ByteAlignment(align: nat, address: Address)
    requires IsPow2(align) && align < USIZE_LIMIT && FromBytes(align).Some?
    ensures IsPow2(FromBytes(align).value)
    ensures address % FromBytes(align).value == 0 ==> (32 * address) % align == 0
  {
    hide FromBytes, Pow2;
    var k := IsPow2Log(align);
    UnitsOf(align, k);
    if k <= 5 {
      DivisorAligned(address, align, Pow2(5 - k));
    } else {
      Pow2IsPow2(k - 5);
      if address % Pow2(k - 5) == 0 { UnitsAligned(address, Pow2(k - 5)); }
    }
  }

  lemma MulSwap(x: int, y: int, z: int)
    ensures (x * y) * z == x * (z * y) == z * (y * x) == (x * z) * y
  {}
}
