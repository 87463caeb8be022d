/** Sizes and bins: `to_bin_index_generic` and the bin configuration
    (src/allocator.rs:34-221). Sizes count 32-byte units. */
module Bins {
  import opened Bits
  import opened Wrappers

  type u32 = x: int | 0 <= x < 0x1_0000_0000

  const MAX_ALLOCATION_SIZE: u32 := 0x200_0000  // 1 GiB in units
  const MAX_BINS: u32 := 4096

  /** The bin of a size, as a small floating-point number with `m` mantissa bits. */
  function ToBinIndex(m: nat, roundUp: bool, size: u32): (bin: nat)
    requires 1 <= m <= 8
  {
    if size == 0 then 0
    else if size < Pow2(m) then size - 1
    else
      MsbAtLeast(m, size);
      var mantissaStartBit := Msb(size) - m;
      var exponent := mantissaStartBit + 1;
      var low := And(Shr(size, mantissaStartBit), Pow2(m) - 1);
      OutPositive(exponent, m, low, Shr(size, mantissaStartBit));
      var mantissa := if roundUp && And(size, Pow2(mantissaStartBit) - 1) != 0 then low + 1 else low;
      var out := Shl(exponent, m);
      if roundUp then out + mantissa - 1 else Or(out, mantissa) - 1
  }

  lemma OutPositive(exponent: nat, m: nat, low: nat, a: nat)
    requires exponent >= 1 && low == And(a, Pow2(m) - 1)
    ensures low == Low(a, m) < Pow2(m)
    ensures Or(Shl(exponent, m), low) == Shl(exponent, m) + low
    ensures Shl(exponent, m) >= Pow2(m)
  {
    AndLowMask(a, m);
    OrLow(exponent, m, low);
    ShlValue(exponent, m);
    MulAtLeast(exponent, Pow2(m));
  }

  /** Position of the lowest mantissa bit of `size`; zero for the exact bins. */
  function Exponent(m: nat, size: nat): nat
    requires size > 0
  {
    if size < Pow2(m) then 0 else (MsbAtLeast(m, size); Msb(size) - m)
  }

  /** The smallest size that belongs in a bin: the inverse of rounding. The first
      `2^(m+1) - 1` bins are exact; from there on every `2^m` bins double the size. */
  function BinMin(m: nat, bin: nat): nat {
    if bin + 1 < 2 * Pow2(m) then bin + 1 else 2 * BinMin(m, bin - Pow2(m))
  }

  function CeilDiv(a: nat, d: nat): nat
    requires d > 0
  {
    if a % d == 0 then a / d else a / d + 1
  }

  lemma MsbAtLeast(m: nat, size: nat)
    requires size >= Pow2(m)
    ensures size > 0 && Msb(size) >= m
  {}

  // ---- what the bit operations compute ----

  /** `q` is the number of whole steps of `2^e` in `a`. */
  lemma DivBounds(a: nat, d: nat)
    requires d > 0
    ensures (a / d) * d <= a < (a / d + 1) * d
    ensures CeilDiv(a, d) * d >= a && (CeilDiv(a, d) - 1) * d < a
  {
    var q, r := a / d, a % d;
    assert a == q * d + r;
    assert (q + 1) * d == q * d + d;
    assert (q - 1) * d == q * d - d;
  }

  lemma Steps(a: nat, d: nat) returns (q: nat, c: nat)
    requires d > 0
    ensures q == a / d && c == CeilDiv(a, d)
    ensures q * d <= a < (q + 1) * d
    ensures (c - 1) * d < a <= c * d
    ensures q <= c <= q + 1
    ensures c == q ==> a == q * d
  {
    DivBounds(a, d);
    q, c := a / d, CeilDiv(a, d);
  }

  lemma DivIsWithin(a: nat, d: nat, lo: nat, hi: nat)
    requires d > 0 && lo * d <= a < hi * d
    ensures lo <= a / d < hi
    ensures lo <= CeilDiv(a, d) <= hi
  {
    DivBounds(a, d);
    var q := a / d;
    if q < lo { MulMono(q + 1, lo, d); }
    if q >= hi { MulMono(hi, q, d); }
  }

  lemma MulTwo(x: int, y: int)
    ensures (2 * x) * y == 2 * (x * y) == x * (2 * y)
  {}

  lemma MulMono(x: int, y: int, d: int)
    requires x <= y && d >= 0
    ensures x * d <= y * d
  {}

  /** The mantissa of a size always has exactly `m + 1` significant bits. */
  lemma MantissaRange(m: nat, size: nat)
    requires size > 0
    ensures var d := Pow2(Exponent(m, size));
      && 1 <= size / d < 2 * Pow2(m)
      && 1 <= CeilDiv(size, d) <= 2 * Pow2(m)
      && (size >= Pow2(m) ==> Pow2(m) <= size / d)
      && (size >= Pow2(m) ==> Pow2(m) <= CeilDiv(size, d))
      && (Exponent(m, size) > 0 ==> size >= Pow2(m))
  {
    if size >= Pow2(m) {
      MsbAtLeast(m, size);
      var e := Exponent(m, size);
      Pow2Add(m, e);
      MulTwo(Pow2(m), Pow2(e));
      assert Pow2(Msb(size) + 1) == 2 * Pow2(m + e);
      DivIsWithin(size, Pow2(e), Pow2(m), 2 * Pow2(m));
    }
  }

  /** What the shifts and masks make of a size above the exact bins. */
  lemma MantissaBits(m: nat, size: u32)
    requires 1 <= m <= 8 && size >= Pow2(m)
    ensures var e := Exponent(m, size); var q := size / Pow2(e);
      && e == Msb(size) - m && Pow2(m) <= q < 2 * Pow2(m)
      && And(Shr(size, e), Pow2(m) - 1) == q - Pow2(m)
      && Shl(e + 1, m) == e * Pow2(m) + Pow2(m)
      && And(size, Pow2(e) - 1) == size % Pow2(e)
  {
    hide And, Shr, Shl, Msb;
    MsbAtLeast(m, size);
    var e := Exponent(m, size);
    MantissaRange(m, size);
    var q := size / Pow2(e);
    ShrValue(size, e);
    AndLowMask(Shr(size, e), m);
    DivUnique(q, Pow2(m), 1, q - Pow2(m));
    ShlValue(e + 1, m);
    AndLowMask(size, e);
    PackedStep(e + 1, Pow2(m));
  }

  lemma ExactBins(m: nat, size: u32)
    requires 1 <= m <= 8 && 0 < size < Pow2(m)
    ensures Exponent(m, size) == 0 && Pow2(0) == 1 && CeilDiv(size, 1) == size
  {}

  /** Rounding down takes the whole steps of the size. */
  lemma RoundedDown(m: nat, size: u32)
    requires 1 <= m <= 8 && size > 0
    ensures var e := Exponent(m, size); ToBinIndex(m, false, size) == e * Pow2(m) + size / Pow2(e) - 1
  {
    hide And, Or, Shr, Shl, Msb, Pow2, Exponent;
    if size < Pow2(m) {
      ExactBins(m, size);
    } else {
      MantissaBits(m, size);
      var e := Exponent(m, size);
      OutPositive(e + 1, m, And(Shr(size, e), Pow2(m) - 1), Shr(size, e));
    }
  }

  /** Rounding up takes the started ones. */
  lemma RoundedUp(m: nat, size: u32)
    requires 1 <= m <= 8 && size > 0
    ensures var e := Exponent(m, size); ToBinIndex(m, true, size) == e * Pow2(m) + CeilDiv(size, Pow2(e)) - 1
  {
    hide And, Or, Shr, Shl, Msb, Pow2, Exponent;
    if size < Pow2(m) { ExactBins(m, size); } else { MantissaBits(m, size); }
  }

  lemma ToBinIndexValue(m: nat, size: u32)
    requires 1 <= m <= 8 && size > 0
    ensures var e := Exponent(m, size); var d := Pow2(e);
      && ToBinIndex(m, false, size) == e * Pow2(m) + size / d - 1
      && ToBinIndex(m, true, size) == e * Pow2(m) + CeilDiv(size, d) - 1
  {
    hide ToBinIndex;
    RoundedDown(m, size);
    RoundedUp(m, size);
  }

  /** Every number that the rounding of a 32-bit size computes has at most 32 bits: the shift
      counts, the shifted values, the sum and the bin. */
  lemma BinIndexFits(m: nat, roundUp: bool, size: u32)
    requires 1 <= m <= 8
    ensures ToBinIndex(m, roundUp, size) < 0x1_0000
    ensures size >= Pow2(m) ==>
      && m <= Msb(size) < 32
      && var start := Msb(size) - m;
      && Pow2(start) < 0x1_0000_0000
      && And(Shr(size, start), Pow2(m) - 1) + 1 <= Pow2(m) <= 0x100
      && Shl(start + 1, m) + Pow2(m) < 0x1_0000
  {
    hide And, Or, Shr, Shl, Pow2;
    SmallPow2(m);
    if size >= Pow2(m) {
      MsbAtLeast(m, size);
      MsbBelow(size);
      MantissaBits(m, size);
      ToBinIndexValue(m, size);
      MantissaRange(m, size);
      var e := Exponent(m, size);
      MulMono(e, 31, Pow2(m));
      Pow2Mono(e, 31);
    }
  }

  lemma SmallPow2(m: nat)
    requires m <= 8
    ensures Pow2(m) <= 0x100 && Pow2(31) == 0x8000_0000 && Pow2(32) == 0x1_0000_0000
  {
    Pow2Mono(m, 8);
    assert Pow2(8) == 0x100;
    Pow2Add(8, 8);
    Pow2Add(16, 8);
    Pow2Add(24, 7);
    Pow2Add(24, 8);
    assert Pow2(7) == 0x80;
  }

  lemma MsbBelow(size: u32)
    requires size > 0
    ensures Msb(size) < 32
  {
    SmallPow2(0);
    if Msb(size) >= 32 { Pow2Mono(32, Msb(size)); }
  }

  /** `BinMin` undoes the packing of an exponent and a mantissa into a bin index. */
  lemma {:induction false} BinMinValue(m: nat, e: nat, q: nat)
    requires 1 <= q <= 2 * Pow2(m)
    requires e == 0 || Pow2(m) <= q
    ensures e * Pow2(m) + q - 1 >= 0
    ensures BinMin(m, e * Pow2(m) + q - 1) == q * Pow2(e)
  {
    var p := Pow2(m);
    if q == 2 * p {
      PackedStep(e + 1, p);
      BinMinValueBelow(m, e, p);
      MulTwo(p, Pow2(e));
    } else {
      BinMinValueBelow(m, e, q);
    }
  }

  lemma PackedStep(e: int, p: int)
    ensures e * p == (e - 1) * p + p
  {}

  lemma {:induction false} BinMinValueBelow(m: nat, e: nat, q: nat)
    requires 1 <= q < 2 * Pow2(m)
    requires e == 0 || Pow2(m) <= q
    ensures e * Pow2(m) + q - 1 >= 0
    ensures BinMin(m, e * Pow2(m) + q - 1) == q * Pow2(e)
  {
    if e > 0 {
      PackedStep(e, Pow2(m));
      BinMinValueBelow(m, e - 1, q);
      MulTwo(q, Pow2(e - 1));
    }
  }

  /** Every bin index unpacks into an exponent and a mantissa. */
  lemma {:induction false} BinParts(m: nat, bin: nat) returns (e: nat, q: nat)
    ensures bin == e * Pow2(m) + q - 1
    ensures 1 <= q < 2 * Pow2(m)
    ensures e == 0 || Pow2(m) <= q
    ensures BinMin(m, bin) == q * Pow2(e)
    ensures BinMin(m, bin + 1) == (q + 1) * Pow2(e)
    decreases bin
  {
    hide BinMin, Pow2;
    if bin + 1 < 2 * Pow2(m) {
      e, q := 0, bin + 1;
    } else {
      var e', q' := BinParts(m, bin - Pow2(m));
      e := e' + 1;
      q := q';
      PackedStep(e, Pow2(m));
    }
    BinMinValue(m, e, q);
    BinMinValue(m, e, q + 1);
  }

  // ---- rounding and its inverse ----

  lemma BinMinStep(m: nat, bin: nat)
    ensures BinMin(m, bin) < BinMin(m, bin + 1)
  {
    var e, q := BinParts(m, bin);
    assert (q + 1) * Pow2(e) == q * Pow2(e) + Pow2(e);
  }

  lemma {:induction false} BinMinMonotone(m: nat, b: nat, c: nat)
    requires b <= c
    ensures BinMin(m, b) <= BinMin(m, c)
    ensures b < c ==> BinMin(m, b) < BinMin(m, c)
    decreases c - b
  {
    if b < c {
      BinMinStep(m, b);
      BinMinMonotone(m, b + 1, c);
    }
  }

  /** Exponent, whole steps and started steps of a size, and the two bins they make. */
  lemma SizeParts(m: nat, size: u32) returns (e: nat, q: nat, c: nat)
    requires 1 <= m <= 8 && size > 0
    ensures ToBinIndex(m, false, size) == e * Pow2(m) + q - 1
    ensures ToBinIndex(m, true, size) == e * Pow2(m) + c - 1
    ensures q * Pow2(e) <= size < (q + 1) * Pow2(e)
    ensures (c - 1) * Pow2(e) < size <= c * Pow2(e)
    ensures 1 <= q < 2 * Pow2(m) && q <= c <= q + 1
    ensures e > 0 ==> Pow2(m) <= q
    ensures c == q ==> size == q * Pow2(e)
  {
    ToBinIndexValue(m, size);
    MantissaRange(m, size);
    e := Exponent(m, size);
    q, c := Steps(size, Pow2(e));
  }

  /** A size lies between the minimum of its rounded-down bin and the next minimum. */
  lemma RoundDownBrackets(m: nat, size: u32)
    requires 1 <= m <= 8 && size > 0
    ensures var b := ToBinIndex(m, false, size);
      BinMin(m, b) <= size < BinMin(m, b + 1)
  {
    hide BinMin, ToBinIndex, Pow2;
    var e, q, _ := SizeParts(m, size);
    PackedBrackets(m, e, q, ToBinIndex(m, false, size), size);
  }

  lemma PackedBrackets(m: nat, e: nat, q: nat, b: nat, size: nat)
    requires 1 <= q < 2 * Pow2(m) && (e > 0 ==> Pow2(m) <= q)
    requires b == e * Pow2(m) + q - 1
    requires q * Pow2(e) <= size < (q + 1) * Pow2(e)
    ensures BinMin(m, b) <= size < BinMin(m, b + 1)
  {
    hide BinMin, Pow2;
    BinMinValue(m, e, q);
    BinMinValue(m, e, q + 1);
  }

  /** A rounded-up bin is the first whose minimum covers the size. */
  lemma RoundUpBrackets(m: nat, size: u32)
    requires 1 <= m <= 8 && size > 0
    ensures var b := ToBinIndex(m, true, size);
      size <= BinMin(m, b) && (b > 0 ==> BinMin(m, b - 1) < size)
  {
    hide BinMin, ToBinIndex, Pow2;
    var e, q, c := SizeParts(m, size);
    BinMinValue(m, e, c);
    var b := ToBinIndex(m, true, size);
    if b > 0 {
      if c == q + 1 {
        BinMinValue(m, e, q);
      } else {
        BinMinStep(m, b - 1);
      }
    }
  }

  /** Rounding up is the lower adjoint of `BinMin`. */
  lemma RoundUpAdjoint(m: nat, size: u32, b: nat)
    requires 1 <= m <= 8 && size > 0
    ensures ToBinIndex(m, true, size) <= b <==> size <= BinMin(m, b)
  {
    hide BinMin, ToBinIndex, Pow2;
    var up := ToBinIndex(m, true, size);
    RoundUpBrackets(m, size);
    if up <= b {
      BinMinMonotone(m, up, b);
    } else {
      BinMinMonotone(m, b, up - 1);
    }
  }

  /** Rounding down is the upper adjoint of `BinMin`. */
  lemma RoundDownAdjoint(m: nat, size: u32, b: nat)
    requires 1 <= m <= 8 && size > 0
    ensures b <= ToBinIndex(m, false, size) <==> BinMin(m, b) <= size
  {
    hide BinMin, ToBinIndex, Pow2;
    var down := ToBinIndex(m, false, size);
    RoundDownBrackets(m, size);
    if b <= down {
      BinMinMonotone(m, b, down);
    } else {
      BinMinMonotone(m, down + 1, b);
    }
  }

  lemma RoundingMonotone(m: nat, s: u32, t: u32)
    requires 1 <= m <= 8 && 0 < s <= t
    ensures ToBinIndex(m, false, s) <= ToBinIndex(m, false, t)
    ensures ToBinIndex(m, true, s) <= ToBinIndex(m, true, t)
    ensures ToBinIndex(m, false, s) <= ToBinIndex(m, true, s) <= ToBinIndex(m, false, s) + 1
  {
    hide BinMin, ToBinIndex;
    RoundDownBrackets(m, s);
    RoundDownAdjoint(m, t, ToBinIndex(m, false, s));
    RoundUpBrackets(m, t);
    RoundUpAdjoint(m, s, ToBinIndex(m, true, t));
    RoundUpAdjoint(m, s, ToBinIndex(m, false, s) + 1);
    ToBinIndexValue(m, s);
  }

  /** A bin is narrower than its minimum by a factor of `2^m`. */
  lemma BinWidth(m: nat, bin: nat)
    ensures BinMin(m, bin) >= 1
    ensures (BinMin(m, bin + 1) - 1) * Pow2(m) < BinMin(m, bin) * (Pow2(m) + 1)
  {
    var e, q := BinParts(m, bin);
    MulAtLeast(q, Pow2(e));
    Distribute(-1, q, Pow2(e));
    WidthBound(Pow2(m), Pow2(e), q * Pow2(e)) by {
      if e > 0 { MulMono(Pow2(m), q, Pow2(e)); }
    }
  }

  lemma WidthBound(p: int, d: int, lo: int)
    requires p >= 1 && d >= 1 && lo >= 1
    requires d == 1 || p * d <= lo
    ensures (lo + d - 1) * p < lo * (p + 1)
  {
    assert (lo + d - 1) * p == lo * p + d * p - p;
    assert lo * (p + 1) == lo * p + lo;
  }

  /** Two sizes on either side of one bin differ by less than one part in `2^m`. */
  lemma Tight(m: nat, b: nat, c: nat, t: nat)
    requires c < BinMin(m, b + 1) && BinMin(m, b) <= t
    ensures c * Pow2(m) < t * (Pow2(m) + 1)
  {
    BinWidth(m, b);
    TightChain(c, BinMin(m, b + 1), BinMin(m, b), t, Pow2(m));
  }

  lemma TightChain(c: int, hi: int, lo: int, t: int, p: int)
    requires p >= 1 && c < hi && lo <= t && (hi - 1) * p < lo * (p + 1)
    ensures c * p < t * (p + 1)
  {
    MulMono(c, hi - 1, p);
    MulMono(lo, t, p + 1);
  }

  /** A size that rounds down below `up(s)` exceeds `s` by less than one part in `2^m`. */
  lemma RoundingLoss(m: nat, s: u32, t: u32)
    requires 1 <= m <= 8 && s > 0 && t > 0
    requires ToBinIndex(m, false, t) < ToBinIndex(m, true, s)
    ensures t * Pow2(m) < s * (Pow2(m) + 1)
  {
    var b := ToBinIndex(m, true, s) - 1;
    RoundUpBrackets(m, s);
    RoundDownAdjoint(m, t, b + 1);
    Tight(m, b, t, s);
  }

  // ---- the configuration ----

  datatype BinConfig = BinConfig(mantissaBits: nat, binCount: nat)

  predicate Fits(m: nat, maxSize: u32, requestedMaxBins: nat)
    requires 1 <= m <= 8
  {
    ToBinIndex(m, true, maxSize) < requestedMaxBins
  }

  /** Tries `m` mantissa bits, then `m - 1`, down to one. */
  function TryMantissa(m: nat, maxSize: u32, requestedMaxBins: nat): (c: Option<BinConfig>)
    requires m <= 8
    ensures c.Some? ==>
      && 1 <= c.value.mantissaBits <= m
      && Fits(c.value.mantissaBits, maxSize, requestedMaxBins)
      && forall k | c.value.mantissaBits < k <= m :: !Fits(k, maxSize, requestedMaxBins)
    ensures c.None? ==> forall k | 1 <= k <= m :: !Fits(k, maxSize, requestedMaxBins)
  {
    if m == 0 then None
    else if Fits(m, maxSize, requestedMaxBins) then
      Some(BinConfig(m, ToBinIndex(m, true, maxSize) + 1))
    else TryMantissa(m - 1, maxSize, requestedMaxBins)
  }

  function CalculateOptimalBinConfig(wordBits: nat, maxSize: u32, requestedMaxBins: nat): Option<BinConfig> {
    var trueMaxBins := wordBits * wordBits;
    TryMantissa(8, maxSize, if trueMaxBins < requestedMaxBins then trueMaxBins else requestedMaxBins)
  }

  /** The bin of a power of two is the last of its octave, for both roundings. */
  lemma PowerOfTwoBin(m: nat, k: nat, size: u32)
    requires 1 <= m <= 8 && m <= k && size == Pow2(k)
    ensures ToBinIndex(m, true, size) == ToBinIndex(m, false, size) == (k - m + 1) * Pow2(m) - 1
    ensures BinMin(m, ToBinIndex(m, true, size)) == size
  {
    hide BinMin, ToBinIndex, Pow2;
    Pow2Add(m, k - m);
    var b := PowerOfTwoBinMin(m, k - m);
    ExactBin(m, size, b);
  }

  lemma PowerOfTwoBinMin(m: nat, e: nat) returns (b: nat)
    ensures b == (e + 1) * Pow2(m) - 1
    ensures BinMin(m, b) == Pow2(m) * Pow2(e)
  {
    BinMinValue(m, e, Pow2(m));
    PackedStep(e + 1, Pow2(m));
    b := e * Pow2(m) + Pow2(m) - 1;
  }

  lemma ExactBin(m: nat, size: u32, b: nat)
    requires 1 <= m <= 8 && size > 0 && BinMin(m, b) == size
    ensures ToBinIndex(m, true, size) == ToBinIndex(m, false, size) == b
  {
    RoundUpAdjoint(m, size, b);
    RoundDownAdjoint(m, size, b);
    RoundingMonotone(m, size, size);
  }

  /** The shipped configurations, for 64-bit and for 32-bit masks. */
  lemma ShippedConfigs()
    ensures CalculateOptimalBinConfig(64, MAX_ALLOCATION_SIZE, MAX_BINS) == Some(BinConfig(7, 2432))
    ensures CalculateOptimalBinConfig(32, MAX_ALLOCATION_SIZE, MAX_BINS) == Some(BinConfig(5, 672))
  {
    assert Pow2(4) == 16;
    assert Pow2(8) == 256;
    Pow2Add(8, 8);
    Pow2Add(16, 8);
    assert Pow2(25) == MAX_ALLOCATION_SIZE;
    PowerOfTwoBin(8, 25, MAX_ALLOCATION_SIZE);
    PowerOfTwoBin(7, 25, MAX_ALLOCATION_SIZE);
    PowerOfTwoBin(6, 25, MAX_ALLOCATION_SIZE);
    PowerOfTwoBin(5, 25, MAX_ALLOCATION_SIZE);
    assert Pow2(5) == 32 && Pow2(6) == 64 && Pow2(7) == 128;
    assert !Fits(8, MAX_ALLOCATION_SIZE, 4096) && Fits(7, MAX_ALLOCATION_SIZE, 4096);
    assert TryMantissa(8, MAX_ALLOCATION_SIZE, 4096) == TryMantissa(7, MAX_ALLOCATION_SIZE, 4096);
    assert !Fits(8, MAX_ALLOCATION_SIZE, 1024) && !Fits(7, MAX_ALLOCATION_SIZE, 1024);
    assert !Fits(6, MAX_ALLOCATION_SIZE, 1024) && Fits(5, MAX_ALLOCATION_SIZE, 1024);
    assert TryMantissa(8, MAX_ALLOCATION_SIZE, 1024) == TryMantissa(7, MAX_ALLOCATION_SIZE, 1024);
    assert TryMantissa(7, MAX_ALLOCATION_SIZE, 1024) == TryMantissa(6, MAX_ALLOCATION_SIZE, 1024);
    assert TryMantissa(6, MAX_ALLOCATION_SIZE, 1024) == TryMantissa(5, MAX_ALLOCATION_SIZE, 1024);
  }

  // ---- sizes clamped to the largest allocation ----

  function Clamp(size: u32): u32 {
    if size > MAX_ALLOCATION_SIZE then MAX_ALLOCATION_SIZE else size
  }

  function BinDown(m: nat, size: u32): nat
    requires 1 <= m <= 8
  {
    ToBinIndex(m, false, Clamp(size))
  }

  function BinUp(m: nat, size: u32): nat
    requires 1 <= m <= 8
  {
    ToBinIndex(m, true, Clamp(size))
  }

  /** A configuration whose bins cover every size up to the largest allocation. */
  predicate ConfigOk(c: BinConfig) {
    1 <= c.mantissaBits <= 8 && ToBinIndex(c.mantissaBits, true, MAX_ALLOCATION_SIZE) < c.binCount
  }

  lemma OptimalConfigOk(wordBits: nat, requestedMaxBins: nat)
    ensures var c := CalculateOptimalBinConfig(wordBits, MAX_ALLOCATION_SIZE, requestedMaxBins);
      c.Some? ==> ConfigOk(c.value) && c.value.binCount <= wordBits * wordBits
  {
    TryMantissaCount(8, MAX_ALLOCATION_SIZE,
      if wordBits * wordBits < requestedMaxBins then wordBits * wordBits else requestedMaxBins);
  }

  lemma ShippedConfigsOk()
    ensures ConfigOk(BinConfig(7, 2432)) && ConfigOk(BinConfig(5, 672))
  {
    ShippedConfigs();
    OptimalConfigOk(64, MAX_BINS);
    OptimalConfigOk(32, MAX_BINS);
  }

  lemma {:induction false} TryMantissaCount(m: nat, maxSize: u32, requestedMaxBins: nat)
    requires m <= 8
    ensures var c := TryMantissa(m, maxSize, requestedMaxBins);
      c.Some? ==> c.value.binCount == ToBinIndex(c.value.mantissaBits, true, maxSize) + 1 <= requestedMaxBins
  {
    if m > 0 && !Fits(m, maxSize, requestedMaxBins) {
      TryMantissaCount(m - 1, maxSize, requestedMaxBins);
    }
  }

  lemma BinInRange(c: BinConfig, size: u32)
    requires ConfigOk(c) && size > 0
    ensures BinDown(c.mantissaBits, size) <= BinUp(c.mantissaBits, size) < c.binCount
  {
    RoundingMonotone(c.mantissaBits, Clamp(size), MAX_ALLOCATION_SIZE);
    RoundingMonotone(c.mantissaBits, Clamp(size), Clamp(size));
  }

  /** A chunk in a bin at or above the rounded-up request is large enough, clamped or not. */
  lemma FitSound(m: nat, minSize: u32, t: u32)
    requires 1 <= m <= 8 && 0 < minSize <= MAX_ALLOCATION_SIZE && t > 0
    requires BinUp(m, minSize) <= BinDown(m, t)
    ensures minSize <= t
  {
    var b := BinUp(m, minSize);
    RoundUpAdjoint(m, minSize, b);
    RoundDownAdjoint(m, Clamp(t), b);
  }

  /** The exact converse: a chunk is found by the rounded-up search iff it reaches the
      minimum of that bin. */
  lemma FitExact(m: nat, minSize: u32, t: u32)
    requires 1 <= m <= 8 && 0 < minSize <= MAX_ALLOCATION_SIZE && t > 0
    ensures BinUp(m, minSize) <= BinDown(m, t) <==> BinMin(m, BinUp(m, minSize)) <= t
  {
    var b := BinUp(m, minSize);
    RoundDownAdjoint(m, Clamp(t), b);
    if t > MAX_ALLOCATION_SIZE {
      RoundingMonotone(m, minSize, MAX_ALLOCATION_SIZE);
      MaxIsExact(m);
    }
  }

  /** The largest allocation starts a bin, so both roundings agree on it. */
  lemma MaxIsExact(m: nat)
    requires 1 <= m <= 8
    ensures ToBinIndex(m, true, MAX_ALLOCATION_SIZE) == ToBinIndex(m, false, MAX_ALLOCATION_SIZE)
    ensures BinMin(m, ToBinIndex(m, true, MAX_ALLOCATION_SIZE)) == MAX_ALLOCATION_SIZE
  {
    Pow2Add(8, 8);
    assert Pow2(8) == 256;
    Pow2Add(16, 8);
    assert Pow2(25) == MAX_ALLOCATION_SIZE;
    PowerOfTwoBin(m, 25, MAX_ALLOCATION_SIZE);
  }

  lemma BinDownMonotone(m: nat, s: u32, t: u32)
    requires 1 <= m <= 8 && 0 < s <= t
    ensures BinDown(m, s) <= BinDown(m, t)
  {
    RoundingMonotone(m, Clamp(s), Clamp(t));
  }

  /** A chunk missed by the rounded-up search is too small or barely large enough. */
  lemma MissedIsTight(m: nat, minSize: u32, t: u32)
    requires 1 <= m <= 8 && 0 < minSize <= MAX_ALLOCATION_SIZE && t > 0
    requires BinDown(m, t) < BinUp(m, minSize)
    ensures t * Pow2(m) < minSize * (Pow2(m) + 1)
  {
    if t > MAX_ALLOCATION_SIZE {
      FitExact(m, minSize, t);
      RoundingMonotone(m, minSize, MAX_ALLOCATION_SIZE);
      BinMinMonotone(m, BinUp(m, minSize), BinUp(m, MAX_ALLOCATION_SIZE));
      MaxIsExact(m);
    } else {
      RoundingLoss(m, minSize, t);
    }
  }

  /** A chunk of a lower or equal bin exceeds another by less than one part in `2^m`. */
  lemma LowerBinIsTight(m: nat, c: u32, t: u32)
    requires 1 <= m <= 8 && 0 < c <= MAX_ALLOCATION_SIZE && t > 0
    requires BinDown(m, c) <= BinDown(m, t)
    ensures c * Pow2(m) < t * (Pow2(m) + 1)
  {
    hide BinMin, ToBinIndex, Pow2;
    var b := BinDown(m, c);
    RoundDownBrackets(m, c);
    RoundDownAdjoint(m, Clamp(t), b);
    Tight(m, b, c, t);
  }
}
