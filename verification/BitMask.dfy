/** The two-level bit mask (src/allocator.rs:128-137 and 265-349), for every word width
    `2^shift` and every number of secondary words below that width. */
module BitMasks {
  import opened Bits
  import opened Bins
  import opened Wrappers

  datatype BitIndex = BitIndex(index: nat, primary: nat, secondary: nat)

  /** `lowest_set_bit_after` on a `width`-bit word; `None` is `u32::MAX`. */
  function LowestSetBitAfter(width: nat, value: nat, bitIndex: nat): Option<nat>
    requires bitIndex < width
  {
    Pow2Mono(bitIndex, width);
    ShlOne(bitIndex);
    var maskBefore := Shl(1, bitIndex) - 1;
    var maskAfter := Not(width, maskBefore);
    var bitsAfter := And(value, maskAfter);
    if bitsAfter == 0 then None else Some(TrailingZeros(bitsAfter))
  }

  /** It is the least set bit at or after the given one. */
  lemma LowestSetBitAfterLeast(width: nat, value: nat, bitIndex: nat)
    requires bitIndex < width && value < Pow2(width)
    ensures var r := LowestSetBitAfter(width, value, bitIndex);
      && (r.Some? ==> bitIndex <= r.value < width && Bit(value, r.value)
                      && forall i: nat | bitIndex <= i < r.value :: !Bit(value, i))
      && (r.None? ==> forall i: nat | bitIndex <= i :: !Bit(value, i))
  {
    Pow2Mono(bitIndex, width);
    ShlOne(bitIndex);
    var maskAfter := Not(width, Pow2(bitIndex) - 1);
    var bitsAfter := And(value, maskAfter);
    forall i: nat
      ensures Bit(bitsAfter, i) <==> Bit(value, i) && bitIndex <= i
    {
      AndBit(value, maskAfter, i);
      if i < width {
        NotBit(width, Pow2(bitIndex) - 1, i);
        LowMaskBit(bitIndex, i);
      } else if Bit(value, i) {
        BitBelowWidth(value, width, i);
      }
    }
    if bitsAfter == 0 {
      forall i: nat | bitIndex <= i
        ensures !Bit(value, i)
      {
        ZeroBit(i);
      }
    } else {
      TrailingZerosLeast(bitsAfter);
      BitBelowWidth(value, width, TrailingZeros(bitsAfter));
    }
  }

  lemma WordBit(width: nat, s: nat, i: nat)
    requires s < width
    ensures Shl(1, s) == Pow2(s) < Pow2(width)
    ensures Bit(Shl(1, s), i) <==> i == s
  {
    Pow2Mono(s, width);
    ShlOne(s);
    Pow2Bit(s, i);
  }

  /** `word |= 1 << s` sets bit `s` and no other. */
  lemma WordSet(width: nat, word: nat, s: nat)
    requires word < Pow2(width) && s < width
    ensures var r := Or(word, Shl(1, s));
      0 < r < Pow2(width) && forall i: nat :: Bit(r, i) <==> Bit(word, i) || i == s
  {
    var r := Or(word, Shl(1, s));
    forall i: nat
      ensures Bit(r, i) <==> Bit(word, i) || i == s
    {
      WordBit(width, s, i);
      OrBit(word, Shl(1, s), i);
    }
    WordBit(width, s, s);
    OrBound(word, Shl(1, s), width);
    ZeroBit(s);
    assert Bit(r, s);
  }

  /** `word &= !(1 << s)` clears bit `s` and no other. */
  lemma WordUnset(width: nat, word: nat, s: nat)
    requires word < Pow2(width) && s < width
    ensures Shl(1, s) < Pow2(width)
    ensures var r := And(word, Not(width, Shl(1, s)));
      && r < Pow2(width)
      && (forall i: nat :: Bit(r, i) <==> Bit(word, i) && i != s)
  {
    WordBit(width, s, s);
    var n := Not(width, Shl(1, s));
    var r := And(word, n);
    forall i: nat
      ensures Bit(r, i) <==> Bit(word, i) && i != s
    {
      WordBit(width, s, i);
      AndBit(word, n, i);
      if i < width {
        NotBit(width, Shl(1, s), i);
      } else if Bit(word, i) {
        BitBelowWidth(word, width, i);
      }
    }
    AndBound(word, n);
  }

  /** `word & (1 << s) != 0` tests bit `s`. */
  lemma WordTest(width: nat, word: nat, s: nat)
    requires s < width
    ensures And(word, Shl(1, s)) != 0 <==> Bit(word, s)
  {
    var r := And(word, Shl(1, s));
    forall i: nat
      ensures Bit(r, i) <==> Bit(word, i) && i == s
    {
      WordBit(width, s, i);
      AndBit(word, Shl(1, s), i);
    }
    if r == 0 { ZeroBit(s); } else { TrailingZerosLeast(r); }
  }

  /** `SECONDARY_LENGTH`: the number of words that cover the bins. */
  function SecondaryLength(bins: nat, shift: nat): (n: nat)
    ensures (n - 1) * Pow2(shift) < bins <= n * Pow2(shift)
  {
    DivBounds(bins, Pow2(shift));
    CeilDiv(bins, Pow2(shift))
  }

  /** 38 of 64 words, or 21 of 32: fewer than a word has bits, so no shift overflows. */
  lemma ShippedSecondaryLengths()
    ensures SecondaryLength(2432, 6) == 38 < Pow2(6)
    ensures SecondaryLength(672, 5) == 21 < Pow2(5)
  {
    assert Pow2(5) == 32;
    assert Pow2(6) == 64;
  }

  lemma QuotientBound(index: nat, length: nat, width: nat)
    requires width > 0 && index < length * width
    ensures 0 <= index / width < length && index == (index / width) * width + index % width
  {
    if index / width >= length { MulMono(length, index / width, width); }
  }

  class BitMask {
    const shift: nat   // PRIMARY_BIN_SHIFT
    const length: nat  // SECONDARY_LENGTH
    var primaryMask: nat
    const secondaryMasks: array<nat>
    /** The indices the mask stands for. */
    ghost var members: set<nat>

    ghost function Width(): nat { Pow2(shift) }

    /** `index` is one of the mask's bits. */
    ghost predicate Covers(index: nat) {
      index < length * Width()
    }

    /** A word fits its width, and its primary bit is set exactly when it is not zero. */
    ghost predicate WordOk(j: nat)
      requires secondaryMasks.Length == length
      reads this, secondaryMasks
    {
      && (Bit(primaryMask, j) ==> j < length)
      && (j < length ==> secondaryMasks[j] < Pow2(Width()) && (Bit(primaryMask, j) <==> secondaryMasks[j] != 0))
    }

    /** Bit `k` of word `j` says whether the index it stands for is a member. */
    ghost predicate MemberOk(j: nat, k: nat)
      requires secondaryMasks.Length == length
      reads this, secondaryMasks
    {
      j < length && k < Width() ==> (Bit(secondaryMasks[j], k) <==> j * Width() + k in members)
    }

    ghost predicate Valid()
      reads this, secondaryMasks
    {
      && length < Width()
      && secondaryMasks.Length == length
      && primaryMask < Pow2(Width())
      && (forall j: nat {:trigger WordOk(j)} :: WordOk(j))
      && (forall j: nat, k: nat {:trigger MemberOk(j, k)} :: MemberOk(j, k))
      && (forall i {:trigger Covers(i)} | i in members :: Covers(i))
    }

    constructor (shift: nat, length: nat)
      requires length < Pow2(shift)
      ensures Valid() && members == {}
      ensures this.shift == shift && this.length == length
      ensures fresh(secondaryMasks)
    {
      this.shift := shift;
      this.length := length;
      primaryMask := 0;
      secondaryMasks := new nat[length](_ => 0);
      members := {};
      new;
      forall j: nat ensures WordOk(j) { ZeroBit(j); }
      forall j: nat, k: nat ensures MemberOk(j, k) { ZeroBit(k); }
    }

    /** `BitMask::index`: shift and mask, which is division and remainder by the width. */
    function Index(index: nat): (b: BitIndex)
    {
      BitIndex(index, Shr(index, shift), And(index, Pow2(shift) - 1))
    }

    ghost predicate Indexed(b: BitIndex) {
      && b.index == b.primary * Width() + b.secondary
      && b.primary < length && b.secondary < Width()
    }

    lemma IndexSplits(index: nat)
      requires Covers(index)
      ensures Indexed(Index(index))
    {
      hide And, Pow2;
      AndLowMask(index, shift);
      ShrValue(index, shift);
      QuotientBound(index, length, Width());
    }

    lemma SplitUnique(j: nat, k: nat, b: BitIndex)
      requires k < Width() && Indexed(b)
      ensures j * Width() + k == b.index <==> j == b.primary && k == b.secondary
    {
      if j * Width() + k == b.index {
        DivUnique(b.index, Width(), j, k);
        DivUnique(b.index, Width(), b.primary, b.secondary);
      }
    }

    lemma InRange(b: BitIndex)
      requires Indexed(b)
      ensures Covers(b.index)
    {
      MulMono(b.primary + 1, length, Width());
      assert (b.primary + 1) * Width() == b.primary * Width() + Width();
    }

    /** Indices are ordered by word first. */
    lemma IndexOrder(b: BitIndex, c: BitIndex)
      requires Indexed(b) && Indexed(c)
      ensures b.index <= c.index <==>
        b.primary < c.primary || (b.primary == c.primary && b.secondary <= c.secondary)
    {
      if b.primary < c.primary {
        WordsApart(b.primary, c.primary, Width());
      } else if c.primary < b.primary {
        WordsApart(c.primary, b.primary, Width());
      }
    }

    lemma WordsApart(p: nat, q: nat, w: nat)
      requires p < q
      ensures p * w + w <= q * w
    {
      MulMono(p + 1, q, w);
      assert (p + 1) * w == p * w + w;
    }

    /** A member is a set bit of a word whose primary bit is set. */
    lemma MemberSplit(i: nat) returns (b: BitIndex)
      requires Valid() && i in members
      ensures Indexed(b) && b.index == i
      ensures Bit(secondaryMasks[b.primary], b.secondary) && Bit(primaryMask, b.primary)
    {
      b := Index(i);
      assert Covers(i);
      IndexSplits(i);
      assert MemberOk(b.primary, b.secondary) && WordOk(b.primary);
      if secondaryMasks[b.primary] == 0 { ZeroBit(b.secondary); }
    }

    method Set(index: BitIndex)
      requires Valid() && Indexed(index)
      modifies this`primaryMask, this`members, secondaryMasks
      ensures Valid() && members == old(members) + {index.index}
    {
      assert WordOk(index.primary);
      var word := secondaryMasks[index.primary];
      WordSet(Width(), word, index.secondary);
      WordSet(Width(), primaryMask, index.primary);
      InRange(index);
      secondaryMasks[index.primary] := Or(word, Shl(1, index.secondary));
      primaryMask := Or(primaryMask, Shl(1, index.primary));
      members := members + {index.index};
      forall j: nat ensures WordOk(j) { assert old(WordOk(j)); }
      forall j: nat, k: nat
        ensures MemberOk(j, k)
      {
        assert old(MemberOk(j, k));
        if k < Width() { SplitUnique(j, k, index); }
      }
      forall i | i in members ensures Covers(i) { assert i in old(members) ==> Covers(i); }
    }

    method Unset(index: BitIndex)
      requires Valid() && Indexed(index)
      modifies this`primaryMask, this`members, secondaryMasks
      ensures Valid() && members == old(members) - {index.index}
    {
      assert WordOk(index.primary);
      var word := secondaryMasks[index.primary];
      WordUnset(Width(), word, index.secondary);
      WordUnset(Width(), primaryMask, index.primary);
      secondaryMasks[index.primary] := And(word, Not(Pow2(shift), Shl(1, index.secondary)));
      if secondaryMasks[index.primary] == 0 {
        primaryMask := And(primaryMask, Not(Pow2(shift), Shl(1, index.primary)));
      } else {
        AndBound(word, Not(Pow2(shift), Shl(1, index.secondary)));
      }
      members := members - {index.index};
      forall j: nat ensures WordOk(j) { assert old(WordOk(j)); }
      forall j: nat, k: nat
        ensures MemberOk(j, k)
      {
        assert old(MemberOk(j, k));
        if k < Width() { SplitUnique(j, k, index); }
      }
      forall i | i in members ensures Covers(i) { assert Covers(i); }
    }

    ghost predicate IsLeastFrom(minIndex: BitIndex, found: BitIndex)
      reads this
    {
      && Indexed(found)
      && found.index in members && minIndex.index <= found.index
      && forall i <- members :: minIndex.index <= i ==> found.index <= i
    }

    ghost predicate EmptyFrom(p: nat, s: nat)
      requires secondaryMasks.Length == length && p < length
      reads this, secondaryMasks
    {
      forall k: nat | s <= k :: !Bit(secondaryMasks[p], k)
    }

    lemma FoundInSameWord(minIndex: BitIndex, s: nat)
      requires Valid() && Indexed(minIndex)
      requires minIndex.secondary <= s < Width() && Bit(secondaryMasks[minIndex.primary], s)
      requires forall k: nat | minIndex.secondary <= k < s :: !Bit(secondaryMasks[minIndex.primary], k)
      ensures IsLeastFrom(minIndex, BitIndex(minIndex.primary * Width() + s, minIndex.primary, s))
    {
      var found := BitIndex(minIndex.primary * Width() + s, minIndex.primary, s);
      assert MemberOk(minIndex.primary, s);
      forall i | i in members && minIndex.index <= i
        ensures found.index <= i
      {
        var b := MemberSplit(i);
        IndexOrder(minIndex, b);
        IndexOrder(found, b);
      }
    }

    lemma FoundInLaterWord(minIndex: BitIndex, p: nat, s: nat)
      requires Valid() && Indexed(minIndex) && EmptyFrom(minIndex.primary, minIndex.secondary)
      requires minIndex.primary < p < length && s < Width() && Bit(secondaryMasks[p], s)
      requires forall j: nat | minIndex.primary < j < p :: !Bit(primaryMask, j)
      requires forall k: nat | k < s :: !Bit(secondaryMasks[p], k)
      ensures IsLeastFrom(minIndex, BitIndex(p * Width() + s, p, s))
    {
      var found := BitIndex(p * Width() + s, p, s);
      assert MemberOk(p, s);
      IndexOrder(minIndex, found);
      forall i | i in members && minIndex.index <= i
        ensures found.index <= i
      {
        var b := MemberSplit(i);
        IndexOrder(minIndex, b);
        IndexOrder(found, b);
      }
    }

    lemma NothingFound(minIndex: BitIndex)
      requires Valid() && Indexed(minIndex) && EmptyFrom(minIndex.primary, minIndex.secondary)
      requires forall j: nat | minIndex.primary < j :: !Bit(primaryMask, j)
      ensures forall i <- members :: i < minIndex.index
    {
      forall i | i in members
        ensures i < minIndex.index
      {
        var b := MemberSplit(i);
        IndexOrder(minIndex, b);
      }
    }

    /** `find_first`: the least member at or after `minIndex`, or `None` if there is none. */
    method FindFirst(minIndex: BitIndex) returns (found: Option<BitIndex>)
      requires Valid() && Indexed(minIndex)
      ensures found.Some? ==> IsLeastFrom(minIndex, found.value)
      ensures found.None? ==> forall i <- members :: i < minIndex.index
    {
      hide And, Or, Pow2, Bit;
      var primary := minIndex.primary;
      var secondary := None;
      assert WordOk(primary);
      WordTest(Width(), primaryMask, primary);
      if And(primaryMask, Shl(1, primary)) != 0 {
        LowestSetBitAfterLeast(Width(), secondaryMasks[primary], minIndex.secondary);
        secondary := LowestSetBitAfter(Pow2(shift), secondaryMasks[primary], minIndex.secondary);
        if secondary.Some? { FoundInSameWord(minIndex, secondary.value); }
      } else {
        forall k: nat ensures !Bit(secondaryMasks[primary], k) { ZeroBit(k); }
      }
      if secondary == None {
        assert EmptyFrom(minIndex.primary, minIndex.secondary);
        LowestSetBitAfterLeast(Width(), primaryMask, minIndex.primary + 1);
        var word := LowestSetBitAfter(Pow2(shift), primaryMask, minIndex.primary + 1);
        if word == None {
          NothingFound(minIndex);
          return None;
        }
        primary := word.value;
        assert WordOk(primary);
        FirstBitOfWord(primary);
        secondary := Some(TrailingZeros(secondaryMasks[primary]));
        FoundInLaterWord(minIndex, primary, secondary.value);
      }
      OrLow(primary, shift, secondary.value);
      ShlValue(primary, shift);
      found := Some(BitIndex(Or(Shl(primary, shift), secondary.value), primary, secondary.value));
    }

    lemma FirstBitOfWord(p: nat)
      requires Valid() && p < length && secondaryMasks[p] != 0
      ensures var s := TrailingZeros(secondaryMasks[p]);
        s < Width() && Bit(secondaryMasks[p], s) && forall k: nat | k < s :: !Bit(secondaryMasks[p], k)
    {
      assert WordOk(p);
      TrailingZerosLeast(secondaryMasks[p]);
      BitBelowWidth(secondaryMasks[p], Width(), TrailingZeros(secondaryMasks[p]));
    }
  }
}
