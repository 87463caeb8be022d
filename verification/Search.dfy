/** Which free chunk `alloc` takes (src/allocator.rs:780-805), how good that choice is, and
    when it finds none. */
module Search {
  import opened Bits
  import opened Bins
  import opened Partition
  import opened Layouts
  import opened FreeLists
  import opened Heaps
  import opened Operations

  ghost predicate LeastFrom(bits: set<nat>, i: nat, b: nat) {
    b in bits && i <= b && forall j <- bits :: i <= j ==> b <= j
  }

  ghost predicate NoneFrom(bits: set<nat>, i: nat) {
    forall j <- bits :: j < i
  }

  /** The bin that is searched: the first at or above the rounded-up size, or failing that
      the first at or above the rounded-down size. */
  ghost predicate SearchedBin(h: Heap, minSize: u32, b: nat)
    requires 1 <= h.m <= 8
  {
    || LeastFrom(h.l.bits, BinUp(h.m, minSize), b)
    || (NoneFrom(h.l.bits, BinUp(h.m, minSize)) && LeastFrom(h.l.bits, BinDown(h.m, minSize), b))
  }

  /** `o` is the chunk that is tried: the head of the searched bin. */
  ghost predicate Tried(h: Heap, minSize: u32, o: nat)
    requires HeapOk(h)
  {
    FreeAt(h.c, o) && SearchedBin(h, minSize, BinOf(h, o)) && HeadAt(h.l, BinOf(h, o)) == h.l.base + o
  }

  ghost function BinOf(h: Heap, o: nat): nat
    requires HeapOk(h) && o in h.c
  {
    HeaderFacts(h, o);
    BinDown(h.m, h.c[o].size)
  }

  /** At most one chunk is tried. */
  lemma TriedUnique(h: Heap, minSize: u32, o: nat, p: nat)
    requires HeapOk(h) && Tried(h, minSize, o) && Tried(h, minSize, p)
    ensures o == p
  {
    hide HeapOk;
    assert BinOf(h, o) in h.l.bits && BinOf(h, p) in h.l.bits;
    assert BinOf(h, o) == BinOf(h, p);
  }

  /** The head of a bin whose bit is set is a free chunk of that bin. */
  lemma HeadChunk(h: Heap, b: nat) returns (o: nat)
    requires HeapOk(h) && b in h.l.bits
    ensures FreeAt(h.c, o) && BinOf(h, o) == b && b < |h.l.heads| && h.l.heads[b] == h.l.base + o
  {
    hide HeapOk, BinDown, LinksOk, WellFormed, Replayed, NodesBelow;
    HeapFacts(h);
    HeadOfBit(h.l, b);
    o := h.l.heads[b] - h.l.base;
    NodeChunk(h, o);
  }

  lemma NodeChunk(h: Heap, o: nat)
    requires HeapOk(h) && o in h.l.nodes
    ensures FreeAt(h.c, o) && h.l.nodes[o].bin == BinOf(h, o)
  {
    hide BinDown;
    assert FiledOk(h.c, h.l.nodes, h.m, o);
  }

  /** The mask bit of every free chunk's bin is set. */
  lemma FreeHasBit(h: Heap, t: nat)
    requires HeapOk(h) && FreeAt(h.c, t)
    ensures BinOf(h, t) in h.l.bits
  {
    hide HeapOk, BinDown, LinksOk, WellFormed, Replayed, NodesBelow, ConfigOk, NodeOk;
    HeapFacts(h);
    FreeNode(h, t);
    NodeHasHead(h.l, t);
  }

  /** A chunk found by the rounded-up search is large enough. */
  lemma UpperBinFits(h: Heap, minSize: u32, o: nat)
    requires HeapOk(h) && 0 < minSize <= MAX_ALLOCATION_SIZE
    requires FreeAt(h.c, o) && BinUp(h.m, minSize) <= BinOf(h, o)
    ensures minSize <= h.c[o].size
  {
    hide HeapOk;
    HeaderFacts(h, o);
    FitSound(h.m, minSize, h.c[o].size);
  }

  /** Fragmentation bound: when the tried chunk is too small, or none is tried, no free chunk
      exceeds the request by as much as one part in `2^m`. */
  lemma FragmentationBound(h: Heap, minSize: u32, t: nat)
    requires HeapOk(h) && 0 < minSize <= MAX_ALLOCATION_SIZE
    requires Missed(h, minSize) && FreeAt(h.c, t)
    ensures h.c[t].size * Pow2(h.m) < minSize * (Pow2(h.m) + 1)
  {
    hide HeapOk, Tried, BinDown, BinUp;
    HeaderFacts(h, t);
    if BinUp(h.m, minSize) <= BinOf(h, t) {
      FreeHasBit(h, t);
      var b := LeastMember(h.l.bits, BinUp(h.m, minSize), BinOf(h, t));
      var o := HeadChunk(h, b);
      UpperBinFits(h, minSize, o);
      TriedHead(h, minSize, o);
    } else {
      MissedIsTight(h.m, minSize, h.c[t].size);
    }
  }

  lemma TriedHead(h: Heap, minSize: u32, o: nat)
    requires HeapOk(h) && FreeAt(h.c, o) && SearchedBin(h, minSize, BinOf(h, o))
    requires HeadAt(h.l, BinOf(h, o)) == h.l.base + o
    ensures Tried(h, minSize, o)
  {}

  lemma OnlyTried(h: Heap, minSize: u32, o: nat)
    requires HeapOk(h) && Tried(h, minSize, o)
    ensures forall p | Tried(h, minSize, p) :: p == o
  {
    forall p | Tried(h, minSize, p) ensures p == o { TriedUnique(h, minSize, o, p); }
  }

  lemma NoneTried(h: Heap, minSize: u32)
    requires HeapOk(h) && 0 < minSize <= MAX_ALLOCATION_SIZE && NoneFrom(h.l.bits, BinDown(h.m, minSize))
    ensures forall p :: !Tried(h, minSize, p)
  {
    hide HeapOk;
    HeapFacts(h);
    RoundingMonotone(h.m, minSize, minSize);
  }

  lemma {:induction false} LeastMember(bits: set<nat>, i: nat, j: nat) returns (b: nat)
    requires j in bits && i <= j
    ensures LeastFrom(bits, i, b)
    decreases j - i
  {
    if k :| k in bits && i <= k < j {
      b := LeastMember(bits, i, k);
    } else {
      b := j;
    }
  }

  /** The search tries a chunk exactly when some free chunk is in the rounded-down bin of the
      request or above it. */
  lemma TriedExists(h: Heap, minSize: u32)
    requires HeapOk(h) && 0 < minSize <= MAX_ALLOCATION_SIZE
    ensures (exists o :: Tried(h, minSize, o)) <==>
            (exists t :: FreeAt(h.c, t) && BinDown(h.m, minSize) <= BinOf(h, t))
  {
    hide HeapOk, BinDown, BinUp, ConfigOk;
    HeapConfig(h);
    BinInRange(BinConfig(h.m, |h.l.heads|), minSize);
    if t :| FreeAt(h.c, t) && BinDown(h.m, minSize) <= BinOf(h, t) {
      FreeHasBit(h, t);
      var b;
      if j :| j in h.l.bits && BinUp(h.m, minSize) <= j {
        b := LeastMember(h.l.bits, BinUp(h.m, minSize), j);
      } else {
        b := LeastMember(h.l.bits, BinDown(h.m, minSize), BinOf(h, t));
      }
      var o := HeadChunk(h, b);
      TriedHead(h, minSize, o);
    }
  }

  /** Near best fit: the tried chunk exceeds no chunk that the rounded-up search could have
      taken, nor any large enough chunk when it came from the fallback bin, by as much as one
      part in `2^m`. */
  lemma NearBestFit(h: Heap, minSize: u32, o: nat, t: nat)
    requires HeapOk(h) && 0 < minSize <= MAX_ALLOCATION_SIZE && |h.l.mem| <= MAX_ALLOCATION_SIZE
    requires Tried(h, minSize, o) && FreeAt(h.c, t)
    requires BinUp(h.m, minSize) <= BinOf(h, t) || (BinOf(h, o) < BinUp(h.m, minSize) && minSize <= h.c[t].size)
    ensures h.c[o].size * Pow2(h.m) < h.c[t].size * (Pow2(h.m) + 1)
  {
    hide HeapOk, BinDown, BinUp, Pow2, Clamp;
    HeaderFacts(h, o);
    HeaderFacts(h, t);
    FreeHasBit(h, t);
    if minSize <= h.c[t].size { BinDownMonotone(h.m, minSize, h.c[t].size); }
    LowerBinIsTight(h.m, h.c[o].size, h.c[t].size);
  }

  /** Rounding up and down differ by one bin at most, so a large enough chunk that the
      rounded-up search passes over is in the rounded-down bin. */
  lemma PassedOverBin(h: Heap, minSize: u32, t: nat)
    requires HeapOk(h) && 0 < minSize <= MAX_ALLOCATION_SIZE
    requires FreeAt(h.c, t) && minSize <= h.c[t].size && NoneFrom(h.l.bits, BinUp(h.m, minSize))
    ensures BinOf(h, t) == BinDown(h.m, minSize)
  {
    hide HeapOk;
    HeaderFacts(h, t);
    FreeHasBit(h, t);
    BinDownMonotone(h.m, minSize, h.c[t].size);
    RoundingMonotone(h.m, minSize, minSize);
  }

  ghost predicate Missed(h: Heap, minSize: u32)
    requires HeapOk(h)
  {
    forall o {:trigger Tried(h, minSize, o)} | Tried(h, minSize, o) :: h.c[o].size < minSize
  }

  /** Exactly when a request is missed although the free chunk `t` is large enough: no chunk
      is filed at the rounded-up bin or above, and the head of the fallback bin is too small. */
  lemma MissedExactly(h: Heap, minSize: u32, t: nat, first: nat)
    requires HeapOk(h) && 0 < minSize <= MAX_ALLOCATION_SIZE
    requires FreeAt(h.c, t) && minSize <= h.c[t].size
    requires NoneFrom(h.l.bits, BinUp(h.m, minSize)) ==>
      && FreeAt(h.c, first) && h.l.base + first == HeadAt(h.l, BinDown(h.m, minSize))
      && BinOf(h, first) == BinDown(h.m, minSize)
    ensures Missed(h, minSize) <==> NoneFrom(h.l.bits, BinUp(h.m, minSize)) && h.c[first].size < minSize
  {
    hide HeapOk, BinDown, BinUp, Tried;
    HeapFacts(h);
    if NoneFrom(h.l.bits, BinUp(h.m, minSize)) {
      PassedOverBin(h, minSize, t);
      FreeHasBit(h, t);
      TriedHead(h, minSize, first);
      forall o | Tried(h, minSize, o) ensures o == first { TriedUnique(h, minSize, o, first); }
    } else {
      var j :| j in h.l.bits && BinUp(h.m, minSize) <= j;
      var b := LeastMember(h.l.bits, BinUp(h.m, minSize), j);
      var o := HeadChunk(h, b);
      UpperBinFits(h, minSize, o);
      TriedHead(h, minSize, o);
    }
  }
}
