/** The tiling is a function of the live blocks: the free chunks are exactly the maximal
    gaps between them. Undoing an operation therefore restores the whole layout. */
module Canonical {
  import opened Wrappers
  import opened Bins
  import opened Partition
  import opened Layouts
  import opened FreeLists
  import opened Heaps
  import opened Operations
  import opened Effects
  import opened Search

  /** `[o, o + s)` holds no live unit and is bounded by live blocks or the ends of space. */
  ghost predicate MaximalGap(live: map<nat, nat>, total: nat, o: nat, s: nat) {
    && 0 < s && o + s <= total
    && (o == 0 || exists p :: p in live && p + live[p] == o)
    && (o + s == total || o + s in live)
    && forall p | p in live :: p + live[p] <= o || o + s <= p
  }

  lemma FreeIsGap(c: Layout, total: nat, o: nat)
    requires WellFormed(c, total) && FreeAt(c, o)
    ensures MaximalGap(Live(c), total, o, c[o].size)
  {
    TagAfter(c, total, o);
    assert Quiet(c, o);
    if o > 0 {
      TagBefore(c, total, o);
      var p := o - c[o].prev;
      assert Quiet(c, p);
      assert p in Live(c) && p + Live(c)[p] == o;
    }
    forall p | p in Live(c)
      ensures p + Live(c)[p] <= o || o + c[o].size <= p
    {
      Disjoint(c, total, o, p);
    }
  }

  lemma LiveEntry(c: Layout, x: nat)
    ensures LiveAt(c, x) ==> x in Live(c) && Live(c)[x] == c[x].size
  {}

  lemma GapIsFree(c: Layout, total: nat, o: nat, s: nat)
    requires WellFormed(c, total) && MaximalGap(Live(c), total, o, s)
    ensures FreeAt(c, o) && c[o].size == s
  {
    if o > 0 {
      var p :| p in Live(c) && p + Live(c)[p] == o;
      TagAfter(c, total, p);
    }
    assert o in c;
    TagAfter(c, total, o);
    LiveEntry(c, o);
    assert Quiet(c, o);
    var e := o + c[o].size;
    LiveEntry(c, e);
    if e in c { TagAfter(c, total, e); }
    if c[o].size > s {
      assert o + s in c;
      Disjoint(c, total, o, o + s);
    }
  }

  /** The free chunks are exactly the maximal gaps. */
  lemma FreeChunksAreGaps(c: Layout, total: nat, o: nat, s: nat)
    requires WellFormed(c, total)
    ensures FreeAt(c, o) && c[o].size == s <==> MaximalGap(Live(c), total, o, s)
  {
    if FreeAt(c, o) && c[o].size == s {
      FreeIsGap(c, total, o);
    } else if MaximalGap(Live(c), total, o, s) {
      GapIsFree(c, total, o, s);
    }
  }

  lemma SameChunk(c: Layout, d: Layout, total: nat, o: nat)
    requires WellFormed(c, total) && WellFormed(d, total) && Live(c) == Live(d) && o in c
    ensures o in d && d[o].size == c[o].size && d[o].used == c[o].used
  {
    if c[o].used {
      assert o in Live(d);
    } else {
      FreeIsGap(c, total, o);
      GapIsFree(d, total, o, c[o].size);
    }
  }

  lemma SameTag(c: Layout, d: Layout, total: nat, o: nat)
    requires WellFormed(c, total) && WellFormed(d, total) && Live(c) == Live(d) && o in c && o in d
    ensures c[o].prev == d[o].prev
  {
    assert ChunkOk(c, total, o) && ChunkOk(d, total, o);
    if o > 0 {
      var p, q := o - c[o].prev, o - d[o].prev;
      SameChunk(c, d, total, p);
      if p != q { Disjoint(d, total, p, q); }
    }
  }

  /** Two layouts with the same live blocks are equal, tags included. */
  lemma CanonicalLayout(c: Layout, d: Layout, total: nat)
    requires WellFormed(c, total) && WellFormed(d, total) && Live(c) == Live(d)
    ensures c == d
  {
    forall o: nat
      ensures o in c <==> o in d
      ensures o in c && o in d ==> c[o] == d[o]
    {
      if o in c {
        SameChunk(c, d, total, o);
        SameTag(c, d, total, o);
      } else if o in d {
        SameChunk(d, c, total, o);
      }
    }
  }

  // ---- the chunks in order ----

  /** The chunk offsets from `o` to the end of the space. */
  ghost function ChunksFrom(c: Layout, total: nat, o: nat): seq<nat>
    requires Tiled(c, total) && (o in c || o == total)
    decreases total - o
  {
    if o !in c then []
    else
      TagAfter(c, total, o);
      [o] + ChunksFrom(c, total, o + c[o].size)
  }

  ghost function SizeSum(c: Layout, s: seq<nat>): nat
    requires forall o <- s :: o in c
  {
    if s == [] then 0 else c[s[0]].size + SizeSum(c, s[1..])
  }

  /** Every chunk is met exactly once, in order. */
  lemma {:induction false} ChunksExact(c: Layout, total: nat, o: nat)
    requires Tiled(c, total) && (o in c || o == total)
    ensures forall x :: x in ChunksFrom(c, total, o) <==> x in c && o <= x
    ensures forall i, j | 0 <= i < j < |ChunksFrom(c, total, o)| ::
      ChunksFrom(c, total, o)[i] < ChunksFrom(c, total, o)[j]
    decreases total - o
  {
    if o in c {
      TagAfter(c, total, o);
      var n := o + c[o].size;
      ChunksExact(c, total, n);
      forall x | x in c && o <= x
        ensures x == o || n <= x
      {
        if x != o { Disjoint(c, total, o, x); }
      }
      var s, t := ChunksFrom(c, total, o), ChunksFrom(c, total, n);
      forall i, j | 0 <= i < j < |s|
        ensures s[i] < s[j]
      {
        assert s[j] == t[j - 1] && t[j - 1] in t;
        if i > 0 { assert s[i] == t[i - 1]; }
      }
    } else {
      forall x | x in c ensures x < o { TagAfter(c, total, x); }
    }
  }

  /** The sizes of the chunks add up to the whole space. */
  lemma {:induction false} SizesSumUp(c: Layout, total: nat, o: nat)
    requires Tiled(c, total) && (o in c || o == total)
    ensures forall x <- ChunksFrom(c, total, o) :: x in c
    ensures SizeSum(c, ChunksFrom(c, total, o)) == total - o
    decreases total - o
  {
    if o in c {
      TagAfter(c, total, o);
      SizesSumUp(c, total, o + c[o].size);
      assert ChunksFrom(c, total, o)[1..] == ChunksFrom(c, total, o + c[o].size);
    }
  }

  /** Every unit of the space lies in exactly one chunk. */
  lemma {:induction false} ChunkCovers(c: Layout, total: nat, o: nat, x: nat) returns (p: nat)
    requires Tiled(c, total) && o in c && o <= x < total
    ensures p in c && p <= x < p + c[p].size
    ensures forall q | q in c && q <= x < q + c[q].size :: q == p
    decreases x - o
  {
    TagAfter(c, total, o);
    if x < o + c[o].size {
      p := o;
      forall q | q in c && q <= x < q + c[q].size ensures q == p {
        if q != p { Disjoint(c, total, p, q); }
      }
    } else {
      p := ChunkCovers(c, total, o + c[o].size, x);
    }
  }

  // ---- heaps ----

  /** The mask is the set of bins of the free chunks. */
  lemma MaskIsBins(h: Heap, b: nat)
    requires HeapOk(h)
    ensures b in h.l.bits <==> exists o :: FreeAt(h.c, o) && BinOf(h, o) == b
  {
    hide HeapOk;
    if b in h.l.bits {
      var o := HeadChunk(h, b);
    }
    if o :| FreeAt(h.c, o) && BinOf(h, o) == b {
      FreeHasBit(h, o);
    }
  }

  /** The list of a bin holds the free chunks of that bin, each of them once and nothing
      else; its mask bit is set exactly when there are any. */
  lemma FreeListOfBin(h: Heap, b: nat)
    requires HeapOk(h) && b < |h.l.heads|
    ensures LinksOk(h.l)
    ensures var w := FreeList(h.l, b);
      && (forall o: nat :: o in w <==> FreeAt(h.c, o) && BinOf(h, o) == b)
      && (forall i, j | 0 <= i < j < |w| :: w[i] != w[j])
      && (b in h.l.bits <==> w != [])
  {
    hide BinDown, ConfigOk;
    FreeListExact(h.l, b);
    forall o: nat
      ensures o in h.l.nodes && h.l.nodes[o].bin == b <==> FreeAt(h.c, o) && BinOf(h, o) == b
    {
      assert FiledOk(h.c, h.l.nodes, h.m, o);
    }
  }

  /** Two heaps with the same live blocks have the same layout and the same mask. */
  lemma CanonicalHeap(h: Heap, k: Heap)
    requires HeapOk(h) && HeapOk(k) && |h.l.mem| == |k.l.mem| && h.m == k.m
    requires Live(h.c) == Live(k.c)
    ensures h.c == k.c && h.l.bits == k.l.bits
  {
    CanonicalLayout(h.c, k.c, |h.l.mem|);
    forall b: nat ensures b in h.l.bits <==> b in k.l.bits {
      MaskIsBins(h, b);
      MaskIsBins(k, b);
      if o :| FreeAt(h.c, o) && BinOf(h, o) == b { assert BinOf(k, o) == b; }
      if o :| FreeAt(k.c, o) && BinOf(k, o) == b { assert BinOf(h, o) == b; }
    }
  }

  /** With nothing live there is one free chunk over the whole space. */
  lemma AllFreed(h: Heap)
    requires HeapOk(h) && Live(h.c) == map[]
    ensures h.c == map[0 := Chunk(0, |h.l.mem|, false)]
  {
    var d: Layout := map[0 := Chunk(0, |h.l.mem|, false)];
    forall o | o in d ensures ChunkOk(d, |h.l.mem|, o) && Quiet(d, o) {}
    forall o, p | o in d && p in d ensures Apart(d, o, p) {}
    assert Live(d) == map[];
    CanonicalLayout(h.c, d, |h.l.mem|);
  }

  /** Allocating and freeing again restores layout, mask and contents. */
  lemma AllocFreeRestores(h: Heap, j: Heap, k: Heap, o: nat, n: nat)
    requires Placed(h, j, o, n) && Freed(j, k, o)
    ensures k.c == h.c && k.l.bits == h.l.bits && Contents(k) == Contents(h)
  {
    hide HeapOk, OthersKept, SparesOthers;
    assert Live(k.c) == Live(h.c);
    assert o !in Contents(h);
    CanonicalHeap(h, k);
  }

  lemma LiveThere(c: Layout, d: Layout, o: nat, n: nat)
    requires LiveAt(c, o) && Live(d) == Live(c)[o := n]
    ensures LiveAt(d, o) && d[o].size == n
    ensures forall x: nat | x != o && LiveAt(d, x) :: LiveAt(c, x)
  {
    assert o in Live(d);
    forall x: nat | x != o && LiveAt(d, x) ensures LiveAt(c, x) {
      assert x in Live(d);
      assert x in Live(c);
    }
  }

  /** The chunk behind a cut block is free and reaches as far as the block did. */
  lemma RoomBehindCut(c: Layout, d: Layout, total: nat, o: nat, n: nat)
    requires WellFormed(c, total) && WellFormed(d, total)
    requires LiveAt(c, o) && 0 < n < c[o].size && Live(d) == Live(c)[o := n]
    ensures LiveAt(d, o) && d[o].size == n && NextFree(d, o)
    ensures o + c[o].size <= ReleaseEnd(d, o) <= total
    ensures o + c[o].size < ReleaseEnd(d, o) ==> o + c[o].size in c
  {
    var m := o + n;
    LiveThere(c, d, o, n);
    TagAfter(c, total, o);
    TagAfter(d, total, o);
    if d[m].used {
      assert LiveAt(d, m);
      Disjoint(c, total, o, m);
    }
    TagAfter(d, total, m);
    assert Quiet(d, m);
    var e := m + d[m].size;
    if e < o + c[o].size {
      assert LiveAt(d, e);
      Disjoint(c, total, o, e);
    }
  }

  /** The room that shrinking frees is there to grow back into, and was granted before. */
  lemma RoomAfterShrink(h: Heap, j: Heap, o: nat, n: nat, grants: u32 -> bool)
    requires Shrunk(h, j, o, n)
    ensures LiveAt(j.c, o) && j.c[o].size == n
    ensures CanGrow(j, o, h.c[o].size, grants) && GrowEnd(j.c, o, h.c[o].size) <= j.high
  {
    hide HeapOk, SparesOthers, OthersKept, Contents, WellFormed;
    HeapFacts(h);
    HeapFacts(j);
    RoomBehindCut(h.c, j.c, |h.l.mem|, o, n);
    HeaderFacts(h, o);
    if o + h.c[o].size in h.c { HeaderFacts(h, o + h.c[o].size); }
  }

  /** Shrinking and growing back always succeeds, asks the environment for nothing, and
      restores layout and mask. */
  lemma ShrinkGrowRestores(h: Heap, j: Heap, k: Heap, o: nat, n: nat, grants: u32 -> bool, r: Option<u32>)
    requires Shrunk(h, j, o, n) && GrowOutcome(j, k, o, h.c[o].size, grants, r)
    ensures r == Some(h.c[o].size - 1)
    ensures k.c == h.c && k.l.bits == h.l.bits && k.high == h.high
  {
    hide HeapOk, OthersKept, SparesOthers, Contents;
    RoomAfterShrink(h, j, o, n, grants);
    assert Live(k.c) == Live(h.c);
    CanonicalHeap(h, k);
  }
}
