/** The tiling of the address space by chunks: what boundary tags say, and what splitting
    and merging do to it. `ChunkOk` and `Quiet` are the two halves of
    `paranoid_check_chunk` (src/allocator.rs:902-946), here required of every chunk. */
module Partition {

  /** A chunk as its header describes it; `prev` is the size of its left neighbour. */
  datatype Chunk = Chunk(prev: nat, size: nat, used: bool)

  /** Chunks by the offset of their header. */
  type Layout = map<nat, Chunk>

  ghost predicate ChunkOk(c: Layout, total: nat, o: nat)
    requires o in c
  {
    && 0 < c[o].size && o + c[o].size <= total
    && (if c[o].prev == 0 then o == 0
        else c[o].prev <= o && o - c[o].prev in c && c[o - c[o].prev].size == c[o].prev)
    && (o + c[o].size < total ==>
          o + c[o].size in c && c[o + c[o].size].prev == c[o].size)
  }

  ghost predicate Apart(c: Layout, o: nat, p: nat)
    requires o in c && p in c
  {
    o < p ==> o + c[o].size <= p
  }

  /** The chunks tile `[0, total)` and every boundary tag is right. */
  ghost predicate Tiled(c: Layout, total: nat) {
    && 0 in c
    && (forall o {:trigger ChunkOk(c, total, o)} | o in c :: ChunkOk(c, total, o))
    && (forall o, p {:trigger Apart(c, o, p)} | o in c && p in c :: Apart(c, o, p))
  }

  /** A free chunk is followed by an allocated one. */
  ghost predicate Quiet(c: Layout, o: nat)
    requires o in c
  {
    !c[o].used && o + c[o].size in c ==> c[o + c[o].size].used
  }

  ghost predicate Coalesced(c: Layout) {
    forall o {:trigger Quiet(c, o)} | o in c :: Quiet(c, o)
  }

  ghost predicate FreeAt(c: Layout, o: nat) { o in c && !c[o].used }

  ghost predicate LiveAt(c: Layout, o: nat) { o in c && c[o].used }

  /** The allocated blocks: header offset to size, header included. */
  ghost function Live(c: Layout): map<nat, nat> {
    map o | o in c && c[o].used :: c[o].size
  }

  // ---- elementary edits ----

  ghost function Retag(c: Layout, o: nat, prev: nat): Layout {
    if o in c then c[o := c[o].(prev := prev)] else c
  }

  ghost function Mark(c: Layout, o: nat, used: bool): Layout
    requires o in c
  {
    c[o := c[o].(used := used)]
  }

  ghost function Split(c: Layout, o: nat, k: nat): Layout
    requires o in c && k < c[o].size
  {
    var s := c[o].size;
    Retag(c, o + s, s - k)[o := c[o].(size := k)][o + k := Chunk(k, s - k, c[o].used)]
  }

  ghost function Merge(c: Layout, o: nat): Layout
    requires o in c && o + c[o].size in c
  {
    var n := o + c[o].size;
    var s := c[o].size + c[n].size;
    (Retag(c, o + s, s) - {n})[o := c[o].(size := s)]
  }

  lemma MarkTiled(c: Layout, total: nat, o: nat, used: bool)
    requires Tiled(c, total) && o in c
    ensures Tiled(Mark(c, o, used), total)
  {
    var d := Mark(c, o, used);
    forall x | x in d ensures ChunkOk(d, total, x) { assert ChunkOk(c, total, x); }
    forall x, y | x in d && y in d ensures Apart(d, x, y) { assert Apart(c, x, y); }
  }

  ghost predicate IsSplit(c: Layout, d: Layout, o: nat, k: nat)
    requires o in c && 0 < k < c[o].size
  {
    var s := c[o].size;
    && d.Keys == c.Keys + {o + k}
    && d[o] == c[o].(size := k)
    && d[o + k] == Chunk(k, s - k, c[o].used)
    && (o + s in c ==> d[o + s] == c[o + s].(prev := s - k))
    && forall x | x in c && x != o && x != o + s :: d[x] == c[x]
  }

  ghost predicate IsMerge(c: Layout, d: Layout, o: nat)
    requires o in c && o + c[o].size in c && c[o].size > 0 && c[o + c[o].size].size > 0
  {
    var n := o + c[o].size;
    var s := c[o].size + c[n].size;
    && d.Keys == c.Keys - {n}
    && d[o] == c[o].(size := s)
    && (o + s in c ==> d[o + s] == c[o + s].(prev := s))
    && forall x | x in c && x != o && x != n && x != o + s :: d[x] == c[x]
  }

  /** Splitting changes one size, adds one chunk and rewrites one tag. */
  lemma SplitAt(c: Layout, total: nat, o: nat, k: nat)
    requires Tiled(c, total) && o in c && 0 < k < c[o].size
    ensures o + k !in c && IsSplit(c, Split(c, o, k), o, k)
  {
    assert o + k in c ==> Apart(c, o, o + k);
  }

  lemma SplitChunkOk(c: Layout, total: nat, o: nat, k: nat, x: nat)
    requires Tiled(c, total) && o in c && 0 < k < c[o].size
    requires x in Split(c, o, k)
    ensures ChunkOk(Split(c, o, k), total, x)
  {
    hide Split, Tiled;
    SplitAt(c, total, o, k);
    TiledAt(c, total, o, o);
    if x != o + k && x != o {
      TiledAt(c, total, o, x);
      if x > 0 { TiledAt(c, total, x - c[x].prev, x); }
    }
  }

  lemma SplitApart(c: Layout, total: nat, o: nat, k: nat, x: nat, y: nat)
    requires Tiled(c, total) && o in c && 0 < k < c[o].size
    requires x in Split(c, o, k) && y in Split(c, o, k)
    ensures Apart(Split(c, o, k), x, y)
  {
    SplitAt(c, total, o, k);
    if x != o + k && y != o + k {
      assert Apart(c, x, y);
    } else if x != o + k {
      assert Apart(c, x, o) && Apart(c, o, x);
    } else if y != o + k {
      assert Apart(c, o, y);
    }
  }

  lemma SplitTiled(c: Layout, total: nat, o: nat, k: nat)
    requires Tiled(c, total) && o in c && 0 < k < c[o].size
    ensures Tiled(Split(c, o, k), total)
  {
    var d := Split(c, o, k);
    SplitAt(c, total, o, k);
    forall x | x in d ensures ChunkOk(d, total, x) { SplitChunkOk(c, total, o, k, x); }
    forall x, y | x in d && y in d ensures Apart(d, x, y) { SplitApart(c, total, o, k, x, y); }
  }

  /** Merging enlarges one chunk, removes the next and rewrites one tag. */
  lemma MergeAt(c: Layout, total: nat, o: nat)
    requires Tiled(c, total) && o in c && o + c[o].size in c
    ensures c[o].size > 0 && c[o + c[o].size].size > 0
    ensures IsMerge(c, Merge(c, o), o)
  {
    assert ChunkOk(c, total, o) && ChunkOk(c, total, o + c[o].size);
  }

  lemma MergeChunkOk(c: Layout, total: nat, o: nat, x: nat)
    requires Tiled(c, total) && o in c && o + c[o].size in c
    requires x in Merge(c, o)
    ensures ChunkOk(Merge(c, o), total, x)
  {
    hide Merge, Tiled;
    var n := o + c[o].size;
    MergeAt(c, total, o);
    TiledAt(c, total, o, x);
    TiledAt(c, total, n, x);
    if x != o && x > 0 { TiledAt(c, total, x - c[x].prev, x); }
  }

  lemma TiledAt(c: Layout, total: nat, o: nat, x: nat)
    requires Tiled(c, total) && o in c && x in c
    ensures ChunkOk(c, total, o) && ChunkOk(c, total, x) && Apart(c, o, x) && Apart(c, x, o)
  {}

  lemma MergeApart(c: Layout, total: nat, o: nat, x: nat, y: nat)
    requires Tiled(c, total) && o in c && o + c[o].size in c
    requires x in Merge(c, o) && y in Merge(c, o)
    ensures Apart(Merge(c, o), x, y)
  {
    var n := o + c[o].size;
    MergeAt(c, total, o);
    assert ChunkOk(c, total, o) && ChunkOk(c, total, n);
    assert Apart(c, x, y) && Apart(c, n, y);
    if x == o { assert Apart(c, y, n); }
  }

  lemma MergeTiled(c: Layout, total: nat, o: nat)
    requires Tiled(c, total) && o in c && o + c[o].size in c
    ensures Tiled(Merge(c, o), total)
  {
    assert 0 in Merge(c, o) by { MergeAt(c, total, o); }
    forall x | x in Merge(c, o)
      ensures ChunkOk(Merge(c, o), total, x)
    {
      MergeChunkOk(c, total, o, x);
    }
    forall x, y | x in Merge(c, o) && y in Merge(c, o)
      ensures Apart(Merge(c, o), x, y)
    {
      MergeApart(c, total, o, x, y);
    }
  }

  // ---- the edits by what they change ----

  lemma SplitChunk(c: Layout, total: nat, o: nat, k: nat) returns (d: Layout)
    requires Tiled(c, total) && o in c && 0 < k < c[o].size
    ensures o + k !in c && IsSplit(c, d, o, k) && Tiled(d, total)
  {
    d := Split(c, o, k);
    SplitAt(c, total, o, k);
    SplitTiled(c, total, o, k);
  }

  lemma MergeChunks(c: Layout, total: nat, o: nat) returns (d: Layout)
    requires Tiled(c, total) && o in c && o + c[o].size in c
    ensures c[o].size > 0 && c[o + c[o].size].size > 0
    ensures IsMerge(c, d, o) && Tiled(d, total)
  {
    d := Merge(c, o);
    MergeAt(c, total, o);
    MergeTiled(c, total, o);
  }

  lemma MarkChunk(c: Layout, total: nat, o: nat, used: bool) returns (d: Layout)
    requires Tiled(c, total) && o in c
    ensures Tiled(d, total) && d == c[o := c[o].(used := used)]
  {
    d := Mark(c, o, used);
    MarkTiled(c, total, o, used);
  }

  /** The tag of a right neighbour. */
  lemma TagAfter(c: Layout, total: nat, o: nat)
    requires Tiled(c, total) && o in c
    ensures c[o].size > 0 && o + c[o].size <= total
    ensures o + c[o].size in c <==> o + c[o].size < total
    ensures o + c[o].size in c ==> c[o + c[o].size].prev == c[o].size && c[o + c[o].size].size > 0
  {
    assert ChunkOk(c, total, o);
    assert o + c[o].size in c ==> ChunkOk(c, total, o + c[o].size);
  }

  /** The left neighbour of a chunk. */
  lemma TagBefore(c: Layout, total: nat, o: nat)
    requires Tiled(c, total) && o in c && o > 0
    ensures 0 < c[o].prev <= o && o - c[o].prev in c && c[o - c[o].prev].size == c[o].prev
  {
    assert ChunkOk(c, total, o);
  }

  /** Chunks do not overlap. */
  lemma Disjoint(c: Layout, total: nat, o: nat, x: nat)
    requires Tiled(c, total) && o in c && x in c && x != o
    ensures c[x].size > 0 && c[o].size > 0
    ensures x + c[x].size <= o || o + c[o].size <= x
  {
    assert ChunkOk(c, total, o) && ChunkOk(c, total, x);
    assert Apart(c, x, o) && Apart(c, o, x);
  }
}
