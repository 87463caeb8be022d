/** What each allocator operation does to the tiling: placing a block in a free chunk,
    releasing, trimming and extending one. Each keeps the tiling coalesced and changes the
    live blocks in one place only. */
module Layouts {
  import opened Partition

  ghost predicate WellFormed(c: Layout, total: nat) {
    Tiled(c, total) && Coalesced(c)
  }

  // ---- alloc ----

  /** `d` is `c` with a block of `n` units placed `l` units into the free chunk at `o`. */
  ghost predicate IsPlaced(c: Layout, d: Layout, o: nat, l: nat, n: nat)
    requires FreeAt(c, o) && 0 < n && l + n <= c[o].size
  {
    var s := c[o].size;
    var h, r := o + l, s - l - n;
    && d.Keys == c.Keys + {h} + (if r > 0 then {h + n} else {})
    && (l > 0 ==> d[o] == c[o].(size := l))
    && d[h] == Chunk(if l > 0 then l else c[o].prev, n, true)
    && (r > 0 ==> d[h + n] == Chunk(n, r, false))
    && (o + s in c ==> d[o + s] == c[o + s].(prev := if r > 0 then r else n))
    && (forall x | x in c && x != o && x != o + s :: d[x] == c[x])
  }

  lemma PlaceTiled(c: Layout, total: nat, o: nat, l: nat, n: nat) returns (d: Layout)
    requires Tiled(c, total) && FreeAt(c, o) && 0 < n && l + n <= c[o].size
    ensures Tiled(d, total) && IsPlaced(c, d, o, l, n)
  {
    hide Tiled;
    TagAfter(c, total, o);
    var a := c;
    if l > 0 { a := SplitChunk(c, total, o, l); }
    var b := a;
    if n < a[o + l].size { b := SplitChunk(a, total, o + l, n); }
    d := MarkChunk(b, total, o + l, true);
  }

  lemma PlaceQuiet(c: Layout, d: Layout, total: nat, o: nat, l: nat, n: nat, x: nat)
    requires WellFormed(c, total) && Tiled(d, total)
    requires FreeAt(c, o) && 0 < n && l + n <= c[o].size && IsPlaced(c, d, o, l, n)
    requires x in d
    ensures Quiet(d, x)
  {
    TagAfter(c, total, o);
    assert Quiet(c, o);
    if x in c && x != o {
      assert Quiet(c, x);
      Disjoint(c, total, o, x);
      TagAfter(c, total, x);
    }
  }

  /** Placing a block adds that block to the live ones. */
  lemma Place(c: Layout, total: nat, o: nat, l: nat, n: nat) returns (d: Layout)
    requires WellFormed(c, total) && FreeAt(c, o) && 0 < n && l + n <= c[o].size
    ensures WellFormed(d, total) && IsPlaced(c, d, o, l, n)
    ensures Live(d) == Live(c)[o + l := n]
  {
    d := PlaceTiled(c, total, o, l, n);
    forall x | x in d ensures Quiet(d, x) { PlaceQuiet(c, d, total, o, l, n, x); }
    PlaceLive(c, d, total, o, l, n);
  }

  lemma PlaceLive(c: Layout, d: Layout, total: nat, o: nat, l: nat, n: nat)
    requires Tiled(c, total) && Tiled(d, total)
    requires FreeAt(c, o) && 0 < n && l + n <= c[o].size && IsPlaced(c, d, o, l, n)
    ensures Live(d) == Live(c)[o + l := n]
  {
    forall x | x in c && x != o
      ensures x + c[x].size <= o || o + c[o].size <= x
    {
      Disjoint(c, total, o, x);
    }
  }

  // ---- free ----

  ghost predicate NextFree(c: Layout, o: nat)
    requires o in c
  {
    FreeAt(c, o + c[o].size)
  }

  ghost predicate PrevFree(c: Layout, o: nat)
    requires o in c
  {
    o > 0 && c[o].prev <= o && FreeAt(c, o - c[o].prev)
  }

  ghost function ReleaseStart(c: Layout, o: nat): nat
    requires o in c
  {
    if PrevFree(c, o) then o - c[o].prev else o
  }

  ghost function ReleaseEnd(c: Layout, o: nat): nat
    requires o in c
  {
    var n := o + c[o].size;
    if NextFree(c, o) then n + c[n].size else n
  }

  /** `d` is `c` with the block at `o` freed and merged with its free neighbours. */
  ghost predicate IsReleased(c: Layout, d: Layout, total: nat, o: nat)
    requires LiveAt(c, o)
  {
    var start, end := ReleaseStart(c, o), ReleaseEnd(c, o);
    && start <= o < end <= total && start in c
    && d.Keys == c.Keys - (if PrevFree(c, o) then {o} else {}) - (if NextFree(c, o) then {o + c[o].size} else {})
    && start in d && d[start] == Chunk(c[start].prev, end - start, false)
    && (end in c <==> end < total)
    && (end in c ==> end in d && d[end] == c[end].(prev := end - start))
    && (forall x | x in d && x != start && x != end :: d[x] == c[x])
  }

  /** The block is free and merged to the right, but not yet to the left. */
  ghost predicate IsReleasedRight(c: Layout, d: Layout, total: nat, o: nat)
    requires LiveAt(c, o)
  {
    var end := ReleaseEnd(c, o);
    && o < end <= total
    && d.Keys == c.Keys - (if NextFree(c, o) then {o + c[o].size} else {})
    && o in d && d[o] == Chunk(c[o].prev, end - o, false)
    && (end in c <==> end < total)
    && (end in c ==> end in d && d[end] == c[end].(prev := end - o))
    && (forall x | x in d && x != o && x != end :: d[x] == c[x])
  }

  lemma ReleaseRight(c: Layout, total: nat, o: nat) returns (d: Layout)
    requires Tiled(c, total) && LiveAt(c, o)
    ensures Tiled(d, total) && IsReleasedRight(c, d, total, o)
  {
    hide Tiled;
    TagAfter(c, total, o);
    d := MarkChunk(c, total, o, false);
    if NextFree(c, o) {
      TagAfter(c, total, o + c[o].size);
      d := MergeChunks(d, total, o);
    }
  }

  lemma ReleaseTiled(c: Layout, total: nat, o: nat) returns (d: Layout)
    requires Tiled(c, total) && LiveAt(c, o)
    ensures Tiled(d, total) && IsReleased(c, d, total, o)
  {
    hide Tiled;
    d := ReleaseRight(c, total, o);
    if PrevFree(c, o) {
      TagBefore(c, total, o);
      d := MergeChunks(d, total, o - c[o].prev);
    }
  }

  lemma ReleaseQuiet(c: Layout, d: Layout, total: nat, o: nat, x: nat)
    requires WellFormed(c, total) && LiveAt(c, o) && IsReleased(c, d, total, o)
    requires x in d
    ensures Quiet(d, x)
  {
    var start, n := ReleaseStart(c, o), o + c[o].size;
    TagAfter(c, total, o);
    if o > 0 { TagBefore(c, total, o); }
    assert Quiet(c, x);
    if x == start {
      if NextFree(c, o) { assert Quiet(c, n); }
    } else if !c[x].used && x + c[x].size in d {
      TagAfter(c, total, x);
    }
  }

  /** Freeing a block removes it from the live ones. */
  lemma Release(c: Layout, total: nat, o: nat) returns (d: Layout)
    requires WellFormed(c, total) && LiveAt(c, o)
    ensures WellFormed(d, total) && IsReleased(c, d, total, o)
    ensures Live(d) == Live(c) - {o}
  {
    d := ReleaseTiled(c, total, o);
    forall x | x in d ensures Quiet(d, x) { ReleaseQuiet(c, d, total, o, x); }
  }

  // ---- shrink ----

  /** `d` is `c` with the block at `o` cut to `n` units and the rest merged with a free
      right neighbour. */
  ghost predicate IsTrimmed(c: Layout, d: Layout, total: nat, o: nat, n: nat)
    requires LiveAt(c, o) && 0 < n < c[o].size
  {
    var m, end := o + c[o].size, ReleaseEnd(c, o);
    && end <= total && o + n !in c
    && d.Keys == c.Keys - (if NextFree(c, o) then {m} else {}) + {o + n}
    && d[o] == c[o].(size := n)
    && d[o + n] == Chunk(n, end - (o + n), false)
    && (end in c <==> end < total)
    && (end in c ==> end in d && d[end] == c[end].(prev := end - (o + n)))
    && (forall x | x in d && x != o && x != o + n && x != end :: d[x] == c[x])
  }

  /** The block is cut and the rest is free, but not yet merged to the right. */
  ghost predicate IsCut(c: Layout, d: Layout, total: nat, o: nat, n: nat)
    requires LiveAt(c, o) && 0 < n < c[o].size
  {
    var m := o + c[o].size;
    && m <= total && o + n !in c && d.Keys == c.Keys + {o + n}
    && d[o] == c[o].(size := n)
    && d[o + n] == Chunk(n, m - (o + n), false)
    && (m in c <==> m < total)
    && (m in c ==> d[m] == c[m].(prev := m - (o + n)))
    && (forall x | x in c && x != o && x != m :: d[x] == c[x])
  }

  lemma CutTiled(c: Layout, total: nat, o: nat, n: nat) returns (d: Layout)
    requires Tiled(c, total) && LiveAt(c, o) && 0 < n < c[o].size
    ensures Tiled(d, total) && IsCut(c, d, total, o, n)
  {
    hide Tiled;
    TagAfter(c, total, o);
    var a := SplitChunk(c, total, o, n);
    d := MarkChunk(a, total, o + n, false);
  }

  lemma TrimTiled(c: Layout, total: nat, o: nat, n: nat) returns (d: Layout)
    requires Tiled(c, total) && LiveAt(c, o) && 0 < n < c[o].size
    ensures Tiled(d, total) && IsTrimmed(c, d, total, o, n)
  {
    hide Tiled;
    d := CutTiled(c, total, o, n);
    if NextFree(c, o) {
      TagAfter(c, total, o + c[o].size);
      d := MergeChunks(d, total, o + n);
    }
  }

  lemma TrimQuiet(c: Layout, d: Layout, total: nat, o: nat, n: nat, x: nat)
    requires WellFormed(c, total) && LiveAt(c, o) && 0 < n < c[o].size && IsTrimmed(c, d, total, o, n)
    requires x in d
    ensures Quiet(d, x)
  {
    TagAfter(c, total, o);
    if x == o + n {
      if NextFree(c, o) { assert Quiet(c, o + c[o].size); }
    } else {
      assert Quiet(c, x);
      TagAfter(c, total, x);
    }
  }

  /** Shrinking a block changes its live size. */
  lemma Trim(c: Layout, total: nat, o: nat, n: nat) returns (d: Layout)
    requires WellFormed(c, total) && LiveAt(c, o) && 0 < n < c[o].size
    ensures WellFormed(d, total) && IsTrimmed(c, d, total, o, n)
    ensures Live(d) == Live(c)[o := n]
  {
    d := TrimTiled(c, total, o, n);
    forall x | x in d ensures Quiet(d, x) { TrimQuiet(c, d, total, o, n, x); }
  }

  // ---- grow ----

  /** `d` is `c` with the block at `o` extended to `n` units into its free right neighbour. */
  ghost predicate IsExtended(c: Layout, d: Layout, total: nat, o: nat, n: nat)
    requires LiveAt(c, o) && NextFree(c, o) && c[o].size < n <= ReleaseEnd(c, o) - o
  {
    var m, end := o + c[o].size, ReleaseEnd(c, o);
    var r := end - (o + n);
    && end <= total && (r > 0 ==> o + n !in c)
    && d.Keys == c.Keys - {m} + (if r > 0 then {o + n} else {})
    && d[o] == c[o].(size := n)
    && (r > 0 ==> d[o + n] == Chunk(n, r, false))
    && (end in c <==> end < total)
    && (end in c ==> end in d && d[end] == c[end].(prev := if r > 0 then r else n))
    && (forall x | x in d && x != o && x != o + n && x != end :: d[x] == c[x])
  }

  lemma ExtendTiled(c: Layout, total: nat, o: nat, n: nat) returns (d: Layout)
    requires Tiled(c, total) && LiveAt(c, o) && NextFree(c, o) && c[o].size < n <= ReleaseEnd(c, o) - o
    ensures Tiled(d, total) && IsExtended(c, d, total, o, n)
  {
    hide Tiled;
    var m, end := o + c[o].size, ReleaseEnd(c, o);
    TagAfter(c, total, o);
    TagAfter(c, total, m);
    d := MergeChunks(c, total, o);
    if o + n < end {
      if o + n in c { Disjoint(c, total, m, o + n); }
      d := SplitChunk(d, total, o, n);
      d := MarkChunk(d, total, o + n, false);
    }
  }

  lemma ExtendQuiet(c: Layout, d: Layout, total: nat, o: nat, n: nat, x: nat)
    requires WellFormed(c, total) && LiveAt(c, o) && NextFree(c, o) && c[o].size < n <= ReleaseEnd(c, o) - o
    requires IsExtended(c, d, total, o, n) && x in d
    ensures Quiet(d, x)
  {
    var m, end := o + c[o].size, ReleaseEnd(c, o);
    TagAfter(c, total, o);
    TagAfter(c, total, m);
    assert Quiet(c, m);
    if x in c && x != o {
      assert Quiet(c, x);
      TagAfter(c, total, x);
      Disjoint(c, total, o, x);
    }
  }

  /** Growing a block changes its live size. */
  lemma Extend(c: Layout, total: nat, o: nat, n: nat) returns (d: Layout)
    requires WellFormed(c, total) && LiveAt(c, o) && NextFree(c, o) && c[o].size < n <= ReleaseEnd(c, o) - o
    ensures WellFormed(d, total) && IsExtended(c, d, total, o, n)
    ensures Live(d) == Live(c)[o := n]
  {
    d := ExtendTiled(c, total, o, n);
    forall x | x in d ensures Quiet(d, x) { ExtendQuiet(c, d, total, o, n, x); }
  }
}
