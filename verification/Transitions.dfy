/** What `free`, `shrink_inplace`, `grow_inplace` and `alloc` do to the cells, store by store,
    and to the tiling (src/allocator.rs:836-864, 956-1078 and 1119-1178), and the proof that
    it has the effects that their callers rely on. */
module Transitions {
  import opened Bins
  import opened Sizes
  import opened Partition
  import opened Layouts
  import opened FreeLists
  import opened Heaps
  import opened Operations
  import opened Effects

  // ---- the stores ----

  /** `unregister_free_space` of the chunk of `size` units at `o`. */
  ghost function UnlinkedChunk(l: Lists, m: nat, o: nat, size: nat): Lists {
    if 1 <= m <= 8 && size < SPACE_LIMIT then Unlinked(l, o, BinDown(m, size)) else l
  }

  ghost function RegisteredChunk(l: Lists, m: nat, o: nat, prev: nat, size: nat): Lists {
    if 1 <= m <= 8 && size < SPACE_LIMIT && prev < SPACE_LIMIT then Registered(l, m, o, prev, size) else l
  }

  ghost function TaggedChunk(l: Lists, o: nat, prev: nat, sizeWord: nat): Lists {
    if prev < SPACE_LIMIT && sizeWord < 0x1_0000_0000 then Tagged(l, o, prev, sizeWord) else l
  }

  /** Registers a chunk and tags the one behind it. */
  ghost function RegisteredAndTagged(l: Lists, m: nat, o: nat, prev: nat, size: nat): Lists {
    var r := RegisteredChunk(l, m, o, prev, size);
    if o + size < |l.mem|
    then TaggedChunk(r, o + size, if size > 0 then size else prev, At(r, Ptr(r, o + size)).sizeWord)
    else r
  }

  /** The left neighbour of block `o` is unregistered if it is free. */
  ghost function PrevUnlinked(h: Heap, o: nat): Lists
    requires o in h.c
  {
    var start := ReleaseStart(h.c, o);
    if PrevFree(h.c, o) then UnlinkedChunk(h.l, h.m, start, h.c[start].size) else h.l
  }

  /** The right neighbour of block `o` is unregistered if it is free. */
  ghost function NextUnlinked(h: Heap, l: Lists, o: nat): Lists
    requires o in h.c
  {
    var next := o + h.c[o].size;
    if NextFree(h.c, o) then UnlinkedChunk(l, h.m, next, h.c[next].size) else l
  }

  /** `free` of the block at `o`, up to registering the merged chunk. */
  ghost function Absorbed(h: Heap, o: nat): Lists
    requires o in h.c
  {
    NextUnlinked(h, PrevUnlinked(h, o), o)
  }

  ghost function ReleaseLists(h: Heap, o: nat): Lists
    requires o in h.c
  {
    var start, end := ReleaseStart(h.c, o), ReleaseEnd(h.c, o);
    if start in h.c && start <= end
    then RegisteredAndTagged(Absorbed(h, o), h.m, start, h.c[start].prev, end - start) else h.l
  }

  /** `shrink_inplace` of the block at `o` to `n` units. */
  ghost function TrimLists(h: Heap, o: nat, n: nat): Lists
    requires o in h.c
  {
    var end := ReleaseEnd(h.c, o);
    var l2 := NextUnlinked(h, TaggedChunk(h.l, o, h.c[o].prev, 2 * n + 1), o);
    if o + n <= end then RegisteredAndTagged(l2, h.m, o + n, n, end - (o + n)) else h.l
  }

  /** `grow_inplace` of the block at `o` to `n` units. */
  ghost function ExtendLists(h: Heap, o: nat, n: nat): Lists
    requires o in h.c && NextFree(h.c, o)
  {
    var next, end := o + h.c[o].size, ReleaseEnd(h.c, o);
    var l1 := UnlinkedChunk(h.l, h.m, next, h.c[next].size);
    var l2 := TaggedChunk(l1, o, h.c[o].prev, 2 * n + 1);
    if o + n <= end then RegisteredAndTagged(l2, h.m, o + n, n, end - (o + n)) else h.l
  }

  /** `alloc` of a block of `n` units, `l` units into the free chunk at `o`. */
  ghost function PlaceLists(h: Heap, o: nat, l: nat, n: nat): Lists
    requires o in h.c && l + n <= h.c[o].size
  {
    var prev := h.c[o].prev;
    var l1 := UnlinkedChunk(h.l, h.m, o, h.c[o].size);
    var l2 := RegisteredChunk(l1, h.m, o, prev, l);
    var l3 := TaggedChunk(l2, o + l, if l > 0 then l else prev, 2 * n + 1);
    RegisteredAndTagged(l3, h.m, o + l + n, n, h.c[o].size - l - n)
  }

  // ---- merging, one neighbour at a time ----

  /** From `a` to `b` the chunk at `o` of `h` was unregistered if it is free; `size` is its
      size, or else zero. */
  ghost predicate Taken(h: Heap, a: Lists, b: Lists, o: nat, size: nat) {
    && o in h.c && size == (if FreeAt(h.c, o) then h.c[o].size else 0)
    && if FreeAt(h.c, o) then Unlinks(a, b, o) && b == UnlinkedChunk(a, h.m, o, h.c[o].size) else b == a
  }

  lemma TakenFree(h: Heap, a: Lists, b: Lists, o: nat, size: u32)
    requires FreeAt(h.c, o) && size == h.c[o].size && size < SPACE_LIMIT && 1 <= h.m <= 8
    requires Unlinks(a, b, o) && b == Unlinked(a, o, BinDown(h.m, size))
    ensures Taken(h, a, b, o, size)
  {
    hide Unlinks, Unlinked, BinDown;
  }

  lemma TakenUsed(h: Heap, a: Lists, o: nat)
    requires LiveAt(h.c, o)
    ensures Taken(h, a, a, o, 0)
  {}

  /** The left neighbour of block `o` was taken if it is free. */
  ghost predicate PrevTaken(h: Heap, b: Lists, o: nat, size: nat, prev: nat) {
    && LiveAt(h.c, o) && PrevAbsorbed(h, b, o, size, prev)
    && b == PrevUnlinked(h, o)
  }

  /** The right neighbour of block `o` was taken if it is free. */
  ghost predicate NextTaken(h: Heap, a: Lists, b: Lists, o: nat, size: nat) {
    && LiveAt(h.c, o) && o + h.c[o].size + size == ReleaseEnd(h.c, o)
    && b == NextUnlinked(h, a, o)
  }

  // ---- stores and tiling together ----

  ghost predicate FreeRan(h: Heap, k: Heap, o: nat) {
    && LiveAt(h.c, o) && k.m == h.m && k.high == h.high
    && k.l == ReleaseLists(h, o) && IsReleased(h.c, k.c, |h.l.mem|, o)
  }

  ghost predicate TrimRan(h: Heap, k: Heap, o: nat, n: nat) {
    && LiveAt(h.c, o) && 0 < n < h.c[o].size && k.m == h.m && k.high == h.high
    && k.l == TrimLists(h, o, n) && IsTrimmed(h.c, k.c, |h.l.mem|, o, n)
  }

  /** The quantities that `grow_inplace` has worked out before it changes the heap: the right
      neighbour with its size, what is left of it, and a mark that suffices. */
  ghost predicate ExtendArgs(h: Heap, o: nat, next: int, nextSize: nat, n: nat, rest: nat, high: nat) {
    && ExtendFits(h, o, n) && next == o + h.c[o].size && next + nextSize == ReleaseEnd(h.c, o)
    && o + n + rest == ReleaseEnd(h.c, o) && GrowEnd(h.c, o, n) <= high
  }

  /** The stores and the new tiling of `grow_inplace`. */
  ghost predicate ExtendedBy(h: Heap, l: Lists, d: Layout, o: nat, n: nat) {
    ExtendFits(h, o, n) && l == ExtendLists(h, o, n) && IsExtended(h.c, d, |h.l.mem|, o, n)
  }

  ghost predicate ExtendRan(h: Heap, k: Heap, o: nat, n: nat) {
    && ExtendFits(h, o, n) && k.m == h.m
    && k.l == ExtendLists(h, o, n) && IsExtended(h.c, k.c, |h.l.mem|, o, n)
    && k.high == if h.high < GrowEnd(h.c, o, n) then GrowEnd(h.c, o, n) else h.high
  }

  ghost predicate PlaceRan(h: Heap, k: Heap, o: nat, l: nat, n: nat) {
    && PlaceFits(h, o, l, n) && k.m == h.m && h.high <= k.high <= |h.l.mem|
    && o + l + n + (if l + n < h.c[o].size then 1 else 0) <= k.high
    && k.l == PlaceLists(h, o, l, n) && IsPlaced(h.c, k.c, o, l, n)
  }

  // ---- the steps that the stores take ----

  /** Everything the list functions rely on. */
  ghost predicate InOrder(l: Lists, high: nat) {
    Ready(l) && NodesBelow(l, high) && Replayed(l)
  }

  lemma HeapInOrder(h: Heap)
    requires HeapOk(h)
    ensures InOrder(h.l, h.high) && ConfigOk(BinConfig(h.m, |h.l.heads|)) && 1 <= h.m <= 8
    ensures WellFormed(h.c, |h.l.mem|) && |h.l.mem| < SPACE_LIMIT
  {
    hide HeapOk, ConfigOk, Ready, NodesBelow, Replayed, WellFormed;
    HeapFacts(h);
    HeapConfig(h);
  }

  lemma UnlinkChunkSteps(l: Lists, m: nat, o: nat, size: nat, high: nat)
    requires InOrder(l, high) && o in l.nodes && 1 <= m <= 8 && size < SPACE_LIMIT && l.nodes[o].bin == BinDown(m, size)
    ensures var k := UnlinkedChunk(l, m, o, size);
      && InOrder(k, high) && Unlinks(l, k, o)
      && |k.mem| == |l.mem| && |k.heads| == |l.heads| && k.base == l.base
  {
    hide Ready, NodesBelow, Replayed, Unlinks, BinDown, Unlinked;
    UnlinksBy(l, o, BinDown(m, size), high);
  }

  lemma RegisterChunkSteps(l: Lists, m: nat, o: nat, prev: nat, size: nat, high: nat)
    requires InOrder(l, high) && ConfigOk(BinConfig(m, |l.heads|)) && prev < SPACE_LIMIT && size < SPACE_LIMIT
    requires size > 0 ==> o < |l.mem| && o !in l.nodes && o < high
    ensures 1 <= m <= 8
    ensures var k := RegisteredChunk(l, m, o, prev, size);
      && InOrder(k, high) && Registers(l, k, m, o, prev, size)
      && |k.mem| == |l.mem| && |k.heads| == |l.heads| && k.base == l.base
  {
    ConfigWidth(m, |l.heads|);
    hide Ready, NodesBelow, Replayed, Registers, BinDown, Registered, ConfigOk;
    RegistersBy(l, m, o, prev, size, high);
  }

  lemma ConfigWidth(m: nat, bins: nat)
    requires ConfigOk(BinConfig(m, bins))
    ensures 1 <= m <= 8
  {}

  lemma TagChunkSteps(l: Lists, o: nat, prev: nat, sizeWord: nat, high: nat)
    requires InOrder(l, high) && o < |l.mem| && prev < SPACE_LIMIT && sizeWord < 0x1_0000_0000
    ensures var k := TaggedChunk(l, o, prev, sizeWord);
      && InOrder(k, high) && Tags(l, k, o, prev, sizeWord)
      && |k.mem| == |l.mem| && |k.heads| == |l.heads| && k.base == l.base
  {
    hide Ready, NodesBelow, Replayed, Tags, Tagged;
    TagsBy(l, o, prev, sizeWord, high);
  }

  lemma ReadWord(l: Lists, o: nat)
    requires Ready(l) && o < |l.mem|
    ensures At(l, Ptr(l, o)) == l.mem[o]
  {}

  lemma RegisterAndTagSteps(l: Lists, m: nat, o: nat, prev: nat, size: nat, high: nat)
    requires InOrder(l, high) && ConfigOk(BinConfig(m, |l.heads|)) && prev < SPACE_LIMIT && size < SPACE_LIMIT
    requires size > 0 ==> o < |l.mem| && o !in l.nodes && o < high
    ensures 1 <= m <= 8
    ensures var r, k := RegisteredChunk(l, m, o, prev, size), RegisteredAndTagged(l, m, o, prev, size);
      RegistersAndTags(l, r, k, m, o, prev, size) && Replayed(k)
  {
    hide Ready, NodesBelow, Replayed, Registers, Tags, ConfigOk, RegisteredChunk, TaggedChunk;
    RegisterChunkSteps(l, m, o, prev, size, high);
    var r := RegisteredChunk(l, m, o, prev, size);
    if o + size < |l.mem| {
      ReadWord(r, o + size);
      TagChunkSteps(r, o + size, if size > 0 then size else prev, r.mem[o + size].sizeWord, high);
    }
  }

  lemma TaggedKeepsHeads(l: Lists, o: nat, prev: nat, sizeWord: nat)
    ensures var k := TaggedChunk(l, o, prev, sizeWord); k.base == l.base && k.heads == l.heads
  {}

  /** The chunk just registered is the first of its bin. */
  lemma RegisteredHead(l: Lists, m: nat, o: nat, prev: nat, size: nat)
    requires 1 <= m <= 8 && 0 < size < SPACE_LIMIT && prev < SPACE_LIMIT
    ensures var k := RegisteredChunk(l, m, o, prev, size);
      && k.base == l.base && |k.heads| == |l.heads|
      && (BinDown(m, size) < |l.heads| ==> HeadAt(k, BinDown(m, size)) == Ptr(l, o))
  {
    hide BinDown;
  }

  lemma RegisteredFirst(l: Lists, m: nat, o: nat, prev: nat, size: nat)
    requires 1 <= m <= 8 && 0 < size < SPACE_LIMIT && prev < SPACE_LIMIT
    ensures var k := RegisteredAndTagged(l, m, o, prev, size);
      && k.base == l.base && |k.heads| == |l.heads|
      && (BinDown(m, size) < |l.heads| ==> HeadAt(k, BinDown(m, size)) == Ptr(l, o))
  {
    hide BinDown, RegisteredChunk, TaggedChunk;
    RegisteredHead(l, m, o, prev, size);
    var r := RegisteredChunk(l, m, o, prev, size);
    TaggedKeepsHeads(r, o + size, if size > 0 then size else prev, At(r, Ptr(r, o + size)).sizeWord);
  }

  // ---- free ----

  lemma ReleasedUnique(c: Layout, d: Layout, e: Layout, total: nat, o: nat)
    requires LiveAt(c, o) && IsReleased(c, d, total, o) && IsReleased(c, e, total, o)
    ensures d == e
  {
    forall x | x in d ensures d[x] == e[x] {}
  }

  lemma PrevUnlinkedSteps(h: Heap, o: nat)
    requires HeapOk(h) && LiveAt(h.c, o)
    ensures 1 <= h.m <= 8
    ensures var l1 := PrevUnlinked(h, o);
      && InOrder(l1, h.high)
      && if PrevFree(h.c, o) then Unlinks(h.l, l1, ReleaseStart(h.c, o)) else l1 == h.l
  {
    hide HeapOk, ConfigOk, Ready, NodesBelow, Replayed, Unlinks, WellFormed, UnlinkedChunk, BinDown;
    HeapInOrder(h);
    ReleaseShape(h, o);
    if PrevFree(h.c, o) {
      var start := ReleaseStart(h.c, o);
      FreeNode(h, start);
      HeaderFacts(h, start);
      UnlinkChunkSteps(h.l, h.m, start, h.c[start].size, h.high);
    }
  }

  /** The right neighbour is still as it was in `h`. */
  lemma NextUnlinkedSteps(h: Heap, l: Lists, o: nat)
    requires HeapOk(h) && LiveAt(h.c, o) && InOrder(l, h.high)
    requires var next := o + h.c[o].size;
      FreeAt(h.c, next) ==> next in l.nodes && next in h.l.nodes && l.nodes[next] == h.l.nodes[next]
    ensures var l2 := NextUnlinked(h, l, o);
      && InOrder(l2, h.high)
      && if NextFree(h.c, o) then Unlinks(l, l2, o + h.c[o].size) else l2 == l
  {
    hide HeapOk, ConfigOk, Ready, NodesBelow, Replayed, Unlinks, WellFormed, UnlinkedChunk, BinDown;
    HeapInOrder(h);
    if NextFree(h.c, o) {
      var next := o + h.c[o].size;
      FreeNode(h, next);
      HeaderFacts(h, next);
      UnlinkChunkSteps(l, h.m, next, h.c[next].size, h.high);
    }
  }

  lemma FreeSteps(h: Heap, o: nat) returns (l1: Lists, l2: Lists, l3: Lists)
    requires HeapOk(h) && LiveAt(h.c, o)
    ensures ReleaseStart(h.c, o) in h.c && 1 <= h.m <= 8
    ensures PrevAbsorbed(h, l1, o, o + h.c[o].size - ReleaseStart(h.c, o), h.c[ReleaseStart(h.c, o)].prev)
    ensures if NextFree(h.c, o) then Unlinks(l1, l2, o + h.c[o].size) else l2 == l1
    ensures |l2.mem| == |h.l.mem|
    ensures var start := ReleaseStart(h.c, o);
      RegistersAndTags(l2, l3, ReleaseLists(h, o), h.m, start, h.c[start].prev, ReleaseEnd(h.c, o) - start)
    ensures Replayed(ReleaseLists(h, o))
  {
    hide HeapOk, ConfigOk, Ready, NodesBelow, Replayed, Unlinks, RegistersAndTags, WellFormed, PrevUnlinked;
    hide NextUnlinked, RegisteredAndTagged, RegisteredChunk, BinDown;
    var start, end := ReleaseStart(h.c, o), ReleaseEnd(h.c, o);
    HeapInOrder(h);
    ReleaseShape(h, o);
    HeaderFacts(h, start);
    TagFits(h, start);
    l1 := PrevUnlinked(h, o);
    PrevUnlinkedSteps(h, o);
    FreeKeeps(h, l1, o);
    l2 := NextUnlinked(h, l1, o);
    NextUnlinkedSteps(h, l1, o);
    FreeKeepsNext(h, l1, l2, o);
    l3 := RegisteredChunk(l2, h.m, start, h.c[start].prev, end - start);
    RegisterAndTagSteps(l2, h.m, start, h.c[start].prev, end - start, h.high);
  }

  /** Tags are sizes of chunks, so they fit. */
  lemma TagFits(h: Heap, o: nat)
    requires HeapOk(h) && o in h.c
    ensures h.c[o].prev < SPACE_LIMIT
  {
    hide HeapOk;
    if o > 0 { PrevIsChunk(h, o); HeaderFacts(h, o - h.c[o].prev); } else { FirstTag(h); }
  }

  lemma FirstTag(h: Heap)
    requires HeapOk(h) && 0 in h.c
    ensures h.c[0].prev == 0
  {
    assert ChunkOk(h.c, |h.l.mem|, 0);
  }

  lemma FreeRanBy(h: Heap, k: Heap, o: nat, l2: Lists, prev: nat, size: nat)
    requires LiveAt(h.c, o) && k.m == h.m && k.high == h.high && ReleaseStart(h.c, o) in h.c
    requires prev == h.c[ReleaseStart(h.c, o)].prev && ReleaseStart(h.c, o) + size == ReleaseEnd(h.c, o)
    requires l2 == Absorbed(h, o) && k.l == RegisteredAndTagged(l2, h.m, ReleaseStart(h.c, o), prev, size)
    requires IsReleased(h.c, k.c, |h.l.mem|, o)
    ensures FreeRan(h, k, o)
  {
    hide RegisteredAndTagged, Absorbed, IsReleased, ReleaseStart, ReleaseEnd;
  }

  /** `free` keeps the heap in order and removes the block. */
  lemma FreeRanFreed(h: Heap, k: Heap, o: nat)
    requires HeapOk(h) && FreeRan(h, k, o)
    ensures HeapOk(k) && Freed(h, k, o)
  {
    hide HeapOk, WellFormed, Replayed, Unlinks, RegistersAndTags, IsReleased, Freed, ReleaseLists, PrevAbsorbed;
    hide PrevFree, NextFree, ReleaseStart, ReleaseEnd, Live, Stage, RegisteredChunk, ConfigOk, InOrder;
    HeapInOrder(h);
    var d := Release(h.c, |h.l.mem|, o);
    ReleasedUnique(h.c, k.c, d, |h.l.mem|, o);
    var l1, l2, l3 := FreeSteps(h, o);
    var start := ReleaseStart(h.c, o);
    FreeFinal(h, k, l1, l2, l3, o, o + h.c[o].size - start, h.c[start].prev);
  }

  // ---- shrink ----

  lemma TrimmedUnique(c: Layout, d: Layout, e: Layout, total: nat, o: nat, n: nat)
    requires LiveAt(c, o) && 0 < n < c[o].size && IsTrimmed(c, d, total, o, n) && IsTrimmed(c, e, total, o, n)
    ensures d == e
  {
    forall x | x in d ensures d[x] == e[x] {}
  }

  lemma TrimStepsRun(h: Heap, o: nat, n: nat) returns (l1: Lists, l2: Lists, l3: Lists)
    requires HeapOk(h) && LiveAt(h.c, o) && 0 < n < h.c[o].size
    ensures 1 <= h.m <= 8 && o + n < ReleaseEnd(h.c, o) && |l2.mem| == |h.l.mem|
    ensures Tags(h.l, l1, o, h.c[o].prev, 2 * n + 1)
    ensures if NextFree(h.c, o) then Unlinks(l1, l2, o + h.c[o].size) else l2 == l1
    ensures RegistersAndTags(l2, l3, TrimLists(h, o, n), h.m, o + n, n, ReleaseEnd(h.c, o) - (o + n))
    ensures Replayed(TrimLists(h, o, n))
  {
    hide HeapOk, ConfigOk, Ready, NodesBelow, Replayed, Unlinks, Tags, RegistersAndTags, WellFormed, UnlinkedChunk;
    hide RegisteredAndTagged, RegisteredChunk, TaggedChunk, BinDown, NextUnlinked;
    var end := ReleaseEnd(h.c, o);
    HeapInOrder(h);
    ReleaseShape(h, o);
    HeaderFacts(h, o);
    TagFits(h, o);
    TagChunkSteps(h.l, o, h.c[o].prev, 2 * n + 1, h.high);
    l1 := TaggedChunk(h.l, o, h.c[o].prev, 2 * n + 1);
    ShrinkKeeps(h, l1, o, n);
    l2 := NextUnlinked(h, l1, o);
    NextUnlinkedSteps(h, l1, o);
    ShrinkKeepsNext(h, l1, l2, o, n);
    l3 := RegisteredChunk(l2, h.m, o + n, n, end - (o + n));
    RegisterAndTagSteps(l2, h.m, o + n, n, end - (o + n), h.high);
  }

  lemma TrimRanBy(h: Heap, k: Heap, o: nat, n: nat, l2: Lists, rest: nat)
    requires LiveAt(h.c, o) && 0 < n < h.c[o].size && k.m == h.m && k.high == h.high
    requires o + n + rest == ReleaseEnd(h.c, o) && l2 == NextUnlinked(h, TaggedChunk(h.l, o, h.c[o].prev, 2 * n + 1), o)
    requires k.l == RegisteredAndTagged(l2, h.m, o + n, n, rest) && IsTrimmed(h.c, k.c, |h.l.mem|, o, n)
    ensures TrimRan(h, k, o, n)
  {
    hide RegisteredAndTagged, NextUnlinked, TaggedChunk, IsTrimmed, NextFree, ReleaseEnd;
  }

  /** `shrink_inplace` keeps the heap in order and the front of the payload. */
  lemma TrimRanShrunk(h: Heap, k: Heap, o: nat, n: nat)
    requires HeapOk(h) && TrimRan(h, k, o, n)
    ensures HeapOk(k) && Shrunk(h, k, o, n)
  {
    hide HeapOk, WellFormed, Replayed, Unlinks, Tags, RegistersAndTags, IsTrimmed, Shrunk, TrimLists;
    hide NextFree, ReleaseEnd, Live, Stage, RegisteredChunk, ConfigOk, InOrder;
    HeapInOrder(h);
    var d := Trim(h.c, |h.l.mem|, o, n);
    TrimmedUnique(h.c, k.c, d, |h.l.mem|, o, n);
    var l1, l2, l3 := TrimStepsRun(h, o, n);
    ShrinkFinal(h, k, l1, l2, l3, o, n);
  }

  // ---- grow ----

  lemma ExtendedUnique(c: Layout, d: Layout, e: Layout, total: nat, o: nat, n: nat)
    requires LiveAt(c, o) && NextFree(c, o) && c[o].size < n <= ReleaseEnd(c, o) - o
    requires IsExtended(c, d, total, o, n) && IsExtended(c, e, total, o, n)
    ensures d == e
  {
    forall x | x in d ensures d[x] == e[x] {}
  }

  lemma ExtendStepsRun(h: Heap, o: nat, n: nat) returns (l1: Lists, l2: Lists, l3: Lists)
    requires HeapOk(h) && ExtendFits(h, o, n)
    ensures |l2.mem| == |h.l.mem| && GrowEnd(h.c, o, n) <= |h.l.mem|
    ensures Unlinks(h.l, l1, o + h.c[o].size)
    ensures Tags(l1, l2, o, h.c[o].prev, 2 * n + 1)
    ensures RegistersAndTags(l2, l3, ExtendLists(h, o, n), h.m, o + n, n, ReleaseEnd(h.c, o) - (o + n))
    ensures Replayed(ExtendLists(h, o, n))
  {
    hide HeapOk, ConfigOk, Ready, NodesBelow, Replayed, Unlinks, Tags, RegistersAndTags, WellFormed, UnlinkedChunk;
    hide RegisteredAndTagged, RegisteredChunk, TaggedChunk, BinDown;
    var next, end := o + h.c[o].size, ReleaseEnd(h.c, o);
    var high := if h.high < GrowEnd(h.c, o, n) then GrowEnd(h.c, o, n) else h.high;
    HeapInOrder(h);
    ExtendShape(h, o, n);
    HeaderFacts(h, o);
    TagFits(h, o);
    UnlinkChunkSteps(h.l, h.m, next, h.c[next].size, h.high);
    l1 := UnlinkedChunk(h.l, h.m, next, h.c[next].size);
    ExtendKeeps(h, l1, o, n, high);
    TagChunkSteps(l1, o, h.c[o].prev, 2 * n + 1, high);
    l2 := TaggedChunk(l1, o, h.c[o].prev, 2 * n + 1);
    TagsKeep(l1, l2, o, h.c[o].prev, 2 * n + 1);
    l3 := RegisteredChunk(l2, h.m, o + n, n, end - (o + n));
    RegisterAndTagSteps(l2, h.m, o + n, n, end - (o + n), high);
  }

  /** `grow_inplace` keeps the heap in order and the whole payload. */
  lemma ExtendRanGrown(h: Heap, k: Heap, o: nat, n: nat)
    requires HeapOk(h) && ExtendRan(h, k, o, n)
    ensures HeapOk(k) && Grown(h, k, o, n)
  {
    hide HeapOk, WellFormed, Replayed, Unlinks, Tags, RegistersAndTags, IsExtended, Grown, ExtendLists;
    hide NextFree, ReleaseEnd, Live, Stage, RegisteredChunk, ConfigOk, InOrder;
    HeapInOrder(h);
    ExtendShape(h, o, n);
    HeaderFacts(h, o);
    var d := Extend(h.c, |h.l.mem|, o, n);
    ExtendedUnique(h.c, k.c, d, |h.l.mem|, o, n);
    var l1, l2, l3 := ExtendStepsRun(h, o, n);
    GrowFinal(h, k, l1, l2, l3, o, n);
  }

  // ---- alloc ----

  lemma PlacedUnique(c: Layout, d: Layout, e: Layout, o: nat, l: nat, n: nat)
    requires FreeAt(c, o) && 0 < n && l + n <= c[o].size
    requires IsPlaced(c, d, o, l, n) && IsPlaced(c, e, o, l, n)
    ensures d == e
  {
    forall x | x in d ensures d[x] == e[x] {}
  }

  lemma PlaceStepsRun(h: Heap, o: nat, l: nat, n: nat, high: nat) returns (l1: Lists, l2: Lists, l3: Lists, l4: Lists)
    requires HeapOk(h) && PlaceFits(h, o, l, n) && h.high <= high
    requires o + l + n + (if l + n < h.c[o].size then 1 else 0) <= high
    ensures CarvedFront(h, l1, l2, l3, o, l, n) && |l3.mem| == |h.l.mem|
    ensures RegistersAndTags(l3, l4, PlaceLists(h, o, l, n), h.m, o + l + n, n, h.c[o].size - l - n)
    ensures Replayed(PlaceLists(h, o, l, n))
  {
    hide HeapOk, ConfigOk, Ready, NodesBelow, Replayed, Unlinks, Registers, Tags, RegistersAndTags, WellFormed;
    hide UnlinkedChunk, RegisteredChunk, RegisteredAndTagged, TaggedChunk, BinDown, NodeOk;
    var prev := h.c[o].prev;
    HeapInOrder(h);
    PlaceShape(h, o, l, n);
    HeaderFacts(h, o);
    TagFits(h, o);
    UnlinkChunkSteps(h.l, h.m, o, h.c[o].size, h.high);
    l1 := UnlinkedChunk(h.l, h.m, o, h.c[o].size);
    PlaceKeeps(h, l1, o, h.high, high);
    RegisterChunkSteps(l1, h.m, o, prev, l, high);
    l2 := RegisteredChunk(l1, h.m, o, prev, l);
    TagChunkSteps(l2, o + l, if l > 0 then l else prev, 2 * n + 1, high);
    l3 := TaggedChunk(l2, o + l, if l > 0 then l else prev, 2 * n + 1);
    PlaceKeepsRest(h, l1, l2, l3, o, l, n);
    l4 := RegisteredChunk(l3, h.m, o + l + n, n, h.c[o].size - l - n);
    RegisterAndTagSteps(l3, h.m, o + l + n, n, h.c[o].size - l - n, high);
  }

  lemma PlaceRanBy(h: Heap, k: Heap, o: nat, l: nat, n: nat, l3: Lists, r: nat)
    requires PlaceFits(h, o, l, n) && k.m == h.m && h.high <= k.high <= |h.l.mem| && l + n + r == h.c[o].size
    requires o + l + n + (if r > 0 then 1 else 0) <= k.high
    requires var l1 := UnlinkedChunk(h.l, h.m, o, h.c[o].size);
      var l2 := RegisteredChunk(l1, h.m, o, h.c[o].prev, l);
      l3 == TaggedChunk(l2, o + l, if l > 0 then l else h.c[o].prev, 2 * n + 1)
    requires k.l == RegisteredAndTagged(l3, h.m, o + l + n, n, r) && IsPlaced(h.c, k.c, o, l, n)
    ensures PlaceRan(h, k, o, l, n)
  {
    hide RegisteredAndTagged, RegisteredChunk, TaggedChunk, UnlinkedChunk, IsPlaced;
  }

  /** Carving a block keeps the heap in order, adds the block and changes no payload. */
  lemma PlaceRanPlaced(h: Heap, k: Heap, o: nat, l: nat, n: nat)
    requires HeapOk(h) && PlaceRan(h, k, o, l, n)
    ensures HeapOk(k) && Placed(h, k, o + l, n) && PayloadsKept(h, k)
  {
    hide HeapOk, WellFormed, Replayed, Unlinks, Registers, Tags, RegistersAndTags, IsPlaced, Placed, PlaceLists;
    hide CarvedFront, Live, Stage, RegisteredChunk, ConfigOk, InOrder;
    HeapInOrder(h);
    var d := Place(h.c, |h.l.mem|, o, l, n);
    PlacedUnique(h.c, k.c, d, o, l, n);
    var l1, l2, l3, l4 := PlaceStepsRun(h, o, l, n, k.high);
    PlaceFinal(h, k, l1, l2, l3, l4, o, l, n);
  }
}
