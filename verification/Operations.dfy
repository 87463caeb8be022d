/** The stores of alloc, free, shrink and grow as functions of the heap they start from, and
    the proof that each keeps the heap invariant (src/allocator.rs:836-864, 956-1078 and
    1119-1178). */
module Operations {
  import opened Bins
  import opened Sizes
  import opened Partition
  import opened Layouts
  import opened FreeLists
  import opened Heaps

  // ---- facts about a heap in order ----

  lemma HeapReady(h: Heap)
    requires HeapOk(h)
    ensures Ready(h.l)
  {}

  /** What the header of a chunk says, and how far it may be read. */
  lemma HeaderFacts(h: Heap, o: nat)
    requires HeapOk(h) && o in h.c
    ensures 1 <= h.m <= 8
    ensures o < h.high <= |h.l.mem| < SPACE_LIMIT && (h.c[o].used ==> o + h.c[o].size <= h.high)
    ensures 0 < h.c[o].size < SPACE_LIMIT && o + h.c[o].size <= |h.l.mem|
    ensures h.l.mem[o].prevSize == h.c[o].prev
    ensures WordSize(h.l.mem[o].sizeWord) == h.c[o].size && (WordUsed(h.l.mem[o].sizeWord) <==> h.c[o].used)
    ensures o in h.l.nodes <==> !h.c[o].used
  {
    hide BinDown, ConfigOk;
    assert TagOk(h.l.mem, h.c, o) && BelowMark(h.c, h.high, o) && FiledOk(h.c, h.l.nodes, h.m, o);
    TagAfter(h.c, |h.l.mem|, o);
  }

  lemma FiledAt(h: Heap, o: nat)
    requires HeapOk(h)
    ensures 1 <= h.m <= 8 && FiledOk(h.c, h.l.nodes, h.m, o)
  {
    hide BinDown, ConfigOk;
  }

  /** A free chunk is in the list of its rounded-down bin. */
  lemma FreeNode(h: Heap, o: nat)
    requires HeapOk(h) && FreeAt(h.c, o)
    ensures 1 <= h.m <= 8 && 0 < h.c[o].size < SPACE_LIMIT
    ensures o in h.l.nodes && NodeOk(h.l, o) && h.l.nodes[o].bin == BinDown(h.m, h.c[o].size) < |h.l.heads|
  {
    hide BinDown;
    assert FiledOk(h.c, h.l.nodes, h.m, o) && NodeOk(h.l, o);
    BinInRange(BinConfig(h.m, |h.l.heads|), h.c[o].size);
  }

  lemma NoHeaderNoNode(h: Heap, x: nat)
    requires HeapOk(h) && x !in h.c
    ensures x !in h.l.nodes
  {
    assert FiledOk(h.c, h.l.nodes, h.m, x);
  }

  // ---- steps: the three list operations by what they change ----

  ghost predicate Unlinks(a: Lists, b: Lists, o: nat) {
    Stage(a, b, {}, {}) && b.nodes == a.nodes - {o}
  }

  ghost predicate Registers(a: Lists, b: Lists, m: nat, o: nat, prev: nat, size: nat)
    requires 1 <= m <= 8
  {
    if size == 0 then b == a
    else
      && o < |a.mem| && size < SPACE_LIMIT
      && Stage(a, b, {o}, {o})
      && b.mem[o].prevSize == prev && b.mem[o].sizeWord == 2 * size
      && b.nodes == a.nodes[o := Node(BinDown(m, size), a.clock)]
  }

  ghost predicate Tags(a: Lists, b: Lists, o: nat, prev: nat, sizeWord: nat) {
    && o < |a.mem|
    && Stage(a, b, {o}, if sizeWord == a.mem[o].sizeWord then {} else {o})
    && b.mem[o].prevSize == prev && b.mem[o].sizeWord == sizeWord
    && b.nodes == a.nodes
  }

  /** Two stages within the same frame make one. */
  lemma Chain(a: Lists, b: Lists, c: Lists, w: set<nat>, r: set<nat>)
    requires Stage(a, b, w, r) && Stage(b, c, w, r)
    ensures Stage(a, c, w, r)
  {
    StageTrans(a, b, c, w, r, w, r);
    assert w + w == w && r + r == r;
  }

  lemma UnlinksWithin(a: Lists, b: Lists, o: nat, w: set<nat>, r: set<nat>)
    requires Unlinks(a, b, o)
    ensures Stage(a, b, w, r)
  {
    FrameWiden(a, b, {}, {}, w, r);
  }

  lemma RegistersWithin(a: Lists, b: Lists, m: nat, o: nat, prev: nat, size: nat, w: set<nat>, r: set<nat>)
    requires 1 <= m <= 8 && Registers(a, b, m, o, prev, size) && Ready(a)
    requires size > 0 ==> o in w && o in r
    ensures Stage(a, b, w, r)
  {
    if size == 0 {
      FrameRefl(a);
      FrameWiden(a, b, {}, {}, w, r);
    } else {
      FrameWiden(a, b, {o}, {o}, w, r);
    }
  }

  lemma TagsWithin(a: Lists, b: Lists, o: nat, prev: nat, sizeWord: nat, w: set<nat>, r: set<nat>)
    requires Tags(a, b, o, prev, sizeWord) && o in w
    requires sizeWord == a.mem[o].sizeWord || o in r
    ensures Stage(a, b, w, r)
  {
    FrameWiden(a, b, {o}, if sizeWord == a.mem[o].sizeWord then {} else {o}, w, r);
  }

  lemma RegistersStage(a: Lists, b: Lists, m: nat, o: nat, prev: nat, size: nat)
    requires 1 <= m <= 8 && Registers(a, b, m, o, prev, size) && Ready(a)
    ensures Stage(a, b, {o}, {o})
  {
    if size == 0 { FrameWiden(a, b, {}, {}, {o}, {o}); }
  }

  // ---- the functions take these steps ----

  /** Every node can be accessed. */
  ghost predicate NodesBelow(l: Lists, high: nat) {
    forall o <- l.nodes :: o < high
  }

  lemma HeapNodesBelow(h: Heap)
    requires HeapOk(h)
    ensures NodesBelow(h.l, h.high)
  {
    forall o | o in h.l.nodes ensures o < h.high {
      assert FiledOk(h.c, h.l.nodes, h.m, o);
      HeaderFacts(h, o);
    }
  }

  ghost predicate InReach(l: Lists, p: Word, high: nat) {
    l.base <= p < l.base + high
  }

  /** A node, its neighbours and every list head are in reach. */
  lemma NodeReach(l: Lists, o: nat, high: nat)
    requires Ready(l) && NodesBelow(l, high) && o in l.nodes
    ensures NodeOk(l, o) && o < |l.mem| && Ptr(l, o) == l.base + o && InReach(l, Ptr(l, o), high)
    ensures At(l, Ptr(l, o)).next != 0 ==> InReach(l, At(l, Ptr(l, o)).next, high)
    ensures At(l, Ptr(l, o)).prev != 0 ==> InReach(l, At(l, Ptr(l, o)).prev, high)
    ensures HeadAt(l, l.nodes[o].bin) != Ptr(l, o) ==> At(l, Ptr(l, o)).prev != 0
  {
    assert NodeOk(l, o);
  }

  lemma HeadReach(l: Lists, b: nat, high: nat)
    requires Ready(l) && NodesBelow(l, high)
    ensures HeadAt(l, b) != 0 ==> InReach(l, HeadAt(l, b), high)
  {
    if b < |l.heads| { assert HeadOk(l, b); }
  }

  lemma UnlinksBy(l: Lists, o: nat, bin: nat, high: nat)
    requires Ready(l) && NodesBelow(l, high) && o in l.nodes && bin == l.nodes[o].bin
    ensures var k := Unlinked(l, o, bin); Unlinks(l, k, o) && NodesBelow(k, high) && Ready(k)
    ensures |Unlinked(l, o, bin).mem| == |l.mem| && |Unlinked(l, o, bin).heads| == |l.heads|
    ensures Unlinked(l, o, bin).base == l.base
    ensures Replayed(l) ==> Replayed(Unlinked(l, o, bin))
  {
    hide Replayed, Unlinked;
    assert NodeOk(l, o);
    Unlink(l, o, bin);
    if Replayed(l) { UnlinkReplayed(l, o, bin); }
  }

  lemma RegistersBy(l: Lists, m: nat, o: nat, prev: u32, size: u32, high: nat)
    requires Ready(l) && NodesBelow(l, high) && ConfigOk(BinConfig(m, |l.heads|)) && size < SPACE_LIMIT
    requires size > 0 ==> o < |l.mem| && o !in l.nodes && o < high
    ensures var k := Registered(l, m, o, prev, size);
      Registers(l, k, m, o, prev, size) && NodesBelow(k, high) && Ready(k)
    ensures |Registered(l, m, o, prev, size).mem| == |l.mem| && |Registered(l, m, o, prev, size).heads| == |l.heads|
    ensures Registered(l, m, o, prev, size).base == l.base
    ensures Replayed(l) ==> Replayed(Registered(l, m, o, prev, size))
  {
    hide Replayed;
    if size > 0 { Register(l, m, o, prev, size); }
    if Replayed(l) { RegisterReplayed(l, m, o, prev, size); }
  }

  lemma TagsBy(l: Lists, o: nat, prev: u32, sizeWord: u32, high: nat)
    requires Ready(l) && NodesBelow(l, high) && o < |l.mem|
    ensures var k := Tagged(l, o, prev, sizeWord); Tags(l, k, o, prev, sizeWord) && NodesBelow(k, high) && Ready(k)
    ensures |Tagged(l, o, prev, sizeWord).mem| == |l.mem| && |Tagged(l, o, prev, sizeWord).heads| == |l.heads|
    ensures Tagged(l, o, prev, sizeWord).base == l.base
    ensures Replayed(l) ==> Replayed(Tagged(l, o, prev, sizeWord))
  {
    hide Replayed;
    Tag(l, o, prev, sizeWord);
    if Replayed(l) { PutReplayed(l, Ptr(l, o), At(l, Ptr(l, o)).(prevSize := prev, sizeWord := sizeWord)); }
  }

  // ---- alloc ----

  ghost predicate PlaceFits(h: Heap, o: nat, l: nat, n: nat) {
    && FreeAt(h.c, o) && 0 < n && l + n <= h.c[o].size < SPACE_LIMIT
    && 1 <= h.m <= 8 && o + h.c[o].size <= |h.l.mem|
  }

  /** The five steps that carve a block of `n` units out of the free chunk at `o`. */
  ghost predicate PlaceSteps(h: Heap, l1: Lists, l2: Lists, l3: Lists, l4: Lists, l5: Lists,
                             o: nat, l: nat, n: nat)
    requires PlaceFits(h, o, l, n)
  {
    var prev, end, r := h.c[o].prev, o + h.c[o].size, h.c[o].size - l - n;
    && Unlinks(h.l, l1, o)
    && Registers(l1, l2, h.m, o, prev, l)
    && Tags(l2, l3, o + l, if l > 0 then l else prev, 2 * n + 1)
    && Registers(l3, l4, h.m, o + l + n, n, r)
    && (if end < |h.l.mem| then end < |l4.mem| && Tags(l4, l5, end, if r > 0 then r else n, l4.mem[end].sizeWord)
        else l5 == l4)
  }

  ghost function PlaceWrites(h: Heap, o: nat, l: nat, n: nat): set<nat>
    requires o in h.c
  {
    {o, o + l, o + l + n, o + h.c[o].size}
  }

  /** The headers whose size it writes. */
  ghost function PlaceResizes(h: Heap, o: nat, l: nat, n: nat): set<nat>
    requires o in h.c
  {
    {o, o + l} + (if l + n < h.c[o].size then {o + l + n} else {})
  }

  lemma PlaceFrame(h: Heap, l1: Lists, l2: Lists, l3: Lists, l4: Lists, l5: Lists, o: nat, l: nat, n: nat,
                   w: set<nat>, r: set<nat>)
    requires PlaceFits(h, o, l, n) && PlaceSteps(h, l1, l2, l3, l4, l5, o, l, n)
    requires o in w && o + l in w && o + l + n in w && o + h.c[o].size in w
    requires o in r && o + l in r && (l + n < h.c[o].size ==> o + l + n in r)
    ensures Stage(h.l, l5, w, r)
  {
    hide LinksOk, Frame, BinDown;
    var end := o + h.c[o].size;
    UnlinksWithin(h.l, l1, o, w, r);
    RegistersWithin(l1, l2, h.m, o, h.c[o].prev, l, w, r);
    Chain(h.l, l1, l2, w, r);
    TagsWithin(l2, l3, o + l, if l > 0 then l else h.c[o].prev, 2 * n + 1, w, r);
    Chain(h.l, l2, l3, w, r);
    RegistersWithin(l3, l4, h.m, o + l + n, n, h.c[o].size - l - n, w, r);
    Chain(h.l, l3, l4, w, r);
    if end < |h.l.mem| {
      TagsWithin(l4, l5, end, if h.c[o].size - l - n > 0 then h.c[o].size - l - n else n, l4.mem[end].sizeWord, w, r);
      Chain(h.l, l4, l5, w, r);
    }
  }

  lemma PlaceTags(h: Heap, l1: Lists, l2: Lists, l3: Lists, l4: Lists, l5: Lists, o: nat, l: nat, n: nat)
    requires PlaceFits(h, o, l, n) && PlaceSteps(h, l1, l2, l3, l4, l5, o, l, n)
    ensures |l5.mem| == |h.l.mem|
    ensures var m, prev, end, r := l5.mem, h.c[o].prev, o + h.c[o].size, h.c[o].size - l - n;
      && (l > 0 ==> m[o].prevSize == prev && m[o].sizeWord == 2 * l)
      && m[o + l].prevSize == (if l > 0 then l else prev) && m[o + l].sizeWord == 2 * n + 1
      && (r > 0 ==> m[o + l + n].prevSize == n && m[o + l + n].sizeWord == 2 * r)
      && (end < |m| ==> m[end].prevSize == (if r > 0 then r else n) && m[end].sizeWord == h.l.mem[end].sizeWord)
  {
    hide LinksOk, StoresWithin, BinDown;
    var x, y, z, end := o, o + l, o + l + n, o + h.c[o].size;
    RegistersStage(l1, l2, h.m, o, h.c[o].prev, l);
    RegistersStage(l3, l4, h.m, z, n, h.c[o].size - l - n);
    var r3 := if 2 * n + 1 == l2.mem[y].sizeWord then {} else {y};
    assert CellWithin(h.l, l1, {}, {}, x) && CellWithin(h.l, l1, {}, {}, end);
    assert CellWithin(l1, l2, {x}, {x}, end);
    assert CellWithin(l2, l3, {y}, r3, x) && CellWithin(l2, l3, {y}, r3, end);
    assert CellWithin(l3, l4, {z}, {z}, x) && CellWithin(l3, l4, {z}, {z}, y) && CellWithin(l3, l4, {z}, {z}, end);
    if end < |h.l.mem| {
      assert CellWithin(l4, l5, {end}, {}, x) && CellWithin(l4, l5, {end}, {}, y) && CellWithin(l4, l5, {end}, {}, z);
    }
  }

  lemma PlaceNodes(h: Heap, l1: Lists, l2: Lists, l3: Lists, l4: Lists, l5: Lists, o: nat, l: nat, n: nat)
    requires PlaceFits(h, o, l, n) && PlaceSteps(h, l1, l2, l3, l4, l5, o, l, n)
    ensures var r := h.c[o].size - l - n;
      && (forall x | x != o && x != o + l + n :: x in l5.nodes <==> x in h.l.nodes)
      && (forall x | x != o && x != o + l + n && x in h.l.nodes :: l5.nodes[x] == h.l.nodes[x])
      && (if l > 0 then o in l5.nodes && l5.nodes[o].bin == BinDown(h.m, l) else o !in l5.nodes)
      && (r > 0 ==> o + l + n in l5.nodes && l5.nodes[o + l + n].bin == BinDown(h.m, r))
      && (r == 0 ==> (o + l + n in l5.nodes <==> o + l + n in h.l.nodes))
      && (r == 0 && o + l + n in h.l.nodes ==> l5.nodes[o + l + n] == h.l.nodes[o + l + n])
  {
    hide Stage, BinDown;
  }

  /** What the steps of `alloc` find on their way. */
  lemma PlaceShape(h: Heap, o: nat, l: nat, n: nat)
    requires HeapOk(h) && PlaceFits(h, o, l, n)
    ensures o < h.high && o in h.l.nodes && NodeOk(h.l, o) && h.l.nodes[o].bin == BinDown(h.m, h.c[o].size)
    ensures h.l.mem[o].prevSize == h.c[o].prev
    ensures l + n < h.c[o].size ==> o + l + n !in h.l.nodes
    ensures var end := o + h.c[o].size; end <= |h.l.mem| < SPACE_LIMIT && (end < |h.l.mem| ==> end < h.high)
  {
    hide HeapOk, NodeOk, BinDown, ConfigOk, WellFormed, Ready, Replayed, NodesBelow;
    HeapFacts(h);
    HeaderFacts(h, o);
    FreeNode(h, o);
    EndIsChunk(h, o);
    if o + h.c[o].size in h.c { HeaderFacts(h, o + h.c[o].size); }
    if l + n < h.c[o].size { InsideFree(h, o, o + l + n); }
  }

  lemma UnlinkedHead(l: Lists, o: nat, bin: nat)
    requires HeadAt(l, bin) == Ptr(l, o)
    ensures Unlinked(l, o, bin) == UnlinkedFirst(l, o, bin)
  {}

  lemma PlaceKeeps(h: Heap, l1: Lists, o: nat, low: nat, high: nat)
    requires Unlinks(h.l, l1, o) && NodesBelow(l1, low) && low <= high
    ensures |l1.mem| == |h.l.mem| && l1.base == h.l.base && |l1.heads| == |h.l.heads|
    ensures o !in l1.nodes && NodesBelow(l1, high)
  {}

  /** The first three steps of `alloc`. */
  ghost predicate CarvedFront(h: Heap, l1: Lists, l2: Lists, l3: Lists, o: nat, l: nat, n: nat)
    requires PlaceFits(h, o, l, n)
  {
    && Unlinks(h.l, l1, o)
    && Registers(l1, l2, h.m, o, h.c[o].prev, l)
    && Tags(l2, l3, o + l, if l > 0 then l else h.c[o].prev, 2 * n + 1)
  }

  lemma PlaceKeepsRest(h: Heap, l1: Lists, l2: Lists, l3: Lists, o: nat, l: nat, n: nat)
    requires PlaceFits(h, o, l, n) && CarvedFront(h, l1, l2, l3, o, l, n)
    requires l + n < h.c[o].size ==> o + l + n !in h.l.nodes
    ensures l + n < h.c[o].size ==> o + l + n !in l3.nodes
  {}

  ghost predicate PlaceDone(h: Heap, k: Heap, o: nat, l: nat, n: nat)
    requires PlaceFits(h, o, l, n)
  {
    && k.m == h.m && h.high <= k.high <= |h.l.mem|
    && o + l + n + (if l + n < h.c[o].size then 1 else 0) <= k.high
    && IsPlaced(h.c, k.c, o, l, n) && WellFormed(k.c, |h.l.mem|)
  }

  lemma PlaceSame(h: Heap, k: Heap, l1: Lists, l2: Lists, l3: Lists, l4: Lists, o: nat, l: nat, n: nat, x: nat)
    requires PlaceFits(h, o, l, n) && PlaceSteps(h, l1, l2, l3, l4, k.l, o, l, n)
    requires PlaceDone(h, k, o, l, n) && x !in PlaceWrites(h, o, l, n)
    ensures SameAt(h, k, x)
  {
    hide PlaceSteps, WellFormed;
    PlaceNodes(h, l1, l2, l3, l4, k.l, o, l, n);
  }

  lemma PlaceRewritten(h: Heap, k: Heap, l1: Lists, l2: Lists, l3: Lists, l4: Lists, o: nat, l: nat, n: nat, x: nat)
    requires HeapOk(h) && PlaceFits(h, o, l, n) && PlaceSteps(h, l1, l2, l3, l4, k.l, o, l, n)
    requires PlaceDone(h, k, o, l, n) && x in PlaceWrites(h, o, l, n)
    ensures RewrittenOk(h, k, x)
  {
    hide PlaceSteps, WellFormed, HeapOk, BinDown;
    var end := o + h.c[o].size;
    PlaceNodes(h, l1, l2, l3, l4, k.l, o, l, n);
    PlaceTags(h, l1, l2, l3, l4, k.l, o, l, n);
    HeaderFacts(h, o);
    EndIsChunk(h, o);
    if x == end {
      FiledAt(h, end);
      if end in h.c { HeaderFacts(h, end); }
    } else if x != o {
      InsideFree(h, o, x);
    }
  }

  lemma PrevIsChunk(h: Heap, o: nat)
    requires HeapOk(h) && o in h.c && o > 0
    ensures 0 < h.c[o].prev <= o && o - h.c[o].prev in h.c && h.c[o - h.c[o].prev].size == h.c[o].prev
  {
    TagBefore(h.c, |h.l.mem|, o);
  }

  lemma EndIsChunk(h: Heap, o: nat)
    requires HeapOk(h) && o in h.c
    ensures o + h.c[o].size in h.c <==> o + h.c[o].size < |h.l.mem|
  {
    TagAfter(h.c, |h.l.mem|, o);
  }

  lemma InsideFree(h: Heap, o: nat, x: nat)
    requires HeapOk(h) && o in h.c && o < x < o + h.c[o].size
    ensures x !in h.c && x !in h.l.nodes
  {
    if x in h.c { Disjoint(h.c, |h.l.mem|, o, x); }
    NoHeaderNoNode(h, x);
  }

  /** Carving a block out of a free chunk keeps the heap in order and every payload. */
  lemma PlaceFinish(h: Heap, k: Heap, l1: Lists, l2: Lists, l3: Lists, l4: Lists, o: nat, l: nat, n: nat)
    requires HeapOk(h) && PlaceFits(h, o, l, n) && PlaceSteps(h, l1, l2, l3, l4, k.l, o, l, n)
    requires PlaceDone(h, k, o, l, n) && Replayed(k.l)
    ensures HeapOk(k) && PayloadsKept(h, k)
    ensures Stage(h.l, k.l, PlaceWrites(h, o, l, n), PlaceResizes(h, o, l, n))
  {
    hide PlaceSteps, WellFormed, LinksOk;
    var w, r := PlaceWrites(h, o, l, n), PlaceResizes(h, o, l, n);
    PlaceFrame(h, l1, l2, l3, l4, k.l, o, l, n, w, r);
    forall x: nat | x !in w ensures SameAt(h, k, x) { PlaceSame(h, k, l1, l2, l3, l4, o, l, n, x); }
    forall x | x in w ensures RewrittenOk(h, k, x) { PlaceRewritten(h, k, l1, l2, l3, l4, o, l, n, x); }
    FinishHeap(h, k, w, r);
    FinishPayloads(h, k, w, r);
  }

  // ---- free ----

  /** The neighbours of a live block, and the free chunk that it and they will make. */
  lemma ReleaseShape(h: Heap, o: nat)
    requires HeapOk(h) && LiveAt(h.c, o)
    ensures o > 0 ==>
      && 0 < h.c[o].prev <= o && o - h.c[o].prev in h.c && h.c[o - h.c[o].prev].size == h.c[o].prev
      && (PrevFree(h.c, o) <==> FreeAt(h.c, o - h.c[o].prev))
    ensures o == 0 ==> !PrevFree(h.c, o)
    ensures var start, next, end := ReleaseStart(h.c, o), o + h.c[o].size, ReleaseEnd(h.c, o);
      && start in h.c && start <= o < next <= end <= |h.l.mem| < SPACE_LIMIT
      && start < h.high <= |h.l.mem|
      && (start != o <==> PrevFree(h.c, o)) && (end != next <==> NextFree(h.c, o))
      && (next in h.c <==> next < |h.l.mem|)
      && (end in h.c <==> end < |h.l.mem|) && (end < |h.l.mem| ==> end < h.high)
      && (start in h.l.nodes <==> PrevFree(h.c, o))
  {
    hide HeapOk;
    HeaderFacts(h, o);
    EndIsChunk(h, o);
    if o > 0 {
      PrevIsChunk(h, o);
      HeaderFacts(h, o - h.c[o].prev);
    }
    var next := o + h.c[o].size;
    if next in h.c {
      HeaderFacts(h, next);
      EndIsChunk(h, next);
      if NextFree(h.c, o) && next + h.c[next].size in h.c { HeaderFacts(h, next + h.c[next].size); }
    }
  }

  /** After merging with the previous chunk: the run of cells so far, and its tag. */
  ghost predicate PrevAbsorbed(h: Heap, l1: Lists, o: nat, size: nat, prev: nat)
    requires o in h.c
  {
    var start := ReleaseStart(h.c, o);
    && start in h.c && prev == h.c[start].prev
    && size == o + h.c[o].size - start
    && (if PrevFree(h.c, o) then Unlinks(h.l, l1, start) else l1 == h.l)
  }

  /** After merging with the previous chunk the next one is still as it was. */
  lemma FreeKeeps(h: Heap, l1: Lists, o: nat)
    requires HeapOk(h) && LiveAt(h.c, o)
    requires if PrevFree(h.c, o) then Unlinks(h.l, l1, ReleaseStart(h.c, o)) else l1 == h.l
    ensures |l1.mem| == |h.l.mem| && l1.base == h.l.base && |l1.heads| == |h.l.heads|
    ensures ReleaseStart(h.c, o) !in l1.nodes
    ensures var next := o + h.c[o].size;
      next in h.c ==>
        && next < |l1.mem| && SameTags(l1.mem[next], h.l.mem[next])
        && (FreeAt(h.c, next) ==> next in l1.nodes && next in h.l.nodes && l1.nodes[next] == h.l.nodes[next])
  {
    hide HeapOk;
    ReleaseShape(h, o);
    var next := o + h.c[o].size;
    if next in h.c {
      HeaderFacts(h, next);
      if PrevFree(h.c, o) { UnlinkKeeps(h.l, l1, ReleaseStart(h.c, o), next); }
    }
    if PrevFree(h.c, o) { UnlinkKeeps(h.l, l1, ReleaseStart(h.c, o), o); }
  }

  lemma FreeKeepsNext(h: Heap, l1: Lists, l2: Lists, o: nat)
    requires LiveAt(h.c, o) && ReleaseStart(h.c, o) !in l1.nodes
    requires if NextFree(h.c, o) then Unlinks(l1, l2, o + h.c[o].size) else l2 == l1
    ensures |l2.mem| == |l1.mem| && l2.base == l1.base && |l2.heads| == |l1.heads|
    ensures ReleaseStart(h.c, o) !in l2.nodes
  {}

  lemma ShrinkKeeps(h: Heap, l1: Lists, o: nat, n: nat)
    requires HeapOk(h) && LiveAt(h.c, o) && 0 < n < h.c[o].size
    requires Tags(h.l, l1, o, h.c[o].prev, 2 * n + 1)
    ensures |l1.mem| == |h.l.mem| && l1.base == h.l.base && |l1.heads| == |h.l.heads|
    ensures o + n !in l1.nodes
    ensures var next := o + h.c[o].size;
      next in h.c ==>
        && next < |l1.mem| && SameTags(l1.mem[next], h.l.mem[next])
        && (FreeAt(h.c, next) ==> next in l1.nodes && next in h.l.nodes && l1.nodes[next] == h.l.nodes[next])
  {
    hide HeapOk, LinksOk, StoresWithin;
    ReleaseShape(h, o);
    InsideFree(h, o, o + n);
    var next := o + h.c[o].size;
    if next in h.c {
      HeaderFacts(h, next);
      assert CellWithin(h.l, l1, {o}, if 2 * n + 1 == h.l.mem[o].sizeWord then {} else {o}, next);
    }
  }

  lemma ShrinkKeepsNext(h: Heap, l1: Lists, l2: Lists, o: nat, n: nat)
    requires LiveAt(h.c, o) && o + n !in l1.nodes
    requires if NextFree(h.c, o) then Unlinks(l1, l2, o + h.c[o].size) else l2 == l1
    ensures |l2.mem| == |l1.mem| && l2.base == l1.base && |l2.heads| == |l1.heads|
    ensures o + n !in l2.nodes
  {}

  /** Registering a chunk and writing the tag of the one after it. */
  ghost predicate RegistersAndTags(l2: Lists, l3: Lists, l4: Lists, m: nat, o: nat, prev: nat, size: nat)
    requires 1 <= m <= 8
  {
    && Registers(l2, l3, m, o, prev, size)
    && (if o + size < |l2.mem|
        then o + size < |l3.mem| && Tags(l3, l4, o + size, if size > 0 then size else prev, l3.mem[o + size].sizeWord)
        else l4 == l3)
  }

  lemma HeapFacts(h: Heap)
    requires HeapOk(h)
    ensures Ready(h.l) && Replayed(h.l) && NodesBelow(h.l, h.high) && WellFormed(h.c, |h.l.mem|)
    ensures 1 <= h.m <= 8 && h.high <= |h.l.mem| < SPACE_LIMIT && AddressesOk(h.l)
  {
    HeapNodesBelow(h);
  }

  lemma HeapConfig(h: Heap)
    requires HeapOk(h)
    ensures ConfigOk(BinConfig(h.m, |h.l.heads|))
  {}

  /** Unlinking one chunk leaves the tags of all and the nodes of the others. */
  lemma UnlinkKeeps(a: Lists, b: Lists, o: nat, x: nat)
    requires Unlinks(a, b, o) && x < |a.mem|
    ensures |b.mem| == |a.mem| && b.base == a.base && |b.heads| == |a.heads| && b.nodes == a.nodes - {o}
    ensures SameTags(b.mem[x], a.mem[x])
  {
    assert CellWithin(a, b, {}, {}, x);
  }

  lemma TagsKeep(a: Lists, b: Lists, o: nat, prev: nat, sizeWord: nat)
    requires Tags(a, b, o, prev, sizeWord)
    ensures |b.mem| == |a.mem| && b.base == a.base && |b.heads| == |a.heads| && b.nodes == a.nodes
  {}

  ghost predicate ReleaseSteps(h: Heap, l1: Lists, l2: Lists, l3: Lists, l4: Lists, o: nat)
    requires LiveAt(h.c, o) && 1 <= h.m <= 8
  {
    var start, next, end := ReleaseStart(h.c, o), o + h.c[o].size, ReleaseEnd(h.c, o);
    && start in h.c && start < end
    && (if PrevFree(h.c, o) then Unlinks(h.l, l1, start) else l1 == h.l)
    && (if NextFree(h.c, o) then Unlinks(l1, l2, next) else l2 == l1)
    && Registers(l2, l3, h.m, start, h.c[start].prev, end - start)
    && (if end < |h.l.mem| then end < |l3.mem| && Tags(l3, l4, end, end - start, l3.mem[end].sizeWord)
        else l4 == l3)
  }

  ghost function ReleaseWrites(h: Heap, o: nat): set<nat>
    requires LiveAt(h.c, o)
  {
    {ReleaseStart(h.c, o), o, o + h.c[o].size, ReleaseEnd(h.c, o)}
  }

  lemma ReleaseFrame(h: Heap, l1: Lists, l2: Lists, l3: Lists, l4: Lists, o: nat, w: set<nat>, r: set<nat>)
    requires LiveAt(h.c, o) && 1 <= h.m <= 8 && Ready(h.l) && ReleaseSteps(h, l1, l2, l3, l4, o)
    requires ReleaseStart(h.c, o) in w && ReleaseEnd(h.c, o) in w && ReleaseStart(h.c, o) in r
    ensures Stage(h.l, l4, w, r)
  {
    hide LinksOk, Frame, BinDown;
    var start, next, end := ReleaseStart(h.c, o), o + h.c[o].size, ReleaseEnd(h.c, o);
    FrameRefl(h.l);
    FrameWiden(h.l, h.l, {}, {}, w, r);
    if PrevFree(h.c, o) { UnlinksWithin(h.l, l1, start, w, r); }
    if NextFree(h.c, o) {
      UnlinksWithin(l1, l2, next, w, r);
      Chain(h.l, l1, l2, w, r);
    }
    RegistersWithin(l2, l3, h.m, start, h.c[start].prev, end - start, w, r);
    Chain(h.l, l2, l3, w, r);
    if end < |h.l.mem| {
      TagsWithin(l3, l4, end, end - start, l3.mem[end].sizeWord, w, r);
      Chain(h.l, l3, l4, w, r);
    }
  }

  lemma ReleaseTags(h: Heap, l1: Lists, l2: Lists, l3: Lists, l4: Lists, o: nat)
    requires LiveAt(h.c, o) && 1 <= h.m <= 8 && ReleaseSteps(h, l1, l2, l3, l4, o)
    ensures |l4.mem| == |h.l.mem|
    ensures var m, start, end := l4.mem, ReleaseStart(h.c, o), ReleaseEnd(h.c, o);
      && start < |m| && m[start].prevSize == h.c[start].prev && m[start].sizeWord == 2 * (end - start)
      && (end < |m| ==> m[end].prevSize == end - start && m[end].sizeWord == h.l.mem[end].sizeWord)
  {
    hide LinksOk, StoresWithin, BinDown;
    var start, end := ReleaseStart(h.c, o), ReleaseEnd(h.c, o);
    assert CellWithin(h.l, l1, {}, {}, end) && CellWithin(l1, l2, {}, {}, end);
    assert CellWithin(l2, l3, {start}, {start}, end);
    if end < |h.l.mem| { assert CellWithin(l3, l4, {end}, {}, start); }
  }

  lemma ReleaseNodes(h: Heap, l1: Lists, l2: Lists, l3: Lists, l4: Lists, o: nat)
    requires LiveAt(h.c, o) && 1 <= h.m <= 8 && ReleaseSteps(h, l1, l2, l3, l4, o)
    ensures var start, next, end := ReleaseStart(h.c, o), o + h.c[o].size, ReleaseEnd(h.c, o);
      && start in l4.nodes && end - start < SPACE_LIMIT && l4.nodes[start].bin == BinDown(h.m, end - start)
      && (forall x | x != start && !(x == next && NextFree(h.c, o)) ::
            (x in l4.nodes <==> x in h.l.nodes) && (x in h.l.nodes ==> l4.nodes[x] == h.l.nodes[x]))
      && (NextFree(h.c, o) ==> next !in l4.nodes)
  {
    hide Stage, BinDown;
  }

  ghost predicate ReleaseDone(h: Heap, k: Heap, o: nat)
    requires LiveAt(h.c, o)
  {
    && k.m == h.m && k.high == h.high
    && IsReleased(h.c, k.c, |h.l.mem|, o) && WellFormed(k.c, |h.l.mem|)
  }

  lemma ReleaseSame(h: Heap, k: Heap, l1: Lists, l2: Lists, l3: Lists, o: nat, x: nat)
    requires LiveAt(h.c, o) && 1 <= h.m <= 8 && ReleaseSteps(h, l1, l2, l3, k.l, o)
    requires ReleaseDone(h, k, o) && x !in ReleaseWrites(h, o)
    ensures SameAt(h, k, x)
  {
    hide ReleaseSteps, WellFormed, BinDown;
    ReleaseNodes(h, l1, l2, l3, k.l, o);
  }

  lemma ReleaseRewritten(h: Heap, k: Heap, l1: Lists, l2: Lists, l3: Lists, o: nat, x: nat)
    requires HeapOk(h) && LiveAt(h.c, o) && ReleaseSteps(h, l1, l2, l3, k.l, o)
    requires ReleaseDone(h, k, o) && x in ReleaseWrites(h, o)
    ensures RewrittenOk(h, k, x)
  {
    hide ReleaseSteps, WellFormed, HeapOk, BinDown;
    var start, next, end := ReleaseStart(h.c, o), o + h.c[o].size, ReleaseEnd(h.c, o);
    HeaderFacts(h, o);
    ReleaseNodes(h, l1, l2, l3, k.l, o);
    ReleaseTags(h, l1, l2, l3, k.l, o);
    HeaderFacts(h, start);
    EndIsChunk(h, o);
    if next in h.c { HeaderFacts(h, next); }
    FiledAt(h, end);
    if end in h.c { HeaderFacts(h, end); }
  }

  /** Freeing a block keeps the heap in order and every payload. */
  lemma ReleaseFinish(h: Heap, k: Heap, l1: Lists, l2: Lists, l3: Lists, o: nat)
    requires HeapOk(h) && LiveAt(h.c, o) && ReleaseSteps(h, l1, l2, l3, k.l, o)
    requires ReleaseDone(h, k, o) && Replayed(k.l)
    ensures HeapOk(k) && PayloadsKept(h, k)
    ensures Stage(h.l, k.l, ReleaseWrites(h, o), {ReleaseStart(h.c, o)})
  {
    hide ReleaseSteps, WellFormed, LinksOk;
    var w, r := ReleaseWrites(h, o), {ReleaseStart(h.c, o)};
    HeapReady(h);
    ReleaseFrame(h, l1, l2, l3, k.l, o, w, r);
    forall x: nat | x !in w ensures SameAt(h, k, x) { ReleaseSame(h, k, l1, l2, l3, o, x); }
    forall x | x in w ensures RewrittenOk(h, k, x) { ReleaseRewritten(h, k, l1, l2, l3, o, x); }
    FinishHeap(h, k, w, r);
    FinishPayloads(h, k, w, r);
  }

  // ---- shrink ----

  ghost predicate TrimSteps(h: Heap, l1: Lists, l2: Lists, l3: Lists, l4: Lists, o: nat, n: nat)
    requires LiveAt(h.c, o) && 0 < n < h.c[o].size && 1 <= h.m <= 8
  {
    var next, end := o + h.c[o].size, ReleaseEnd(h.c, o);
    && o + n < end
    && Tags(h.l, l1, o, h.c[o].prev, 2 * n + 1)
    && (if NextFree(h.c, o) then Unlinks(l1, l2, next) else l2 == l1)
    && Registers(l2, l3, h.m, o + n, n, end - (o + n))
    && (if end < |h.l.mem| then end < |l3.mem| && Tags(l3, l4, end, end - (o + n), l3.mem[end].sizeWord)
        else l4 == l3)
  }

  ghost function TrimWrites(h: Heap, o: nat, n: nat): set<nat>
    requires LiveAt(h.c, o)
  {
    {o, o + n, o + h.c[o].size, ReleaseEnd(h.c, o)}
  }

  lemma TrimFrame(h: Heap, l1: Lists, l2: Lists, l3: Lists, l4: Lists, o: nat, n: nat, w: set<nat>, r: set<nat>)
    requires LiveAt(h.c, o) && 0 < n < h.c[o].size && 1 <= h.m <= 8 && TrimSteps(h, l1, l2, l3, l4, o, n)
    requires o in w && o + n in w && ReleaseEnd(h.c, o) in w && o in r && o + n in r
    ensures Stage(h.l, l4, w, r)
  {
    hide LinksOk, Frame, BinDown;
    var next, end := o + h.c[o].size, ReleaseEnd(h.c, o);
    TagsWithin(h.l, l1, o, h.c[o].prev, 2 * n + 1, w, r);
    if NextFree(h.c, o) {
      UnlinksWithin(l1, l2, next, w, r);
      Chain(h.l, l1, l2, w, r);
    }
    RegistersWithin(l2, l3, h.m, o + n, n, end - (o + n), w, r);
    Chain(h.l, l2, l3, w, r);
    if end < |h.l.mem| {
      TagsWithin(l3, l4, end, end - (o + n), l3.mem[end].sizeWord, w, r);
      Chain(h.l, l3, l4, w, r);
    }
  }

  lemma TrimTags(h: Heap, l1: Lists, l2: Lists, l3: Lists, l4: Lists, o: nat, n: nat)
    requires LiveAt(h.c, o) && 0 < n < h.c[o].size && 1 <= h.m <= 8 && TrimSteps(h, l1, l2, l3, l4, o, n)
    ensures |l4.mem| == |h.l.mem|
    ensures var m, end := l4.mem, ReleaseEnd(h.c, o);
      && o < |m| && m[o].prevSize == h.c[o].prev && m[o].sizeWord == 2 * n + 1
      && o + n < |m| && m[o + n].prevSize == n && m[o + n].sizeWord == 2 * (end - (o + n))
      && (end < |m| ==> m[end].prevSize == end - (o + n) && m[end].sizeWord == h.l.mem[end].sizeWord)
  {
    hide LinksOk, StoresWithin, BinDown;
    var y, end := o + n, ReleaseEnd(h.c, o);
    var r1 := if 2 * n + 1 == h.l.mem[o].sizeWord then {} else {o};
    assert CellWithin(h.l, l1, {o}, r1, end);
    assert CellWithin(l1, l2, {}, {}, end) && CellWithin(l1, l2, {}, {}, o);
    assert CellWithin(l2, l3, {y}, {y}, end) && CellWithin(l2, l3, {y}, {y}, o);
    if end < |h.l.mem| { assert CellWithin(l3, l4, {end}, {}, y) && CellWithin(l3, l4, {end}, {}, o); }
  }

  lemma TrimNodes(h: Heap, l1: Lists, l2: Lists, l3: Lists, l4: Lists, o: nat, n: nat)
    requires LiveAt(h.c, o) && 0 < n < h.c[o].size && 1 <= h.m <= 8 && TrimSteps(h, l1, l2, l3, l4, o, n)
    ensures var next, end := o + h.c[o].size, ReleaseEnd(h.c, o);
      && o + n in l4.nodes && end - (o + n) < SPACE_LIMIT && l4.nodes[o + n].bin == BinDown(h.m, end - (o + n))
      && (forall x | x != o + n && !(x == next && NextFree(h.c, o)) ::
            (x in l4.nodes <==> x in h.l.nodes) && (x in h.l.nodes ==> l4.nodes[x] == h.l.nodes[x]))
      && (NextFree(h.c, o) ==> next !in l4.nodes)
  {
    hide Stage, BinDown;
  }

  ghost predicate TrimDone(h: Heap, k: Heap, o: nat, n: nat)
    requires LiveAt(h.c, o) && 0 < n < h.c[o].size
  {
    && k.m == h.m && k.high == h.high
    && IsTrimmed(h.c, k.c, |h.l.mem|, o, n) && WellFormed(k.c, |h.l.mem|)
  }

  lemma TrimSame(h: Heap, k: Heap, l1: Lists, l2: Lists, l3: Lists, o: nat, n: nat, x: nat)
    requires LiveAt(h.c, o) && 0 < n < h.c[o].size && 1 <= h.m <= 8 && TrimSteps(h, l1, l2, l3, k.l, o, n)
    requires TrimDone(h, k, o, n) && x !in TrimWrites(h, o, n)
    ensures SameAt(h, k, x)
  {
    hide TrimSteps, WellFormed, BinDown;
    TrimNodes(h, l1, l2, l3, k.l, o, n);
  }

  lemma TrimRewritten(h: Heap, k: Heap, l1: Lists, l2: Lists, l3: Lists, o: nat, n: nat, x: nat)
    requires HeapOk(h) && LiveAt(h.c, o) && 0 < n < h.c[o].size && TrimSteps(h, l1, l2, l3, k.l, o, n)
    requires TrimDone(h, k, o, n) && x in TrimWrites(h, o, n)
    ensures RewrittenOk(h, k, x)
  {
    hide TrimSteps, WellFormed, HeapOk, BinDown;
    var next, end := o + h.c[o].size, ReleaseEnd(h.c, o);
    HeaderFacts(h, o);
    TrimNodes(h, l1, l2, l3, k.l, o, n);
    TrimTags(h, l1, l2, l3, k.l, o, n);
    EndIsChunk(h, o);
    if next in h.c { HeaderFacts(h, next); }
    FiledAt(h, end);
    if end in h.c { HeaderFacts(h, end); }
  }

  /** Shrinking a block keeps the heap in order and every payload. */
  lemma TrimFinish(h: Heap, k: Heap, l1: Lists, l2: Lists, l3: Lists, o: nat, n: nat)
    requires HeapOk(h) && LiveAt(h.c, o) && 0 < n < h.c[o].size && TrimSteps(h, l1, l2, l3, k.l, o, n)
    requires TrimDone(h, k, o, n) && Replayed(k.l)
    ensures HeapOk(k) && PayloadsKept(h, k)
    ensures Stage(h.l, k.l, TrimWrites(h, o, n), {o, o + n})
  {
    hide TrimSteps, WellFormed, LinksOk;
    var w, r := TrimWrites(h, o, n), {o, o + n};
    TrimFrame(h, l1, l2, l3, k.l, o, n, w, r);
    forall x: nat | x !in w ensures SameAt(h, k, x) { TrimSame(h, k, l1, l2, l3, o, n, x); }
    forall x | x in w ensures RewrittenOk(h, k, x) { TrimRewritten(h, k, l1, l2, l3, o, n, x); }
    FinishHeap(h, k, w, r);
    FinishPayloads(h, k, w, r);
  }

  // ---- grow ----

  ghost predicate ExtendFits(h: Heap, o: nat, n: nat) {
    && LiveAt(h.c, o) && NextFree(h.c, o) && 1 <= h.m <= 8
    && h.c[o].size < n <= ReleaseEnd(h.c, o) - o
  }

  ghost predicate ExtendSteps(h: Heap, l1: Lists, l2: Lists, l3: Lists, l4: Lists, o: nat, n: nat)
    requires ExtendFits(h, o, n)
  {
    var next, end := o + h.c[o].size, ReleaseEnd(h.c, o);
    var r := end - (o + n);
    && Unlinks(h.l, l1, next)
    && Tags(l1, l2, o, h.c[o].prev, 2 * n + 1)
    && Registers(l2, l3, h.m, o + n, n, r)
    && (if end < |h.l.mem| then end < |l3.mem| && Tags(l3, l4, end, if r > 0 then r else n, l3.mem[end].sizeWord)
        else l4 == l3)
  }

  ghost function ExtendWrites(h: Heap, o: nat, n: nat): set<nat>
    requires LiveAt(h.c, o)
  {
    {o, o + n, o + h.c[o].size, ReleaseEnd(h.c, o)}
  }

  ghost function ExtendResizes(h: Heap, o: nat, n: nat): set<nat>
    requires LiveAt(h.c, o)
  {
    {o} + (if o + n < ReleaseEnd(h.c, o) then {o + n} else {})
  }

  /** What the steps of `grow_inplace` find on their way. */
  lemma ExtendShape(h: Heap, o: nat, n: nat)
    requires HeapOk(h) && ExtendFits(h, o, n)
    ensures var next, end := o + h.c[o].size, ReleaseEnd(h.c, o);
      && next in h.c && next < h.high && next in h.l.nodes && NodeOk(h.l, next)
      && 0 < h.c[next].size < SPACE_LIMIT && h.l.nodes[next].bin == BinDown(h.m, h.c[next].size)
      && end == next + h.c[next].size <= |h.l.mem| < SPACE_LIMIT
      && (end < |h.l.mem| ==> end < h.high)
      && o !in h.l.nodes && (o + n < end ==> o + n !in h.l.nodes)
  {
    hide HeapOk, NodeOk, BinDown;
    var next := o + h.c[o].size;
    HeaderFacts(h, o);
    HeaderFacts(h, next);
    FreeNode(h, next);
    ReleaseShape(h, o);
    if o + n < ReleaseEnd(h.c, o) { InsideFree(h, next, o + n); }
  }

  lemma ExtendKeeps(h: Heap, l1: Lists, o: nat, n: nat, high: nat)
    requires HeapOk(h) && ExtendFits(h, o, n) && Unlinks(h.l, l1, o + h.c[o].size) && Ready(l1)
    requires NodesBelow(l1, h.high) && h.high <= high
    ensures |l1.mem| == |h.l.mem| && l1.base == h.l.base && |l1.heads| == |h.l.heads|
    ensures o < |l1.mem| && l1.mem[o].prevSize == h.c[o].prev
    ensures o + n < ReleaseEnd(h.c, o) ==> o + n !in l1.nodes
    ensures NodesBelow(l1, high)
  {
    hide HeapOk, LinksOk;
    ExtendShape(h, o, n);
    HeaderFacts(h, o);
    UnlinkKeeps(h.l, l1, o + h.c[o].size, o);
  }

  lemma ExtendFrame(h: Heap, l1: Lists, l2: Lists, l3: Lists, l4: Lists, o: nat, n: nat, w: set<nat>, r: set<nat>)
    requires ExtendFits(h, o, n) && ExtendSteps(h, l1, l2, l3, l4, o, n)
    requires o in w && o + n in w && ReleaseEnd(h.c, o) in w
    requires o in r && (o + n < ReleaseEnd(h.c, o) ==> o + n in r)
    ensures Stage(h.l, l4, w, r)
  {
    hide LinksOk, Frame, BinDown;
    var next, end := o + h.c[o].size, ReleaseEnd(h.c, o);
    UnlinksWithin(h.l, l1, next, w, r);
    TagsWithin(l1, l2, o, h.c[o].prev, 2 * n + 1, w, r);
    Chain(h.l, l1, l2, w, r);
    RegistersWithin(l2, l3, h.m, o + n, n, end - (o + n), w, r);
    Chain(h.l, l2, l3, w, r);
    if end < |h.l.mem| {
      TagsWithin(l3, l4, end, if end - (o + n) > 0 then end - (o + n) else n, l3.mem[end].sizeWord, w, r);
      Chain(h.l, l3, l4, w, r);
    }
  }

  lemma ExtendTags(h: Heap, l1: Lists, l2: Lists, l3: Lists, l4: Lists, o: nat, n: nat)
    requires ExtendFits(h, o, n) && ExtendSteps(h, l1, l2, l3, l4, o, n)
    ensures |l4.mem| == |h.l.mem|
    ensures var m, end := l4.mem, ReleaseEnd(h.c, o); var r := end - (o + n);
      && o < |m| && m[o].prevSize == h.c[o].prev && m[o].sizeWord == 2 * n + 1
      && (r > 0 ==> o + n < |m| && m[o + n].prevSize == n && m[o + n].sizeWord == 2 * r)
      && (end < |m| ==> m[end].prevSize == (if r > 0 then r else n) && m[end].sizeWord == h.l.mem[end].sizeWord)
  {
    hide LinksOk, StoresWithin, BinDown;
    var y, end := o + n, ReleaseEnd(h.c, o);
    RegistersStage(l2, l3, h.m, y, n, end - y);
    var r2 := if 2 * n + 1 == l1.mem[o].sizeWord then {} else {o};
    assert CellWithin(h.l, l1, {}, {}, end) && CellWithin(l1, l2, {o}, r2, end);
    assert CellWithin(l2, l3, {y}, {y}, end) && CellWithin(l2, l3, {y}, {y}, o);
    if end < |h.l.mem| { assert CellWithin(l3, l4, {end}, {}, y) && CellWithin(l3, l4, {end}, {}, o); }
  }

  lemma ExtendNodes(h: Heap, l1: Lists, l2: Lists, l3: Lists, l4: Lists, o: nat, n: nat)
    requires ExtendFits(h, o, n) && ExtendSteps(h, l1, l2, l3, l4, o, n)
    ensures var next, end := o + h.c[o].size, ReleaseEnd(h.c, o); var r := end - (o + n);
      && (r > 0 ==> o + n in l4.nodes && r < SPACE_LIMIT && l4.nodes[o + n].bin == BinDown(h.m, r))
      && (forall x | !(x == o + n && r > 0) && x != next ::
            (x in l4.nodes <==> x in h.l.nodes) && (x in h.l.nodes ==> l4.nodes[x] == h.l.nodes[x]))
      && next !in l4.nodes
  {
    hide Stage, BinDown;
  }

  ghost predicate ExtendDone(h: Heap, k: Heap, o: nat, n: nat)
    requires ExtendFits(h, o, n)
  {
    && k.m == h.m && h.high <= k.high <= |h.l.mem|
    && o + n + (if o + n < ReleaseEnd(h.c, o) then 1 else 0) <= k.high
    && IsExtended(h.c, k.c, |h.l.mem|, o, n) && WellFormed(k.c, |h.l.mem|)
  }

  lemma ExtendSame(h: Heap, k: Heap, l1: Lists, l2: Lists, l3: Lists, o: nat, n: nat, x: nat)
    requires ExtendFits(h, o, n) && ExtendSteps(h, l1, l2, l3, k.l, o, n)
    requires ExtendDone(h, k, o, n) && x !in ExtendWrites(h, o, n)
    ensures SameAt(h, k, x)
  {
    hide ExtendSteps, WellFormed, BinDown;
    ExtendNodes(h, l1, l2, l3, k.l, o, n);
  }

  lemma ExtendRewritten(h: Heap, k: Heap, l1: Lists, l2: Lists, l3: Lists, o: nat, n: nat, x: nat)
    requires HeapOk(h) && ExtendFits(h, o, n) && ExtendSteps(h, l1, l2, l3, k.l, o, n)
    requires ExtendDone(h, k, o, n) && x in ExtendWrites(h, o, n)
    ensures RewrittenOk(h, k, x)
  {
    hide ExtendSteps, WellFormed, HeapOk, BinDown;
    var next, end := o + h.c[o].size, ReleaseEnd(h.c, o);
    ExtendNodes(h, l1, l2, l3, k.l, o, n);
    ExtendTags(h, l1, l2, l3, k.l, o, n);
    HeaderFacts(h, o);
    EndIsChunk(h, o);
    HeaderFacts(h, next);
    EndIsChunk(h, next);
    FiledAt(h, end);
    if end in h.c { HeaderFacts(h, end); }
    if o + n < end { InsideFree(h, next, o + n); }
  }

  /** Growing a block keeps the heap in order and every payload. */
  lemma ExtendFinish(h: Heap, k: Heap, l1: Lists, l2: Lists, l3: Lists, o: nat, n: nat)
    requires HeapOk(h) && ExtendFits(h, o, n) && ExtendSteps(h, l1, l2, l3, k.l, o, n)
    requires ExtendDone(h, k, o, n) && Replayed(k.l)
    ensures HeapOk(k) && PayloadsKept(h, k)
    ensures Stage(h.l, k.l, ExtendWrites(h, o, n), ExtendResizes(h, o, n))
  {
    hide ExtendSteps, WellFormed, LinksOk;
    var w, r := ExtendWrites(h, o, n), ExtendResizes(h, o, n);
    ExtendFrame(h, l1, l2, l3, k.l, o, n, w, r);
    forall x: nat | x !in w ensures SameAt(h, k, x) { ExtendSame(h, k, l1, l2, l3, o, n, x); }
    forall x | x in w ensures RewrittenOk(h, k, x) { ExtendRewritten(h, k, l1, l2, l3, o, n, x); }
    FinishHeap(h, k, w, r);
    FinishPayloads(h, k, w, r);
  }
}
