/** The whole heap as a value: cells, lists and tiling together, the invariant that every
    operation keeps, and the frames that make its proof local. */
module Heaps {
  import opened Bins
  import opened Sizes
  import opened Partition
  import opened Layouts
  import opened FreeLists

  // ---- ChunkSize: the size with the allocation flag in the lowest bit ----

  function NewAllocated(size: u32): u32
    requires size < 0x8000_0000
  {
    2 * size + 1
  }

  function NewUnallocated(size: u32): u32
    requires size < 0x8000_0000
  {
    2 * size
  }

  function WordSize(w: u32): u32 { w / 2 }

  predicate WordUsed(w: u32) { w % 2 == 1 }

  /** The cell at `o` carries the header of the chunk at `o`. */
  ghost predicate TagOk(mem: seq<Cell>, c: Layout, o: nat)
    requires o in c
  {
    && o < |mem| && mem[o].prevSize == c[o].prev
    && mem[o].sizeWord == 2 * c[o].size + (if c[o].used then 1 else 0)
  }

  ghost predicate TagsOk(mem: seq<Cell>, c: Layout) {
    forall o {:trigger TagOk(mem, c, o)} | o in c :: TagOk(mem, c, o)
  }

  /** A node is a free chunk, filed under its rounded-down bin. */
  ghost predicate FiledOk(c: Layout, nodes: map<nat, Node>, m: nat, o: nat)
    requires 1 <= m <= 8
  {
    && (o in nodes <==> FreeAt(c, o))
    && (o in nodes ==> 0 < c[o].size < SPACE_LIMIT && nodes[o].bin == BinDown(m, c[o].size))
  }

  ghost predicate Filed(c: Layout, nodes: map<nat, Node>, m: nat)
    requires 1 <= m <= 8
  {
    forall o: nat {:trigger FiledOk(c, nodes, m, o)} :: FiledOk(c, nodes, m, o)
  }

  /** Headers and blocks lie below the high-water mark. */
  ghost predicate BelowMark(c: Layout, high: nat, o: nat)
    requires o in c
  {
    o < high && (c[o].used ==> o + c[o].size <= high)
  }

  ghost predicate Contained(c: Layout, high: nat) {
    forall o {:trigger BelowMark(c, high, o)} | o in c :: BelowMark(c, high, o)
  }

  /** Every cell at or above the high-water mark is zero. */
  ghost predicate ZeroFrom(mem: seq<Cell>, high: nat) {
    forall x | high <= x < |mem| :: mem[x] == ZERO_CELL
  }

  ghost predicate StoredBelow(log: seq<Store>, high: nat, i: nat)
    requires i < |log|
  {
    log[i].at < high
  }

  /** No store that was ever made hit a cell at or above the high-water mark. */
  ghost predicate WrittenBelow(log: seq<Store>, high: nat) {
    forall i: nat {:trigger StoredBelow(log, high, i)} | i < |log| :: StoredBelow(log, high, i)
  }

  /** A heap, its tiling, its high-water mark and the number of mantissa bits. */
  datatype Heap = Heap(l: Lists, c: Layout, high: nat, m: nat)

  ghost predicate SizedOk(h: Heap) {
    && 1 <= h.m <= 8 && ConfigOk(BinConfig(h.m, |h.l.heads|))
    && 0 < |h.l.mem| < SPACE_LIMIT && h.l.base + |h.l.mem| < 0x800_0000_0000_0000
    && h.high <= |h.l.mem|
  }

  ghost predicate HeapOk(h: Heap) {
    && SizedOk(h)
    && WellFormed(h.c, |h.l.mem|)
    && TagsOk(h.l.mem, h.c)
    && LinksOk(h.l)
    && Filed(h.c, h.l.nodes, h.m)
    && Contained(h.c, h.high)
    && ZeroFrom(h.l.mem, h.high)
    && Replayed(h.l)
    && WrittenBelow(h.l.log, h.high)
  }

  // ---- frames ----

  ghost predicate SameTags(a: Cell, b: Cell) {
    a.prevSize == b.prevSize && a.sizeWord == b.sizeWord
  }

  /** A store that hits a header in `w` or a free header of `l`, and changes a size only in `r`. */
  ghost predicate StoreWithin(l: Lists, s: Store, w: set<nat>, r: set<nat>) {
    && s.at < |l.mem|
    && (s.at in l.nodes || s.at in w)
    && (s.at !in r ==> s.cell.sizeWord == l.mem[s.at].sizeWord)
  }

  ghost predicate StoresWithin(l: Lists, k: Lists, w: set<nat>, r: set<nat>) {
    && |l.log| <= |k.log| && k.log[..|l.log|] == l.log
    && (forall i | |l.log| <= i < |k.log| :: StoreWithin(l, k.log[i], w, r))
  }

  /** At `x` the tags changed only if it is in `w`, and the size only if it is in `r`. A cell
      that holds no header of either kind did not change at all. */
  ghost predicate CellWithin(l: Lists, k: Lists, w: set<nat>, r: set<nat>, x: nat) {
    && (x in k.nodes ==> x in l.nodes || x in w)
    && (x < |l.mem| && x < |k.mem| ==>
          && (x !in w ==> SameTags(k.mem[x], l.mem[x]))
          && (x !in r ==> k.mem[x].sizeWord == l.mem[x].sizeWord)
          && (x !in w && x !in l.nodes ==> k.mem[x] == l.mem[x]))
  }

  ghost predicate CellsWithin(l: Lists, k: Lists, w: set<nat>, r: set<nat>) {
    && |k.mem| == |l.mem| && |k.heads| == |l.heads| && k.base == l.base
    && forall x: nat {:trigger CellWithin(l, k, w, r, x)} :: CellWithin(l, k, w, r, x)
  }

  ghost predicate Frame(l: Lists, k: Lists, w: set<nat>, r: set<nat>) {
    CellsWithin(l, k, w, r) && StoresWithin(l, k, w, r)
  }

  lemma FrameRefl(l: Lists)
    ensures Frame(l, l, {}, {})
  {}

  lemma FrameWiden(l: Lists, k: Lists, w: set<nat>, r: set<nat>, w': set<nat>, r': set<nat>)
    requires Frame(l, k, w, r) && w <= w' && r <= r'
    ensures Frame(l, k, w', r')
  {
    forall x: nat ensures CellWithin(l, k, w', r', x) { assert CellWithin(l, k, w, r, x); }
    forall i | |l.log| <= i < |k.log|
      ensures StoreWithin(l, k.log[i], w', r')
    {
      assert StoreWithin(l, k.log[i], w, r);
    }
  }

  lemma FrameTrans(a: Lists, b: Lists, c: Lists, v: set<nat>, q: set<nat>, w: set<nat>, r: set<nat>)
    requires Frame(a, b, v, q) && Frame(b, c, w, r)
    ensures Frame(a, c, v + w, q + r)
  {
    forall x: nat
      ensures CellWithin(a, c, v + w, q + r, x)
    {
      assert CellWithin(a, b, v, q, x) && CellWithin(b, c, w, r, x);
    }
    StoresTrans(a, b, c, v, q, w, r);
  }

  lemma AppendedStores(l: Lists, k: Lists, s: seq<Store>, w: set<nat>, r: set<nat>)
    requires k.log == l.log + s
    requires forall i | 0 <= i < |s| :: StoreWithin(l, s[i], w, r)
    ensures StoresWithin(l, k, w, r)
  {
    forall i | |l.log| <= i < |k.log|
      ensures StoreWithin(l, k.log[i], w, r)
    {
      assert k.log[i] == s[i - |l.log|];
    }
  }

  lemma RemovedCells(l: Lists, k: Lists, o: nat)
    requires LinksOk(l) && o in l.nodes && NodeOk(l, o) && IsRemoved(l, k, o)
    ensures CellsWithin(l, k, {}, {})
  {}

  lemma InsertedCells(l: Lists, k: Lists, o: nat, bin: nat)
    requires LinksOk(l) && o < |l.mem| && bin < |l.heads| && l.base + o < 0x800_0000_0000_0000
    requires IsInserted(l, k, o, bin)
    ensures CellsWithin(l, k, {o}, {o})
  {
    assert HeadOk(l, bin);
  }

  lemma StoresTrans(a: Lists, b: Lists, c: Lists, v: set<nat>, q: set<nat>, w: set<nat>, r: set<nat>)
    requires Frame(a, b, v, q) && Frame(b, c, w, r)
    ensures StoresWithin(a, c, v + w, q + r)
  {
    assert c.log[..|a.log|] == b.log[..|a.log|];
    forall i | |a.log| <= i < |c.log|
      ensures StoreWithin(a, c.log[i], v + w, q + r)
    {
      if i < |b.log| {
        assert c.log[i] == c.log[..|b.log|][i];
        assert StoreWithin(a, b.log[i], v, q);
      } else {
        assert StoreWithin(b, c.log[i], w, r);
        assert CellWithin(a, b, v, q, c.log[i].at);
      }
    }
  }

  // ---- the list operations, store by store ----

  ghost predicate AddressesOk(l: Lists) {
    0 < l.base && l.base + |l.mem| < 0x800_0000_0000_0000
  }

  ghost function Ptr(l: Lists, o: nat): Address {
    if l.base + o < 0x800_0000_0000_0000 then l.base + o else 0
  }

  ghost function At(l: Lists, p: Word): Cell {
    if l.base <= p && p - l.base < |l.mem| then l.mem[p - l.base] else ZERO_CELL
  }

  ghost function Put(l: Lists, p: Word, cell: Cell): Lists {
    if l.base <= p && p - l.base < |l.mem| then WithCell(l, p - l.base, cell) else l
  }

  ghost function WithCell(l: Lists, o: nat, cell: Cell): Lists
    requires o < |l.mem|
  {
    var mem := l.mem[o := cell];
    l.(mem := mem, log := l.log + [Store(o, cell, mem)])
  }

  ghost function WithHead(l: Lists, bin: nat, p: Word): Lists {
    if bin < |l.heads| then l.(heads := l.heads[bin := p]) else l
  }

  ghost function HeadAt(l: Lists, bin: nat): Word {
    if bin < |l.heads| then l.heads[bin] else 0
  }

  /** Store `i` changes the memory that store `i - 1` left in one cell. */
  ghost predicate LogStep(log: seq<Store>, i: nat)
    requires i < |log|
  {
    && log[i].at < |log[i].after|
    && (i > 0 ==> log[i].at < |log[i - 1].after| && log[i].after == log[i - 1].after[log[i].at := log[i].cell])
  }

  /** The log describes the memory, store by store. */
  ghost predicate Replayed(l: Lists) {
    && l.log != [] && l.mem == l.log[|l.log| - 1].after
    && forall i: nat {:trigger LogStep(l.log, i)} | i < |l.log| :: LogStep(l.log, i)
  }

  lemma WithCellReplayed(l: Lists, o: nat, cell: Cell)
    requires o < |l.mem| && Replayed(l)
    ensures Replayed(WithCell(l, o, cell))
  {
    var k := WithCell(l, o, cell);
    forall i: nat | i < |k.log|
      ensures LogStep(k.log, i)
    {
      if i < |l.log| { assert LogStep(l.log, i); }
    }
  }

  /** `unregister_free_space_first_chunk`. */
  ghost function UnlinkedFirst(l: Lists, o: nat, bin: nat): Lists {
    var n := At(l, Ptr(l, o)).next;
    var k := WithHead(l, bin, n).(nodes := l.nodes - {o});
    if n == 0 then k.(bits := k.bits - {bin}) else Put(k, n, At(k, n).(prev := 0))
  }

  ghost function UnlinkedMiddle(l: Lists, o: nat): Lists {
    var n, p := At(l, Ptr(l, o)).next, At(l, Ptr(l, o)).prev;
    var j := l.(nodes := l.nodes - {o});
    var k := Put(j, p, At(j, p).(next := n));
    if n == 0 then k else Put(k, n, At(k, n).(prev := p))
  }

  /** `unregister_free_space`. */
  ghost function Unlinked(l: Lists, o: nat, bin: nat): Lists {
    if HeadAt(l, bin) == Ptr(l, o) then UnlinkedFirst(l, o, bin) else UnlinkedMiddle(l, o)
  }

  ghost function Pushed(l: Lists, o: nat, bin: nat, header: Cell): Lists {
    var n := HeadAt(l, bin);
    var i := WithHead(l, bin, Ptr(l, o));
    var j := Put(i, Ptr(l, o), header.(next := n, prev := 0));
    var k := if n == 0 then j else Put(j, n, At(j, n).(prev := Ptr(l, o)));
    k.(bits := k.bits + {bin}, nodes := k.nodes[o := Node(bin, k.clock)], clock := k.clock + 1)
  }

  /** `register_free_space`: nothing for an empty chunk. */
  ghost function Registered(l: Lists, m: nat, o: nat, prev: u32, size: u32): Lists
    requires 1 <= m <= 8 && size < SPACE_LIMIT
  {
    if size == 0 then l
    else Pushed(l, o, BinDown(m, size), At(l, Ptr(l, o)).(prevSize := prev, sizeWord := NewUnallocated(size)))
  }

  /** A store to the tags of one header. */
  ghost function Tagged(l: Lists, o: nat, prev: u32, sizeWord: u32): Lists {
    Put(l, Ptr(l, o), At(l, Ptr(l, o)).(prevSize := prev, sizeWord := sizeWord))
  }

  // ---- what they keep ----

  lemma WithCellFrame(l: Lists, o: nat, cell: Cell, w: set<nat>, r: set<nat>)
    requires o < |l.mem| && (o in l.nodes || o in w)
    requires o in w || SameTags(cell, l.mem[o])
    requires o in r || cell.sizeWord == l.mem[o].sizeWord
    ensures Frame(l, WithCell(l, o, cell), w, r)
  {}

  /** One stage of an operation: the lists stay in order, within the frame. */
  ghost predicate Stage(l: Lists, k: Lists, w: set<nat>, r: set<nat>) {
    Frame(l, k, w, r) && LinksOk(k) && AddressesOk(k)
  }

  ghost predicate Ready(l: Lists) {
    LinksOk(l) && AddressesOk(l)
  }

  lemma StageTrans(a: Lists, b: Lists, c: Lists, v: set<nat>, q: set<nat>, w: set<nat>, r: set<nat>)
    requires Stage(a, b, v, q) && Stage(b, c, w, r)
    ensures Stage(a, c, v + w, q + r)
  {
    FrameTrans(a, b, c, v, q, w, r);
  }

  /** Every store is logged, so the log keeps describing the memory. */
  lemma PutReplayed(l: Lists, p: Word, cell: Cell)
    requires Replayed(l)
    ensures Replayed(Put(l, p, cell))
  {
    if l.base <= p && p - l.base < |l.mem| { WithCellReplayed(l, p - l.base, cell); }
  }

  lemma UnlinkReplayed(l: Lists, o: nat, bin: nat)
    requires Replayed(l)
    ensures Replayed(Unlinked(l, o, bin))
  {
    hide Replayed;
    var n, p := At(l, Ptr(l, o)).next, At(l, Ptr(l, o)).prev;
    if HeadAt(l, bin) == Ptr(l, o) {
      var k := WithHead(l, bin, n).(nodes := l.nodes - {o});
      SameReplay(l, k);
      PutReplayed(k, n, At(k, n).(prev := 0));
      SameReplay(k, k.(bits := k.bits - {bin}));
    } else {
      var j := l.(nodes := l.nodes - {o});
      SameReplay(l, j);
      PutReplayed(j, p, At(j, p).(next := n));
      var k := Put(j, p, At(j, p).(next := n));
      PutReplayed(k, n, At(k, n).(prev := p));
    }
  }

  lemma SameReplay(l: Lists, k: Lists)
    requires Replayed(l) && k.mem == l.mem && k.log == l.log
    ensures Replayed(k)
  {}

  lemma RegisterReplayed(l: Lists, m: nat, o: nat, prev: u32, size: u32)
    requires Replayed(l) && 1 <= m <= 8 && size < SPACE_LIMIT
    ensures Replayed(Registered(l, m, o, prev, size))
  {
    hide Replayed;
    if size > 0 {
      var bin := BinDown(m, size);
      var header := At(l, Ptr(l, o)).(prevSize := prev, sizeWord := NewUnallocated(size));
      var n, i := HeadAt(l, bin), WithHead(l, bin, Ptr(l, o));
      SameReplay(l, i);
      PutReplayed(i, Ptr(l, o), header.(next := n, prev := 0));
      var j := Put(i, Ptr(l, o), header.(next := n, prev := 0));
      PutReplayed(j, n, At(j, n).(prev := Ptr(l, o)));
      var k := if n == 0 then j else Put(j, n, At(j, n).(prev := Ptr(l, o)));
      SameReplay(k, Registered(l, m, o, prev, size));
    }
  }

  lemma UnlinkFirst(l: Lists, o: nat, bin: nat)
    requires Ready(l) && o in l.nodes && NodeOk(l, o) && bin == l.nodes[o].bin
    requires l.heads[bin] == l.base + o
    ensures IsRemoved(l, UnlinkedFirst(l, o, bin), o)
  {
    assert HeadOk(l, bin);
    assert l.mem[o].prev == 0;
  }

  lemma UnlinkFirstStores(l: Lists, o: nat, bin: nat)
    requires AddressesOk(l) && o in l.nodes && NodeOk(l, o) && bin == l.nodes[o].bin
    ensures StoresWithin(l, UnlinkedFirst(l, o, bin), {}, {})
  {
    var k, n := UnlinkedFirst(l, o, bin), l.mem[o].next;
    if n == 0 {
      AppendedStores(l, k, [], {}, {});
    } else {
      AppendedStores(l, k, k.log[|l.log|..], {}, {});
    }
  }

  lemma UnlinkMiddle(l: Lists, o: nat)
    requires Ready(l) && o in l.nodes && NodeOk(l, o) && l.heads[l.nodes[o].bin] != l.base + o
    ensures l.mem[o].prev != 0
    ensures IsRemoved(l, UnlinkedMiddle(l, o), o)
  {
    assert HeadOk(l, l.nodes[o].bin);
  }

  lemma UnlinkMiddleStores(l: Lists, o: nat)
    requires AddressesOk(l) && o in l.nodes && NodeOk(l, o) && l.mem[o].prev != 0
    ensures StoresWithin(l, UnlinkedMiddle(l, o), {}, {})
  {
    var n, p := l.mem[o].next, l.mem[o].prev;
    var c := l.mem[p - l.base].(next := n);
    var a := WithCell(l, p - l.base, c);
    if n == 0 {
      AppendedStores(l, UnlinkedMiddle(l, o), [Store(p - l.base, c, a.mem)], {}, {});
    } else {
      var d := a.mem[n - l.base].(prev := p);
      var b := WithCell(a, n - l.base, d);
      assert b.log == l.log + [Store(p - l.base, c, a.mem), Store(n - l.base, d, b.mem)];
      AppendedStores(l, UnlinkedMiddle(l, o), [Store(p - l.base, c, a.mem), Store(n - l.base, d, b.mem)], {}, {});
    }
  }

  /** Unregistering a free chunk keeps the lists and touches free headers only. */
  lemma Unlink(l: Lists, o: nat, bin: nat)
    requires Ready(l) && o in l.nodes && NodeOk(l, o) && bin == l.nodes[o].bin
    ensures IsRemoved(l, Unlinked(l, o, bin), o)
    ensures Stage(l, Unlinked(l, o, bin), {}, {})
  {
    if l.heads[bin] == l.base + o {
      UnlinkFirst(l, o, bin);
      UnlinkFirstStores(l, o, bin);
    } else {
      UnlinkMiddle(l, o);
      UnlinkMiddleStores(l, o);
    }
    RemovedCells(l, Unlinked(l, o, bin), o);
    RemoveLinks(l, Unlinked(l, o, bin), o);
  }

  lemma PushInserted(l: Lists, o: nat, bin: nat, header: Cell)
    requires Ready(l) && o < |l.mem| && bin < |l.heads| && o !in l.nodes
    ensures IsInserted(l, Pushed(l, o, bin, header), o, bin)
    ensures SameTags(Pushed(l, o, bin, header).mem[o], header)
  {
    assert HeadOk(l, bin);
  }

  lemma PushStores(l: Lists, o: nat, bin: nat, header: Cell)
    requires Ready(l) && o < |l.mem| && bin < |l.heads| && o !in l.nodes
    ensures StoresWithin(l, Pushed(l, o, bin, header), {o}, {o})
  {
    assert HeadOk(l, bin);
    var n := l.heads[bin];
    var c := header.(next := n, prev := 0);
    var a := WithCell(l, o, c);
    if n == 0 {
      AppendedStores(l, Pushed(l, o, bin, header), [Store(o, c, a.mem)], {o}, {o});
    } else {
      var d := a.mem[n - l.base].(prev := l.base + o);
      var b := WithCell(a, n - l.base, d);
      assert b.log == l.log + [Store(o, c, a.mem), Store(n - l.base, d, b.mem)];
      AppendedStores(l, Pushed(l, o, bin, header), [Store(o, c, a.mem), Store(n - l.base, d, b.mem)], {o}, {o});
    }
  }

  lemma Push(l: Lists, o: nat, bin: nat, header: Cell)
    requires Ready(l) && o < |l.mem| && bin < |l.heads| && o !in l.nodes
    ensures IsInserted(l, Pushed(l, o, bin, header), o, bin)
    ensures SameTags(Pushed(l, o, bin, header).mem[o], header)
    ensures Stage(l, Pushed(l, o, bin, header), {o}, {o})
  {
    PushInserted(l, o, bin, header);
    PushStores(l, o, bin, header);
    InsertedCells(l, Pushed(l, o, bin, header), o, bin);
    InsertLinks(l, Pushed(l, o, bin, header), o, bin);
  }

  /** Registering a chunk writes its header and files it under its bin. */
  lemma Register(l: Lists, m: nat, o: nat, prev: u32, size: u32)
    requires Ready(l) && ConfigOk(BinConfig(m, |l.heads|)) && 0 < size < SPACE_LIMIT
    requires o < |l.mem| && o !in l.nodes
    ensures var k := Registered(l, m, o, prev, size);
      && Stage(l, k, {o}, {o})
      && k.mem[o].prevSize == prev && k.mem[o].sizeWord == 2 * size
      && k.nodes == l.nodes[o := Node(BinDown(m, size), l.clock)]
  {
    BinInRange(BinConfig(m, |l.heads|), size);
    Push(l, o, BinDown(m, size), l.mem[o].(prevSize := prev, sizeWord := NewUnallocated(size)));
  }

  /** A tag store keeps the lists; it resizes the chunk or leaves the size alone. */
  lemma Tag(l: Lists, o: nat, prev: u32, sizeWord: u32)
    requires Ready(l) && o < |l.mem|
    ensures var k := Tagged(l, o, prev, sizeWord);
      && Stage(l, k, {o}, if sizeWord == l.mem[o].sizeWord then {} else {o})
      && k.mem[o].prevSize == prev && k.mem[o].sizeWord == sizeWord
      && k.nodes == l.nodes
  {
    var cell := l.mem[o].(prevSize := prev, sizeWord := sizeWord);
    WithCellFrame(l, o, cell, {o}, if sizeWord == l.mem[o].sizeWord then {} else {o});
    SameLinks(l, WithCell(l, o, cell));
  }

  // ---- from the frame to the invariant ----

  /** Away from the rewritten headers nothing changed in the tiling or in the lists. */
  ghost predicate SameAt(h: Heap, k: Heap, x: nat) {
    && (x in k.c <==> x in h.c) && (x in h.c ==> k.c[x] == h.c[x])
    && (x in k.l.nodes <==> x in h.l.nodes)
    && (x in h.l.nodes ==> k.l.nodes[x].bin == h.l.nodes[x].bin)
  }

  ghost predicate RewrittenOk(h: Heap, k: Heap, x: nat)
    requires 1 <= k.m <= 8
  {
    && FiledOk(k.c, k.l.nodes, k.m, x)
    && (x in k.c ==> TagOk(k.l.mem, k.c, x) && BelowMark(k.c, k.high, x))
    && (x < k.high || x >= |k.l.mem|)
    && (x in h.c || x in k.c || x >= |k.l.mem|)
  }

  lemma FinishHeap(h: Heap, k: Heap, w: set<nat>, r: set<nat>)
    requires HeapOk(h) && k.m == h.m && h.high <= k.high <= |h.l.mem|
    requires Frame(h.l, k.l, w, r) && LinksOk(k.l)
    requires WellFormed(k.c, |h.l.mem|)
    requires forall x: nat | x !in w :: SameAt(h, k, x)
    requires forall x | x in w :: RewrittenOk(h, k, x)
    requires Replayed(k.l)
    ensures HeapOk(k)
  {
    assert TagsOk(k.l.mem, k.c) by {
      forall x | x in k.c ensures TagOk(k.l.mem, k.c, x) {
        if x in w {
          assert RewrittenOk(h, k, x);
        } else {
          assert SameAt(h, k, x) && TagOk(h.l.mem, h.c, x) && CellWithin(h.l, k.l, w, r, x);
        }
      }
    }
    assert Filed(k.c, k.l.nodes, k.m) by {
      forall x: nat ensures FiledOk(k.c, k.l.nodes, k.m, x) {
        if x in w { assert RewrittenOk(h, k, x); } else { assert SameAt(h, k, x) && FiledOk(h.c, h.l.nodes, h.m, x); }
      }
    }
    assert Contained(k.c, k.high) by {
      forall x | x in k.c ensures BelowMark(k.c, k.high, x) {
        if x in w { assert RewrittenOk(h, k, x); } else { assert SameAt(h, k, x) && BelowMark(h.c, h.high, x); }
      }
    }
    FinishZero(h, k, w, r);
    FinishWritten(h, k, w, r);
  }

  lemma FinishWritten(h: Heap, k: Heap, w: set<nat>, r: set<nat>)
    requires HeapOk(h) && k.m == h.m && h.high <= k.high <= |h.l.mem|
    requires Frame(h.l, k.l, w, r)
    requires forall x | x in w :: RewrittenOk(h, k, x)
    ensures WrittenBelow(k.l.log, k.high)
  {
    forall i: nat | i < |k.l.log|
      ensures StoredBelow(k.l.log, k.high, i)
    {
      if i < |h.l.log| {
        assert StoredBelow(h.l.log, h.high, i) && k.l.log[i] == k.l.log[..|h.l.log|][i];
      } else {
        var x := k.l.log[i].at;
        assert StoreWithin(h.l, k.l.log[i], w, r) && FiledOk(h.c, h.l.nodes, h.m, x);
        if x in w { assert RewrittenOk(h, k, x); } else { assert BelowMark(h.c, h.high, x); }
      }
    }
  }

  lemma FinishZero(h: Heap, k: Heap, w: set<nat>, r: set<nat>)
    requires HeapOk(h) && k.m == h.m && h.high <= k.high <= |h.l.mem|
    requires Frame(h.l, k.l, w, r)
    requires forall x | x in w :: RewrittenOk(h, k, x)
    ensures ZeroFrom(k.l.mem, k.high)
  {
    forall x | k.high <= x < |k.l.mem|
      ensures k.l.mem[x] == ZERO_CELL
    {
      assert FiledOk(h.c, h.l.nodes, h.m, x) && CellWithin(h.l, k.l, w, r, x);
      assert x in h.c ==> BelowMark(h.c, h.high, x);
    }
  }

  // ---- what an operation leaves alone ----

  /** Only header cells of the old or the new tiling changed. */
  ghost predicate PayloadsKept(h: Heap, k: Heap) {
    && |k.l.mem| == |h.l.mem|
    && forall x | 0 <= x < |h.l.mem| && x !in h.c && x !in k.c :: k.l.mem[x] == h.l.mem[x]
  }

  lemma FinishPayloads(h: Heap, k: Heap, w: set<nat>, r: set<nat>)
    requires HeapOk(h) && k.m == h.m
    requires Frame(h.l, k.l, w, r)
    requires forall x | x in w :: RewrittenOk(h, k, x)
    ensures PayloadsKept(h, k)
  {
    forall x | 0 <= x < |h.l.mem| && x !in h.c && x !in k.c
      ensures k.l.mem[x] == h.l.mem[x]
    {
      assert FiledOk(h.c, h.l.nodes, h.m, x) && CellWithin(h.l, k.l, w, r, x);
    }
  }

  // ---- live blocks and their contents ----

  /** A payload holds no header. */
  lemma PayloadHasNoHeader(c: Layout, total: nat, o: nat, x: nat)
    requires Tiled(c, total) && o in c && o < x < o + c[o].size
    ensures x !in c
  {
    if x in c { Disjoint(c, total, o, x); }
  }
}
