/** What each call does, store by store, with the choices it makes: the search, the answers
    of the environment, the zeroing and the copying (src/allocator.rs:766-879 and
    956-1178), and the proof that it has the outcome that callers rely on. */
module Executions {
  import opened Wrappers
  import opened Bits
  import opened Bins
  import opened Sizes
  import opened Partition
  import opened Layouts
  import opened FreeLists
  import opened Heaps
  import opened Operations
  import opened Effects
  import opened Payloads
  import opened Search
  import opened Allocation
  import opened Transitions

  // ---- zeroing and copying, cell by cell ----

  /** `write_bytes(0, n)` at offset `x`. */
  ghost function ZeroedLists(l: Lists, x: nat, n: nat): Lists {
    if n == 0 then l
    else
      var k := ZeroedLists(l, x, n - 1);
      Put(k, Ptr(k, x + n - 1), ZERO_CELL)
  }

  /** `copy_nonoverlapping` of `n` cells. */
  ghost function CopiedLists(l: Lists, from: nat, to: nat, n: nat): Lists {
    if n == 0 then l
    else
      var k := CopiedLists(l, from, to, n - 1);
      Put(k, Ptr(k, to + n - 1), At(k, Ptr(k, from + n - 1)))
  }

  lemma CopiedMore(l: Lists, from: nat, to: nat, n: nat)
    ensures var k := CopiedLists(l, from, to, n);
      CopiedLists(l, from, to, n + 1) == Put(k, Ptr(k, to + n), At(k, Ptr(k, from + n)))
  {}

  ghost function ZeroedHeap(h: Heap, o: nat, n: nat): Heap {
    h.(l := ZeroedLists(h.l, o + 1, n))
  }

  ghost function CopiedHeap(h: Heap, o: nat, q: nat, n: nat): Heap {
    h.(l := CopiedLists(h.l, o + 1, q + 1, n))
  }

  /** One more store into a payload, in its own words. */
  lemma PayloadPut(h: Heap, k: Heap, o: nat, x: nat, cell: Cell)
    requires HeapOk(h) && HeapOk(k) && Rewrote(h, k, o) && InPayload(h, o, x)
    ensures x < |k.l.mem| && Put(k.l, Ptr(k.l, x), cell) == WithCell(k.l, x, cell)
    ensures var j := k.(l := WithCell(k.l, x, cell)); HeapOk(j) && Rewrote(h, j, o)
  {
    hide HeapOk;
    PayloadCellFree(h, o, x);
    PayloadStoreOk(k, o, x, cell);
    RewroteStep(h, k, k.(l := WithCell(k.l, x, cell)), o, x, cell);
    AddressesFit(k, x);
  }

  lemma AddressesFit(h: Heap, x: nat)
    requires HeapOk(h) && x < |h.l.mem|
    ensures Ptr(h.l, x) == h.l.base + x && At(h.l, Ptr(h.l, x)) == h.l.mem[x]
  {}

  lemma {:induction false} ZeroedOk(h: Heap, o: nat, n: nat)
    requires HeapOk(h) && LiveAt(h.c, o) && n < h.c[o].size
    ensures var k := ZeroedHeap(h, o, n);
      && HeapOk(k) && Rewrote(h, k, o) && o + n < |k.l.mem|
      && forall x | o < x <= o + n :: k.l.mem[x] == ZERO_CELL
  {
    hide HeapOk, Rewrote;
    HeaderFacts(h, o);
    if n == 0 {
      RewroteRefl(h, o);
    } else {
      ZeroedOk(h, o, n - 1);
      PayloadPut(h, ZeroedHeap(h, o, n - 1), o, o + n, ZERO_CELL);
    }
  }

  lemma ZeroedBlock(h: Heap, o: nat, n: nat)
    requires HeapOk(h) && LiveAt(h.c, o) && h.c[o].size == n + 1
    ensures Zeroed(h, ZeroedHeap(h, o, n), o)
  {
    hide HeapOk, Rewrote;
    ZeroedOk(h, o, n);
    HeaderFacts(ZeroedHeap(h, o, n), o);
  }

  lemma {:induction false} CopiedOk(h: Heap, o: nat, q: nat, n: nat)
    requires HeapOk(h) && LiveAt(h.c, o) && LiveAt(h.c, q) && o != q && n < h.c[o].size && n < h.c[q].size
    ensures var k := CopiedHeap(h, o, q, n);
      && HeapOk(k) && Rewrote(h, k, q)
      && forall x {:trigger CopiedAt(h, k, o, q, x)} | 0 <= x < n :: CopiedAt(h, k, o, q, x)
  {
    hide HeapOk, Rewrote;
    HeaderFacts(h, o);
    HeaderFacts(h, q);
    if n == 0 {
      RewroteRefl(h, q);
    } else {
      CopiedOk(h, o, q, n - 1);
      var k := CopiedHeap(h, o, q, n - 1);
      CopySource(h, k, o, q, o + n);
      AddressesFit(k, o + n);
      var cell := h.l.mem[o + n];
      PayloadPut(h, k, q, q + n, cell);
      CopyStep(h, k, k.(l := WithCell(k.l, q + n, cell)), o, q, n - 1);
    }
  }

  // ---- alloc ----

  ghost function RaisedTo(high: nat, end: nat): nat {
    if high < end then end else high
  }

  /** A block of `size` units is carved out of the chunk at `o`, and zeroed when it has to be. */
  ghost predicate CarveRan(h: Heap, k: Heap, o: nat, align: u32, size: u32, zeroed: bool, p: Address)
    requires HeapOk(h) && o in h.c && IsPow2(align)
  {
    var header := HeaderFor(h, o, align);
    && p == h.l.base + header + 1 && o <= header && PlaceFits(h, o, header - o, size + 1)
    && k.m == h.m && k.high == RaisedTo(h.high, AllocEnd(h, o, align, size))
    && IsPlaced(h.c, k.c, o, header - o, size + 1)
    && k.l == (var l := PlaceLists(h, o, header - o, size + 1);
               if zeroed && h.high > header + 1 then ZeroedLists(l, header + 1, size) else l)
  }

  /** The heap between carving and zeroing. */
  ghost function Carved(h: Heap, k: Heap, o: nat, l: nat, n: nat): Heap
    requires o in h.c && l + n <= h.c[o].size
  {
    k.(l := PlaceLists(h, o, l, n))
  }

  lemma CarvePlaced(h: Heap, k: Heap, o: nat, align: u32, size: u32, zeroed: bool, p: Address)
    requires HeapOk(h) && FreeAt(h.c, o) && Requestable(align, size) && size + align <= h.c[o].size
    requires CarveRan(h, k, o, align, size, zeroed, p)
    ensures var header := HeaderFor(h, o, align);
      && o <= header && header - o + size + 1 <= h.c[o].size
      && var j := Carved(h, k, o, header - o, size + 1);
      && HeapOk(j) && Placed(h, j, header, size + 1) && PayloadsKept(h, j) && j.high == k.high
      && k == (if zeroed && h.high > header + 1 then ZeroedHeap(j, header, size) else j)
  {
    hide HeapOk, HeaderFor, AllocEnd, Aligned, IsPow2, PlaceLists, IsPlaced, Placed, PayloadsKept;
    AllocNumbers(h, o, align, size);
    HeaderFacts(h, o);
    var header := HeaderFor(h, o, align);
    PlaceRanPlaced(h, Carved(h, k, o, header - o, size + 1), o, header - o, size + 1);
  }

  lemma CarveServed(h: Heap, k: Heap, o: nat, align: u32, size: u32, zeroed: bool, p: Address)
    requires HeapOk(h) && FreeAt(h.c, o) && Requestable(align, size) && size + align <= h.c[o].size
    requires CarveRan(h, k, o, align, size, zeroed, p)
    ensures HeapOk(k) && Served(h, k, o, align, size, zeroed, p)
  {
    hide HeapOk, HeaderFor, AllocEnd, Aligned, IsPow2, PlaceLists, IsPlaced, Placed, PayloadsKept, AllZero, Rewrote;
    hide Served, PlaceFits, ZeroedLists;
    CarvePlaced(h, k, o, align, size, zeroed, p);
    var header := HeaderFor(h, o, align);
    var j := Carved(h, k, o, header - o, size + 1);
    PlacedFacts(h, j, header, size + 1);
    if zeroed && h.high > header + 1 {
      ZeroedBlock(j, header, size);
      PlacedThenRewrote(h, j, k, header, size + 1);
    } else if zeroed {
      FreshIsZero(h, j, header, size + 1);
    }
    ServedBy(h, k, o, align, size, zeroed, p);
  }

  /** `alloc` and `alloc_zeroed` on an initialised heap, if it is in order. */
  ghost predicate AllocRan(h: Heap, k: Heap, align: u32, size: u32, zeroed: bool, grants: u32 -> bool,
                           r: Option<Address>) {
    HeapOk(h) ==>
      if !Requestable(align, size) then r == None && k == h
      else
        match r
        case None =>
          && k == h
          && forall o | Tried(h, size + align, o) && size + align <= h.c[o].size ::
               !Granted(h, AllocEnd(h, o, align, size), grants)
        case Some(p) =>
          exists o :: Tried(h, size + align, o) && size + align <= h.c[o].size
            && Granted(h, AllocEnd(h, o, align, size), grants)
            && CarveRan(h, k, o, align, size, zeroed, p)
  }

  lemma AllocRanOutcome(h: Heap, k: Heap, align: u32, size: u32, zeroed: bool, grants: u32 -> bool, r: Option<Address>)
    requires HeapOk(h) && AllocRan(h, k, align, size, zeroed, grants, r)
    ensures HeapOk(k) && AllocOutcome(h, k, align, size, zeroed, grants, r)
  {
    hide HeapOk, Granted, CarveRan, Served, AllocEnd, IsPow2, BinDown, BinUp, SearchedBin, BinOf, AllocOutcome;
    if r.Some? {
      var o :| Tried(h, size + align, o) && size + align <= h.c[o].size
        && Granted(h, AllocEnd(h, o, align, size), grants)
        && CarveRan(h, k, o, align, size, zeroed, r.value);
      TriedIsFree(h, size + align, o);
      CarveServed(h, k, o, align, size, zeroed, r.value);
      AllocSome(h, k, o, align, size, zeroed, grants, r.value);
    } else {
      AllocNone(h, align, size, zeroed, grants);
    }
  }

  lemma NotRequestable(h: Heap, align: u32, size: u32, zeroed: bool, grants: u32 -> bool)
    requires HeapOk(h) && !Requestable(align, size)
    ensures AllocRan(h, h, align, size, zeroed, grants, None)
  {}

  lemma NotServable(h: Heap, align: u32, size: u32, zeroed: bool, grants: u32 -> bool)
    requires HeapOk(h) && Requestable(align, size)
    requires forall o | Tried(h, size + align, o) && size + align <= h.c[o].size ::
      !Granted(h, AllocEnd(h, o, align, size), grants)
    ensures AllocRan(h, h, align, size, zeroed, grants, None)
  {}

  lemma ServedRan(h: Heap, k: Heap, o: nat, align: u32, size: u32, zeroed: bool, grants: u32 -> bool, p: Address)
    requires HeapOk(h) && Requestable(align, size) && Tried(h, size + align, o) && size + align <= h.c[o].size
    requires Granted(h, AllocEnd(h, o, align, size), grants) && CarveRan(h, k, o, align, size, zeroed, p)
    ensures AllocRan(h, k, align, size, zeroed, grants, Some(p))
  {
    hide HeapOk, CarveRan, Tried, Granted;
  }

  /** `alloc` and `alloc_zeroed`, before or after initialisation. */
  ghost predicate AllocCall(h: Heap, k: Heap, align: u32, size: u32, zeroed: bool, env: Env, r: Option<Address>) {
    && SizedOk(h)
    && if h.l.base != 0 then AllocRan(h, k, align, size, zeroed, env.grants, r)
       else if Initializes(align, env) then AllocRan(Opened(h, env.base), k, align, size, zeroed, env.grants, r)
       else k == h && r == None
  }

  lemma AllocCallStep(h: Heap, k: Heap, align: u32, size: u32, zeroed: bool, env: Env, r: Option<Address>)
    requires AllocCall(h, k, align, size, zeroed, env, r)
    requires if h.l.base == 0 then Untouched(h) && env.base + |h.l.mem| < 0x800_0000_0000_0000 else HeapOk(h)
    ensures AllocStep(h, k, align, size, zeroed, env, r)
  {
    hide HeapOk, Untouched, AllocRan, AllocOutcome, Opened, ConfigOk, IsPow2;
    if h.l.base != 0 {
      AllocRanOutcome(h, k, align, size, zeroed, env.grants, r);
    } else if Initializes(align, env) {
      OpenedOk(h, env.base);
      AllocRanOutcome(Opened(h, env.base), k, align, size, zeroed, env.grants, r);
    }
  }

  // ---- free, shrink, grow ----

  /** The chunk that `free` leaves is the first of its list, so it is the next to be tried. */
  lemma FreedIsFirst(h: Heap, k: Heap, o: nat)
    requires HeapOk(h) && FreeRan(h, k, o)
    ensures HeapOk(k)
    ensures ReleaseStart(h.c, o) in k.c
    ensures var start := ReleaseStart(h.c, o);
      && FreeAt(k.c, start) && BinOf(k, start) < |k.l.heads| && HeadAt(k.l, BinOf(k, start)) == k.l.base + start
  {
    hide HeapOk, Freed, BinDown, RegisteredAndTagged, Absorbed, ConfigOk;
    FreeRanFreed(h, k, o);
    ReleaseShape(h, o);
    var start, end := ReleaseStart(h.c, o), ReleaseEnd(h.c, o);
    TagFits(h, start);
    HeaderFacts(k, start);
    HeapConfig(k);
    BinInRange(BinConfig(k.m, |k.l.heads|), end - start);
    RegisteredFirst(Absorbed(h, o), h.m, start, h.c[start].prev, end - start);
    AddressesFit(k, start);
  }

  ghost predicate ShrinkRan(h: Heap, k: Heap, o: nat, n: u32) {
    && LiveAt(h.c, o)
    && if n == 0 then FreeRan(h, k, o) else if n + 1 < h.c[o].size then TrimRan(h, k, o, n + 1) else k == h
  }

  ghost predicate ShrinkOutcome(h: Heap, k: Heap, o: nat, n: u32) {
    && LiveAt(h.c, o)
    && if n == 0 then Freed(h, k, o) else if n + 1 < h.c[o].size then Shrunk(h, k, o, n + 1) else k == h
  }

  lemma ShrinkRanOutcome(h: Heap, k: Heap, o: nat, n: u32)
    requires HeapOk(h) && ShrinkRan(h, k, o, n)
    ensures HeapOk(k) && ShrinkOutcome(h, k, o, n)
  {
    hide HeapOk, FreeRan, TrimRan, Freed, Shrunk;
    if n == 0 { FreeRanFreed(h, k, o); } else if n + 1 < h.c[o].size { TrimRanShrunk(h, k, o, n + 1); }
  }

  ghost predicate GrowRan(h: Heap, k: Heap, o: nat, n: nat, grants: u32 -> bool, r: Option<u32>) {
    && LiveAt(h.c, o)
    && if n <= h.c[o].size then k == h && r == Some(h.c[o].size - 1)
       else if CanGrow(h, o, n, grants) then r == Some(n - 1) && ExtendRan(h, k, o, n)
       else k == h && r == None
  }

  lemma GrowRanOutcome(h: Heap, k: Heap, o: nat, n: nat, grants: u32 -> bool, r: Option<u32>)
    requires HeapOk(h) && LiveAt(h.c, o) && h.c[o].size < 0x1_0000_0000
    requires GrowRan(h, k, o, n, grants, r)
    ensures HeapOk(k) && GrowOutcome(h, k, o, n, grants, r)
  {
    hide HeapOk, CanGrow, Grown, NextFree, ReleaseEnd, ExtendLists, IsExtended;
    if n > h.c[o].size && CanGrow(h, o, n, grants) { ExtendRanGrown(h, k, o, n); }
  }

  // ---- realloc ----

  /** The block at `o` is copied to the new one at `q` and freed. */
  ghost predicate CopyAndFreeRan(h: Heap, i: Heap, k: Heap, o: nat, q: nat) {
    LiveAt(h.c, o) && h.c[o].size > 0 && FreeRan(CopiedHeap(i, o, q, h.c[o].size - 1), k, o)
  }

  ghost predicate MovedVia(h: Heap, i: Heap, k: Heap, o: nat, align: u32, size: u32, grants: u32 -> bool, q: Address) {
    && h.l.base < q && AllocRan(h, i, align, size, false, grants, Some(q))
    && CopyAndFreeRan(h, i, k, o, q - h.l.base - 1)
  }

  /** `alloc`, copy, `free`. */
  ghost predicate MoveRan(h: Heap, k: Heap, o: nat, align: u32, size: u32, grants: u32 -> bool, r: Option<Address>) {
    match r
    case None => AllocRan(h, k, align, size, false, grants, None)
    case Some(q) => exists i :: MovedVia(h, i, k, o, align, size, grants, q)
  }

  ghost predicate ReallocRan(h: Heap, k: Heap, p: Address, align: u32, size: u32, env: Env, r: Option<Address>) {
    && h.l.base < p && LiveAt(h.c, p - h.l.base - 1)
    && var o := p - h.l.base - 1;
    if size + 1 == h.c[o].size then r == Some(p) && k == h
    else if size == 0 then r == None && FreeRan(h, k, o)
    else if size + 1 < h.c[o].size then r == Some(p) && TrimRan(h, k, o, size + 1)
    else if CanGrow(h, o, size + 1, env.grants) then r == Some(p) && ExtendRan(h, k, o, size + 1)
    else MoveRan(h, k, o, align, size, env.regrants, r)
  }

  lemma CopyAndFreeMoved(h: Heap, i: Heap, k: Heap, o: nat, q: nat, n: nat)
    requires HeapOk(h) && LiveAt(h.c, o) && h.c[o].size <= n && Placed(h, i, q, n) && CopyAndFreeRan(h, i, k, o, q)
    ensures Moved(h, k, o, q, n) && k.high == i.high
  {
    hide HeapOk, Placed, Rewrote, Freed, Moved, FreeRan, CopiedLists, Copied;
    PlacedFacts(h, i, q, n);
    PlacedKeeps(h, i, q, n, o);
    var j := CopiedHeap(i, o, q, h.c[o].size - 1);
    CopiedOk(i, o, q, h.c[o].size - 1);
    RewroteShape(i, j, q);
    CopiedBy(i, j, o, q);
    FreeRanFreed(j, k, o);
    MovedBy(h, i, j, k, o, q, n);
  }

  lemma RewroteShape(h: Heap, k: Heap, o: nat)
    requires Rewrote(h, k, o)
    ensures k.c == h.c
  {}

  lemma MoveRanOutcome(h: Heap, k: Heap, o: nat, align: u32, size: u32, grants: u32 -> bool, r: Option<Address>)
    requires HeapOk(h) && LiveAt(h.c, o) && h.c[o].size <= size && MoveRan(h, k, o, align, size, grants, r)
    ensures HeapOk(k) && MoveOutcome(h, k, o, align, size, grants, r)
  {
    hide HeapOk, AllocRan, AllocOutcome, Placed, Moved, Servable, Aligned, CopyAndFreeRan, AllZero;
    if r == None {
      AllocRanOutcome(h, k, align, size, false, grants, None);
      AllocServes(h, k, align, size, false, grants, None);
      AllocTookNone(h, k, align, size, false, grants);
    } else {
      var i :| MovedVia(h, i, k, o, align, size, grants, r.value);
      AllocRanOutcome(h, i, align, size, false, grants, r);
      AllocServes(h, i, align, size, false, grants, r);
      AllocMark(h, i, align, size, false, grants, r);
      AllocGave(h, i, align, size, false, grants, r.value);
      CopyAndFreeMoved(h, i, k, o, r.value - h.l.base - 1, size + 1);
      MovedInOrder(h, k, o, r.value - h.l.base - 1, size + 1);
    }
  }

  lemma MovedInOrder(h: Heap, k: Heap, o: nat, q: nat, n: nat)
    requires Moved(h, k, o, q, n)
    ensures HeapOk(k)
  {}

  lemma ReallocRanOutcome(h: Heap, k: Heap, p: Address, align: u32, size: u32, env: Env, r: Option<Address>)
    requires HeapOk(h) && ReallocRan(h, k, p, align, size, env, r)
    ensures HeapOk(k) && ReallocOutcome(h, k, p, align, size, env, r)
  {
    hide HeapOk, FreeRan, TrimRan, MoveRan, MoveOutcome, Freed, Shrunk, Grown, CanGrow, ExtendLists, IsExtended;
    hide ExtendFits;
    var o := p - h.l.base - 1;
    HeaderFacts(h, o);
    if size + 1 == h.c[o].size {
    } else if size == 0 {
      FreeRanFreed(h, k, o);
    } else if size + 1 < h.c[o].size {
      TrimRanShrunk(h, k, o, size + 1);
    } else if CanGrow(h, o, size + 1, env.grants) {
      ExtendRanGrown(h, k, o, size + 1);
    } else {
      MoveRanOutcome(h, k, o, align, size, env.regrants, r);
    }
  }

  // ---- the user ----

  ghost predicate StoreRan(h: Heap, k: Heap, o: nat, i: nat, cell: Cell) {
    && LiveAt(h.c, o) && i + 1 < h.c[o].size && o + 1 + i < |h.l.mem|
    && k == h.(l := WithCell(h.l, o + 1 + i, cell))
  }

  lemma StoreRanWritten(h: Heap, k: Heap, o: nat, i: nat, cell: Cell)
    requires HeapOk(h) && StoreRan(h, k, o, i, cell)
    ensures HeapOk(k) && Written(h, k, o, i, cell)
  {
    hide HeapOk, Written;
    WrittenBy(h, o, i, cell);
  }
}
