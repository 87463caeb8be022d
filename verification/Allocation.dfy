/** What `alloc` returns and does, and the heap that initialisation sets up
    (src/allocator.rs:603-647 and 766-879). */
module Allocation {
  import opened Wrappers
  import opened Bits
  import opened Bins
  import opened Sizes
  import opened Partition
  import opened Layouts
  import opened FreeLists
  import opened Heaps
  import opened Operations
  import opened Effects
  import opened Payloads
  import opened Search

  /** The environment's answers during one operation: the base of the address space (zero is
      null) and, for each extent, whether the memory can be expanded to it. `realloc` may ask
      twice: when growing in place, answered by `grants`, and then when allocating anew,
      answered by `regrants`. */
  datatype Env = Env(base: Address, grants: u32 -> bool, regrants: u32 -> bool)

  // ---- initialisation ----

  const NO_CHUNKS: Layout := map[]

  /** Before initialisation: zeroed memory, empty lists, no base. */
  ghost predicate Untouched(h: Heap) {
    && h.high == 0 && h.c == NO_CHUNKS && h.l.log == [] && h.l.bits == {} && h.l.nodes == map[] && h.l.clock == 0
    && h.l.base == 0
    && ZeroFrom(h.l.mem, 0)
    && forall b | 0 <= b < |h.l.heads| :: h.l.heads[b] == 0
  }

  /** One free chunk over the whole space, filed under its bin. */
  ghost function Opened(h: Heap, base: Address): Heap
    requires 1 <= h.m <= 8 && 0 < |h.l.mem| < SPACE_LIMIT
  {
    var bin := BinDown(h.m, |h.l.mem|);
    var l := h.l.(base := base, bits := h.l.bits + {bin});
    var k := WithHead(Put(l, base, Cell(0, NewUnallocated(|h.l.mem|), 0, 0, At(l, base).rest)), bin, base);
    Heap(k.(nodes := k.nodes[0 := Node(bin, k.clock)], clock := k.clock + 1),
         map[0 := Chunk(0, |h.l.mem|, false)], 1, h.m)
  }

  lemma OpenedOk(h: Heap, base: Address)
    requires Untouched(h) && SizedOk(h.(l := h.l.(base := base))) && base > 0
    ensures HeapOk(Opened(h, base))
  {
    var k := Opened(h, base);
    var total := |h.l.mem|;
    BinInRange(BinConfig(h.m, |h.l.heads|), total);
    OpenedLists(h, base);
    forall o | o in k.c
      ensures ChunkOk(k.c, total, o) && Quiet(k.c, o) && TagOk(k.l.mem, k.c, o) && BelowMark(k.c, 1, o)
    {}
    forall o, p | o in k.c && p in k.c ensures Apart(k.c, o, p) {}
    forall o: nat ensures FiledOk(k.c, k.l.nodes, k.m, o) {}
    forall i: nat | i < |k.l.log| ensures LogStep(k.l.log, i) {}
  }

  lemma UntouchedFacts(h: Heap)
    requires Untouched(h)
    ensures h.l.bits == {} && h.l.nodes == map[] && h.high == 0 && h.l.clock == 0 && h.c == NO_CHUNKS
  {}

  lemma OpenedLists(h: Heap, base: Address)
    requires Untouched(h) && SizedOk(h.(l := h.l.(base := base))) && base > 0
    ensures LinksOk(Opened(h, base).l)
  {
    var k := Opened(h, base);
    BinInRange(BinConfig(h.m, |h.l.heads|), |h.l.mem|);
    forall o | o in k.l.nodes ensures NodeOk(k.l, o) {}
    forall b | 0 <= b < |k.l.heads| ensures HeadOk(k.l, b) {}
  }

  // ---- alloc ----

  /** The request in units, with room for the header and for alignment. */
  ghost predicate Requestable(align: u32, size: u32) {
    align > 0 && IsPow2(align) && size + align <= MAX_ALLOCATION_SIZE
  }

  ghost function HeaderFor(h: Heap, o: nat, align: u32): nat
    requires HeapOk(h) && o in h.c && IsPow2(align)
  {
    HeaderFacts(h, o);
    HeapFacts(h);
    AlignOffsetLeast(o + 1, align, h.l.base);
    AlignOffset(o + 1, align, h.l.base) - 1
  }

  /** The extent that a block of `size` units in the chunk at `o` needs. */
  ghost function AllocEnd(h: Heap, o: nat, align: u32, size: u32): nat
    requires HeapOk(h) && o in h.c && IsPow2(align)
  {
    var end := HeaderFor(h, o, align) + 1 + size;
    end + if end < o + h.c[o].size then 1 else 0
  }

  ghost predicate Granted(h: Heap, end: nat, grants: u32 -> bool) {
    end <= h.high || (end < 0x1_0000_0000 && grants(end))
  }

  /** A block carved out of the chunk at `o`, at the least aligned address, zeroed if asked. */
  ghost predicate Served(h: Heap, k: Heap, o: nat, align: u32, size: u32, zeroed: bool, p: Address)
    requires HeapOk(h) && o in h.c && IsPow2(align)
  {
    var header := HeaderFor(h, o, align);
    && p == h.l.base + header + 1 && Aligned(p, align)
    && o <= header && header + 1 + size <= o + h.c[o].size
    && Placed(h, k, header, size + 1)
    && (zeroed ==> AllZero(PayloadAt(k, header)))
    && k.high == (if h.high < AllocEnd(h, o, align, size) then AllocEnd(h, o, align, size) else h.high)
  }

  ghost predicate PlacedZeroed(h: Heap, k: Heap, header: nat, n: nat, zeroed: bool) {
    Placed(h, k, header, n) && (zeroed ==> AllZero(PayloadAt(k, header)))
  }

  /** What `alloc` and `alloc_zeroed` return and do on an initialised heap. */
  ghost predicate AllocOutcome(h: Heap, k: Heap, align: u32, size: u32, zeroed: bool, grants: u32 -> bool,
                               r: Option<Address>) {
    && HeapOk(h)
    && if !Requestable(align, size) then r == None && k == h
       else
         match r
         case None =>
           && k == h
           && forall o | Tried(h, size + align, o) && size + align <= h.c[o].size ::
                !Granted(h, AllocEnd(h, o, align, size), grants)
         case Some(p) =>
           exists o :: Tried(h, size + align, o) && size + align <= h.c[o].size
             && Granted(h, AllocEnd(h, o, align, size), grants)
             && Served(h, k, o, align, size, zeroed, p)
  }

  /** Exactly when a request can be served. */
  ghost predicate Servable(h: Heap, align: u32, size: u32, grants: u32 -> bool)
    requires HeapOk(h)
  {
    && Requestable(align, size)
    && exists o ::
         Tried(h, size + align, o) && size + align <= h.c[o].size && Granted(h, AllocEnd(h, o, align, size), grants)
  }

  lemma AllocServes(h: Heap, k: Heap, align: u32, size: u32, zeroed: bool, grants: u32 -> bool, r: Option<Address>)
    requires HeapOk(h) && AllocOutcome(h, k, align, size, zeroed, grants, r)
    ensures r.Some? <==> Servable(h, align, size, grants)
  {
    hide HeapOk, Tried, Served, Granted, AllocEnd, HeaderFor;
  }

  lemma HeaderIsAlignOffset(h: Heap, o: nat, align: u32)
    requires HeapOk(h) && o in h.c && IsPow2(align)
    ensures o < |h.l.mem| < SPACE_LIMIT && h.l.base < 0x800_0000_0000_0000
    ensures HeaderFor(h, o, align) == AlignOffset(o + 1, align, h.l.base) - 1
  {
    HeaderFacts(h, o);
  }

  /** The payload starts at the least aligned address behind the chunk's first header. */
  lemma HeaderForLeast(h: Heap, o: nat, align: u32)
    requires HeapOk(h) && o in h.c && IsPow2(align)
    ensures var header := HeaderFor(h, o, align);
      && o <= header < o + align && Aligned(h.l.base + header + 1, align)
      && forall z: nat | h.l.base + o + 1 <= z && Aligned(z, align) :: h.l.base + header + 1 <= z
  {
    hide HeapOk, AlignOffset, Aligned, IsPow2;
    HeaderFacts(h, o);
    HeapFacts(h);
    AlignOffsetLeast(o + 1, align, h.l.base);
  }

  /** The alignment slack was paid for: the block fits behind the padding. */
  lemma PaddingFits(h: Heap, o: nat, align: u32, size: u32)
    requires HeapOk(h) && FreeAt(h.c, o) && Requestable(align, size) && size + align <= h.c[o].size
    ensures var header := HeaderFor(h, o, align);
      && o <= header < o + align
      && PlaceFits(h, o, header - o, size + 1)
      && Aligned(h.l.base + header + 1, align)
      && AllocEnd(h, o, align, size) <= |h.l.mem| < SPACE_LIMIT
  {
    hide HeapOk, HeaderFor, Aligned, IsPow2, Ready, Replayed, WellFormed, NodesBelow, ConfigOk;
    HeaderFacts(h, o);
    HeapFacts(h);
    HeaderForLeast(h, o, align);
  }

  /** The quantities `alloc` computes stay in range, and the block fits. */
  lemma AllocNumbers(h: Heap, o: nat, align: u32, size: u32)
    requires HeapOk(h) && FreeAt(h.c, o) && Requestable(align, size) && size + align <= h.c[o].size
    ensures IsPow2(align) && o + h.c[o].size <= |h.l.mem| < SPACE_LIMIT && size < SPACE_LIMIT
    ensures var header := HeaderFor(h, o, align); var end := header + 1 + size;
      && header == AlignOffset(o + 1, align, h.l.base) - 1 && o <= header < o + align
      && end <= o + h.c[o].size
      && AllocEnd(h, o, align, size) == end + (if end < o + h.c[o].size then 1 else 0) <= |h.l.mem|
      && PlaceFits(h, o, header - o, size + 1)
  {
    hide HeapOk, HeaderFor, Aligned, IsPow2;
    HeaderFacts(h, o);
    PaddingFits(h, o, align, size);
    HeaderIsAlignOffset(h, o, align);
  }

  lemma ServedBy(h: Heap, k: Heap, o: nat, align: u32, size: u32, zeroed: bool, p: Address)
    requires HeapOk(h) && FreeAt(h.c, o) && Requestable(align, size) && size + align <= h.c[o].size
    requires var header := HeaderFor(h, o, align);
      && p == h.l.base + header + 1 && Placed(h, k, header, size + 1)
      && (zeroed ==> AllZero(PayloadAt(k, header)))
    requires k.high == (if h.high < AllocEnd(h, o, align, size) then AllocEnd(h, o, align, size) else h.high)
    ensures Served(h, k, o, align, size, zeroed, p)
  {
    hide HeapOk, HeaderFor, Aligned, IsPow2, Placed, AllocEnd, AllZero, PayloadAt;
    HeaderFacts(h, o);
    PaddingFits(h, o, align, size);
  }

  /** When the environment refuses nothing, `alloc` fails only if no free chunk exceeds the
      request by as much as one part in `2^m`. */
  lemma AllocFailsOnlyWhenFull(h: Heap, k: Heap, align: u32, size: u32, zeroed: bool, grants: u32 -> bool, t: nat)
    requires HeapOk(h) && Requestable(align, size)
    requires AllocOutcome(h, k, align, size, zeroed, grants, None)
    requires forall e: u32 | e <= |h.l.mem| :: grants(e)
    requires FreeAt(h.c, t)
    ensures h.c[t].size * Pow2(h.m) < (size + align) * (Pow2(h.m) + 1)
  {
    hide HeapOk, Tried, Served;
    forall o | Tried(h, size + align, o)
      ensures FreeAt(h.c, o) && h.c[o].size < size + align
    {
      TriedIsFree(h, size + align, o);
      if size + align <= h.c[o].size { PaddingFits(h, o, align, size); }
    }
    FragmentationBound(h, size + align, t);
  }

  lemma TriedIsFree(h: Heap, minSize: u32, o: nat)
    requires HeapOk(h) && Tried(h, minSize, o)
    ensures FreeAt(h.c, o)
  {}

  lemma AllocNone(h: Heap, align: u32, size: u32, zeroed: bool, grants: u32 -> bool)
    requires HeapOk(h)
    requires Requestable(align, size) ==>
      forall o | Tried(h, size + align, o) && size + align <= h.c[o].size ::
        !Granted(h, AllocEnd(h, o, align, size), grants)
    ensures AllocOutcome(h, h, align, size, zeroed, grants, None)
  {}

  lemma AllocSome(h: Heap, k: Heap, o: nat, align: u32, size: u32, zeroed: bool, grants: u32 -> bool, p: Address)
    requires HeapOk(h) && Requestable(align, size) && Tried(h, size + align, o) && size + align <= h.c[o].size
    requires Granted(h, AllocEnd(h, o, align, size), grants) && Served(h, k, o, align, size, zeroed, p)
    ensures AllocOutcome(h, k, align, size, zeroed, grants, Some(p))
  {
    hide HeapOk, Served, Tried, Granted;
  }

  /** Memory above the high-water mark is zero already, so `alloc_zeroed` may skip it. */
  lemma FreshIsZero(h: Heap, k: Heap, o: nat, n: nat)
    requires HeapOk(h) && HeapOk(k) && PayloadsKept(h, k) && LiveAt(k.c, o) && k.c[o].size == n
    requires h.high <= o + 1
    ensures AllZero(PayloadAt(k, o))
  {
    HeaderFacts(k, o);
    forall x | o < x < o + n
      ensures k.l.mem[x] == ZERO_CELL
    {
      PayloadHasNoHeader(k.c, |k.l.mem|, o, x);
      if x in h.c { HeaderFacts(h, x); }
    }
  }

  /** A successful `alloc` made a new block at the returned address. */
  lemma AllocGave(h: Heap, k: Heap, align: u32, size: u32, zeroed: bool, grants: u32 -> bool, p: Address)
    requires HeapOk(h) && AllocOutcome(h, k, align, size, zeroed, grants, Some(p))
    ensures h.l.base < p && align > 0 && Aligned(p, align)
    ensures PlacedZeroed(h, k, p - h.l.base - 1, size + 1, zeroed)
  {
    hide HeapOk, Placed, HeaderFor, AllocEnd, Tried, Aligned, IsPow2;
  }

  /** Exactly when the first `alloc` sets up the heap. */
  ghost predicate Initializes(align: u32, env: Env) {
    align > 0 && IsPow2(align) && env.base != 0 && env.grants(FREE_CHUNK_HEADER_SIZE)
  }

  /** What `alloc` and `alloc_zeroed` return and do, before or after initialisation. */
  ghost predicate AllocStep(h: Heap, k: Heap, align: u32, size: u32, zeroed: bool, env: Env, r: Option<Address>) {
    && SizedOk(h)
    && if h.l.base != 0 then AllocOutcome(h, k, align, size, zeroed, env.grants, r)
       else if Initializes(align, env) then AllocOutcome(Opened(h, env.base), k, align, size, zeroed, env.grants, r)
       else k == h && r == None
  }

  /** The high-water mark moves only to an extent that the environment granted. */
  ghost predicate MarkGranted(h: Heap, k: Heap, grants: u32 -> bool) {
    k.high == h.high || (h.high < k.high < 0x1_0000_0000 && grants(k.high))
  }

  lemma AllocMark(h: Heap, k: Heap, align: u32, size: u32, zeroed: bool, grants: u32 -> bool, r: Option<Address>)
    requires HeapOk(h) && AllocOutcome(h, k, align, size, zeroed, grants, r)
    ensures MarkGranted(h, k, grants)
  {
    hide HeapOk, Placed, HeaderFor, AllocEnd, Tried, Aligned, IsPow2, AllZero, PayloadAt;
  }

  // ---- realloc ----

  /** What moving block `o` to a new one of `size` units returns and does. */
  ghost predicate MoveOutcome(h: Heap, k: Heap, o: nat, align: u32, size: u32, grants: u32 -> bool, r: Option<Address>)
    requires HeapOk(h)
  {
    && (r.Some? <==> Servable(h, align, size, grants))
    && match r
       case None => k == h
       case Some(q) =>
         && h.l.base < q && align > 0 && Aligned(q, align) && Moved(h, k, o, q - h.l.base - 1, size + 1)
         && MarkGranted(h, k, grants)
  }

  lemma AllocTookNone(h: Heap, k: Heap, align: u32, size: u32, zeroed: bool, grants: u32 -> bool)
    requires AllocOutcome(h, k, align, size, zeroed, grants, None)
    ensures k == h
  {}

  /** What `realloc` to `size` units returns and does, with `realloc_inplace` on. */
  ghost predicate ReallocOutcome(h: Heap, k: Heap, p: Address, align: u32, size: u32, env: Env, r: Option<Address>) {
    && HeapOk(h) && h.l.base < p && LiveAt(h.c, p - h.l.base - 1)
    && var o := p - h.l.base - 1;
    if size + 1 == h.c[o].size then r == Some(p) && k == h
    else if size == 0 then r == None && Freed(h, k, o)
    else if size + 1 < h.c[o].size then r == Some(p) && Shrunk(h, k, o, size + 1)
    else if CanGrow(h, o, size + 1, env.grants) then
      && r == Some(p) && Grown(h, k, o, size + 1)
      && k.high == if h.high < GrowEnd(h.c, o, size + 1) then GrowEnd(h.c, o, size + 1) else h.high
    else MoveOutcome(h, k, o, align, size, env.regrants, r)
  }

  /** When a non-empty `realloc` fails, nothing changed; when it succeeds, the block has the
      new size and the old contents up to the smaller of the two sizes. */
  lemma ReallocKeepsContents(h: Heap, k: Heap, p: Address, align: u32, size: u32, env: Env, r: Option<Address>)
    requires HeapOk(h) && h.l.base < p && LiveAt(h.c, p - h.l.base - 1)
    requires ReallocOutcome(h, k, p, align, size, env, r) && size > 0
    ensures r.None? ==> k == h
    ensures r.Some? ==>
      var o, q := p - h.l.base - 1, r.value - h.l.base - 1;
      && HeapOk(k) && 0 <= q && LiveAt(k.c, q) && |PayloadAt(k, q)| == size
      && forall i | 0 <= i < size && i < |PayloadAt(h, o)| :: PayloadAt(k, q)[i] == PayloadAt(h, o)[i]
  {
    hide HeapOk, SparesOthers, OthersKept, PayloadAt, Aligned, Servable, CanGrow;
    var o := p - h.l.base - 1;
    PayloadSize(h, o);
    if r.Some? && size + 1 < h.c[o].size {
      assert o in Contents(k);
      assert PayloadAt(k, o) == PayloadAt(h, o)[..size];
    }
  }
}
