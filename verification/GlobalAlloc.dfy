/** The byte-level wrapper (src/allocator.rs:1202-1259): sizes, alignments and addresses in
    bytes, with zero for the null pointer. */
module GlobalAlloc {
  import opened Wrappers
  import opened Bits
  import opened Bins
  import opened Sizes
  import opened Heaps
  import opened Operations
  import opened Effects
  import opened Payloads
  import opened Allocation
  import opened Transitions
  import opened Executions
  import opened Allocators
  import opened Runs
  import opened Promises

  type usize = x: int | 0 <= x < USIZE_LIMIT

  /** Size and alignment of a block in bytes. */
  datatype Layout = Layout(size: usize, align: usize)

  /** The byte address of a pointer, zero for none. */
  function ToBytes(p: Option<Address>): (b: usize) {
    match p
    case None => 0
    case Some(q) => 32 * (q as int)
  }

  // ---- the wrapper ----

  /** What the byte-level `alloc` and `alloc_zeroed` return and do. */
  ghost predicate AllocBytes(h: Heap, k: Heap, layout: Layout, zeroed: bool, env: Env, r: usize) {
    var align, size := FromBytes(layout.align), FromBytes(layout.size);
    if align.None? || size.None? then k == h && r == 0
    else exists p :: r == ToBytes(p) && AllocStep(h, k, align.value, size.value, zeroed, env, p)
  }

  method Alloc(a: Allocator, layout: Layout, zeroed: bool, env: Env) returns (r: usize)
    requires a.Valid() && a.EnvOk(env)
    modifies a`lists, a`seen, a`callHeap, a`callTarget, a`chunks, a`allocatedSpace, a`baseAddress
    modifies a.mem, a.firstInFreeList, a.freeLists`primaryMask, a.freeLists`members, a.freeLists.secondaryMasks
    ensures a.Valid() && AllocBytes(old(a.View()), a.View(), layout, zeroed, env, r)
  {
    hide HeapOk, Untouched, AllocCall, AllocStep, FromBytes, Allocator.Valid;
    var align := FromBytes(layout.align);
    if align == None {
      return 0;
    }
    var size := FromBytes(layout.size);
    if size == None {
      return 0;
    }
    var p := a.Alloc(align.value, size.value, zeroed, env);
    return ToBytes(p);
  }

  /** What the byte-level `realloc` returns and does. */
  ghost predicate ReallocBytes(h: Heap, k: Heap, p: usize, layout: Layout, newSize: usize, env: Env, r: usize) {
    var align, size := FromBytes(layout.align), FromBytes(newSize);
    if p == 0 || align.None? || size.None? then k == h && r == 0
    else exists q :: r == ToBytes(q) && ReallocOutcome(h, k, p / 32, align.value, size.value, env, q)
  }

  /** `p` is null or the byte address of a live block. */
  ghost predicate NullOrLive(h: Heap, p: usize) {
    p == 0 || (p % 32 == 0 && LivePointer(h, p / 32))
  }

  method Realloc(a: Allocator, p: usize, layout: Layout, newSize: usize, env: Env) returns (r: usize)
    requires a.Valid() && a.EnvOk(env) && NullOrLive(a.View(), p)
    modifies a`lists, a`seen, a`callHeap, a`callTarget, a`chunks, a`allocatedSpace, a`baseAddress
    modifies a.mem, a.firstInFreeList, a.freeLists`primaryMask, a.freeLists`members, a.freeLists.secondaryMasks
    ensures a.Valid() && ReallocBytes(old(a.View()), a.View(), p, layout, newSize, env, r)
  {
    hide HeapOk, Untouched, ReallocRan, ReallocOutcome, FromBytes, Allocator.Valid;
    if p == 0 {
      return 0;
    }
    var align := FromBytes(layout.align);
    if align == None {
      return 0;
    }
    var size := FromBytes(newSize);
    if size == None {
      return 0;
    }
    BasedView(a);
    var q := a.Realloc(p / 32, align.value, size.value, env);
    return ToBytes(q);
  }

  lemma BasedView(a: Allocator)
    requires a.Valid()
    ensures a.View().l.base == a.baseAddress
  {
    hide HeapOk, Untouched;
  }

  method Dealloc(a: Allocator, p: usize, layout: Layout)
    requires a.Valid() && NullOrLive(a.View(), p)
    modifies a`lists, a`seen, a`callHeap, a`callTarget, a`chunks
    modifies a.mem, a.firstInFreeList, a.freeLists`primaryMask, a.freeLists`members, a.freeLists.secondaryMasks
    ensures a.Valid()
    ensures if p == 0 then a.View() == old(a.View()) else FreeStep(old(a.View()), a.View(), p / 32)
  {
    hide HeapOk, Untouched, FreeRan, Freed, Allocator.Shaped;
    BasedView(a);
    if p != 0 {
      a.Free(p / 32);
    }
  }

  /** `malloc_usable_size`, read without the lock. */
  method UsableSize(a: Allocator, p: usize) returns (r: usize)
    requires a.Valid() && NullOrLive(a.View(), p)
    ensures r == 32 * |BlockAt(a.View(), p / 32)|
  {
    hide HeapOk, Untouched, BlockAt, ContentsAt, ConfigOk, Allocator.Valid;
    SeenBlock(a, p);
    if p == 0 {
      return 0;
    }
    var size := a.UsableSize(p / 32);
    return Bytes(size);
  }

  lemma SeenBlock(a: Allocator, p: usize)
    requires a.Valid() && NullOrLive(a.View(), p)
    ensures p == 0 ==> BlockAt(a.View(), 0) == []
    ensures p != 0 ==> a.IsLive(p / 32) && |BlockAt(a.View(), p / 32)| < SPACE_LIMIT
    ensures p != 0 ==> ContentsAt(a.View(), p / 32) == BlockAt(a.View(), p / 32)
  {
    hide HeapOk, Untouched, ConfigOk, Abs, PayloadAt, Allocator.CellsBacked, Allocator.HeadsBacked;
    hide Allocator.ReadsBacked;
    if p != 0 {
      a.ViewSized();
      HeaderFacts(a.View(), a.Block(p / 32));
      AbsLive(a.View(), a.Block(p / 32));
    }
  }

  // ---- what it promises in bytes ----

  /** The block behind byte address `r` in the map of blocks. */
  ghost predicate HasBytes(b: Blocks, base: Address, r: usize, size: usize, align: usize)
    requires align > 0
  {
    && r % 32 == 0 && base < r / 32 && r / 32 - base - 1 in b
    && r % align == 0
    && var s := b[r / 32 - base - 1];
    size <= 32 * |s| < size + 32
  }

  /** What an allocation of `layout` makes of the blocks. */
  ghost predicate Allocated(a: Blocks, b: Blocks, base: Address, layout: Layout, zeroed: bool, r: usize)
    requires layout.align > 0
  {
    if r == 0 then b == a
    else
      && HasBytes(b, base, r, layout.size, layout.align)
      && var o := r / 32 - base - 1;
      && o !in a && b == a[o := b[o]] && (zeroed ==> AllZero(b[o]))
  }

  /** Every non-null result is a new block at an address divisible by the alignment, whose
      usable bytes are at least the size asked for, and fewer than 32 more. */
  lemma AllocBytesGood(h: Heap, k: Heap, layout: Layout, zeroed: bool, env: Env, r: usize)
    requires layout.align > 0 && IsPow2(layout.align) && AllocBytes(h, k, layout, zeroed, env, r)
    requires env.base + |h.l.mem| < 0x800_0000_0000_0000 && StateOk(h)
    ensures Allocated(Abs(h), Abs(k), k.l.base, layout, zeroed, r)
  {
    hide StateOk, Abs, AllocStep, AllZero, IsPow2, SizedOk;
    var align, size := FromBytes(layout.align), FromBytes(layout.size);
    if align.Some? && size.Some? {
      var p :| r == ToBytes(p) && AllocStep(h, k, align.value, size.value, zeroed, env, p);
      StepSized(h, k, align.value, size.value, zeroed, env, p);
      AllocRefines(h, k, align.value, size.value, zeroed, env, p);
      FromBytesCovers(layout.size);
      if p.Some? { ByteAlignment(layout.align, p.value); }
    }
  }

  lemma StepSized(h: Heap, k: Heap, align: u32, size: u32, zeroed: bool, env: Env, p: Option<Address>)
    requires AllocStep(h, k, align, size, zeroed, env, p)
    ensures SizedOk(h)
  {
    hide SizedOk, AllocOutcome, Opened;
  }

  /** What `realloc` from `p` to `newSize` bytes makes of the blocks. */
  ghost predicate Reallocated(a: Blocks, b: Blocks, base: Address, p: usize, layout: Layout, newSize: usize, r: usize)
    requires layout.align > 0
  {
    if r == 0 then b == a
    else
      && p != 0 && HasBytes(a, base, p, layout.size, layout.align) && HasBytes(b, base, r, newSize, layout.align)
      && var o, q := p / 32 - base - 1, r / 32 - base - 1;
      && CommonPrefix(a[o], b[q])
      && (q == o || q !in a) && b == (a - {o})[q := b[q]]
  }

  /** A non-null result of a non-empty `realloc` is a block of the new size with the old
      contents up to the smaller size; after null nothing changed. Other blocks never change. */
  lemma ReallocBytesGood(h: Heap, k: Heap, p: usize, layout: Layout, newSize: usize, env: Env, r: usize)
    requires IsPow2(layout.align) && layout.align > 0 && newSize > 0
    requires p != 0 ==> HasBytes(Abs(h), h.l.base, p, layout.size, layout.align)
    requires ReallocBytes(h, k, p, layout, newSize, env, r) && HeapOk(h)
    ensures Reallocated(Abs(h), Abs(k), h.l.base, p, layout, newSize, r)
  {
    hide HeapOk, Abs, ReallocOutcome, IsPow2, CommonPrefix;
    var align, size := FromBytes(layout.align), FromBytes(newSize);
    if p != 0 && align.Some? && size.Some? {
      var q :| r == ToBytes(q) && ReallocOutcome(h, k, p / 32, align.value, size.value, env, q);
      ReallocRefines(h, k, p / 32, align.value, size.value, env, q);
      ReallocBase(h, k, p / 32, align.value, size.value, env, q);
      FromBytesCovers(newSize);
      FromBytesCovers(layout.size);
      if q.Some? {
        ByteAlignment(layout.align, q.value);
        ResizedPrefix(Abs(h), Abs(k), p / 32 - h.l.base - 1, size.value);
      }
    }
  }

  lemma ResizedPrefix(a: Blocks, b: Blocks, o: nat, n: nat)
    ensures o in a && b == a ==> CommonPrefix(a[o], b[o]) && b == (a - {o})[o := b[o]]
    ensures Resized(a, b, o, n) ==> b == (a - {o})[o := b[o]]
  {}

  lemma ReallocBase(h: Heap, k: Heap, p: Address, align: u32, size: u32, env: Env, r: Option<Address>)
    requires HeapOk(h) && ReallocOutcome(h, k, p, align, size, env, r)
    ensures k.l.base == h.l.base
  {
    hide HeapOk, OthersKept, SparesOthers, Contents, Servable, CanGrow;
  }

  // ---- when it succeeds ----

  /** `bytes` in units, rounded up. */
  function InUnits(bytes: nat): (n: nat) {
    (bytes + 31) / 32
  }

  lemma InUnitsIs(bytes: nat)
    requires bytes < USIZE_LIMIT
    ensures FromBytes(bytes) == if InUnits(bytes) <= 0xFFFF_FFFF then Some(InUnits(bytes)) else None
  {}

  lemma AlignInUnits(align: usize)
    requires align > 0 && IsPow2(align) && InUnits(align) <= 0xFFFF_FFFF
    ensures IsPow2(InUnits(align)) && InUnits(align) > 0
  {
    hide IsPow2;
    InUnitsIs(align);
    ByteAlignment(align, 0);
  }

  /** The byte-level `alloc` on an initialised heap: null, changing nothing, beyond 1 GiB; else
      null only when no chunk has room to spare or memory was refused. */
  ghost predicate AllocBytesPromised(h: Heap, k: Heap, layout: Layout, zeroed: bool, env: Env, r: usize) {
    var align, size := InUnits(layout.align), InUnits(layout.size);
    if size + align > 0x200_0000 then r == 0 && k == h
    else
      && r % 32 == 0
      && AllocPromised(h, k, align, size, zeroed, env.grants, if r == 0 then None else Some(r / 32))
  }

  lemma AllocBytesKept(h: Heap, k: Heap, layout: Layout, zeroed: bool, env: Env, r: usize)
    requires layout.align > 0 && IsPow2(layout.align) && HeapOk(h) && AllocBytes(h, k, layout, zeroed, env, r)
    ensures AllocBytesPromised(h, k, layout, zeroed, env, r)
  {
    hide HeapOk, IsPow2, FromBytes, AllocOutcome, AllocPromised, ConfigOk, SizedOk;
    InUnitsIs(layout.align);
    InUnitsIs(layout.size);
    BasedHeap(h);
    var align, size := FromBytes(layout.align), FromBytes(layout.size);
    if align.Some? && size.Some? {
      var p :| r == ToBytes(p) && AllocStep(h, k, align.value, size.value, zeroed, env, p);
      AllocPromise(h, k, align.value, size.value, zeroed, env.grants, p);
      PromisedPointer(h, k, align.value, size.value, zeroed, env.grants, p);
      if (size.value as int) + align.value > 0x200_0000 {
        TooLarge(h, k, align.value, size.value, zeroed, env.grants, p);
      }
    }
  }

  lemma BasedHeap(h: Heap)
    requires HeapOk(h)
    ensures h.l.base != 0
  {}

  lemma PromisedPointer(h: Heap, k: Heap, align: u32, size: u32, zeroed: bool, grants: u32 -> bool, p: Option<Address>)
    requires AllocPromised(h, k, align, size, zeroed, grants, p)
    ensures p.Some? ==> p.value > 0
  {
    hide Sound, HasAmple, Refused, ZeroAt, Holds, Provided, NearBest;
  }

  lemma TooLarge(h: Heap, k: Heap, align: u32, size: u32, zeroed: bool, grants: u32 -> bool, p: Option<Address>)
    requires AllocPromised(h, k, align, size, zeroed, grants, p) && size + align > 0x200_0000
    ensures p == None && k == h
  {
    hide HasAmple, Refused, ZeroAt, TakenFrom;
  }

  /** The first byte-level `alloc` succeeds exactly when the space is there and large enough. */
  lemma FirstAllocBytesKept(h: Heap, k: Heap, layout: Layout, zeroed: bool, env: Env, r: usize)
    requires layout.align > 0 && IsPow2(layout.align)
    requires Untouched(h) && SizedOk(h) && h.l.base == 0 && env.base + |h.l.mem| < 0x800_0000_0000_0000
    requires AllocBytes(h, k, layout, zeroed, env, r)
    ensures r != 0 <==>
      InUnits(layout.size) + InUnits(layout.align) <= 0x200_0000
      && FirstServed(|h.l.mem|, InUnits(layout.align), InUnits(layout.size), env)
  {
    hide HeapOk, Untouched, IsPow2, FromBytes, AllocStep, ConfigOk, SizedOk, FirstServed, Abs;
    InUnitsIs(layout.align);
    InUnitsIs(layout.size);
    var align, size := FromBytes(layout.align), FromBytes(layout.size);
    if align.Some? && size.Some? {
      var p :| r == ToBytes(p) && AllocStep(h, k, align.value, size.value, zeroed, env, p);
      FirstAllocPromise(h, k, align.value, size.value, zeroed, env, p);
      FirstBound(|h.l.mem|, align.value, size.value, env, p);
    }
  }

  lemma FirstBound(total: nat, align: u32, size: u32, env: Env, p: Option<Address>)
    ensures FirstServed(total, align, size, env) ==> size + align <= 0x200_0000
    ensures p.Some? && FirstAligned(env.base + 1, align, p.value) ==> p.value > 0
  {}

  /** The byte-level `realloc`: null in, null out; null for sizes that do not fit; else what
      `realloc` promises in units. */
  ghost predicate ReallocBytesPromised(h: Heap, k: Heap, p: usize, layout: Layout, newSize: usize, env: Env, r: usize) {
    var align, size := InUnits(layout.align), InUnits(newSize);
    if p == 0 || align > 0xFFFF_FFFF || size > 0xFFFF_FFFF then r == 0 && k == h
    else
      && r % 32 == 0
      && ReallocPromised(h, k, p / 32, align, size, env, if r == 0 then None else Some(r / 32))
  }

  lemma ReallocBytesKept(h: Heap, k: Heap, p: usize, layout: Layout, newSize: usize, env: Env, r: usize)
    requires HeapOk(h) && NullOrLive(h, p) && ReallocBytes(h, k, p, layout, newSize, env, r)
    ensures ReallocBytesPromised(h, k, p, layout, newSize, env, r)
  {
    hide HeapOk, FromBytes, ReallocOutcome, ReallocPromised;
    InUnitsIs(layout.align);
    InUnitsIs(newSize);
    var align, size := FromBytes(layout.align), FromBytes(newSize);
    if p != 0 && align.Some? && size.Some? {
      var q :| r == ToBytes(q) && ReallocOutcome(h, k, p / 32, align.value, size.value, env, q);
      ReallocPromise(h, k, p / 32, align.value, size.value, env, q);
      ReallocPointer(h, k, p / 32, align.value, size.value, env, q);
    }
  }

  lemma ReallocPointer(h: Heap, k: Heap, p: Address, align: u32, size: u32, env: Env, r: Option<Address>)
    requires ReallocOutcome(h, k, p, align, size, env, r)
    ensures r.Some? ==> r.value > 0
  {
    hide HeapOk, Moved, Freed, Shrunk, Grown, CanGrow, Servable, Aligned, MarkGranted;
  }

  /** A non-empty `realloc` keeps its pointer whenever the block can stay where it is, and is
      never null when there is room to spare and nothing is refused. */
  lemma ReallocBytesSucceeds(h: Heap, k: Heap, p: usize, layout: Layout, newSize: usize, env: Env, r: usize)
    requires HeapOk(h) && NullOrLive(h, p) && p != 0 && ReallocBytes(h, k, p, layout, newSize, env, r)
    requires layout.align > 0 && IsPow2(layout.align) && newSize > 0
    requires InUnits(layout.align) <= 0xFFFF_FFFF && InUnits(newSize) <= 0xFFFF_FFFF
    ensures var o, n := p / 32 - h.l.base - 1, InUnits(newSize) + 1;
      n <= h.c[o].size || Growable(h, o, n, env.grants) ==> r == p
    ensures var need := InUnits(newSize) + InUnits(layout.align);
      (forall end: u32 | end <= |h.l.mem| :: env.regrants(end)) && need <= 0x200_0000 && HasAmple(h, need) ==> r != 0
  {
    hide HeapOk, ReallocBytes, Growable, HasAmple, IsPow2, Holds, Pow2;
    ReallocBytesKept(h, k, p, layout, newSize, env, r);
    AlignInUnits(layout.align);
    PowersOfTwo(InUnits(layout.align));
    MemorySize(h);
  }
}
