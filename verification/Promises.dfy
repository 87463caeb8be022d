/** What callers may count on: exactly when a call succeeds and where its block is, in terms of
    the chunks, of sizes, alignments and addresses, and of what the environment grants. */
module Promises {
  import opened Wrappers
  import opened Bits
  import opened Bins
  import opened Sizes
  import opened Partition
  import opened Layouts
  import opened FreeLists
  import opened Heaps
  import opened Operations
  import opened Effects
  import opened Payloads
  import opened Search
  import opened Allocation
  import opened Transitions
  import opened Reads
  import opened Runs

  // ---- alloc ----

  /** A power of two, and at most 1 GiB together with the size. */
  ghost predicate Sound(align: u32, size: u32) {
    (exists j: nat :: align == Pow2(j)) && size + align <= 0x200_0000
  }

  /** `a` is the least multiple of `align` from `x` on. */
  ghost predicate FirstAligned(x: nat, align: nat, a: nat) {
    && align > 0 && x <= a && a % align == 0
    && forall z: nat | x <= z && z % align == 0 :: a <= z
  }

  /** The free chunk at `o` holds the block at address `a`, for which memory up to `end` is
      needed: all of the block, and the header of a free chunk behind it. */
  ghost predicate Holds(h: Heap, o: nat, align: u32, size: u32, a: nat, end: nat) {
    && FreeAt(h.c, o) && size + align <= h.c[o].size
    && FirstAligned(h.l.base + o + 1, align, a)
    && a - h.l.base + size <= o + h.c[o].size
    && end == a - h.l.base + size + (if a - h.l.base + size < o + h.c[o].size then 1 else 0)
  }

  ghost predicate Provided(h: Heap, end: nat, grants: u32 -> bool) {
    end <= h.high || (end < 0x1_0000_0000 && grants(end))
  }

  /** The free chunk at `t` exceeds `need` units by one part in `2^m` at least. */
  ghost predicate Ample(h: Heap, t: nat, need: nat) {
    FreeAt(h.c, t) && h.c[t].size * Pow2(h.m) >= need * (Pow2(h.m) + 1)
  }

  ghost predicate HasAmple(h: Heap, need: nat) {
    exists t: nat :: Ample(h, t, need)
  }

  /** Memory that some chunk needed was refused. */
  ghost predicate Refused(h: Heap, align: u32, size: u32, grants: u32 -> bool) {
    exists o: nat, a: nat, end: nat :: Holds(h, o, align, size, a, end) && end <= |h.l.mem| && !Provided(h, end, grants)
  }

  lemma PowersOfTwo(align: u32)
    ensures IsPow2(align) ==> exists j: nat :: align == Pow2(j)
    ensures forall j: nat | align == Pow2(j) :: align > 0 && IsPow2(align)
  {
    hide IsPow2, Pow2;
    if IsPow2(align) {
      var j := IsPow2Log(align);
      assert align == Pow2(j);
    }
    forall j: nat | align == Pow2(j) ensures align > 0 && IsPow2(align) {
      Pow2IsPow2(j);
      assert Pow2(j) >= 1;
    }
  }

  lemma SoundRequest(align: u32, size: u32)
    ensures Sound(align, size) <==> Requestable(align, size)
  {
    hide IsPow2, Pow2;
    PowersOfTwo(align);
  }

  lemma HeaderIsFirst(h: Heap, o: nat, align: u32)
    requires HeapOk(h) && o in h.c && IsPow2(align) && align > 0
    ensures FirstAligned(h.l.base + o + 1, align, h.l.base + HeaderFor(h, o, align) + 1)
  {
    hide HeapOk, HeaderFor, IsPow2;
    HeaderForLeast(h, o, align);
    var a := h.l.base + HeaderFor(h, o, align) + 1;
    forall z: nat | h.l.base + o + 1 <= z && z % align == 0 ensures a <= z { assert Aligned(z, align); }
  }

  lemma ChunkHolds(h: Heap, o: nat, align: u32, size: u32)
    requires HeapOk(h) && FreeAt(h.c, o) && Requestable(align, size) && size + align <= h.c[o].size
    ensures IsPow2(align)
    ensures Holds(h, o, align, size, h.l.base + HeaderFor(h, o, align) + 1, AllocEnd(h, o, align, size))
    ensures AllocEnd(h, o, align, size) <= |h.l.mem|
  {
    hide HeapOk, HeaderFor, AlignOffset, IsPow2, PlaceFits, FirstAligned;
    AllocNumbers(h, o, align, size);
    HeaderIsFirst(h, o, align);
  }

  lemma HoldsOnce(h: Heap, o: nat, align: u32, size: u32, a: nat, end: nat, b: nat, fin: nat)
    requires Holds(h, o, align, size, a, end) && Holds(h, o, align, size, b, fin)
    ensures b == a && fin == end
  {}

  lemma ServedWhenSound(h: Heap, align: u32, size: u32, grants: u32 -> bool)
    requires HeapOk(h)
    ensures Servable(h, align, size, grants) ==> Sound(align, size)
    ensures Sound(align, size) && HasAmple(h, size + align) ==>
      Servable(h, align, size, grants) || Refused(h, align, size, grants)
  {
    hide HeapOk, Tried, Granted, AllocEnd, HeaderFor, IsPow2, Pow2, Holds;
    SoundRequest(align, size);
    if Sound(align, size) && HasAmple(h, size + align) && !Servable(h, align, size, grants) {
      var t: nat :| Ample(h, t, size + align);
      if forall o | Tried(h, size + align, o) :: FreeAt(h.c, o) && h.c[o].size < size + align {
        FragmentationBound(h, size + align, t);
        assert false;
      }
      var o :| Tried(h, size + align, o) && !(FreeAt(h.c, o) && h.c[o].size < size + align);
      TriedIsFree(h, size + align, o);
      ChunkHolds(h, o, align, size);
      NotProvided(h, AllocEnd(h, o, align, size), grants);
    }
  }

  lemma NotProvided(h: Heap, end: nat, grants: u32 -> bool)
    ensures Granted(h, end, grants) <==> Provided(h, end, grants)
  {}

  /** The block of `size` units at address `p` came from the free chunk at `o`, and no free chunk
      with room to spare is much smaller than that one. */
  ghost predicate TakenFrom(h: Heap, k: Heap, o: nat, align: u32, size: u32, p: nat, end: nat, grants: u32 -> bool) {
    && Holds(h, o, align, size, p, end) && Provided(h, end, grants)
    && k.high == (if h.high < end then end else h.high)
    && h.l.base < p && LiveAt(k.c, p - h.l.base - 1) && k.c[p - h.l.base - 1].size == size + 1
    && (|h.l.mem| <= 0x200_0000 ==> NearBest(h, o, size + align))
  }

  ghost predicate NearBest(h: Heap, o: nat, need: nat)
    requires o in h.c
  {
    forall t: nat | Ample(h, t, need) :: h.c[o].size * Pow2(h.m) < h.c[t].size * (Pow2(h.m) + 1)
  }

  /** All cells of a payload of `n` units at address `p` are zero. */
  ghost predicate ZeroAt(k: Heap, p: nat, n: nat) {
    forall x: nat | x < |k.l.mem| && p <= k.l.base + x < p + n :: k.l.mem[x] == ZERO_CELL
  }

  lemma TriedNearBest(h: Heap, need: u32, o: nat)
    requires HeapOk(h) && 0 < need <= MAX_ALLOCATION_SIZE && |h.l.mem| <= MAX_ALLOCATION_SIZE && Tried(h, need, o)
    ensures o in h.c && NearBest(h, o, need)
  {
    hide HeapOk, Tried, BinDown, BinUp, Pow2;
    TriedIsFree(h, need, o);
    HeaderFacts(h, o);
    forall t: nat | Ample(h, t, need)
      ensures h.c[o].size * Pow2(h.m) < h.c[t].size * (Pow2(h.m) + 1)
    {
      HeaderFacts(h, t);
      if BinOf(h, t) < BinUp(h.m, need) { MissedIsTight(h.m, need, h.c[t].size); }
      NearBestFit(h, need, o, t);
    }
  }

  /** What `alloc` on an initialised heap promises: when it succeeds, where its block is, what
      it asks for, and that a failure changes nothing. */
  ghost predicate AllocPromised(h: Heap, k: Heap, align: u32, size: u32, zeroed: bool, grants: u32 -> bool,
                                r: Option<Address>) {
    && (!Sound(align, size) ==> r.None?)
    && (Sound(align, size) && HasAmple(h, size + align) ==> r.Some? || Refused(h, align, size, grants))
    && match r
       case None => k == h
       case Some(p) =>
         && (exists o: nat, end: nat :: TakenFrom(h, k, o, align, size, p, end, grants))
         && (zeroed ==> ZeroAt(k, p, size))
  }

  lemma AllocPromise(h: Heap, k: Heap, align: u32, size: u32, zeroed: bool, grants: u32 -> bool, r: Option<Address>)
    requires HeapOk(h) && AllocOutcome(h, k, align, size, zeroed, grants, r)
    ensures AllocPromised(h, k, align, size, zeroed, grants, r)
  {
    hide HeapOk, Servable, Sound, Refused, HasAmple, TakenFrom, ZeroAt, AllocOutcome;
    AllocServes(h, k, align, size, zeroed, grants, r);
    ServedWhenSound(h, align, size, grants);
    if r.None? {
      AllocTookNone(h, k, align, size, zeroed, grants);
    } else {
      BlockTaken(h, k, align, size, zeroed, grants, r.value);
      if zeroed { BlockZero(h, k, align, size, grants, r.value); }
    }
  }

  lemma BlockTaken(h: Heap, k: Heap, align: u32, size: u32, zeroed: bool, grants: u32 -> bool, p: Address)
    requires HeapOk(h) && AllocOutcome(h, k, align, size, zeroed, grants, Some(p))
    ensures exists o: nat, end: nat :: TakenFrom(h, k, o, align, size, p, end, grants)
  {
    hide HeapOk, SearchedBin, BinOf, HeaderFor, AllocEnd, IsPow2, Holds, NearBest, Placed, AllZero, Aligned;
    var o :| Tried(h, size + align, o) && size + align <= h.c[o].size
      && Granted(h, AllocEnd(h, o, align, size), grants) && Served(h, k, o, align, size, zeroed, p);
    TriedIsFree(h, size + align, o);
    ChunkHolds(h, o, align, size);
    if |h.l.mem| <= MAX_ALLOCATION_SIZE { TriedNearBest(h, size + align, o); }
    PlacedFacts(h, k, p - h.l.base - 1, size + 1);
    assert TakenFrom(h, k, o, align, size, p, AllocEnd(h, o, align, size), grants);
  }

  lemma BlockZero(h: Heap, k: Heap, align: u32, size: u32, grants: u32 -> bool, p: Address)
    requires HeapOk(h) && AllocOutcome(h, k, align, size, true, grants, Some(p))
    ensures ZeroAt(k, p, size)
  {
    hide HeapOk, AllocOutcome, Placed, Aligned;
    AllocGave(h, k, align, size, true, grants, p);
    PlacedFacts(h, k, p - h.l.base - 1, size + 1);
    HeaderFacts(k, p - h.l.base - 1);
    var s := PayloadAt(k, p - h.l.base - 1);
    forall x: nat | x < |k.l.mem| && p <= k.l.base + x < p + size
      ensures k.l.mem[x] == ZERO_CELL
    {
      assert s[k.l.base + x - p] == ZERO_CELL;
    }
  }

  /** The one free chunk decides. */
  lemma SoleDecides(h: Heap, k: Heap, align: u32, size: u32, zeroed: bool, grants: u32 -> bool, r: Option<Address>,
                    t: nat)
    requires HeapOk(h) && AllocOutcome(h, k, align, size, zeroed, grants, r)
    requires FreeAt(h.c, t) && forall x | FreeAt(h.c, x) :: x == t
    ensures r.Some? <==>
      Sound(align, size) && exists a: nat, end: nat :: Holds(h, t, align, size, a, end) && Provided(h, end, grants)
    ensures r.Some? ==> exists end: nat :: Holds(h, t, align, size, r.value, end)
  {
    hide HeapOk, Sound, AllocOutcome, Tried, Granted, AllocEnd, HeaderFor, IsPow2, Holds, Provided, BinDown, NearBest;
    AllocServes(h, k, align, size, zeroed, grants, r);
    SoundRequest(align, size);
    if r.Some? {
      BlockTaken(h, k, align, size, zeroed, grants, r.value);
      var o: nat, end: nat :| TakenFrom(h, k, o, align, size, r.value, end, grants);
      assert o == t by { HoldsFree(h, o, align, size, r.value, end); }
    } else if Sound(align, size) {
      forall a: nat, end: nat | Holds(h, t, align, size, a, end)
        ensures !Provided(h, end, grants)
      {
        SoleRefused(h, align, size, grants, t, a, end);
      }
    }
  }

  lemma HoldsFree(h: Heap, o: nat, align: u32, size: u32, a: nat, end: nat)
    requires Holds(h, o, align, size, a, end)
    ensures FreeAt(h.c, o) && size + align <= h.c[o].size
  {}

  lemma SoleRefused(h: Heap, align: u32, size: u32, grants: u32 -> bool, t: nat, a: nat, end: nat)
    requires HeapOk(h) && Requestable(align, size) && !Servable(h, align, size, grants)
    requires FreeAt(h.c, t) && (forall x | FreeAt(h.c, x) :: x == t) && Holds(h, t, align, size, a, end)
    ensures !Provided(h, end, grants)
  {
    hide HeapOk, Granted, AllocEnd, HeaderFor, IsPow2, Holds, BinDown, SearchedBin, BinOf, Provided;
    HoldsFree(h, t, align, size, a, end);
    ChunkHolds(h, t, align, size);
    HoldsOnce(h, t, align, size, a, end, h.l.base + HeaderFor(h, t, align) + 1, AllocEnd(h, t, align, size));
    NotProvided(h, end, grants);
    FoundSole(h, size + align, t);
  }

  lemma FoundSole(h: Heap, need: u32, t: nat)
    requires HeapOk(h) && 0 < need <= MAX_ALLOCATION_SIZE
    requires FreeAt(h.c, t) && (forall x | FreeAt(h.c, x) :: x == t) && need <= h.c[t].size
    ensures Tried(h, need, t)
  {
    hide HeapOk, BinDown, BinUp, SearchedBin;
    HeaderFacts(h, t);
    BinDownMonotone(h.m, need, h.c[t].size);
    TriedExists(h, need);
    var o :| Tried(h, need, o);
    TriedIsFree(h, need, o);
  }

  /** The promise, for a call of a run. */
  lemma AllocKept(h: Heap, k: Heap, e: Event)
    requires StateOk(h) && Step(h, k, e) && e.op.Alloc? && h.l.base != 0
    ensures e.result.Pointer?
    ensures AllocPromised(h, k, e.op.align, e.op.size, e.op.zeroed, e.env.grants, e.result.p)
  {
    hide HeapOk, Untouched, AllocOutcome, AllocPromised, Step, ConfigOk;
    StepOutcome(h, k, e);
    AllocPromise(h, k, e.op.align, e.op.size, e.op.zeroed, e.env.grants, e.result.p);
  }

  /** With room to spare and nothing refused, every request up to 1 GiB succeeds. */
  lemma AllocSucceeds(h: Heap, k: Heap, e: Event, t: nat)
    requires StateOk(h) && Step(h, k, e) && e.op.Alloc? && h.l.base != 0
    requires (exists j: nat :: e.op.align == Pow2(j)) && e.op.size + e.op.align <= 0x200_0000
    requires FreeAt(h.c, t) && h.c[t].size * Pow2(h.m) >= (e.op.size + e.op.align) * (Pow2(h.m) + 1)
    requires forall end: u32 | end <= |h.l.mem| :: e.env.grants(end)
    ensures e.result.Pointer? && e.result.p.Some?
  {
    hide HeapOk, Untouched, Step, Pow2, Holds;
    AllocKept(h, k, e);
    assert Ample(h, t, e.op.size + e.op.align);
    MemorySize(h);
  }

  lemma MemorySize(h: Heap)
    requires StateOk(h)
    ensures |h.l.mem| < SPACE_LIMIT
  {
    hide Untouched, ConfigOk;
  }

  /** Whether the first `alloc` of a new allocator succeeds: the address space is there, its
      first unit is granted, the request fits it, and the memory for it is granted. */
  ghost predicate FirstServed(total: nat, align: u32, size: u32, env: Env) {
    && env.base != 0 && env.grants(1) && Sound(align, size) && size + align <= total
    && exists a: nat :: FirstAligned(env.base + 1, align, a) && FirstGranted(total, size, env, a)
  }

  ghost predicate FirstGranted(total: nat, size: u32, env: Env, a: nat) {
    && env.base < a && a - env.base + size <= total
    && var end := a - env.base + size + (if a - env.base + size < total then 1 else 0);
    end <= 1 || (end < 0x1_0000_0000 && env.grants(end))
  }

  lemma FirstAllocPromise(h: Heap, k: Heap, align: u32, size: u32, zeroed: bool, env: Env, r: Option<Address>)
    requires Untouched(h) && SizedOk(h) && h.l.base == 0 && env.base + |h.l.mem| < 0x800_0000_0000_0000
    requires AllocStep(h, k, align, size, zeroed, env, r)
    ensures r.Some? <==> FirstServed(|h.l.mem|, align, size, env)
    ensures r.Some? ==> FirstAligned(env.base + 1, align, r.value)
    ensures r.None? ==> Abs(k) == map[]
  {
    hide HeapOk, Untouched, AllocOutcome, Sound, ConfigOk, Opened, FirstAligned, Abs, Pow2, IsPow2, FirstServed, Holds;
    hide Provided;
    SoundRequest(align, size);
    AbsEmpty(k);
    ServedFirst(|h.l.mem|, align, size, env);
    if Initializes(align, env) {
      var j := Opened(h, env.base);
      OpenedFacts(h, env.base);
      AbsOpened(h, env.base);
      OpenedSole(h, env.base);
      SoleDecides(j, k, align, size, zeroed, env.grants, r, 0);
      FirstHolds(j, align, size, env);
      if r.Some? {
        var end: nat :| Holds(j, 0, align, size, r.value, end);
        HoldsFirst(j, align, size, r.value, end);
      } else {
        AllocTookNone(j, k, align, size, zeroed, env.grants);
      }
    }
  }

  lemma FirstAllocKept(h: Heap, k: Heap, e: Event)
    requires StateOk(h) && Step(h, k, e) && e.op.Alloc? && h.l.base == 0
    ensures e.result.Pointer?
    ensures e.result.p.Some? <==> FirstServed(|h.l.mem|, e.op.align, e.op.size, e.env)
    ensures e.result.p.Some? ==> FirstAligned(e.env.base + 1, e.op.align, e.result.p.value)
    ensures e.result.p.None? ==> Abs(k) == map[]
  {
    hide HeapOk, Untouched, AllocStep, Step, ConfigOk, FirstAligned, FirstServed, Abs;
    StepOutcome(h, k, e);
    FirstAllocPromise(h, k, e.op.align, e.op.size, e.op.zeroed, e.env, e.result.p);
  }

  lemma ServedFirst(total: nat, align: u32, size: u32, env: Env)
    ensures FirstServed(total, align, size, env) ==> env.base != 0 && env.grants(1) && Sound(align, size)
  {
    hide Sound;
  }

  lemma HoldsFirst(h: Heap, align: u32, size: u32, a: nat, end: nat)
    requires Holds(h, 0, align, size, a, end)
    ensures FirstAligned(h.l.base + 1, align, a)
  {}

  lemma OpenedSole(h: Heap, base: Address)
    requires 1 <= h.m <= 8 && 0 < |h.l.mem| < SPACE_LIMIT
    ensures var c := Opened(h, base).c;
      FreeAt(c, 0) && c[0].size == |h.l.mem| && forall x | FreeAt(c, x) :: x == 0
  {}

  lemma FirstHolds(j: Heap, align: u32, size: u32, env: Env)
    requires j.l.base == env.base && FreeAt(j.c, 0) && j.c[0].size == |j.l.mem| && j.high == 1
    requires env.base != 0 && env.grants(1)
    ensures FirstServed(|j.l.mem|, align, size, env) <==>
      (Sound(align, size)
       && exists a: nat, end: nat :: Holds(j, 0, align, size, a, end) && Provided(j, end, env.grants))
  {
    hide Sound;
    var total := |j.l.mem|;
    if Sound(align, size) {
      if a: nat, end: nat :| Holds(j, 0, align, size, a, end) && Provided(j, end, env.grants) {
        assert FirstAligned(env.base + 1, align, a) && FirstGranted(total, size, env, a);
      }
      if FirstServed(total, align, size, env) {
        var a: nat :| FirstAligned(env.base + 1, align, a) && FirstGranted(total, size, env, a);
        var end := a - env.base + size + (if a - env.base + size < total then 1 else 0);
        assert Holds(j, 0, align, size, a, end) && Provided(j, end, env.grants);
      }
    }
  }

  // ---- grow ----

  /** Behind block `o` lies a free chunk that makes room for `n` units, and the memory for them,
      with the header of what is left of that chunk, is provided. */
  ghost predicate Growable(h: Heap, o: nat, n: nat, grants: u32 -> bool)
    requires o in h.c
  {
    var next := o + h.c[o].size;
    && FreeAt(h.c, next)
    && n <= h.c[o].size + h.c[next].size
    && Provided(h, o + n + (if n < h.c[o].size + h.c[next].size then 1 else 0), grants)
  }

  lemma GrowsWhenGrowable(h: Heap, o: nat, n: nat, grants: u32 -> bool)
    requires HeapOk(h) && LiveAt(h.c, o)
    ensures CanGrow(h, o, n, grants) <==> Growable(h, o, n, grants)
    ensures Growable(h, o, n, grants) ==>
      GrowEnd(h.c, o, n) == o + n + (if n < h.c[o].size + h.c[o + h.c[o].size].size then 1 else 0)
  {
    hide HeapOk;
    HeaderFacts(h, o);
    if FreeAt(h.c, o + h.c[o].size) { HeaderFacts(h, o + h.c[o].size); }
  }

  /** What `grow_inplace` to `n` units of payload promises. */
  ghost predicate GrowPromised(h: Heap, k: Heap, o: nat, n: u32, grants: u32 -> bool, r: Option<u32>) {
    && LiveAt(h.c, o)
    && (r.None? ==> k == h)
    && if n + 1 <= h.c[o].size then r == Some(h.c[o].size - 1) && k == h
       else if !Growable(h, o, n + 1, grants) then r == None
       else
         var end := o + n + 1 + (if n + 1 < h.c[o].size + h.c[o + h.c[o].size].size then 1 else 0);
         && r == Some(n) && LiveAt(k.c, o) && k.c[o].size == n + 1
         && k.high == if h.high < end then end else h.high
  }

  lemma GrowPromise(h: Heap, k: Heap, o: nat, n: u32, grants: u32 -> bool, r: Option<u32>)
    requires HeapOk(h) && GrowOutcome(h, k, o, n + 1, grants, r)
    ensures GrowPromised(h, k, o, n, grants, r)
  {
    hide HeapOk, CanGrow, Growable, Contents, OthersKept, SparesOthers, WellFormed, Grown, GrowEnd;
    GrowsWhenGrowable(h, o, n + 1, grants);
    if n + 1 > h.c[o].size && Growable(h, o, n + 1, grants) {
      GrownSize(h, k, o, n + 1);
      GrowableNext(h, o, n + 1, grants);
    }
  }

  lemma GrowableNext(h: Heap, o: nat, n: nat, grants: u32 -> bool)
    requires o in h.c && Growable(h, o, n, grants)
    ensures o + h.c[o].size in h.c
  {}

  lemma GrownSize(h: Heap, k: Heap, o: nat, n: nat)
    requires HeapOk(h) && LiveAt(h.c, o) && Grown(h, k, o, n)
    ensures LiveAt(k.c, o) && k.c[o].size == n
  {
    hide HeapOk, OthersKept, SparesOthers, PayloadAt, Contents;
    PayloadSize(k, o);
  }

  lemma GrowKept(h: Heap, k: Heap, e: Event)
    requires StateOk(h) && Step(h, k, e) && e.op.Grow?
    ensures e.result.Size? && h.l.base < e.op.p
    ensures GrowPromised(h, k, e.op.p - h.l.base - 1, e.op.size, e.env.grants, e.result.n)
  {
    hide HeapOk, Untouched, Step, GrowOutcome, GrowPromised, ConfigOk;
    StepOutcome(h, k, e);
    GrowPromise(h, k, e.op.p - h.l.base - 1, e.op.size, e.env.grants, e.result.n);
  }

  // ---- shrink and free ----

  /** Neither asks for memory. */
  lemma NothingAsked(h: Heap, k: Heap, e: Event)
    requires StateOk(h) && Step(h, k, e) && (e.op.Free? || e.op.Shrink? || e.op.UserStore?)
    ensures k.high == h.high
  {
    hide HeapOk, Untouched, ReadsOk, ReleaseLists, TrimLists, IsReleased, IsTrimmed, WithCell, ConfigOk;
  }

  // ---- realloc ----

  /** What `realloc` to `n` units of payload promises: never a move where the block can stay, and
      a move that fails only as `alloc` does. */
  ghost predicate ReallocPromised(h: Heap, k: Heap, p: Address, align: u32, n: u32, env: Env, r: Option<Address>) {
    && h.l.base < p && LiveAt(h.c, p - h.l.base - 1)
    && var o := p - h.l.base - 1;
    if n + 1 == h.c[o].size then r == Some(p) && k == h
    else if n == 0 then r == None && Live(k.c) == Live(h.c) - {o}
    else if n + 1 < h.c[o].size || Growable(h, o, n + 1, env.grants) then
      r == Some(p) && Live(k.c) == Live(h.c)[o := n + 1]
    else
      && r != Some(p) && (r.None? ==> k == h)
      && (!Sound(align, n) ==> r.None?)
      && (Sound(align, n) && HasAmple(h, n + align) ==> r.Some? || Refused(h, align, n, env.regrants))
  }

  lemma ReallocPromise(h: Heap, k: Heap, p: Address, align: u32, n: u32, env: Env, r: Option<Address>)
    requires HeapOk(h) && ReallocOutcome(h, k, p, align, n, env, r)
    ensures ReallocPromised(h, k, p, align, n, env, r)
  {
    hide HeapOk, CanGrow, Growable, Contents, OthersKept, SparesOthers, Servable, Sound, HasAmple, Refused, PayloadAt;
    hide Aligned, Live, MarkGranted;
    var o := p - h.l.base - 1;
    HeaderFacts(h, o);
    GrowsWhenGrowable(h, o, n + 1, env.grants);
    ServedWhenSound(h, align, n, env.regrants);
  }

  lemma ReallocKept(h: Heap, k: Heap, e: Event)
    requires StateOk(h) && Step(h, k, e) && e.op.Realloc?
    ensures e.result.Pointer? && ReallocPromised(h, k, e.op.p, e.op.align, e.op.size, e.env, e.result.p)
  {
    hide HeapOk, Untouched, Step, ReallocOutcome, ReallocPromised, ConfigOk;
    StepOutcome(h, k, e);
    ReallocPromise(h, k, e.op.p, e.op.align, e.op.size, e.env, e.result.p);
  }
}
