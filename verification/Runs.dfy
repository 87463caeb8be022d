/** Whole runs: any sequence of operations and user stores, under any answers of the
    environment. Every run refines a plain map from blocks to contents. */
module Runs {
  import opened Wrappers
  import opened Bits
  import opened Bins
  import opened Sizes
  import opened Partition
  import opened Layouts
  import opened FreeLists
  import opened Heaps
  import opened Operations
  import opened Effects
  import opened Payloads
  import opened Search
  import opened Allocation
  import opened Transitions
  import opened Executions
  import opened Reads
  import opened Canonical

  datatype Op =
    | Alloc(align: u32, size: u32, zeroed: bool)
    | Free(p: Address)
    | Shrink(p: Address, size: u32)
    | Grow(p: Address, size: u32)
    | Realloc(p: Address, align: u32, size: u32)
    | UserStore(p: Address, i: u32, cell: Cell)

  datatype Result = Pointer(p: Option<Address>) | Size(n: Option<u32>) | Nothing

  /** One step of a run: what was called, what the environment answered, what came back, and
      what was read on the way. */
  datatype Event = Event(op: Op, env: Env, result: Result, seen: seq<Read>)

  /** Before initialisation or after. */
  ghost predicate StateOk(h: Heap) {
    if h.l.base == 0 then Untouched(h) && SizedOk(h) else HeapOk(h)
  }

  ghost predicate LivePointer(h: Heap, p: Address) {
    h.l.base != 0 && h.l.base < p && LiveAt(h.c, p - h.l.base - 1)
  }

  /** The safety contracts of the operations. */
  ghost predicate Legal(h: Heap, op: Op) {
    match op
    case Alloc(_, _, _) => true
    case Free(p) => LivePointer(h, p)
    case Shrink(p, n) => LivePointer(h, p) && n < 0xFFFF_FFFF
    case Grow(p, _) => LivePointer(h, p)
    case Realloc(p, _, _) => LivePointer(h, p)
    case UserStore(p, i, _) => LivePointer(h, p) && i + 1 < h.c[p - h.l.base - 1].size
  }

  /** Header offset of the block that an operation is about. */
  ghost function TargetOf(op: Op, base: Address): Option<nat> {
    if op.Alloc? || op.p <= base then None else Some(op.p - base - 1)
  }

  /** What each operation does: its stores, what becomes of the tiling, and the result, by the
      choices it makes on what it finds. */
  ghost predicate Executes(h: Heap, k: Heap, e: Event) {
    && SizedOk(h) && Legal(h, e.op)
    && e.env.base + |h.l.mem| < 0x800_0000_0000_0000
    && match e.op
       case Alloc(align, size, zeroed) => e.result.Pointer? && AllocCall(h, k, align, size, zeroed, e.env, e.result.p)
       case Free(p) => FreeRan(h, k, p - h.l.base - 1)
       case Shrink(p, n) => ShrinkRan(h, k, p - h.l.base - 1, n)
       case Grow(p, n) => e.result.Size? && GrowRan(h, k, p - h.l.base - 1, n + 1, e.env.grants, e.result.n)
       case Realloc(p, align, n) => e.result.Pointer? && ReallocRan(h, k, p, align, n, e.env, e.result.p)
       case UserStore(p, i, cell) => StoreRan(h, k, p - h.l.base - 1, i, cell)
  }

  /** An execution, with what it reads. */
  ghost predicate Step(h: Heap, k: Heap, e: Event) {
    && Executes(h, k, e)
    && ReadsOk(h, TargetOf(e.op, h.l.base), k.l.mem, k.l.log, e.seen) && ReadsBelow(e.seen, k.high)
  }

  ghost predicate Run(hs: seq<Heap>, es: seq<Event>) {
    && |hs| == |es| + 1
    && forall i: nat {:trigger StepAt(hs, es, i)} | i < |es| :: StepAt(hs, es, i)
  }

  ghost predicate StepAt(hs: seq<Heap>, es: seq<Event>, i: nat)
    requires i < |es| && |hs| == |es| + 1
  {
    Step(hs[i], hs[i + 1], es[i])
  }

  // ---- what a step achieves ----

  ghost predicate FreeStep(h: Heap, k: Heap, p: Address) {
    LivePointer(h, p) && Freed(h, k, p - h.l.base - 1)
  }

  ghost predicate ShrinkStep(h: Heap, k: Heap, p: Address, n: u32) {
    LivePointer(h, p) && ShrinkOutcome(h, k, p - h.l.base - 1, n)
  }

  ghost predicate GrowStep(h: Heap, k: Heap, p: Address, n: u32, env: Env, r: Option<u32>) {
    LivePointer(h, p) && GrowOutcome(h, k, p - h.l.base - 1, n + 1, env.grants, r)
  }

  ghost predicate StoreStep(h: Heap, k: Heap, p: Address, i: u32, cell: Cell) {
    LivePointer(h, p) && Written(h, k, p - h.l.base - 1, i, cell)
  }

  /** The effect of an operation on the live blocks, as its caller relies on it. */
  ghost predicate Outcome(h: Heap, k: Heap, e: Event) {
    match e.op
    case Alloc(align, size, zeroed) => e.result.Pointer? && AllocStep(h, k, align, size, zeroed, e.env, e.result.p)
    case Free(p) => FreeStep(h, k, p)
    case Shrink(p, n) => ShrinkStep(h, k, p, n)
    case Grow(p, n) => e.result.Size? && GrowStep(h, k, p, n, e.env, e.result.n)
    case Realloc(p, align, n) => e.result.Pointer? && ReallocOutcome(h, k, p, align, n, e.env, e.result.p)
    case UserStore(p, i, cell) => StoreStep(h, k, p, i, cell)
  }

  /** Every operation has its effect, whatever it finds. */
  lemma ExecutionOutcome(h: Heap, k: Heap, e: Event)
    requires StateOk(h) && Executes(h, k, e)
    ensures Outcome(h, k, e) && SizedOk(h) && e.env.base + |h.l.mem| < 0x800_0000_0000_0000
    ensures !e.op.Alloc? ==> HeapOk(h) && LivePointer(h, e.op.p)
  {
    hide HeapOk, Untouched, ReadsOk, AllocCall, AllocStep, FreeRan, Freed, ShrinkRan, ShrinkOutcome, GrowRan;
    hide GrowOutcome, ReallocRan, ReallocOutcome, StoreRan, Written, ConfigOk;
    match e.op {
      case Alloc(align, size, zeroed) => AllocCallStep(h, k, align, size, zeroed, e.env, e.result.p);
      case Free(p) => FreeRanFreed(h, k, p - h.l.base - 1);
      case Shrink(p, n) => ShrinkRanOutcome(h, k, p - h.l.base - 1, n);
      case Grow(p, n) =>
        HeaderFacts(h, p - h.l.base - 1);
        GrowRanOutcome(h, k, p - h.l.base - 1, n + 1, e.env.grants, e.result.n);
      case Realloc(p, align, n) => ReallocRanOutcome(h, k, p, align, n, e.env, e.result.p);
      case UserStore(p, i, cell) => StoreRanWritten(h, k, p - h.l.base - 1, i, cell);
    }
  }

  lemma StepOutcome(h: Heap, k: Heap, e: Event)
    requires StateOk(h) && Step(h, k, e)
    ensures Outcome(h, k, e) && SizedOk(h) && e.env.base + |h.l.mem| < 0x800_0000_0000_0000
    ensures !e.op.Alloc? ==> HeapOk(h) && LivePointer(h, e.op.p)
  {
    hide HeapOk, Untouched, Executes, Outcome, ReadsOk, ConfigOk;
    ExecutionOutcome(h, k, e);
  }

  // ---- one step ----

  lemma OpenedFacts(h: Heap, base: Address)
    requires Untouched(h) && SizedOk(h) && base > 0 && base + |h.l.mem| < 0x800_0000_0000_0000
    ensures var k := Opened(h, base);
      && HeapOk(k) && k.l.base == base && |k.l.mem| == |h.l.mem| && k.m == h.m && k.high == 1
      && Live(k.c) == map[] && Contents(k) == map[]
  {
    OpenedOk(h, base);
  }

  /** What a step keeps: the heap in order, the space, and a high-water mark that never falls. */
  ghost predicate Onward(h: Heap, k: Heap) {
    && StateOk(k) && |k.l.mem| == |h.l.mem| && k.m == h.m && h.high <= k.high <= |k.l.mem|
    && (h.l.base != 0 ==> k.l.base == h.l.base)
  }

  lemma StepOnward(h: Heap, k: Heap, e: Event)
    requires StateOk(h) && Step(h, k, e)
    ensures Onward(h, k)
  {
    hide Step, OthersKept, SparesOthers, Contents, Tried, AllocEnd, HeaderFor, WellFormed, Opened;
    StepOutcome(h, k, e);
    match e.op {
      case Alloc(align, size, zeroed) =>
        AllocOnward(h, k, align, size, zeroed, e.env, e.result.p);
      case Grow(p, n) =>
        HeapHigh(k);
      case Realloc(p, align, n) =>
        HeapHigh(k);
      case _ =>
        HeapHigh(k);
    }
  }

  lemma HeapHigh(h: Heap)
    ensures HeapOk(h) ==> h.high <= |h.l.mem| && h.l.base > 0
  {}

  lemma AllocOnward(h: Heap, k: Heap, align: u32, size: u32, zeroed: bool, env: Env, r: Option<Address>)
    requires StateOk(h) && SizedOk(h) && AllocStep(h, k, align, size, zeroed, env, r)
    requires env.base + |h.l.mem| < 0x800_0000_0000_0000
    ensures Onward(h, k)
  {
    hide HeapOk, OthersKept, SparesOthers, Contents, Tried, AllocEnd, HeaderFor, WellFormed, Opened, Untouched;
    HeapHigh(k);
    if h.l.base == 0 && Initializes(align, env) { OpenedFacts(h, env.base); UntouchedFacts(h); }
  }

  ghost predicate Grants(env: Env, end: nat) {
    end < 0x1_0000_0000 && (env.grants(end) || env.regrants(end))
  }

  /** The extent an operation leaves behind is the old one or one it was granted. */
  lemma StepGranted(h: Heap, k: Heap, e: Event)
    requires StateOk(h) && Step(h, k, e)
    ensures k.high == h.high || (0 < k.high && Grants(e.env, k.high))
  {
    hide Untouched, HeapOk, ReadsOk, AllocStep, ReallocOutcome, ConfigOk, AllocCall, ReallocRan, ReleaseLists;
    hide TrimLists, ExtendLists, IsReleased, IsTrimmed, IsExtended, ExtendFits, WithCell, Outcome;
    StepOutcome(h, k, e);
    match e.op {
      case Alloc(align, size, zeroed) =>
        AllocCallStep(h, k, align, size, zeroed, e.env, e.result.p);
        AllocGranted(h, k, align, size, zeroed, e.env, e.result.p);
      case Realloc(p, align, n) =>
        ReallocRanOutcome(h, k, p, align, n, e.env, e.result.p);
        ReallocGranted(h, k, p, align, n, e.env, e.result.p);
      case Grow(p, n) => GrowMark(h, k, p - h.l.base - 1, n + 1, e.env.grants, e.result.n);
      case _ =>
    }
  }

  lemma GrowMark(h: Heap, k: Heap, o: nat, n: nat, grants: u32 -> bool, r: Option<u32>)
    requires HeapOk(h) && GrowRan(h, k, o, n, grants, r)
    ensures MarkGranted(h, k, grants)
  {
    hide HeapOk, ExtendLists, IsExtended, ExtendFits;
  }

  lemma ReallocGranted(h: Heap, k: Heap, p: Address, align: u32, size: u32, env: Env, r: Option<Address>)
    requires ReallocOutcome(h, k, p, align, size, env, r)
    ensures MarkGranted(h, k, env.grants) || MarkGranted(h, k, env.regrants)
  {
    hide HeapOk, Moved, Contents, OthersKept, SparesOthers, PayloadAt, Servable, Aligned;
  }

  lemma AllocGranted(h: Heap, k: Heap, align: u32, size: u32, zeroed: bool, env: Env, r: Option<Address>)
    requires StateOk(h) && AllocStep(h, k, align, size, zeroed, env, r)
    requires env.base + |h.l.mem| < 0x800_0000_0000_0000
    ensures k.high == h.high || (0 < k.high < 0x1_0000_0000 && env.grants(k.high))
  {
    hide HeapOk, Opened, Untouched, AllocOutcome, ConfigOk;
    if h.l.base != 0 {
      AllocMark(h, k, align, size, zeroed, env.grants, r);
    } else if Initializes(align, env) {
      OpenedFacts(h, env.base);
      AllocMark(Opened(h, env.base), k, align, size, zeroed, env.grants, r);
    }
  }

  // ---- refinement of a map from blocks to contents ----

  type Blocks = map<nat, seq<Cell>>

  ghost function Abs(h: Heap): Blocks {
    if h.l.base != 0 && HeapOk(h) then Contents(h) else map[]
  }

  /** The contents of the block at `p`, if there is one. */
  ghost function BlockAt(h: Heap, p: Address): seq<Cell> {
    if h.l.base < p && p - h.l.base - 1 in Abs(h) then Abs(h)[p - h.l.base - 1] else []
  }

  /** The meaning of an event on the map, given the base address of the space. */
  ghost predicate AbsStep(a: Blocks, b: Blocks, base: Address, e: Event) {
    match e.op
    case Alloc(align, size, zeroed) =>
      e.result.Pointer? && AbsAlloc(a, b, base, align, size, zeroed, e.result.p)
    case Free(p) => AbsFree(a, b, base, p)
    case Shrink(p, n) => AbsShrink(a, b, base, p, n)
    case Grow(p, n) => e.result.Size? && AbsGrow(a, b, base, p, n, e.result.n)
    case Realloc(p, align, n) =>
      e.result.Pointer? && AbsRealloc(a, b, base, p, align, n, e.result.p)
    case UserStore(p, i, cell) => AbsStore(a, b, base, p, i, cell)
  }

  ghost predicate AbsFree(a: Blocks, b: Blocks, base: Address, p: Address) {
    base < p && p - base - 1 in a && b == a - {p - base - 1}
  }

  ghost predicate AbsShrink(a: Blocks, b: Blocks, base: Address, p: Address, n: nat) {
    && base < p && p - base - 1 in a
    && var o := p - base - 1;
    b == if n == 0 then a - {o} else if n < |a[o]| then a[o := a[o][..n]] else a
  }

  ghost predicate AbsGrow(a: Blocks, b: Blocks, base: Address, p: Address, n: nat, r: Option<u32>) {
    && base < p && p - base - 1 in a
    && var o := p - base - 1;
    if n <= |a[o]| then b == a && r == Some(|a[o]|)
    else if r.None? then b == a
    else r == Some(n) && Resized(a, b, o, n)
  }

  ghost predicate AbsStore(a: Blocks, b: Blocks, base: Address, p: Address, i: nat, cell: Cell) {
    && base < p && p - base - 1 in a
    && var o := p - base - 1;
    i < |a[o]| && b == a[o := a[o][i := cell]]
  }

  ghost predicate AbsAlloc(a: Blocks, b: Blocks, base: Address, align: u32, size: nat, zeroed: bool,
                           r: Option<Address>) {
    match r
    case None => b == a
    case Some(p) =>
      && base < p && align > 0 && Aligned(p, align)
      && NewBlock(a, b, p - base - 1, size) && (zeroed ==> AllZero(b[p - base - 1]))
  }

  ghost predicate AbsRealloc(a: Blocks, b: Blocks, base: Address, p: Address, align: u32, n: nat, r: Option<Address>) {
    && base < p && p - base - 1 in a
    && var o := p - base - 1;
    if n == |a[o]| then b == a && r == Some(p)
    else if n == 0 then b == a - {o} && r == None
    else
      match r
      case None => b == a && n > |a[o]|
      case Some(q) =>
        && base < q
        && if q == p then Resized(a, b, o, n)
           else align > 0 && Aligned(q, align) && Relocated(a, b, o, q - base - 1, n)
  }

  ghost predicate NewBlock(a: Blocks, b: Blocks, o: nat, size: nat) {
    o !in a && o in b && |b[o]| == size && b == a[o := b[o]]
  }

  ghost predicate CommonPrefix(s: seq<Cell>, t: seq<Cell>) {
    forall i | 0 <= i < |s| && i < |t| :: s[i] == t[i]
  }

  ghost predicate Resized(a: Blocks, b: Blocks, o: nat, size: nat) {
    o in a && o in b && |b[o]| == size && b == a[o := b[o]] && CommonPrefix(a[o], b[o])
  }

  ghost predicate Relocated(a: Blocks, b: Blocks, o: nat, q: nat, size: nat) {
    && o in a && q !in a && q in b && |b[q]| == size
    && b == (a - {o})[q := b[q]] && CommonPrefix(a[o], b[q])
  }

  lemma AbsLive(h: Heap, o: nat)
    requires HeapOk(h) && h.l.base != 0
    ensures o in Abs(h) <==> LiveAt(h.c, o)
    ensures o in Abs(h) ==> Abs(h)[o] == PayloadAt(h, o) && |Abs(h)[o]| == h.c[o].size - 1
  {
    hide HeapOk;
    if o in h.c { PayloadSize(h, o); }
  }

  lemma PlacedAbs(h: Heap, k: Heap, o: nat, n: nat)
    requires Placed(h, k, o, n) && h.l.base != 0
    ensures NewBlock(Abs(h), Abs(k), o, n - 1) && Abs(k)[o] == PayloadAt(k, o)
  {
    hide HeapOk, OthersKept, SparesOthers, PayloadAt;
    AbsLive(h, o);
    AbsLive(k, o);
  }

  lemma MovedAbs(h: Heap, k: Heap, o: nat, q: nat, n: nat)
    requires Moved(h, k, o, q, n) && h.l.base != 0
    ensures Relocated(Abs(h), Abs(k), o, q, n - 1)
  {
    hide HeapOk, SparesOthers, PayloadAt;
    AbsLive(h, o);
    AbsLive(h, q);
    AbsLive(k, q);
  }

  lemma AllocRefines(h: Heap, k: Heap, align: u32, size: u32, zeroed: bool, env: Env, r: Option<Address>)
    requires StateOk(h) && SizedOk(h) && AllocStep(h, k, align, size, zeroed, env, r)
    requires env.base + |h.l.mem| < 0x800_0000_0000_0000
    ensures AbsAlloc(Abs(h), Abs(k), k.l.base, align, size, zeroed, r)
  {
    hide HeapOk, Placed, Opened, Untouched, Abs, AllocOutcome, NewBlock, AllZero, PayloadAt, Aligned, ConfigOk, IsPow2;
    AbsEmpty(h);
    AbsEmpty(k);
    if h.l.base != 0 || Initializes(align, env) {
      var j := if h.l.base == 0 then Opened(h, env.base) else h;
      if h.l.base == 0 {
        OpenedFacts(h, env.base);
        AbsOpened(h, env.base);
      }
      if r == None {
        AllocTookNone(j, k, align, size, zeroed, env.grants);
      } else {
        AllocGave(j, k, align, size, zeroed, env.grants, r.value);
        PlacedFacts(j, k, r.value - j.l.base - 1, size + 1);
        PlacedAbs(j, k, r.value - j.l.base - 1, size + 1);
      }
    }
  }

  lemma AbsEmpty(h: Heap)
    ensures h.l.base == 0 ==> Abs(h) == map[]
  {}

  lemma AbsOpened(h: Heap, base: Address)
    requires Untouched(h) && SizedOk(h) && base > 0 && base + |h.l.mem| < 0x800_0000_0000_0000
    ensures Abs(Opened(h, base)) == map[]
  {
    hide HeapOk, Opened, Contents;
    OpenedFacts(h, base);
  }

  lemma FreeRefines(h: Heap, k: Heap, p: Address)
    requires HeapOk(h) && FreeStep(h, k, p)
    ensures AbsFree(Abs(h), Abs(k), k.l.base, p)
  {
    hide HeapOk, OthersKept, SparesOthers;
    HeapHigh(h);
    AbsLive(h, p - h.l.base - 1);
  }

  lemma ShrinkRefines(h: Heap, k: Heap, p: Address, n: u32)
    requires HeapOk(h) && ShrinkStep(h, k, p, n)
    ensures AbsShrink(Abs(h), Abs(k), k.l.base, p, n)
  {
    hide HeapOk, OthersKept, SparesOthers, PayloadAt, Contents;
    HeapHigh(h);
    AbsLive(h, p - h.l.base - 1);
  }

  lemma GrowRefines(h: Heap, k: Heap, p: Address, n: u32, env: Env, r: Option<u32>)
    requires HeapOk(h) && GrowStep(h, k, p, n, env, r)
    ensures AbsGrow(Abs(h), Abs(k), k.l.base, p, n, r)
  {
    hide HeapOk, OthersKept, SparesOthers, PayloadAt, Contents, CanGrow;
    HeapHigh(h);
    HeapHigh(k);
    AbsLive(h, p - h.l.base - 1);
    AbsLive(k, p - h.l.base - 1);
  }

  lemma StoreRefines(h: Heap, k: Heap, p: Address, i: u32, cell: Cell)
    requires HeapOk(h) && StoreStep(h, k, p, i, cell)
    ensures AbsStore(Abs(h), Abs(k), k.l.base, p, i, cell)
  {
    hide HeapOk, OthersKept, SparesOthers, PayloadAt, Contents;
    HeapHigh(h);
    AbsLive(h, p - h.l.base - 1);
  }

  lemma ReallocRefines(h: Heap, k: Heap, p: Address, align: u32, size: u32, env: Env, r: Option<Address>)
    requires HeapOk(h) && ReallocOutcome(h, k, p, align, size, env, r)
    ensures AbsRealloc(Abs(h), Abs(k), k.l.base, p, align, size, r)
  {
    hide HeapOk, AbsRealloc, CanGrow, MoveOutcome, Freed, Shrunk, Grown;
    var o := p - h.l.base - 1;
    HeaderFacts(h, o);
    if h.c[o].size < size + 1 && !CanGrow(h, o, size + 1, env.grants) {
      MoveRefines(h, k, p, o, align, size, env.regrants, r);
    } else {
      InPlaceRefines(h, k, p, o, align, size, env, r);
    }
  }

  lemma InPlaceRefines(h: Heap, k: Heap, p: Address, o: nat, align: u32, size: u32, env: Env, r: Option<Address>)
    requires HeapOk(h) && p == h.l.base + 1 + o && LiveAt(h.c, o) && ReallocOutcome(h, k, p, align, size, env, r)
    requires size + 1 <= h.c[o].size || CanGrow(h, o, size + 1, env.grants)
    ensures AbsRealloc(Abs(h), Abs(k), k.l.base, p, align, size, r)
  {
    hide HeapOk, OthersKept, SparesOthers, PayloadAt, Contents, CanGrow, WellFormed, MoveOutcome;
    HeapHigh(h);
    AbsLive(h, o);
    AbsLive(k, o);
  }

  lemma MoveRefines(h: Heap, k: Heap, p: Address, o: nat, align: u32, size: u32, grants: u32 -> bool,
                    r: Option<Address>)
    requires HeapOk(h) && p == h.l.base + 1 + o && LiveAt(h.c, o) && h.c[o].size < size + 1
    requires MoveOutcome(h, k, o, align, size, grants, r)
    ensures AbsRealloc(Abs(h), Abs(k), k.l.base, p, align, size, r)
  {
    hide HeapOk, PayloadAt, Contents, WellFormed, Moved, Relocated, Servable, Resized, Aligned;
    HeapHigh(h);
    AbsLive(h, o);
    if r.Some? {
      MovedFacts(h, k, o, r.value - h.l.base - 1, size + 1);
      MovedAbs(h, k, o, r.value - h.l.base - 1, size + 1);
    }
  }

  lemma MovedFacts(h: Heap, k: Heap, o: nat, q: nat, n: nat)
    requires Moved(h, k, o, q, n)
    ensures k.l.base == h.l.base && q != o
  {}

  /** Every step refines the step on the map. */
  lemma StepRefines(h: Heap, k: Heap, e: Event)
    requires StateOk(h) && Step(h, k, e)
    ensures AbsStep(Abs(h), Abs(k), k.l.base, e)
  {
    hide HeapOk, Untouched, AllocStep, FreeStep, ShrinkStep, GrowStep, ReallocOutcome, StoreStep;
    hide AbsAlloc, AbsFree, AbsShrink, AbsGrow, AbsRealloc, AbsStore, Abs, ConfigOk, Step;
    StepOutcome(h, k, e);
    match e.op {
      case Alloc(align, size, zeroed) => AllocRefines(h, k, align, size, zeroed, e.env, e.result.p);
      case Free(p) => FreeRefines(h, k, p);
      case Shrink(p, n) => ShrinkRefines(h, k, p, n);
      case Grow(p, n) => GrowRefines(h, k, p, n, e.env, e.result.n);
      case Realloc(p, align, size) => ReallocRefines(h, k, p, align, size, e.env, e.result.p);
      case UserStore(p, i, cell) => StoreRefines(h, k, p, i, cell);
    }
  }

  // ---- whole runs ----

  lemma OnwardTrans(h: Heap, j: Heap, k: Heap)
    requires Onward(h, j) && Onward(j, k)
    ensures Onward(h, k)
  {
    hide HeapOk, Untouched;
    HeapHigh(j);
  }

  lemma OnwardRefl(h: Heap)
    requires StateOk(h)
    ensures Onward(h, h)
  {}

  /** In every state that any run reaches the heap is in order, in the same space, and the
      high-water mark never fell. */
  lemma {:induction false} RunOnward(hs: seq<Heap>, es: seq<Event>, i: nat)
    requires Run(hs, es) && StateOk(hs[0]) && i < |hs|
    ensures Onward(hs[0], hs[i])
  {
    hide Step, Onward, StateOk;
    if i == 0 {
      OnwardRefl(hs[0]);
    } else {
      RunOnward(hs, es, i - 1);
      OnwardState(hs[0], hs[i - 1]);
      assert StepAt(hs, es, i - 1);
      StepOnward(hs[i - 1], hs[i], es[i - 1]);
      OnwardTrans(hs[0], hs[i - 1], hs[i]);
    }
  }

  /** In every state that any run reaches, the extent in use is one that the environment
      granted during the run, or the one the run began with. */
  lemma {:induction false} RunGranted(hs: seq<Heap>, es: seq<Event>, i: nat)
    requires Run(hs, es) && StateOk(hs[0]) && i < |hs|
    ensures hs[i].high == hs[0].high || exists j: nat :: j < i && GrantedAt(es, j, hs[i].high)
  {
    hide Step, Onward, StateOk;
    if i > 0 {
      RunGranted(hs, es, i - 1);
      RunOnward(hs, es, i - 1);
      OnwardState(hs[0], hs[i - 1]);
      assert StepAt(hs, es, i - 1);
      StepGranted(hs[i - 1], hs[i], es[i - 1]);
      if hs[i].high != hs[i - 1].high { assert GrantedAt(es, i - 1, hs[i].high); }
    }
  }

  ghost predicate GrantedAt(es: seq<Event>, j: nat, end: nat) {
    j < |es| && Grants(es[j].env, end)
  }

  lemma OnwardState(h: Heap, k: Heap)
    requires Onward(h, k)
    ensures StateOk(k)
  {}

  /** The maps behind the states of a run take the steps of the map. */
  lemma RunRefines(hs: seq<Heap>, es: seq<Event>, i: nat)
    requires Run(hs, es) && StateOk(hs[0]) && i < |es|
    ensures AbsStep(Abs(hs[i]), Abs(hs[i + 1]), hs[i + 1].l.base, es[i])
  {
    hide Step, Onward, StateOk, AbsStep, Abs;
    RunOnward(hs, es, i);
    OnwardState(hs[0], hs[i]);
    assert StepAt(hs, es, i);
    StepRefines(hs[i], hs[i + 1], es[i]);
  }

  /** The event is a call on block `o`, or a store to it. */
  ghost predicate Targets(e: Event, base: Address, o: nat) {
    !e.op.Alloc? && e.op.p == base + 1 + o
  }

  /** A block that an event does not target keeps its contents. */
  lemma UntargetedKept(a: Blocks, b: Blocks, base: Address, e: Event, o: nat)
    requires AbsStep(a, b, base, e) && o in a && !Targets(e, base, o)
    ensures o in b && b[o] == a[o]
  {}

  /** A block that nobody calls on or stores to stays live with its contents. */
  lemma {:induction false} UntargetedBlockKept(hs: seq<Heap>, es: seq<Event>, o: nat, i: nat)
    requires Run(hs, es) && StateOk(hs[0]) && i < |hs|
    requires hs[0].l.base != 0 && o in Abs(hs[0])
    requires forall e <- es :: !Targets(e, hs[0].l.base, o)
    ensures o in Abs(hs[i]) && Abs(hs[i])[o] == Abs(hs[0])[o]
  {
    hide Run, Abs, StateOk, AbsStep;
    if i > 0 {
      UntargetedBlockKept(hs, es, o, i - 1);
      RunLength(hs, es);
      RunRefines(hs, es, i - 1);
      RunOnward(hs, es, i);
      assert es[i - 1] in es;
      UntargetedKept(Abs(hs[i - 1]), Abs(hs[i]), hs[i].l.base, es[i - 1], o);
    }
  }

  lemma RunLength(hs: seq<Heap>, es: seq<Event>)
    requires Run(hs, es)
    ensures |hs| == |es| + 1
  {}

  /** Two runs over spaces of one size that end with the same live blocks end with the same
      layout and the same mask, whatever happened before. */
  lemma RunsAreCanonical(hs: seq<Heap>, es: seq<Event>, gs: seq<Heap>, fs: seq<Event>)
    requires Run(hs, es) && Run(gs, fs) && StateOk(hs[0]) && StateOk(gs[0])
    requires |hs[0].l.mem| == |gs[0].l.mem| && hs[0].m == gs[0].m
    requires hs[|es|].l.base != 0 && gs[|fs|].l.base != 0
    requires Live(hs[|es|].c) == Live(gs[|fs|].c)
    ensures hs[|es|].c == gs[|fs|].c && hs[|es|].l.bits == gs[|fs|].l.bits
  {
    hide Run, HeapOk, Untouched;
    RunLength(hs, es);
    RunLength(gs, fs);
    RunOnward(hs, es, |es|);
    RunOnward(gs, fs, |fs|);
    CanonicalHeap(hs[|es|], gs[|fs|]);
  }

  /** After any run that ends with nothing live there is one free chunk over all the space. */
  lemma EverythingFreed(hs: seq<Heap>, es: seq<Event>)
    requires Run(hs, es) && StateOk(hs[0]) && hs[|es|].l.base != 0 && Abs(hs[|es|]) == map[]
    ensures hs[|es|].c == map[0 := Chunk(0, |hs[0].l.mem|, false)]
  {
    hide Run, HeapOk, Untouched, PayloadAt;
    RunLength(hs, es);
    RunOnward(hs, es, |es|);
    var k := hs[|es|];
    forall o: nat ensures o !in Live(k.c) {
      AbsLive(k, o);
      assert o !in Abs(k);
    }
    assert Live(k.c) == map[];
    AllFreed(k);
  }

  // ---- runs that grow ----

  /** The states and events of a run so far. */
  datatype Trace = Trace(hs: seq<Heap>, es: seq<Event>)

  ghost predicate Traced(t: Trace, h: Heap) {
    Run(t.hs, t.es) && StateOk(t.hs[0]) && t.hs[|t.es|] == h
  }

  lemma TraceStart(h: Heap)
    requires StateOk(h)
    ensures Traced(Trace([h], []), h)
  {
    hide StateOk;
  }

  ghost function Extended(t: Trace, k: Heap, e: Event): Trace {
    Trace(t.hs + [k], t.es + [e])
  }

  lemma TraceStep(t: Trace, h: Heap, k: Heap, e: Event)
    requires Traced(t, h) && Step(h, k, e)
    ensures t.hs != [] && Traced(Extended(t, k, e), k)
    ensures Onward(h, k) && AbsStep(Abs(h), Abs(k), k.l.base, e)
  {
    hide StateOk, Step, AbsStep, Abs, Onward;
    var u := Extended(t, k, e);
    forall i: nat | i < |u.es| ensures StepAt(u.hs, u.es, i) {
      if i < |t.es| { assert StepAt(t.hs, t.es, i); }
    }
    RunOnward(t.hs, t.es, |t.es|);
    OnwardState(t.hs[0], h);
    StepOnward(h, k, e);
    StepRefines(h, k, e);
  }

  lemma TracedState(t: Trace, h: Heap)
    requires Traced(t, h)
    ensures StateOk(h) && t.hs != [] && Onward(t.hs[0], h)
  {
    hide StateOk, Onward;
    RunOnward(t.hs, t.es, |t.es|);
    OnwardState(t.hs[0], h);
  }

  /** The events that are calls, without the user stores. */
  ghost function CallsOf(es: seq<Event>): seq<Event> {
    if es == [] then []
    else
      var last := es[|es| - 1];
      CallsOf(es[..|es| - 1]) + (if last.op.UserStore? then [] else [last])
  }

  lemma CallsMore(es: seq<Event>, e: Event)
    ensures CallsOf(es + [e]) == CallsOf(es) + (if e.op.UserStore? then [] else [e])
  {
    assert (es + [e])[..|es|] == es;
  }
}
