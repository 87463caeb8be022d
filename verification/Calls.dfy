/** Every call on the allocator object is a step of a run, and so is every user store. */
module Calls {
  import opened Wrappers
  import opened Bins
  import opened BitMasks
  import opened Sizes
  import opened Heaps
  import opened Effects
  import opened Payloads
  import opened Allocation
  import opened Transitions
  import opened Executions
  import opened Reads
  import opened Allocators
  import opened Runs

  /** A new allocator as shipped: with 64-bit masks or with 32-bit ones. */
  method NewAllocator(totalSpace: u32, wide: bool) returns (a: Allocator)
    requires 0 < totalSpace < SPACE_LIMIT
    ensures fresh(a) && fresh(a.mem) && fresh(a.firstInFreeList)
    ensures fresh(a.freeLists) && fresh(a.freeLists.secondaryMasks)
    ensures a.Valid() && a.totalSpace == totalSpace
    ensures StateOk(a.View()) && a.View().l.base == 0 && Abs(a.View()) == map[]
    ensures a.mantissaBits == if wide then 7 else 5
  {
    hide HeapOk, Untouched, ConfigOk;
    ShippedConfigsOk();
    ShippedSecondaryLengths();
    if wide {
      a := new Allocator(totalSpace, BinConfig(7, 2432), 6);
    } else {
      a := new Allocator(totalSpace, BinConfig(5, 672), 5);
    }
    a.ViewSized();
  }

  ghost predicate Roomy(h: Heap, env: Env) {
    SizedOk(h) && env.base + |h.l.mem| < 0x800_0000_0000_0000
  }

  /** What a call logged belongs to the call. */
  lemma SeenOk(a: Allocator, h: Heap, t: Option<nat>)
    requires a.Valid() && a.callHeap == h && a.callTarget == t
    ensures ReadsOk(h, t, a.View().l.mem, a.View().l.log, a.seen) && ReadsBelow(a.seen, a.View().high)
  {
    hide HeapOk, Untouched, ReadsOk, Allocator.CellsBacked, Allocator.HeadsBacked;
  }

  /** One call on the allocator, or one user store, is one step. */
  method Perform(a: Allocator, op: Op, env: Env) returns (r: Result)
    requires a.Valid() && a.EnvOk(env) && Legal(a.View(), op)
    modifies a`lists, a`seen, a`callHeap, a`callTarget, a`chunks, a`allocatedSpace, a`baseAddress
    modifies a.mem, a.firstInFreeList, a.freeLists`primaryMask, a.freeLists`members, a.freeLists.secondaryMasks
    ensures a.Valid() && Step(old(a.View()), a.View(), Event(op, env, r, a.seen))
  {
    hide HeapOk, Untouched, AllocCall, AllocStep, FreeRan, Freed, ShrinkRan, ShrinkOutcome, GrowRan, GrowOutcome;
    hide ReallocRan, ReallocOutcome, StoreRan, Written, ReadsOk, ConfigOk, Allocator.Valid;
    ghost var h := a.View();
    RoomyView(a, env);
    match op {
      case Alloc(align, size, zeroed) =>
        var p := a.Alloc(align, size, zeroed, env);
        r := Pointer(p);
      case Free(p) =>
        a.Free(p);
        r := Nothing;
      case Shrink(p, n) =>
        a.ShrinkInplace(p, n);
        r := Nothing;
      case Grow(p, n) =>
        var m := a.GrowInplace(p, n, env);
        r := Size(m);
      case Realloc(p, align, n) =>
        var q := a.Realloc(p, align, n, env);
        r := Pointer(q);
      case UserStore(p, i, cell) =>
        a.WriteCell(p, i, cell);
        r := Nothing;
    }
    SeenOk(a, h, TargetOf(op, h.l.base));
  }

  lemma RoomyView(a: Allocator, env: Env)
    requires a.Valid() && a.EnvOk(env)
    ensures Roomy(a.View(), env) && a.View().l.base == a.baseAddress
  {
    hide HeapOk, Untouched;
    a.ViewSized();
  }

  // ---- runs on the object ----

  ghost predicate Running(a: Allocator, t: Trace)
    reads a, a.mem, a.firstInFreeList, a.freeLists, a.freeLists.secondaryMasks
  {
    a.Valid() && Traced(t, a.View())
  }

  ghost function BlocksOf(a: Allocator): Blocks
    reads a
  {
    Abs(a.View())
  }

  method Call(a: Allocator, op: Op, env: Env, ghost t: Trace) returns (r: Result, ghost t': Trace)
    requires Running(a, t) && a.EnvOk(env) && Legal(a.View(), op)
    modifies a`lists, a`seen, a`callHeap, a`callTarget, a`chunks, a`allocatedSpace, a`baseAddress
    modifies a.mem, a.firstInFreeList, a.freeLists`primaryMask, a.freeLists`members, a.freeLists.secondaryMasks
    ensures Running(a, t') && t.hs != [] && t'.hs != [] && t'.hs[0] == t.hs[0]
    ensures AbsStep(old(BlocksOf(a)), BlocksOf(a), a.baseAddress, Event(op, env, r, a.seen))
    ensures CallsOf(t'.es) == CallsOf(t.es) + (if op.UserStore? then [] else [Event(op, env, r, a.seen)])
    ensures old(a.baseAddress) != 0 ==> a.baseAddress == old(a.baseAddress)
  {
    hide HeapOk, Untouched, Step, AbsStep, Abs, Traced, StateOk, Run, CallsOf;
    ghost var h := a.View();
    r := Perform(a, op, env);
    TraceStep(t, h, a.View(), Event(op, env, r, a.seen));
    t' := Extended(t, a.View(), Event(op, env, r, a.seen));
    CallsMore(t.es, Event(op, env, r, a.seen));
    RoomyView(a, env);
  }
}
