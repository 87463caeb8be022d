/** The single stores that one operation makes: each changes one cell, the last leaves the
    final memory, and none of them touches a block that the operation is not about. */
module Stores {
  import opened Wrappers
  import opened Bins
  import opened Sizes
  import opened Partition
  import opened FreeLists
  import opened Heaps
  import opened Operations
  import opened Effects
  import opened Allocation
  import opened Reads
  import opened Runs

  /** How many stores lead from `h` to `k`. */
  ghost function Count(h: Heap, k: Heap): int {
    |k.l.log| - |h.l.log|
  }

  /** The memory after the first `d` of them. */
  ghost function Snapshot(h: Heap, k: Heap, d: nat): seq<Cell> {
    if d == 0 || |h.l.log| + d > |k.l.log| then h.l.mem else k.l.log[|h.l.log| + d - 1].after
  }

  ghost predicate StoreOk(h: Heap, k: Heap, d: nat)
    requires d < Count(h, k)
  {
    && var s := k.l.log[|h.l.log| + d];
    && s.at < |h.l.mem| && |Snapshot(h, k, d)| == |h.l.mem|
    && Snapshot(h, k, d + 1) == Snapshot(h, k, d)[s.at := s.cell]
  }

  ghost predicate Continues(h: Heap, k: Heap) {
    && 0 <= Count(h, k) && k.l.log[..|h.l.log|] == h.l.log && |k.l.mem| == |h.l.mem|
    && k.l.mem == Snapshot(h, k, Count(h, k))
    && forall d: nat {:trigger StoreOk(h, k, d)} | d < Count(h, k) :: StoreOk(h, k, d)
  }

  ghost predicate SparedAt(h: Heap, k: Heap, d: nat, x: nat)
    requires d < Count(h, k) && x in h.c
  {
    Spares(h, k.l.log[|h.l.log| + d], x)
  }

  /** Every store spares every live block that the event does not target. */
  ghost predicate SparesUntargeted(h: Heap, k: Heap, e: Event) {
    forall d: nat, x: nat {:trigger SparedAt(h, k, d, x)} |
      d < Count(h, k) && LiveAt(h.c, x) && !Targets(e, h.l.base, x) :: SparedAt(h, k, d, x)
  }

  lemma SnapshotSizes(h: Heap, k: Heap, d: nat)
    requires Replayed(k.l) && |k.l.mem| == |h.l.mem| && d <= Count(h, k) && 0 <= Count(h, k)
    ensures |Snapshot(h, k, d)| == |h.l.mem|
  {
    if d > 0 { AfterSize(k.l, |h.l.log| + d - 1); }
  }

  /** Every store leaves as many cells as there are in the end. */
  lemma {:induction false} AfterSize(l: Lists, i: nat)
    requires Replayed(l) && i < |l.log|
    ensures |l.log[i].after| == |l.mem|
    decreases |l.log| - i
  {
    if i < |l.log| - 1 {
      assert LogStep(l.log, i + 1);
      AfterSize(l, i + 1);
    }
  }

  lemma ContinuesBy(h: Heap, k: Heap)
    requires Replayed(k.l) && |k.l.mem| == |h.l.mem|
    requires |h.l.log| <= |k.l.log| && k.l.log[..|h.l.log|] == h.l.log
    requires h.l.log != [] ==> h.l.mem == h.l.log[|h.l.log| - 1].after
    requires h.l.log == [] ==>
      k.l.log[0].at < |h.l.mem| && k.l.log[0].after == h.l.mem[k.l.log[0].at := k.l.log[0].cell]
    ensures Continues(h, k)
  {
    forall d: nat | d < Count(h, k)
      ensures StoreOk(h, k, d)
    {
      var i := |h.l.log| + d;
      assert LogStep(k.l.log, i);
      SnapshotSizes(h, k, d);
      if d == 0 && i > 0 { assert k.l.log[i - 1] == h.l.log[i - 1]; }
    }
    if Count(h, k) == 0 { assert k.l.log == h.l.log; }
  }

  lemma HeapContinues(h: Heap, k: Heap, o: nat)
    requires HeapOk(h) && HeapOk(k) && |k.l.mem| == |h.l.mem| && SparesOthers(h, k, o)
    ensures Continues(h, k)
  {
    HeapFacts(h);
    HeapFacts(k);
    ContinuesBy(h, k);
  }

  lemma OthersSpared(h: Heap, k: Heap, e: Event, o: nat)
    requires SparesOthers(h, k, o)
    requires forall x: nat | LiveAt(h.c, x) && !Targets(e, h.l.base, x) :: x != o
    ensures SparesUntargeted(h, k, e)
  {}

  lemma SameHeapStores(h: Heap, e: Event)
    ensures Continues(h, h) && SparesUntargeted(h, h, e)
  {}

  /** Stores from one heap in order to another. */
  lemma KeptStores(h: Heap, k: Heap, e: Event, o: nat)
    requires HeapOk(h) && HeapOk(k) && |k.l.mem| == |h.l.mem| && SparesOthers(h, k, o)
    requires !LiveAt(h.c, o) || Targets(e, h.l.base, o)
    ensures Continues(h, k) && SparesUntargeted(h, k, e)
  {
    hide HeapOk, SparesOthers;
    HeapContinues(h, k, o);
    OthersSpared(h, k, e, o);
  }

  lemma FirstStores(h: Heap, j: Heap, k: Heap, base: Address, e: Event)
    requires Untouched(h) && SizedOk(h) && j == Opened(h, base) && base > 0 && base + |h.l.mem| < 0x800_0000_0000_0000
    requires HeapOk(k) && |k.l.mem| == |h.l.mem| && |j.l.log| <= |k.l.log| && k.l.log[..|j.l.log|] == j.l.log
    ensures Continues(h, k) && SparesUntargeted(h, k, e)
  {
    OpenedLog(h, base);
    assert k.l.log[0] == j.l.log[0];
    HeapFacts(k);
    hide HeapOk, Opened;
    ContinuesBy(h, k);
  }

  lemma OpenedLog(h: Heap, base: Address)
    requires Untouched(h) && SizedOk(h) && base > 0 && base + |h.l.mem| < 0x800_0000_0000_0000
    ensures var j := Opened(h, base);
      |j.l.log| == 1 && j.l.log[0].at < |h.l.mem| && j.l.log[0].after == h.l.mem[j.l.log[0].at := j.l.log[0].cell]
  {}

  lemma AllocStores(h: Heap, k: Heap, e: Event)
    requires e.op.Alloc? && e.result.Pointer? && e.env.base + |h.l.mem| < 0x800_0000_0000_0000
    requires AllocStep(h, k, e.op.align, e.op.size, e.op.zeroed, e.env, e.result.p) && StateOk(h)
    ensures Continues(h, k) && SparesUntargeted(h, k, e)
  {
    hide HeapOk, Opened, Untouched, AllocOutcome, ConfigOk, Aligned, SparesUntargeted, Continues, SparesOthers;
    hide OthersKept;
    var align, size, zeroed, r := e.op.align, e.op.size, e.op.zeroed, e.result.p;
    SameHeapStores(h, e);
    if h.l.base != 0 || Initializes(align, e.env) {
      var j := if h.l.base == 0 then Opened(h, e.env.base) else h;
      if h.l.base == 0 { OpenedFacts(h, e.env.base); }
      if r == None {
        AllocTookNone(j, k, align, size, zeroed, e.env.grants);
      } else {
        AllocGave(j, k, align, size, zeroed, e.env.grants, r.value);
      }
      if h.l.base == 0 {
        if r.Some? { SparedLog(j, k, r.value - j.l.base - 1); }
        FirstStores(h, j, k, e.env.base, e);
      } else if r.Some? {
        KeptStores(h, k, e, r.value - j.l.base - 1);
      }
    }
  }

  lemma SparedLog(h: Heap, k: Heap, o: nat)
    requires SparesOthers(h, k, o)
    ensures |h.l.log| <= |k.l.log| && k.l.log[..|h.l.log|] == h.l.log
  {}

  lemma ReallocStores(h: Heap, k: Heap, e: Event)
    requires e.op.Realloc? && e.result.Pointer?
    requires ReallocOutcome(h, k, e.op.p, e.op.align, e.op.size, e.env, e.result.p)
    ensures Continues(h, k) && SparesUntargeted(h, k, e)
  {
    hide HeapOk, SparesUntargeted, Continues, SparesOthers, OthersKept, Contents, Servable, CanGrow;
    SameHeapStores(h, e);
    if k != h {
      var o := e.op.p - h.l.base - 1;
      assert HeapOk(k) && |k.l.mem| == |h.l.mem| && SparesOthers(h, k, o);
      KeptStores(h, k, e, o);
    }
  }

  /** What the stores of an execution are. */
  lemma ExecutionStores(h: Heap, k: Heap, e: Event)
    requires StateOk(h) && Executes(h, k, e)
    ensures Continues(h, k) && SparesUntargeted(h, k, e)
  {
    hide HeapOk, Untouched, SparesUntargeted, Continues, SparesOthers, OthersKept, Contents, AllocStep, ReallocOutcome;
    hide CanGrow, PayloadAt, Executes;
    ExecutionOutcome(h, k, e);
    SameHeapStores(h, e);
    match e.op {
      case Alloc(_, _, _) => AllocStores(h, k, e);
      case Realloc(_, _, _) => ReallocStores(h, k, e);
      case _ =>
        if k != h { KeptStores(h, k, e, e.op.p - h.l.base - 1); }
    }
  }

  lemma StepStores(h: Heap, k: Heap, e: Event)
    requires StateOk(h) && Step(h, k, e)
    ensures Continues(h, k) && SparesUntargeted(h, k, e)
  {
    hide HeapOk, Untouched, SparesUntargeted, Continues, Executes;
    ExecutionStores(h, k, e);
  }

  // ---- the high-water mark ----

  /** From `h` to `k` stores were only added to the log, no store that was ever made hit a cell
      at or above the mark, those cells are zero, and the operation read none of them. */
  ghost predicate AccessedBelow(h: Heap, k: Heap, e: Event) {
    && h.l.log <= k.l.log
    && (forall i | 0 <= i < |k.l.log| :: k.l.log[i].at < k.high)
    && (forall x | k.high <= x < |k.l.mem| :: k.l.mem[x] == ZERO_CELL)
    && (forall i | 0 <= i < |e.seen| :: e.seen[i].at < k.high)
  }

  lemma StateBelow(h: Heap)
    requires StateOk(h)
    ensures forall i | 0 <= i < |h.l.log| :: h.l.log[i].at < h.high
    ensures ZeroFrom(h.l.mem, h.high)
  {
    forall i | 0 <= i < |h.l.log| ensures h.l.log[i].at < h.high { assert StoredBelow(h.l.log, h.high, i); }
  }

  lemma StepAccesses(h: Heap, k: Heap, e: Event)
    requires StateOk(h) && Step(h, k, e)
    ensures AccessedBelow(h, k, e)
  {
    StepReadsBelow(h, k, e);
    hide HeapOk, Untouched, Step, SparesUntargeted;
    StepOnward(h, k, e);
    StepStores(h, k, e);
    StateBelow(k);
  }

  lemma StepReadsBelow(h: Heap, k: Heap, e: Event)
    requires Step(h, k, e)
    ensures ReadsBelow(e.seen, k.high)
  {}

  /** Every access of every operation of every run, and of every user, is below the mark that
      it leaves, and the mark never falls: memory that was not provided is never touched. */
  lemma RunAccesses(hs: seq<Heap>, es: seq<Event>, i: nat)
    requires Run(hs, es) && StateOk(hs[0]) && i < |es|
    ensures AccessedBelow(hs[i], hs[i + 1], es[i]) && hs[i].high <= hs[i + 1].high
  {
    hide Step, Onward, StateOk, AccessedBelow;
    RunOnward(hs, es, i);
    OnwardState(hs[0], hs[i]);
    assert StepAt(hs, es, i);
    StepAccesses(hs[i], hs[i + 1], es[i]);
    StepOnward(hs[i], hs[i + 1], es[i]);
    OnwardMark(hs[i], hs[i + 1]);
  }

  lemma OnwardMark(h: Heap, k: Heap)
    requires Onward(h, k)
    ensures h.high <= k.high
  {}

  // ---- other blocks, in mid-operation ----

  /** In the middle of an operation every other block still has its size word and contents. */
  lemma {:induction false} SnapshotSpares(h: Heap, k: Heap, e: Event, d: nat, x: nat)
    requires Continues(h, k) && SparesUntargeted(h, k, e) && d <= Count(h, k)
    requires LiveAt(h.c, x) && !Targets(e, h.l.base, x) && 0 < h.c[x].size && x + h.c[x].size <= |h.l.mem|
    ensures |Snapshot(h, k, d)| == |h.l.mem|
    ensures Snapshot(h, k, d)[x].sizeWord == h.l.mem[x].sizeWord
    ensures Snapshot(h, k, d)[x + 1..x + h.c[x].size] == h.l.mem[x + 1..x + h.c[x].size]
  {
    if d > 0 {
      SnapshotSpares(h, k, e, d - 1, x);
      assert StoreOk(h, k, d - 1);
      assert SparedAt(h, k, d - 1, x);
    }
  }
}
