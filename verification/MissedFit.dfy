/** A run on which `alloc` fails although a free chunk is large enough: the fallback search
    looks at the head of one bin only (src/allocator.rs:788-805), and that is the chunk
    freed last. */
module MissedFit {
  import opened Wrappers
  import opened Bits
  import opened Bins
  import opened Sizes
  import opened Partition
  import opened Layouts
  import opened Heaps
  import opened Operations
  import opened Effects
  import opened Search
  import opened Allocation
  import opened Transitions
  import opened Executions
  import opened Reads
  import opened Canonical
  import opened Allocators
  import opened Runs
  import opened Calls

  const SPACE: u32 := 515
  const BASE: Address := 1
  const BIN: nat := 255      // holds the sizes 256 and 257

  /** Grants every extent. */
  const WILLING: Env := Env(BASE, (end: u32) => true, (end: u32) => true)

  /** Blocks of 256, 1, 257 and 1 units; the third is freed, then the first. */
  function OpAt(i: nat): Op {
    if i == 0 then Alloc(1, 255, false)
    else if i == 1 then Alloc(1, 0, false)
    else if i == 2 then Alloc(1, 256, false)
    else if i == 3 then Alloc(1, 0, false)
    else if i == 4 then Free(BASE + 258)
    else if i == 5 then Free(BASE + 1)
    else Alloc(1, 256, false)
  }

  /** The tiling before operation `i`. */
  ghost function Tiling(i: nat): Layout {
    if i == 0 then map[]
    else if i == 1 then map[0 := Chunk(0, 256, true), 256 := Chunk(256, 259, false)]
    else if i == 2 then map[0 := Chunk(0, 256, true), 256 := Chunk(256, 1, true), 257 := Chunk(1, 258, false)]
    else if i <= 4 then
      map[0 := Chunk(0, 256, true), 256 := Chunk(256, 1, true),
          257 := Chunk(1, 257, true), 514 := Chunk(257, 1, i == 4)]
    else
      map[0 := Chunk(0, 256, i == 5), 256 := Chunk(256, 1, true),
          257 := Chunk(1, 257, false), 514 := Chunk(257, 1, true)]
  }

  /** The heap before operation `i`. */
  ghost predicate Before(i: nat, h: Heap) {
    && StateOk(h) && |h.l.mem| == SPACE && h.m == 7 && h.c == Tiling(i)
    && h.l.base == (if i == 0 then 0 else BASE)
    && (i == 6 ==> BIN < |h.l.heads| && HeadAt(h.l, BIN) == BASE)
  }

  // ---- the four blocks ----

  ghost predicate Sole(c: Layout, o: nat) {
    FreeAt(c, o) && forall x | FreeAt(c, x) :: x == o
  }

  /** With one free chunk, an unaligned request that fits is served from its front. */
  lemma SoleServes(h: Heap, k: Heap, o: nat, size: u32, r: Option<Address>)
    requires HeapOk(h) && Sole(h.c, o) && size + 1 <= h.c[o].size && |h.l.mem| == SPACE
    requires AllocRan(h, k, 1, size, false, WILLING.grants, r)
    ensures r == Some(h.l.base + o + 1) && IsPlaced(h.c, k.c, o, 0, size + 1)
  {
    hide HeapOk, BinDown, BinUp, SearchedBin, CarveRan, AllocEnd, Aligned, ConfigOk, IsPlaced, Ready, Replayed;
    hide NodesBelow, WellFormed, PlaceFits, AddressesOk;
    HeaderFacts(h, o);
    HeapFacts(h);
    BinDownMonotone(h.m, size + 1, h.c[o].size);
    TriedExists(h, size + 1);
    PaddingFits(h, o, 1, size);
    assert Requestable(1, size);
    assert Granted(h, AllocEnd(h, o, 1, size), WILLING.grants);
    var x :| Tried(h, size + 1, x) && CarveRan(h, k, x, 1, size, false, r.value);
    SoleCarved(h, k, o, size, r.value);
  }

  lemma SoleCarved(h: Heap, k: Heap, o: nat, size: u32, p: Address)
    requires HeapOk(h) && FreeAt(h.c, o) && size + 1 <= h.c[o].size && IsPow2(1)
    requires CarveRan(h, k, o, 1, size, false, p)
    ensures p == h.l.base + o + 1 && IsPlaced(h.c, k.c, o, 0, size + 1)
  {
    hide HeapOk, HeaderFor, Aligned, IsPlaced, PlaceLists;
    HeaderForLeast(h, o, 1);
  }

  lemma BlockTiling(i: nat, c: Layout, d: Layout, o: nat, n: nat)
    requires i < 4 && c == (if i == 0 then map[0 := Chunk(0, 515, false)] else Tiling(i))
    requires o == (if i == 0 then 0 else if i == 1 then 256 else if i == 2 then 257 else 514)
    requires n == (if i == 0 then 256 else if i == 2 then 257 else 1)
    requires Sole(c, o) && n <= c[o].size && IsPlaced(c, d, o, 0, n)
    ensures d == Tiling(i + 1)
  {
    assert IsPlaced(c, Tiling(i + 1), o, 0, n);
    PlacedUnique(c, d, Tiling(i + 1), o, 0, n);
  }

  lemma AllocAdvances(i: nat, h: Heap, k: Heap, e: Event)
    requires i < 4 && Before(i, h) && Step(h, k, e) && e.op == OpAt(i) && e.env == WILLING
    ensures Before(i + 1, k)
  {
    hide HeapOk, Untouched, AllocRan, ConfigOk, IsPlaced, ReadsOk, Opened, Aligned;
    StepOnward(h, k, e);
    var j := if i == 0 then Opened(h, BASE) else h;
    if i == 0 { OpenedFacts(h, BASE); OpenedTiling(h, BASE); }
    var o := if i == 0 then 0 else if i == 1 then 256 else if i == 2 then 257 else 514;
    SoleNow(i, j.c, o);
    SoleServes(j, k, o, e.op.size, e.result.p);
    BlockTiling(i, j.c, k.c, o, e.op.size + 1);
    AllocBase(j, k, e);
  }

  lemma OpenedTiling(h: Heap, base: Address)
    requires 1 <= h.m <= 8 && 0 < |h.l.mem| < SPACE_LIMIT
    ensures Opened(h, base).c == map[0 := Chunk(0, |h.l.mem|, false)]
  {}

  lemma SoleNow(i: nat, c: Layout, o: nat)
    requires i < 4 && c == (if i == 0 then map[0 := Chunk(0, 515, false)] else Tiling(i))
    requires o == (if i == 0 then 0 else if i == 1 then 256 else if i == 2 then 257 else 514)
    ensures Sole(c, o) && c[o].size == (if i == 0 then 515 else if i == 1 then 259 else if i == 2 then 258 else 1)
  {}

  lemma AllocBase(h: Heap, k: Heap, e: Event)
    requires HeapOk(h) && e.op.Alloc? && e.result.Pointer?
    requires AllocRan(h, k, e.op.align, e.op.size, e.op.zeroed, e.env.grants, e.result.p)
    ensures k.l.base == h.l.base
  {
    hide HeapOk, AllocRan, AllocOutcome, Placed, Aligned;
    AllocRanOutcome(h, k, e.op.align, e.op.size, e.op.zeroed, e.env.grants, e.result.p);
    if e.result.p.Some? {
      AllocGave(h, k, e.op.align, e.op.size, e.op.zeroed, e.env.grants, e.result.p.value);
      PlacedFacts(h, k, e.result.p.value - h.l.base - 1, e.op.size + 1);
    } else {
      AllocTookNone(h, k, e.op.align, e.op.size, e.op.zeroed, e.env.grants);
    }
  }

  // ---- the two chunks ----

  lemma Neighbours(i: nat, o: nat)
    requires 4 <= i < 6 && o == (if i == 4 then 257 else 0)
    ensures var c := Tiling(i);
      && LiveAt(c, o) && !PrevFree(c, o) && !NextFree(c, o) && o + c[o].size == ReleaseEnd(c, o)
      && ReleaseStart(c, o) == o && ReleaseEnd(c, o) == (if i == 4 then 514 else 256)
  {}

  lemma ChunkTiling(i: nat, c: Layout, d: Layout, o: nat)
    requires 4 <= i < 6 && c == Tiling(i) && o == (if i == 4 then 257 else 0)
    requires IsReleased(c, d, 515, o)
    ensures d == Tiling(i + 1) && ReleaseStart(c, o) == o
  {
    var end := if i == 4 then 514 else 256;
    hide IsReleased, PrevFree, NextFree, ReleaseStart, ReleaseEnd;
    Neighbours(i, o);
    AloneReleased(c, d, o);
    assert d == c[o := c[o].(used := false)][end := c[end].(prev := end - o)];
  }

  lemma AloneReleased(c: Layout, d: Layout, o: nat)
    requires LiveAt(c, o) && !PrevFree(c, o) && !NextFree(c, o) && IsReleased(c, d, 515, o)
    requires ReleaseEnd(c, o) in c
    ensures var end := ReleaseEnd(c, o);
      d == c[o := c[o].(used := false)][end := c[end].(prev := end - o)]
  {}

  lemma FreeAdvances(i: nat, h: Heap, k: Heap, e: Event)
    requires 4 <= i < 6 && Before(i, h) && Step(h, k, e) && e.op == OpAt(i) && e.env == WILLING
    ensures Before(i + 1, k)
  {
    hide HeapOk, Untouched, ConfigOk, IsReleased, ReleaseLists, ReadsOk, BinDown;
    StepOnward(h, k, e);
    var o := if i == 4 then 257 else 0;
    ChunkTiling(i, h.c, k.c, o);
    FreedIsFirst(h, k, o);
    ExampleBins();
  }

  lemma ExampleBins()
    ensures BinDown(7, 256) == BinDown(7, 257) == BIN && BinUp(7, 257) == BIN + 1
  {
    assert Pow2(7) == 128;
    assert Pow2(8) == 256;
    PowerOfTwoBin(7, 8, 256);
    assert BinMin(7, 128) == 129;
    assert BinMin(7, 256) == 258;
    RoundDownAdjoint(7, 257, 255);
    RoundDownAdjoint(7, 257, 256);
    RoundUpAdjoint(7, 257, 255);
    RoundUpAdjoint(7, 257, 256);
  }

  // ---- the request that is missed ----

  lemma LastMisses(h: Heap, k: Heap, e: Event)
    requires Before(6, h) && Step(h, k, e) && e.op == OpAt(6) && e.env == WILLING
    ensures e.result == Pointer(None) && k == h
  {
    hide HeapOk, Untouched, ConfigOk, ReadsOk, AllocRan, AllocOutcome, Tried, BinDown, BinUp, Granted, AllocEnd;
    hide Aligned;
    ExampleBins();
    forall b | b in h.l.bits ensures b == BIN { BitIsBin(h, b); }
    assert BinOf(h, 0) == BIN;
    MissedExactly(h, 257, 257, 0);
    AllocRanOutcome(h, k, 1, 256, false, WILLING.grants, e.result.p);
    AllocServes(h, k, 1, 256, false, WILLING.grants, e.result.p);
    NotServed(h, 1, 256, WILLING.grants);
    AllocTookNone(h, k, 1, 256, false, WILLING.grants);
  }

  lemma BitIsBin(h: Heap, b: nat)
    requires Before(6, h) && b in h.l.bits
    ensures b == BIN
  {
    hide HeapOk, BinDown;
    ExampleBins();
    MaskIsBins(h, b);
  }

  lemma NotServed(h: Heap, align: u32, size: u32, grants: u32 -> bool)
    requires HeapOk(h) && size + align < 0x1_0000_0000 && Missed(h, size + align)
    ensures !Servable(h, align, size, grants)
  {
    hide HeapOk, Tried, Granted, AllocEnd;
  }

  // ---- the run ----

  lemma Advances(i: nat, h: Heap, k: Heap, e: Event)
    requires i < 6 && Before(i, h) && Step(h, k, e) && e.op == OpAt(i) && e.env == WILLING
    ensures Before(i + 1, k)
  {
    hide Before, Step;
    if i < 4 { AllocAdvances(i, h, k, e); } else { FreeAdvances(i, h, k, e); }
  }

  lemma LegalNow(i: nat, h: Heap)
    requires i < 7 && Before(i, h)
    ensures Legal(h, OpAt(i))
  {
    hide HeapOk, Untouched;
  }

  /** The run makes the seven calls. */
  ghost predicate Makes(hs: seq<Heap>, es: seq<Event>, n: nat) {
    && n <= |es| && |hs| == |es| + 1
    && forall i: nat {:trigger es[i]} | i < n :: es[i].op == OpAt(i) && es[i].env == WILLING
  }

  lemma {:induction false} Reaches(hs: seq<Heap>, es: seq<Event>, i: nat)
    requires Run(hs, es) && Makes(hs, es, 7) && Before(0, hs[0]) && i <= 6
    ensures Before(i, hs[i])
  {
    hide Before, Step;
    if i > 0 {
      Reaches(hs, es, i - 1);
      assert StepAt(hs, es, i - 1);
      Advances(i - 1, hs[i - 1], hs[i], es[i - 1]);
    }
  }

  /** However these seven calls are made on a new allocator over 515 units, the last one
      fails, with a free chunk of exactly the units that it needs and nothing refused. */
  lemma FallbackMisses(hs: seq<Heap>, es: seq<Event>)
    requires Run(hs, es) && Makes(hs, es, 7)
    requires StateOk(hs[0]) && hs[0].l.base == 0 && |hs[0].l.mem| == 515 && hs[0].m == 7
    ensures FreeAt(hs[6].c, 257) && hs[6].c[257].size == 257
    ensures es[6].op == Alloc(1, 256, false) && es[6].result == Pointer(None) && hs[7] == hs[6]
  {
    hide Step, Untouched, HeapOk;
    Started(hs[0]);
    Reaches(hs, es, 6);
    assert StepAt(hs, es, 6);
    LastMisses(hs[6], hs[7], es[6]);
  }

  lemma Started(h: Heap)
    requires StateOk(h) && h.l.base == 0 && |h.l.mem| == 515 && h.m == 7
    ensures Before(0, h)
  {
    UntouchedFacts(h);
  }

  lemma NewView(a: Allocator)
    requires a.Valid()
    ensures |a.View().l.mem| == a.totalSpace && a.View().m == a.mantissaBits
  {
    hide HeapOk, Untouched;
  }

  lemma MakesMore(t: Trace, k: Heap, e: Event, i: nat)
    requires Makes(t.hs, t.es, i) && |t.es| == i && e.op == OpAt(i) && e.env == WILLING
    ensures Makes(Extended(t, k, e).hs, Extended(t, k, e).es, i + 1)
  {
    var es := Extended(t, k, e).es;
    forall j: nat | j < i + 1 ensures es[j].op == OpAt(j) && es[j].env == WILLING {
      if j < i { assert es[j] == t.es[j]; }
    }
  }

  /** The seven calls on a new allocator. */
  method Demonstrate() returns (r: Result, ghost t: Trace)
    ensures Run(t.hs, t.es) && Makes(t.hs, t.es, 7) && |t.es| == 7
    ensures StateOk(t.hs[0]) && t.hs[0].l.base == 0 && |t.hs[0].l.mem| == 515 && t.hs[0].m == 7
    ensures r == Pointer(None)
  {
    hide HeapOk, Untouched, Step, StateOk, Run, Before, Abs, AbsStep, Legal, Makes, Extended, Allocator.Valid;
    var a := NewAllocator(SPACE, true);
    NewView(a);
    Started(a.View());
    t := Trace([a.View()], []);
    TraceStart(a.View());
    MakesNone(t);
    ghost var first := a.View();
    r := Nothing;
    for i := 0 to 7
      invariant a.Valid() && a.EnvOk(WILLING) && Traced(t, a.View())
      invariant t.hs != [] && t.hs[0] == first && |t.es| == i && Makes(t.hs, t.es, i)
      invariant if i < 7 then Before(i, a.View()) else r == Pointer(None)
    {
      ghost var h := a.View();
      LegalNow(i, h);
      r := Perform(a, OpAt(i), WILLING);
      ghost var k, e := a.View(), Event(OpAt(i), WILLING, r, a.seen);
      TraceStep(t, h, k, e);
      MakesMore(t, k, e, i);
      TraceLonger(t, k, e);
      t := Extended(t, k, e);
      if i < 6 { Advances(i, h, k, e); } else { LastMisses(h, k, e); }
    }
  }

  lemma MakesNone(t: Trace)
    requires |t.hs| == |t.es| + 1
    ensures Makes(t.hs, t.es, 0)
  {}

  lemma TraceLonger(t: Trace, k: Heap, e: Event)
    requires t.hs != []
    ensures Extended(t, k, e).hs[0] == t.hs[0] && |Extended(t, k, e).es| == |t.es| + 1
  {}
}
