/** The fuzzing harness of the repository (fuzz/fuzz_targets/allocator_buffer.rs) as a
    program: every check it makes passes, for every sequence of operations, every filling
    and every answer of the environment. */
module FuzzTarget {
  import opened Wrappers
  import opened Bits
  import opened Bins
  import opened Sizes
  import opened FreeLists
  import opened Heaps
  import opened Operations
  import opened Effects
  import opened Payloads
  import opened Allocation
  import opened Allocators
  import opened Runs
  import opened Calls

  type u16 = x: int | 0 <= x < 0x1_0000

  datatype FuzzOp =
    | FuzzAlloc(align: u16, size: u16)
    | FuzzFree(index: nat)
    | FuzzShrink(index: nat, size: u16)
    | FuzzGrow(index: nat, size: u16)

  ghost function Units(bytes: nat): u32 {
    if bytes < USIZE_LIMIT && FromBytes(bytes).Some? then FromBytes(bytes).value else 0
  }

  /** A pointer with the data its block is expected to hold. */
  datatype Owned = Owned(p: Address, data: seq<Cell>)

  // ---- what the harness does ----

  /** A call as its caller sees it. */
  datatype Made = Made(op: Op, env: Env, result: Result)

  ghost function MadeBy(es: seq<Event>): seq<Made> {
    seq(|es|, i requires 0 <= i < |es| => Made(es[i].op, es[i].env, es[i].result))
  }

  /** From `t` to `t'` there was the call `c`, or none. */
  ghost predicate Did(t: Trace, t': Trace, c: Option<Op>, env: Env, r: Result) {
    MadeBy(CallsOf(t'.es)) == MadeBy(CallsOf(t.es)) + (if c == None then [] else [Made(c.value, env, r)])
  }

  lemma DidCall(t: Trace, t': Trace, e: Event)
    requires CallsOf(t'.es) == CallsOf(t.es) + [e]
    ensures Did(t, t', Some(e.op), e.env, e.result)
  {
    hide CallsOf;
  }

  lemma DidNothing(t: Trace, env: Env, r: Result)
    ensures Did(t, t, None, env, r)
  {
    hide CallsOf;
  }

  lemma DidMore(t: Trace, u: Trace, t': Trace, c: Option<Op>, env: Env, r: Result)
    requires Did(t, u, c, env, r) && CallsOf(t'.es) == CallsOf(u.es)
    ensures Did(t, t', c, env, r)
  {
    hide CallsOf;
  }

  type Filling = (Address, nat) -> Cell

  /** `n` new cells. */
  function NewData(p: Address, n: nat, fill: Filling): seq<Cell> {
    seq(n, i requires 0 <= i < n => fill(p, i))
  }

  /** `truncate`. */
  function Truncated(data: seq<Cell>, n: nat): seq<Cell> {
    if n < |data| then data[..n] else data
  }

  /** `resize` and refilling what was added. */
  function Lengthened(p: Address, data: seq<Cell>, n: nat, refill: Filling): seq<Cell> {
    seq(n, i requires 0 <= i < n => if i < |data| then data[i] else refill(p, i))
  }

  /** The call that an operation makes when the harness holds `owned`. */
  ghost function CallOf(owned: seq<Owned>, op: FuzzOp): Option<Op> {
    match op
    case FuzzAlloc(align, size) => Some(Alloc(Units(NextPowerOfTwo(align)), Units(if size == 0 then 1 else size), true))
    case FuzzFree(index) => if owned == [] then None else Some(Free(owned[index % |owned|].p))
    case FuzzShrink(index, size) =>
      if owned == [] then None else Some(Shrink(owned[index % |owned|].p, Units(size + 1)))
    case FuzzGrow(index, size) =>
      if owned == [] then None else Some(Grow(owned[index % |owned|].p, Units(size + 1)))
  }

  /** What it holds afterwards, given the result of the call. */
  ghost function HeldAfter(owned: seq<Owned>, op: FuzzOp, r: Result, fill: Filling, refill: Filling): seq<Owned> {
    if op.FuzzAlloc? then
      if r.Pointer? && r.p.Some?
      then owned + [Owned(r.p.value, NewData(r.p.value, Units(if op.size == 0 then 1 else op.size), fill))]
      else owned
    else if owned == [] then []
    else
      var i := op.index % |owned|;
      var entry := owned[i];
      match op
      case FuzzFree(_) => SwapRemove(owned, i)
      case FuzzShrink(_, size) => owned[i := entry.(data := Truncated(entry.data, Units(size + 1)))]
      case FuzzGrow(_, _) =>
        if r.Size? && r.n.Some? then owned[i := entry.(data := Lengthened(entry.p, entry.data, r.n.value, refill))]
        else owned
  }

  /** What it holds after all of `ops`, given the results of their calls. */
  ghost function Held(ops: seq<(FuzzOp, Env)>, rs: seq<Result>, fill: Filling, refill: Filling): seq<Owned>
    requires |rs| == |ops|
  {
    if ops == [] then []
    else
      var n := |ops| - 1;
      HeldAfter(Held(ops[..n], rs[..n], fill, refill), ops[n].0, rs[n], fill, refill)
  }

  /** The calls that it makes, each with its arguments and its result. */
  ghost function Expected(ops: seq<(FuzzOp, Env)>, rs: seq<Result>, fill: Filling, refill: Filling): seq<Made>
    requires |rs| == |ops|
  {
    if ops == [] then []
    else
      var n := |ops| - 1;
      var c := CallOf(Held(ops[..n], rs[..n], fill, refill), ops[n].0);
      Expected(ops[..n], rs[..n], fill, refill) + (if c == None then [] else [Made(c.value, ops[n].1, rs[n])])
  }

  /** One more operation. */
  lemma ExpectedMore(ops: seq<(FuzzOp, Env)>, i: nat, rs: seq<Result>, r: Result, fill: Filling, refill: Filling)
    requires i < |ops| && |rs| == i
    ensures var owned := Held(ops[..i], rs, fill, refill);
      && Held(ops[..i + 1], rs + [r], fill, refill) == HeldAfter(owned, ops[i].0, r, fill, refill)
      && Expected(ops[..i + 1], rs + [r], fill, refill)
         == Expected(ops[..i], rs, fill, refill)
          + (var c := CallOf(owned, ops[i].0); if c == None then [] else [Made(c.value, ops[i].1, r)])
  {
    hide HeldAfter, CallOf;
    assert ops[..i + 1][..i] == ops[..i] && (rs + [r])[..i] == rs;
  }

  // ---- what the harness expects of the abstract heap ----

  ghost predicate TrackedAt(a: Blocks, base: Address, owned: seq<Owned>, i: nat)
    requires i < |owned|
  {
    base < owned[i].p && owned[i].p - base - 1 in a && a[owned[i].p - base - 1] == owned[i].data
  }

  ghost predicate DistinctAt(owned: seq<Owned>, i: nat, j: nat)
    requires i < |owned| && j < |owned|
  {
    i != j ==> owned[i].p != owned[j].p
  }

  ghost predicate Distinct(owned: seq<Owned>) {
    forall i: nat, j: nat {:trigger DistinctAt(owned, i, j)} |
      i < |owned| && j < |owned| :: DistinctAt(owned, i, j)
  }

  ghost predicate Tracks(a: Blocks, base: Address, owned: seq<Owned>) {
    && (forall i: nat {:trigger TrackedAt(a, base, owned, i)} | i < |owned| :: TrackedAt(a, base, owned, i))
    && Distinct(owned)
  }

  /** A new block joins the others. */
  lemma TracksNew(a: Blocks, b: Blocks, base: Address, owned: seq<Owned>, p: Address, n: nat)
    requires Tracks(a, base, owned) && base < p && NewBlock(a, b, p - base - 1, n)
    ensures Tracks(b, base, owned + [Owned(p, b[p - base - 1])])
  {
    var all := owned + [Owned(p, b[p - base - 1])];
    forall i: nat | i < |all| ensures TrackedAt(b, base, all, i) {
      if i < |owned| { assert TrackedAt(a, base, owned, i); }
    }
    forall i: nat, j: nat | i < |all| && j < |all| ensures DistinctAt(all, i, j) {
      if i < |owned| { assert TrackedAt(a, base, owned, i); }
      if j < |owned| { assert TrackedAt(a, base, owned, j); }
      if i < |owned| && j < |owned| { assert DistinctAt(owned, i, j); }
    }
  }

  /** `swap_remove`. */
  function SwapRemove(owned: seq<Owned>, i: nat): seq<Owned>
    requires i < |owned|
  {
    owned[i := owned[|owned| - 1]][..|owned| - 1]
  }

  lemma TracksRemoved(a: Blocks, base: Address, owned: seq<Owned>, k: nat)
    requires Tracks(a, base, owned) && k < |owned|
    ensures base < owned[k].p && Tracks(a - {owned[k].p - base - 1}, base, SwapRemove(owned, k))
  {
    var rest, last := SwapRemove(owned, k), |owned| - 1;
    var b := a - {owned[k].p - base - 1};
    assert TrackedAt(a, base, owned, k);
    forall i: nat | i < |rest| ensures TrackedAt(b, base, rest, i) {
      var j := if i == k then last else i;
      assert TrackedAt(a, base, owned, j) && DistinctAt(owned, j, k);
    }
    forall i: nat, j: nat | i < |rest| && j < |rest| ensures DistinctAt(rest, i, j) {
      assert DistinctAt(owned, if i == k then last else i, if j == k then last else j);
    }
  }

  /** Only the block of entry `k` has new contents. */
  lemma TracksUpdated(a: Blocks, b: Blocks, base: Address, owned: seq<Owned>, k: nat)
    requires Tracks(a, base, owned) && k < |owned|
    requires base < owned[k].p && owned[k].p - base - 1 in b
    requires b == a[owned[k].p - base - 1 := b[owned[k].p - base - 1]]
    ensures Tracks(b, base, owned[k := owned[k].(data := b[owned[k].p - base - 1])])
  {
    var updated := owned[k := owned[k].(data := b[owned[k].p - base - 1])];
    forall i: nat | i < |updated| ensures TrackedAt(b, base, updated, i) {
      assert TrackedAt(a, base, owned, i) && DistinctAt(owned, i, k);
    }
    forall i: nat, j: nat | i < |updated| && j < |updated| ensures DistinctAt(updated, i, j) {
      assert DistinctAt(owned, i, j);
    }
  }

  lemma TrackedBlock(a: Blocks, base: Address, owned: seq<Owned>, i: nat)
    requires Tracks(a, base, owned) && i < |owned|
    ensures base < owned[i].p && owned[i].p - base - 1 in a && a[owned[i].p - base - 1] == owned[i].data
  {
    assert TrackedAt(a, base, owned, i);
  }

  /** Before initialisation there is nothing to track. */
  lemma TracksNothing(base: Address, owned: seq<Owned>)
    requires Tracks(map[], base, owned)
    ensures owned == []
  {
    if owned != [] { TrackedBlock(map[], base, owned, 0); }
  }

  // ---- the harness ----

  /** What the owner of a tracked block may do and see. */
  lemma Owner(a: Allocator, p: Address)
    requires a.Valid() && a.baseAddress < p && p - a.baseAddress - 1 in BlocksOf(a)
    ensures a.IsLive(p) && LivePointer(a.View(), p) && HeapOk(a.View())
    ensures a.Block(p) == p - a.baseAddress - 1 && ContentsAt(a.View(), p) == BlocksOf(a)[a.Block(p)]
    ensures a.chunks[a.Block(p)].size == |BlocksOf(a)[a.Block(p)]| + 1 < SPACE_LIMIT
  {
    hide HeapOk, Untouched, Abs, PayloadAt;
    a.ViewSized();
    AbsEmpty(a.View());
    AbsLive(a.View(), p - a.baseAddress - 1);
    HeaderFacts(a.View(), p - a.baseAddress - 1);
  }

  /** `s` with the cells from `from` up to `i` filled. */
  function Filled(s: seq<Cell>, from: nat, i: nat, fill: nat -> Cell): (r: seq<Cell>)
    ensures |r| == |s|
  {
    seq(|s|, j requires 0 <= j < |s| => if from <= j < i then fill(j) else s[j])
  }

  lemma FilledStep(s: seq<Cell>, from: nat, i: nat, fill: nat -> Cell)
    requires from <= i < |s|
    ensures Filled(s, from, i, fill)[i := fill(i)] == Filled(s, from, i + 1, fill)
  {}

  /** The block at `p` of the blocks `b` is filled from cell `from` up to cell `i`. */
  ghost predicate PartFilled(a: Allocator, t: Trace, b: Blocks, p: Address, from: nat, i: nat, fill: nat -> Cell)
    reads a, a.mem, a.firstInFreeList, a.freeLists, a.freeLists.secondaryMasks
  {
    && Running(a, t) && t.hs != []
    && a.baseAddress < p && p - a.baseAddress - 1 in b && from <= i <= |b[p - a.baseAddress - 1]|
    && var o := p - a.baseAddress - 1;
    BlocksOf(a) == b[o := Filled(b[o], from, i, fill)]
  }

  method FillCell(a: Allocator, p: Address, from: nat, i: u32, fill: nat -> Cell, env: Env, ghost b: Blocks,
                  ghost t: Trace)
    returns (ghost t': Trace)
    requires PartFilled(a, t, b, p, from, i, fill) && i < |b[p - a.baseAddress - 1]| && a.EnvOk(env)
    modifies a`lists, a`seen, a`callHeap, a`callTarget, a`chunks, a`allocatedSpace, a`baseAddress
    modifies a.mem, a.firstInFreeList, a.freeLists`primaryMask, a.freeLists`members, a.freeLists.secondaryMasks
    ensures a.baseAddress == old(a.baseAddress) && PartFilled(a, t', b, p, from, i + 1, fill)
    ensures t.hs != [] && t'.hs != [] && t'.hs[0] == t.hs[0] && CallsOf(t'.es) == CallsOf(t.es)
  {
    hide ConfigOk, Running, BlocksOf, AbsStep, Filled, HeapOk, Untouched, PayloadAt, CallsOf, ContentsAt;
    ghost var o := p - a.baseAddress - 1;
    RunningValid(a, t);
    Owner(a, p);
    var r;
    r, t' := Call(a, UserStore(p, i, fill(i)), env, t);
    ghost var e := Event(UserStore(p, i, fill(i)), env, r, a.seen);
    Stored(BlocksOf(a), b, a.baseAddress, e, Filled(b[o], from, i, fill));
    FilledStep(b[o], from, i, fill);
  }

  /** The user fills a block from cell `from` on. */
  method Fill(a: Allocator, p: Address, from: nat, fill: nat -> Cell, env: Env, ghost t: Trace)
    returns (ghost t': Trace)
    requires Running(a, t) && a.EnvOk(env) && t.hs != []
    requires a.baseAddress < p && p - a.baseAddress - 1 in BlocksOf(a) && from <= |BlocksOf(a)[p - a.baseAddress - 1]|
    modifies a`lists, a`seen, a`callHeap, a`callTarget, a`chunks, a`allocatedSpace, a`baseAddress
    modifies a.mem, a.firstInFreeList, a.freeLists`primaryMask, a.freeLists`members, a.freeLists.secondaryMasks
    ensures Running(a, t') && t'.hs != [] && t'.hs[0] == t.hs[0] && a.baseAddress == old(a.baseAddress)
    ensures var o, b := p - a.baseAddress - 1, old(BlocksOf(a));
      BlocksOf(a) == b[o := Filled(b[o], from, |b[o]|, fill)]
    ensures CallsOf(t'.es) == CallsOf(t.es)
  {
    hide ConfigOk, Running, BlocksOf, AbsStep, Filled, HeapOk, Untouched, PayloadAt, CallsOf, ContentsAt;
    ghost var b, o := BlocksOf(a), p - a.baseAddress - 1;
    RunningValid(a, t);
    Owner(a, p);
    var n := a.UsableSize(p);
    t' := t;
    var i := from;
    FilledNone(b[o], from, fill);
    while i < n
      invariant from <= i <= n && PartFilled(a, t', b, p, from, i, fill) && t'.hs[0] == t.hs[0]
      invariant a.baseAddress == old(a.baseAddress) && a.EnvOk(env) && CallsOf(t'.es) == CallsOf(t.es)
    {
      t' := FillCell(a, p, from, i, fill, env, b, t');
      i := i + 1;
    }
  }

  lemma RunningValid(a: Allocator, t: Trace)
    requires Running(a, t)
    ensures a.Valid()
  {}

  lemma FilledNone(s: seq<Cell>, from: nat, fill: nat -> Cell)
    ensures Filled(s, from, from, fill) == s
  {}

  lemma Stored(c: Blocks, b: Blocks, base: Address, e: Event, s: seq<Cell>)
    requires e.op.UserStore? && base < e.op.p && e.op.i < |s| && AbsStep(b[e.op.p - base - 1 := s], c, base, e)
    ensures c == b[e.op.p - base - 1 := s[e.op.i := e.op.cell]]
  {}

  /** `allocations` and `alive_addresses`. */
  datatype Harness = Harness(owned: seq<Owned>, alive: set<Address>)

  ghost predicate Alive(owned: seq<Owned>, alive: set<Address>) {
    forall p {:trigger p in alive} :: p in alive <==> exists i: nat :: i < |owned| && owned[i].p == p
  }

  lemma AliveNew(owned: seq<Owned>, alive: set<Address>, entry: Owned)
    requires Alive(owned, alive)
    ensures Alive(owned + [entry], alive + {entry.p})
  {
    var all := owned + [entry];
    forall p ensures p in alive + {entry.p} <==> exists i: nat :: i < |all| && all[i].p == p {
      if i: nat :| i < |owned| && owned[i].p == p { assert all[i].p == p; }
      assert all[|owned|].p == entry.p;
    }
  }

  lemma AliveRemoved(owned: seq<Owned>, alive: set<Address>, k: nat)
    requires Alive(owned, alive) && k < |owned|
    requires Distinct(owned)
    ensures owned[k].p in alive && Alive(SwapRemove(owned, k), alive - {owned[k].p})
  {
    var rest, last := SwapRemove(owned, k), |owned| - 1;
    forall p ensures p in alive - {owned[k].p} <==> exists i: nat :: i < |rest| && rest[i].p == p {
      if i: nat :| i < |owned| && owned[i].p == p {
        assert p == owned[k].p || i != k;
        if i != k { assert rest[if i == last then k else i].p == p; }
      }
      if i: nat :| i < |rest| && rest[i].p == p {
        assert DistinctAt(owned, if i == k then last else i, k);
      }
    }
  }

  lemma AliveSame(owned: seq<Owned>, alive: set<Address>, k: nat, data: seq<Cell>)
    requires Alive(owned, alive) && k < |owned|
    ensures Alive(owned[k := owned[k].(data := data)], alive)
  {
    var updated := owned[k := owned[k].(data := data)];
    forall p ensures p in alive <==> exists i: nat :: i < |updated| && updated[i].p == p {
      if i: nat :| i < |owned| && owned[i].p == p { assert updated[i].p == p; }
      if i: nat :| i < |updated| && updated[i].p == p { assert owned[i].p == p; }
    }
  }

  ghost predicate Fine(a: Allocator, t: Trace, s: Harness)
    reads a, a.mem, a.firstInFreeList, a.freeLists, a.freeLists.secondaryMasks
  {
    Running(a, t) && t.hs != [] && Tracks(BlocksOf(a), a.baseAddress, s.owned) && Alive(s.owned, s.alive)
  }

  /** The block of an entry holds the expected data. */
  lemma OwnerAt(a: Allocator, t: Trace, owned: seq<Owned>, i: nat)
    requires Running(a, t) && Tracks(BlocksOf(a), a.baseAddress, owned) && i < |owned|
    ensures a.Valid() && a.baseAddress < owned[i].p && owned[i].p - a.baseAddress - 1 in BlocksOf(a)
    ensures BlocksOf(a)[owned[i].p - a.baseAddress - 1] == owned[i].data
    ensures a.IsLive(owned[i].p) && LivePointer(a.View(), owned[i].p)
    ensures ContentsAt(a.View(), owned[i].p) == owned[i].data
  {
    hide HeapOk, Untouched, Abs, PayloadAt;
    TrackedBlock(BlocksOf(a), a.baseAddress, owned, i);
    Owner(a, owned[i].p);
  }

  method FuzzFreeOp(a: Allocator, index: nat, s: Harness, env: Env, ghost t: Trace)
    returns (passed: bool, s': Harness, r: Result, ghost t': Trace)
    requires Fine(a, t, s) && a.EnvOk(env)
    modifies a`lists, a`seen, a`callHeap, a`callTarget, a`chunks, a`allocatedSpace, a`baseAddress
    modifies a.mem, a.firstInFreeList, a.freeLists`primaryMask, a.freeLists`members, a.freeLists.secondaryMasks
    ensures passed && Fine(a, t', s') && t'.hs[0] == t.hs[0]
    ensures s.owned == [] ==> s' == s && Did(t, t', None, env, r)
    ensures s.owned != [] ==>
      var i := index % |s.owned|;
      && Did(t, t', Some(Free(s.owned[i].p)), env, r)
      && s'.owned == SwapRemove(s.owned, i) && s'.alive == s.alive - {s.owned[i].p}
  {
    hide Did, CallsOf, Allocator.Valid, Running, BlocksOf, HeapOk, Untouched, TrackedAt, Alive, SwapRemove;
    if |s.owned| == 0 {
      DidNothing(t, env, Nothing);
      return true, s, Nothing, t;
    }
    var i := index % |s.owned|;
    var entry := s.owned[i];
    AliveRemoved(s.owned, s.alive, i);
    passed := entry.p in s.alive;
    s' := Harness(SwapRemove(s.owned, i), s.alive - {entry.p});
    OwnerAt(a, t, s.owned, i);
    var found := a.Slice(entry.p);
    passed := passed && found == entry.data;
    TracksRemoved(BlocksOf(a), a.baseAddress, s.owned, i);
    r, t' := Call(a, Free(entry.p), env, t);
    DidCall(t, t', Event(Free(entry.p), env, r, a.seen));
  }

  lemma Reshrunk(a: Blocks, b: Blocks, base: Address, e: Event, data: seq<Cell>)
    requires e.op.Shrink? && e.op.size > 0 && AbsStep(a, b, base, e)
    requires base < e.op.p && e.op.p - base - 1 in a && a[e.op.p - base - 1] == data
    ensures b == a[e.op.p - base - 1 := Truncated(data, e.op.size)]
  {}

  method FuzzShrinkOp(a: Allocator, index: nat, size: u16, s: Harness, env: Env, ghost t: Trace)
    returns (passed: bool, s': Harness, r: Result, ghost t': Trace)
    requires Fine(a, t, s) && a.EnvOk(env)
    modifies a`lists, a`seen, a`callHeap, a`callTarget, a`chunks, a`allocatedSpace, a`baseAddress
    modifies a.mem, a.firstInFreeList, a.freeLists`primaryMask, a.freeLists`members, a.freeLists.secondaryMasks
    ensures passed && Fine(a, t', s') && t'.hs[0] == t.hs[0]
    ensures s.owned == [] ==> s' == s && Did(t, t', None, env, r)
    ensures s.owned != [] ==>
      var i := index % |s.owned|;
      && Did(t, t', Some(Shrink(s.owned[i].p, Units(size + 1))), env, r)
      && s' == s.(owned := s.owned[i := s.owned[i].(data := Truncated(s.owned[i].data, Units(size + 1)))])
  {
    hide AbsStep, ContentsAt, Did, CallsOf, Allocator.Valid, Running, BlocksOf, HeapOk, Untouched, Tracks, Alive;
    var units := FromBytes(size + 1).value;
    if |s.owned| == 0 {
      DidNothing(t, env, Nothing);
      return true, s, Nothing, t;
    }
    var i := index % |s.owned|;
    var entry := s.owned[i];
    OwnerAt(a, t, s.owned, i);
    var found := a.Slice(entry.p);
    passed := found == entry.data;
    var data := Truncated(entry.data, units);
    ghost var b, o := BlocksOf(a), entry.p - a.baseAddress - 1;
    r, t' := Call(a, Shrink(entry.p, units), env, t);
    Reshrunk(b, BlocksOf(a), a.baseAddress, Event(Shrink(entry.p, units), env, r, a.seen), entry.data);
    TracksUpdated(b, BlocksOf(a), a.baseAddress, s.owned, i);
    AliveSame(s.owned, s.alive, i, data);
    s' := s.(owned := s.owned[i := entry.(data := data)]);
    OwnerAt(a, t', s'.owned, i);
    found := a.Slice(entry.p);
    passed := passed && found == data;
    DidCall(t, t', Event(Shrink(entry.p, units), env, r, a.seen));
  }

  lemma GrownData(p: Address, data: seq<Cell>, cells: seq<Cell>, refill: Filling, fill: nat -> Cell)
    requires CommonPrefix(data, cells) && |data| <= |cells| && forall j: nat :: fill(j) == refill(p, j)
    ensures Filled(cells, |data|, |cells|, fill) == Lengthened(p, data, |cells|, refill)
  {}

  lemma Regrown(a: Blocks, b: Blocks, base: Address, e: Event, data: seq<Cell>)
    requires e.op.Grow? && AbsStep(a, b, base, e)
    requires base < e.op.p && e.op.p - base - 1 in a && a[e.op.p - base - 1] == data
    ensures e.result.Size?
    ensures e.result.n == None || e.result.n.value == |data| ==> b == a
    ensures e.result.n != None && e.result.n.value != |data| ==>
      var o := e.op.p - base - 1;
      && o in b && |data| < e.result.n.value == |b[o]|
      && b == a[o := b[o]] && CommonPrefix(data, b[o])
  {}

  method FuzzGrowOp(a: Allocator, index: nat, size: u16, refill: Filling, s: Harness, env: Env,
                    ghost t: Trace)
    returns (passed: bool, s': Harness, r: Result, ghost t': Trace)
    requires Fine(a, t, s) && a.EnvOk(env)
    modifies a`lists, a`seen, a`callHeap, a`callTarget, a`chunks, a`allocatedSpace, a`baseAddress
    modifies a.mem, a.firstInFreeList, a.freeLists`primaryMask, a.freeLists`members, a.freeLists.secondaryMasks
    ensures passed && Fine(a, t', s') && t'.hs[0] == t.hs[0]
    ensures s.owned == [] ==> s' == s && Did(t, t', None, env, r)
    ensures s.owned != [] ==>
      var i := index % |s.owned|;
      var entry := s.owned[i];
      && r.Size? && Did(t, t', Some(Grow(entry.p, Units(size + 1))), env, r)
      && s' == if r.n == None then s
               else s.(owned := s.owned[i := entry.(data := Lengthened(entry.p, entry.data, r.n.value, refill))])
  {
    hide Did, CallsOf, Allocator.Valid, Running, BlocksOf, HeapOk, Untouched, Tracks, Alive, Filled, CommonPrefix;
    hide AbsStep, ContentsAt;
    var units := FromBytes(size + 1).value;
    if |s.owned| == 0 {
      DidNothing(t, env, Nothing);
      return true, s, Nothing, t;
    }
    var i := index % |s.owned|;
    var p, oldData := s.owned[i].p, s.owned[i].data;
    OwnerAt(a, t, s.owned, i);
    ghost var b, o := BlocksOf(a), p - a.baseAddress - 1;
    r, t' := Call(a, Grow(p, units), env, t);
    ghost var e := Event(Grow(p, units), env, r, a.seen);
    Regrown(b, BlocksOf(a), a.baseAddress, e, oldData);
    DidCall(t, t', e);
    ghost var u := t';
    passed, s' := true, s;
    if r.n == None || r.n.value == |oldData| {
      assert Lengthened(p, oldData, |oldData|, refill) == oldData;
      return;
    }
    var newSize := r.n.value;
    ghost var c := BlocksOf(a);
    var fill := (j: nat) => refill(p, j);
    GrownData(p, oldData, c[o], refill, fill);
    t' := Fill(a, p, |oldData|, fill, env, t');
    var data := Lengthened(p, oldData, newSize, refill);
    assert BlocksOf(a) == b[o := data];
    TracksUpdated(b, BlocksOf(a), a.baseAddress, s.owned, i);
    AliveSame(s.owned, s.alive, i, data);
    s' := s.(owned := s.owned[i := Owned(p, data)]);
    OwnerAt(a, t', s'.owned, i);
    var found := a.Slice(p);
    passed := found == data;
    DidMore(t, u, t', Some(e.op), env, r);
  }

  /** `next_power_of_two`. */
  function NextPowerOfTwo(x: nat): (p: nat)
    ensures IsPow2(p) && x <= p && (p < 2 * x || p == 1)
  {
    if x <= 1 then 1 else 2 * NextPowerOfTwo((x + 1) / 2)
  }

  lemma NextPowerOfTwoBound(x: u16)
    ensures NextPowerOfTwo(x) <= 0x1_0000
  {
    if NextPowerOfTwo(x) > 0x1_0000 { Pow2Gap(NextPowerOfTwo(x)); }
  }

  lemma Pow2Gap(p: nat)
    requires IsPow2(p) && p > 0x1_0000
    ensures p >= 0x2_0000
  {
    var k := IsPow2Log(p);
    assert Pow2(8) == 256;
    Pow2Add(8, 8);
    Pow2Add(16, 1);
    if k <= 16 { Pow2Mono(k, 16); } else { Pow2Mono(17, k); }
  }

  /** Allocates a zeroed block and makes the checks on a new block. */
  method ZeroedBlock(a: Allocator, align: u16, size: u16, env: Env, ghost t: Trace)
    returns (passed: bool, p: Option<Address>, ghost t': Trace)
    requires Running(a, t) && t.hs != [] && a.EnvOk(env)
    modifies a`lists, a`seen, a`callHeap, a`callTarget, a`chunks, a`allocatedSpace, a`baseAddress
    modifies a.mem, a.firstInFreeList, a.freeLists`primaryMask, a.freeLists`members, a.freeLists.secondaryMasks
    ensures passed && Running(a, t') && t'.hs != [] && t'.hs[0] == t.hs[0]
    ensures old(a.baseAddress) != 0 ==> a.baseAddress == old(a.baseAddress)
    ensures p == None ==> BlocksOf(a) == old(BlocksOf(a))
    ensures var bytes := if size == 0 then 1 else size;
      Did(t, t', Some(Alloc(Units(NextPowerOfTwo(align)), Units(bytes), true)), env, Pointer(p))
    ensures p != None ==>
      var o, bytes := p.value - a.baseAddress - 1, if size == 0 then 1 else size;
      && (32 * (p.value as int)) % NextPowerOfTwo(align) == 0 && bytes <= 32 * Units(bytes)
      && o >= 0 && NewBlock(old(BlocksOf(a)), BlocksOf(a), o, Units(bytes)) && o in BlocksOf(a)
      && |BlocksOf(a)[o]| == Units(bytes) && forall x | 0 <= x < Units(bytes) :: BlocksOf(a)[o][x] == ZERO_CELL
  {
    hide Did, CallsOf, Allocator.Valid, Running, BlocksOf, HeapOk, Untouched, IsPow2, Abs, PayloadAt, Aligned, NewBlock;
    hide AllZero, AbsStep;
    var bytes := if size == 0 then 1 else size;
    var alignment := NextPowerOfTwo(align);
    NextPowerOfTwoBound(align);
    var alignUnits, units := FromBytes(alignment).value, FromBytes(bytes).value;
    FromBytesCovers(bytes);
    ghost var b := BlocksOf(a);
    var r;
    r, t' := Call(a, Alloc(alignUnits, units, true), env, t);
    GotBlock(b, BlocksOf(a), a.baseAddress, Event(Alloc(alignUnits, units, true), env, r, a.seen));
    p := r.p;
    DidCall(t, t', Event(Alloc(alignUnits, units, true), env, r, a.seen));
    if p == None {
      return true, None, t';
    }
    passed := (32 * (p.value as int)) % alignment == 0;
    assert passed by { AlignedBytes(alignment, p.value); }
    RunningValid(a, t');
    Owner(a, p.value);
    var usable := a.UsableSize(p.value);
    passed := passed && 32 * usable >= bytes;
    var found := a.Slice(p.value);
    passed := passed && AllZero(found);
    ZeroCells(found);
  }

  lemma ZeroCells(s: seq<Cell>)
    ensures AllZero(s) ==> forall x | 0 <= x < |s| :: s[x] == ZERO_CELL
  {}

  lemma AlignedBytes(align: nat, p: Address)
    requires IsPow2(align) && align <= 0x1_0000 && FromBytes(align).Some?
    requires FromBytes(align).value > 0 && Aligned(p, FromBytes(align).value)
    ensures align > 0 && (32 * (p as int)) % align == 0
  {
    ByteAlignment(align, p);
  }

  lemma GotBlock(a: Blocks, b: Blocks, base: Address, e: Event)
    requires e.op.Alloc? && e.op.zeroed && AbsStep(a, b, base, e)
    ensures e.result.Pointer?
    ensures e.result.p.None? ==> b == a
    ensures e.result.p.Some? ==>
      var p := e.result.p.value;
      && base < p && e.op.align > 0 && Aligned(p, e.op.align) && NewBlock(a, b, p - base - 1, e.op.size)
      && p - base - 1 in b && |b[p - base - 1]| == e.op.size && AllZero(b[p - base - 1])
  {}

  /** Filling a new block leaves it a new block. */
  lemma NewBlockFilled(a: Blocks, b: Blocks, c: Blocks, o: nat, n: nat)
    requires NewBlock(a, b, o, n) && o in c && |c[o]| == n && c == b[o := c[o]]
    ensures NewBlock(a, c, o, n)
  {}

  lemma FilledNew(p: Address, cells: seq<Cell>, fill: Filling, f: nat -> Cell)
    requires forall i: nat :: f(i) == fill(p, i)
    ensures Filled(cells, 0, |cells|, f) == NewData(p, |cells|, fill)
  {}

  lemma FineNew(a: Allocator, t: Trace, s: Harness, b: Blocks, p: Address, n: nat, data: seq<Cell>)
    requires Running(a, t) && t.hs != [] && Alive(s.owned, s.alive)
    requires Tracks(b, a.baseAddress, s.owned) && a.baseAddress < p
    requires NewBlock(b, BlocksOf(a), p - a.baseAddress - 1, n) && p - a.baseAddress - 1 in BlocksOf(a)
    requires data == BlocksOf(a)[p - a.baseAddress - 1]
    ensures Fine(a, t, Harness(s.owned + [Owned(p, data)], s.alive + {p}))
  {
    hide Running, BlocksOf, Tracks, Alive, NewBlock;
    TracksNew(b, BlocksOf(a), a.baseAddress, s.owned, p, n);
    AliveNew(s.owned, s.alive, Owned(p, data));
  }

  method FuzzAllocOp(a: Allocator, align: u16, size: u16, fill: Filling, s: Harness, env: Env,
                     ghost t: Trace)
    returns (passed: bool, s': Harness, r: Result, ghost t': Trace)
    requires Fine(a, t, s) && a.EnvOk(env)
    modifies a`lists, a`seen, a`callHeap, a`callTarget, a`chunks, a`allocatedSpace, a`baseAddress
    modifies a.mem, a.firstInFreeList, a.freeLists`primaryMask, a.freeLists`members, a.freeLists.secondaryMasks
    ensures passed && Fine(a, t', s') && t'.hs[0] == t.hs[0]
    ensures var bytes := if size == 0 then 1 else size;
      && Did(t, t', Some(Alloc(Units(NextPowerOfTwo(align)), Units(bytes), true)), env, r) && r.Pointer?
      && (r.p == None ==> s' == s)
      && (r.p != None ==>
            s' == Harness(s.owned + [Owned(r.p.value, NewData(r.p.value, Units(bytes), fill))], s.alive + {r.p.value}))
  {
    hide CallsOf, Allocator.Valid, Running, BlocksOf, HeapOk, Untouched, Tracks, Alive, Filled, Abs;
    hide ContentsAt, NewBlock, Did;
    ghost var b := BlocksOf(a);
    RunningValid(a, t);
    if a.baseAddress == 0 { NoBlocksYet(a, s.owned); }
    var block;
    passed, block, t' := ZeroedBlock(a, align, size, env, t);
    r := Pointer(block);
    if s.owned == [] { TracksEmpty(b, a.baseAddress); }
    if block == None {
      return passed, s, r, t';
    }
    var p := block.value;
    ghost var c, o, u := BlocksOf(a), p - a.baseAddress - 1, t';
    t' := Fill(a, p, 0, (i: nat) => fill(p, i), env, t');
    ghost var n := |c[o]|;
    NewBlockFilled(b, c, BlocksOf(a), o, n);
    FilledNew(p, c[o], fill, (i: nat) => fill(p, i));
    RunningValid(a, t');
    Owner(a, p);
    var data := a.Slice(p);
    FineNew(a, t', s, b, p, n, data);
    DidMore(t, u, t', Some(Alloc(Units(NextPowerOfTwo(align)), Units(if size == 0 then 1 else size), true)), env, r);
    s' := Harness(s.owned + [Owned(p, data)], s.alive + {p});
  }

  lemma NoBlocksYet(a: Allocator, owned: seq<Owned>)
    requires a.baseAddress == 0 && a.Valid() && Tracks(BlocksOf(a), 0, owned)
    ensures owned == []
  {
    hide Abs, HeapOk, Untouched;
    AbsEmpty(a.View());
    TracksNothing(0, owned);
  }

  lemma TracksEmpty(a: Blocks, base: Address)
    ensures Tracks(a, base, [])
  {}

  /** The harness on a new allocator, with an environment for every operation: every check
      passes; what was performed is a run whose calls are those that the operations make, each
      on the block that the harness picks; and in the end every block has the data it should. */
  method Fuzz(totalSpace: u32, wide: bool, ops: seq<(FuzzOp, Env)>,
              fill: Filling, refill: Filling) returns (passed: bool, ghost rs: seq<Result>, ghost t: Trace)
    requires 0 < totalSpace < SPACE_LIMIT
    requires forall op <- ops :: op.1.base + totalSpace < 0x800_0000_0000_0000
    ensures passed && |rs| == |ops| && MadeBy(CallsOf(t.es)) == Expected(ops, rs, fill, refill)
    ensures Run(t.hs, t.es) && StateOk(t.hs[0]) && t.hs[0].l.base == 0
    ensures Tracks(Abs(t.hs[|t.es|]), t.hs[|t.es|].l.base, Held(ops, rs, fill, refill))
  {
    hide HeapOk, Untouched, Abs, StateOk, Run;
    var a := NewAllocator(totalSpace, wide);
    passed, rs, t := FuzzWith(a, ops, fill, refill);
  }

  method FuzzAnyOp(a: Allocator, op: FuzzOp, fill: Filling, refill: Filling, s: Harness, env: Env, ghost t: Trace)
    returns (passed: bool, s': Harness, r: Result, ghost t': Trace)
    requires Fine(a, t, s) && a.EnvOk(env)
    modifies a`lists, a`seen, a`callHeap, a`callTarget, a`chunks, a`allocatedSpace, a`baseAddress
    modifies a.mem, a.firstInFreeList, a.freeLists`primaryMask, a.freeLists`members, a.freeLists.secondaryMasks
    ensures passed && Fine(a, t', s') && t'.hs[0] == t.hs[0]
    ensures Did(t, t', CallOf(s.owned, op), env, r) && s'.owned == HeldAfter(s.owned, op, r, fill, refill)
  {
    hide Did, CallsOf, Running, BlocksOf, HeapOk, Untouched, Tracks, Alive, Truncated, Lengthened, NewData, SwapRemove;
    hide Units;
    match op {
      case FuzzAlloc(align, size) => passed, s', r, t' := FuzzAllocOp(a, align, size, fill, s, env, t);
      case FuzzFree(index) => passed, s', r, t' := FuzzFreeOp(a, index, s, env, t);
      case FuzzShrink(index, size) => passed, s', r, t' := FuzzShrinkOp(a, index, size, s, env, t);
      case FuzzGrow(index, size) => passed, s', r, t' := FuzzGrowOp(a, index, size, refill, s, env, t);
    }
  }

  method FuzzWith(a: Allocator, ops: seq<(FuzzOp, Env)>, fill: Filling, refill: Filling)
    returns (passed: bool, ghost rs: seq<Result>, ghost t: Trace)
    requires a.Valid() && forall op <- ops :: a.EnvOk(op.1)
    modifies a`lists, a`seen, a`callHeap, a`callTarget, a`chunks, a`allocatedSpace, a`baseAddress
    modifies a.mem, a.firstInFreeList, a.freeLists`primaryMask, a.freeLists`members, a.freeLists.secondaryMasks
    ensures passed && |rs| == |ops| && MadeBy(CallsOf(t.es)) == Expected(ops, rs, fill, refill)
    ensures Tracks(BlocksOf(a), a.baseAddress, Held(ops, rs, fill, refill))
    ensures a.View().l.base == a.baseAddress
    ensures a.Valid() && Run(t.hs, t.es) && t.hs[0] == old(a.View()) && t.hs[|t.es|] == a.View()
  {
    hide Allocator.Valid, Running, BlocksOf, HeapOk, Untouched, Tracks, Alive, Abs, HeldAfter, CallOf, CallsOf, MadeBy;
    var s := Harness([], {});
    t := Started(a);
    NothingMade(fill, refill);
    TracksEmpty(BlocksOf(a), a.baseAddress);
    passed, rs := true, [];
    assert Alive([], {}) by { NoneAlive(); }
    var i := 0;
    while i < |ops|
      invariant i <= |ops| && passed && Fine(a, t, s) && t.hs[0] == old(a.View())
      invariant |rs| == i && s.owned == Held(ops[..i], rs, fill, refill)
      invariant MadeBy(CallsOf(t.es)) == Expected(ops[..i], rs, fill, refill)
    {
      var ok, r;
      ghost var before, owned := t, s.owned;
      var env := ops[i].1;
      ok, s, r, t := FuzzAnyOp(a, ops[i].0, fill, refill, s, env, t);
      passed := passed && ok;
      ExpectedMore(ops, i, rs, r, fill, refill);
      rs := rs + [r];
      i := i + 1;
    }
    assert ops[..i] == ops;
    Ended(a, t);
  }

  lemma NothingMade(fill: Filling, refill: Filling)
    ensures MadeBy(CallsOf([])) == Expected([], [], fill, refill)
  {}

  lemma NoneAlive()
    ensures Alive([], {})
  {}

  lemma Started(a: Allocator) returns (t: Trace)
    requires a.Valid()
    ensures Running(a, t) && t.hs != [] && t.hs[0] == a.View() && t.es == []
  {
    hide HeapOk, Untouched;
    a.ViewSized();
    t := Trace([a.View()], []);
    TraceStart(a.View());
  }

  lemma Ended(a: Allocator, t: Trace)
    requires Running(a, t)
    ensures a.Valid() && Run(t.hs, t.es) && t.hs[|t.es|] == a.View() && a.View().l.base == a.baseAddress
  {
    hide HeapOk, Untouched, Run;
  }
}
