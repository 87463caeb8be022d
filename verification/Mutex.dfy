/** The spin lock around the allocator (src/mutex.rs:27-43), as a machine over any number of
    threads. Calls take the lock, read and store one cell at a time in the shared memory, and
    release it; meanwhile the owners of blocks store to their payloads without the lock. */
module Mutexes {
  import opened Wrappers
  import opened Bins
  import opened Sizes
  import opened Partition
  import opened FreeLists
  import opened Heaps
  import opened Operations
  import opened Effects
  import opened Payloads
  import opened Allocation
  import opened Reads
  import opened Runs
  import opened Stores
  import opened Progress

  type Tid = nat

  datatype Thread =
    | Idle
    | Waiting(op: Op)                                                             // spinning in `lock`
    | Working(e: Event, before: Heap, after: Heap, done: nat, saw: seq<Cell>)     // holds the guard

  /** The flag, the memory and the threads; which thread owns which block; the calls that
      returned, with what they read; and, to compare with, the sequential run in lock order. */
  datatype Machine = Machine(flag: bool, mem: seq<Cell>, threads: map<Tid, Thread>, owner: map<Address, Tid>,
                             heap: Heap, past: Trace, returned: seq<Event>)

  datatype Move =
    | Call(t: Tid, op: Op)
    | Spin(t: Tid)
    | Acquire(t: Tid, e: Event, k: Heap)
    | Look(t: Tid)
    | Put(t: Tid)
    | Stray(t: Tid)
    | Release(t: Tid)
    | Write(t: Tid, p: Address, i: u32, cell: Cell)
    | Hand(t: Tid, p: Address, u: Tid)

  const NO_ENV: Env := Env(0, (end: u32) => false, (end: u32) => false)

  // ---- the moves ----

  /** The safety contract of the operations: a thread calls on its own blocks only. */
  ghost predicate Callable(owner: map<Address, Tid>, t: Tid, op: Op) {
    && !op.UserStore? && (op.Shrink? ==> op.size < 0xFFFF_FFFF)
    && (!op.Alloc? ==> op.p in owner && owner[op.p] == t)
  }

  /** Who owns what after a call returned: only its result tells the caller. */
  ghost function Settled(owner: map<Address, Tid>, t: Tid, e: Event): map<Address, Tid> {
    match e.op
    case Alloc(_, _, _) =>
      if e.result.Pointer? && e.result.p.Some? then owner[e.result.p.value := t] else owner
    case Free(p) => owner - {p}
    case Shrink(p, n) => if n == 0 then owner - {p} else owner
    case Grow(_, _) => owner
    case Realloc(p, _, n) =>
      if e.result.Pointer? && e.result.p.Some? then (owner - {p})[e.result.p.value := t]
      else if n == 0 then owner - {p} else owner
    case UserStore(_, _, _) => owner
  }

  ghost function Stored(mem: seq<Cell>, x: nat, cell: Cell): seq<Cell> {
    if x < |mem| then mem[x := cell] else mem
  }

  ghost function Loaded(mem: seq<Cell>, x: nat): Cell {
    if x < |mem| then mem[x] else ZERO_CELL
  }

  /** A call with the cells that its reads met. */
  ghost function Witnessed(e: Event, saw: seq<Cell>): Event {
    e.(seen := seq(|saw|, i requires 0 <= i < |saw| =>
                     if i < |e.seen| then e.seen[i].(cell := saw[i]) else Read(0, saw[i], 0)))
  }

  ghost predicate IsIdle(m: Machine, t: Tid) {
    t in m.threads && m.threads[t].Idle?
  }

  ghost predicate Waits(m: Machine, t: Tid) {
    t in m.threads && m.threads[t].Waiting?
  }

  ghost predicate Works(m: Machine, t: Tid) {
    t in m.threads && m.threads[t].Working?
  }

  ghost function Become(m: Machine, t: Tid, th: Thread): Machine {
    m.(threads := m.threads[t := th])
  }

  /** The thread gives its idle turn up and enters `lock`. */
  ghost predicate DoCall(m: Machine, n: Machine, t: Tid, op: Op) {
    IsIdle(m, t) && Callable(m.owner, t, op) && n == Become(m, t, Waiting(op))
  }

  /** `compare_exchange_weak` fails: always when the flag is set, and now and then when not. */
  ghost predicate DoSpin(m: Machine, n: Machine, t: Tid) {
    Waits(m, t) && n == m
  }

  /** `compare_exchange_weak` succeeds. */
  ghost predicate DoAcquire(m: Machine, n: Machine, t: Tid, e: Event, k: Heap) {
    && Waits(m, t) && !m.flag && e.op == m.threads[t].op && Step(m.heap, k, e)
    && n == Become(m, t, Working(e, m.heap, k, 0, [])).(flag := true, heap := k, past := Extended(m.past, k, e))
  }

  /** The next access of the call is a read. */
  ghost predicate ReadDue(th: Thread)
    requires th.Working?
  {
    |th.saw| < |th.e.seen| && th.e.seen[|th.saw|].when == |th.before.l.log| + th.done
  }

  /** One read of the critical section, of whatever the shared memory holds. */
  ghost predicate DoLook(m: Machine, n: Machine, t: Tid) {
    && Works(m, t)
    && var th := m.threads[t];
    && ReadDue(th)
    && n == Become(m, t, th.(saw := th.saw + [Loaded(m.mem, th.e.seen[|th.saw|].at)]))
  }

  /** All reads so far met what the execution met that the thread follows. */
  ghost predicate OnTrack(th: Thread)
    requires th.Working?
  {
    |th.saw| <= |th.e.seen| && forall i | 0 <= i < |th.saw| :: th.saw[i] == th.e.seen[i].cell
  }

  /** A thread that read anything else may do anything. */
  ghost predicate DoStray(m: Machine, n: Machine, t: Tid) {
    Works(m, t) && !OnTrack(m.threads[t])
  }

  /** One store of the critical section. */
  ghost predicate DoPut(m: Machine, n: Machine, t: Tid) {
    && Works(m, t)
    && var th := m.threads[t];
    && !ReadDue(th) && th.done < Count(th.before, th.after)
    && var s := th.after.l.log[|th.before.l.log| + th.done];
    n == Become(m, t, th.(done := th.done + 1)).(mem := Stored(m.mem, s.at, s.cell))
  }

  /** `MutexGuard::drop`, after the last access. */
  ghost predicate DoRelease(m: Machine, n: Machine, t: Tid) {
    && Works(m, t)
    && var th := m.threads[t];
    && th.done == Count(th.before, th.after) && |th.saw| == |th.e.seen|
    && n == Become(m, t, Idle).(flag := false, owner := Settled(m.owner, t, th.e),
                                returned := m.returned + [Witnessed(th.e, th.saw)])
  }

  /** An owner stores to its block, without the lock. */
  ghost predicate DoWrite(m: Machine, n: Machine, t: Tid, p: Address, i: u32, cell: Cell) {
    && IsIdle(m, t) && p in m.owner && m.owner[p] == t
    && LivePointer(m.heap, p) && p - m.heap.l.base + i < |m.heap.l.mem|
    && i + 1 < m.heap.c[p - m.heap.l.base - 1].size
    && var x := p - m.heap.l.base + i;
    && var k := m.heap.(l := WithCell(m.heap.l, x, cell));
    && var e := Event(UserStore(p, i, cell), NO_ENV, Nothing, []);
    n == m.(mem := Stored(m.mem, x, cell), heap := k, past := Extended(m.past, k, e))
  }

  /** An owner passes a block on to another thread. */
  ghost predicate DoHand(m: Machine, n: Machine, t: Tid, p: Address, u: Tid) {
    IsIdle(m, t) && p in m.owner && m.owner[p] == t && u in m.threads && n == m.(owner := m.owner[p := u])
  }

  ghost predicate Moves(m: Machine, n: Machine, v: Move) {
    match v
    case Call(t, op) => DoCall(m, n, t, op)
    case Spin(t) => DoSpin(m, n, t)
    case Acquire(t, e, k) => DoAcquire(m, n, t, e, k)
    case Look(t) => DoLook(m, n, t)
    case Put(t) => DoPut(m, n, t)
    case Stray(t) => DoStray(m, n, t)
    case Release(t) => DoRelease(m, n, t)
    case Write(t, p, i, cell) => DoWrite(m, n, t, p, i, cell)
    case Hand(t, p, u) => DoHand(m, n, t, p, u)
  }

  ghost predicate Initial(m: Machine) {
    && !m.flag && m.owner == map[] && m.returned == []
    && (forall t <- m.threads :: m.threads[t].Idle?)
    && m.heap.l.base == 0 && StateOk(m.heap) && m.mem == m.heap.l.mem && m.past == Trace([m.heap], [])
  }

  ghost predicate MoveAt(ms: seq<Machine>, vs: seq<Move>, i: nat)
    requires i < |vs| && |ms| == |vs| + 1
  {
    Moves(ms[i], ms[i + 1], vs[i])
  }

  /** Any interleaving of the threads' moves. */
  ghost predicate Interleaving(ms: seq<Machine>, vs: seq<Move>) {
    && |ms| == |vs| + 1 && Initial(ms[0])
    && forall i: nat {:trigger MoveAt(ms, vs, i)} | i < |vs| :: MoveAt(ms, vs, i)
  }

  // ---- the invariant ----

  /** The flag is set exactly while a thread works, and at most one does. */
  ghost predicate Exclusive(m: Machine) {
    && (forall t: Tid {:trigger Works(m, t)} | Works(m, t) :: m.flag)
    && (forall t: Tid, u: Tid {:trigger Works(m, t), Works(m, u)} | Works(m, t) && Works(m, u) :: t == u)
    && (m.flag ==> exists t: Tid :: Works(m, t))
  }

  /** A thread that is in a call owns the block it calls on. */
  ghost predicate CallOk(m: Machine, t: Tid)
    requires t in m.threads
  {
    match m.threads[t]
    case Idle => true
    case Waiting(op) => Callable(m.owner, t, op)
    case Working(e, _, _, _, _) => Callable(m.owner, t, e.op)
  }

  /** The owned pointers are exactly the live ones. */
  ghost predicate OwnersMatch(owner: map<Address, Tid>, h: Heap) {
    forall p: Address {:trigger LivePointer(h, p)} {:trigger p in owner} :: p in owner <==> LivePointer(h, p)
  }

  /** With the flag clear the memory is that of the sequential run. */
  ghost predicate Quiescent(m: Machine) {
    m.mem == m.heap.l.mem && OwnersMatch(m.owner, m.heap) && CallsOf(m.past.es) == m.returned
  }

  ghost predicate ForeignIn(h: Heap, e: Event, x: nat, y: nat) {
    LiveAt(h.c, x) && !Targets(e, h.l.base, x) && x < y < x + h.c[x].size
  }

  /** `y` lies in the payload of a block that the call is not about. */
  ghost predicate Foreign(h: Heap, e: Event, y: nat) {
    exists x: nat :: ForeignIn(h, e, x, y)
  }

  /** The payloads of other blocks hold what their owners stored; every other cell is as the
      stores of this call so far left it. */
  ghost predicate CellAmid(m: Machine, th: Thread, y: nat)
    requires th.Working?
  {
    && |Snapshot(th.before, th.after, th.done)| == |m.mem| == |m.heap.l.mem| == |th.after.l.mem|
    && (y < |m.mem| ==>
          if Foreign(th.before, th.e, y) then m.mem[y] == m.heap.l.mem[y]
          else m.mem[y] == Snapshot(th.before, th.after, th.done)[y] && m.heap.l.mem[y] == th.after.l.mem[y])
  }

  /** The reads so far met what they should, and the next one is still to come. */
  ghost predicate Following(th: Thread)
    requires th.Working?
  {
    && OnTrack(th)
    && (|th.saw| < |th.e.seen| ==> |th.before.l.log| + th.done <= th.e.seen[|th.saw|].when)
  }

  ghost predicate SameShape(h: Heap, k: Heap) {
    k == h.(l := h.l.(mem := k.l.mem, log := k.l.log))
  }

  /** The state while thread `t` works. */
  ghost predicate Amid(m: Machine, t: Tid)
    requires Works(m, t)
  {
    && var th := m.threads[t];
    && StateOk(th.before) && Step(th.before, th.after, th.e) && SameShape(th.after, m.heap)
    && th.done <= Count(th.before, th.after) && Following(th)
    && (forall y: nat {:trigger CellAmid(m, th, y)} :: CellAmid(m, th, y))
    && OwnersMatch(m.owner, th.before) && OwnersMatch(Settled(m.owner, t, th.e), m.heap)
    && CallsOf(m.past.es) == m.returned + [th.e]
  }

  ghost predicate Inv(m: Machine) {
    && Traced(m.past, m.heap)
    && Exclusive(m)
    && (forall t {:trigger CallOk(m, t)} | t in m.threads :: CallOk(m, t))
    && (!m.flag ==> Quiescent(m))
    && (forall t: Tid {:trigger Amid(m, t)} | Works(m, t) :: Amid(m, t))
  }

  // ---- each move keeps it ----

  lemma InitialInv(m: Machine)
    requires Initial(m)
    ensures Inv(m)
  {
    hide StateOk;
    TraceStart(m.heap);
  }

  lemma CallInv(m: Machine, n: Machine, t: Tid, op: Op)
    requires Inv(m) && DoCall(m, n, t, op)
    ensures Inv(n)
  {
    hide Step, StateOk, Traced, OwnersMatch, SameShape, CallsOf, Callable, Settled, CellAmid;
    forall u | u in n.threads ensures CallOk(n, u) { if u != t { assert CallOk(m, u); } }
    forall u: Tid | Works(n, u) ensures u != t && Works(m, u) && Amid(n, u) { SameAmid(m, n, u); }
    if m.flag {
      var u :| Works(m, u);
      assert Works(n, u);
    }
  }

  /** What thread `t` works on does not depend on the states of the other threads. */
  lemma SameAmid(m: Machine, n: Machine, t: Tid)
    requires Works(m, t) && Amid(m, t) && n == m.(threads := n.threads) && Works(n, t) && n.threads[t] == m.threads[t]
    ensures Amid(n, t)
  {
    hide Step, StateOk, OwnersMatch, SameShape, CallsOf, Settled, Snapshot, Foreign;
    forall y: nat ensures CellAmid(n, n.threads[t], y) { assert CellAmid(m, m.threads[t], y); }
  }

  // ---- taking the lock ----

  ghost predicate MatchBlocks(owner: map<Address, Tid>, a: Blocks, base: Address) {
    forall p: Address {:trigger p in owner} :: p in owner <==> base < p && p - base - 1 in a
  }

  lemma OwnersBlocks(owner: map<Address, Tid>, h: Heap)
    requires StateOk(h)
    ensures OwnersMatch(owner, h) <==> MatchBlocks(owner, Abs(h), h.l.base)
  {
    hide HeapOk, Untouched, Abs;
    AbsEmpty(h);
    forall p: Address
      ensures LivePointer(h, p) <==> h.l.base < p && p - h.l.base - 1 in Abs(h)
    {
      if h.l.base != 0 && h.l.base < p { AbsLive(h, p - h.l.base - 1); }
    }
    if MatchBlocks(owner, Abs(h), h.l.base) {
      forall p: Address ensures p in owner <==> LivePointer(h, p) {}
    }
  }

  /** The result of a call says exactly what became of its blocks. */
  lemma SettledBlocks(owner: map<Address, Tid>, t: Tid, e: Event, a: Blocks, b: Blocks, base: Address)
    requires AbsStep(a, b, base, e) && MatchBlocks(owner, a, base) && !e.op.UserStore?
    ensures MatchBlocks(Settled(owner, t, e), b, base)
  {
    hide CommonPrefix, AllZero, Aligned, MatchBlocks;
    forall p: Address
      ensures p in Settled(owner, t, e) <==> base < p && p - base - 1 in b
    {
      SettledBlock(owner, t, e, a, b, base, p);
    }
    SettledAll(owner, t, e, b, base);
  }

  lemma SettledAll(owner: map<Address, Tid>, t: Tid, e: Event, b: Blocks, base: Address)
    requires forall p: Address :: p in Settled(owner, t, e) <==> base < p && p - base - 1 in b
    ensures MatchBlocks(Settled(owner, t, e), b, base)
  {
    hide Settled;
  }

  lemma SettledBlock(owner: map<Address, Tid>, t: Tid, e: Event, a: Blocks, b: Blocks, base: Address, p: Address)
    requires AbsStep(a, b, base, e) && MatchBlocks(owner, a, base) && !e.op.UserStore?
    ensures p in Settled(owner, t, e) <==> base < p && p - base - 1 in b
  {
    hide CommonPrefix, AllZero, Aligned, MatchBlocks;
    assert p in owner <==> base < p && p - base - 1 in a by { MatchAt(owner, a, base, p); }
    if !e.op.Alloc? { MatchAt(owner, a, base, e.op.p); }
  }

  lemma MatchAt(owner: map<Address, Tid>, a: Blocks, base: Address, p: Address)
    requires MatchBlocks(owner, a, base)
    ensures p in owner <==> base < p && p - base - 1 in a
  {}

  lemma SettledMatch(owner: map<Address, Tid>, t: Tid, e: Event, h: Heap, k: Heap)
    requires StateOk(h) && Step(h, k, e) && OwnersMatch(owner, h) && !e.op.UserStore?
    ensures OwnersMatch(Settled(owner, t, e), k)
  {
    hide StateOk, Step, OwnersMatch, Abs, AbsStep, Settled, Onward;
    StepOnward(h, k, e);
    OnwardState(h, k);
    OnwardBase(h, k);
    StepRefines(h, k, e);
    OwnersBlocks(owner, h);
    OwnersBlocks(Settled(owner, t, e), k);
    if h.l.base == 0 { AbsEmpty(h); }
    SettledBlocks(owner, t, e, Abs(h), Abs(k), k.l.base);
  }

  lemma OnwardBase(h: Heap, k: Heap)
    requires Onward(h, k)
    ensures h.l.base != 0 ==> k.l.base == h.l.base
  {}

  /** A cell of a block that the call is not about is the same before and after. */
  lemma ForeignSnapshot(h: Heap, k: Heap, e: Event, d: nat, y: nat)
    requires StateOk(h) && Step(h, k, e) && d <= Count(h, k) && Foreign(h, e, y)
    ensures y < |h.l.mem| == |Snapshot(h, k, d)| && Snapshot(h, k, d)[y] == h.l.mem[y]
  {
    hide Step, Snapshot, Continues, SparesUntargeted, Count, HeapOk, Untouched;
    var x: nat :| ForeignIn(h, e, x, y);
    LiveBased(h, x);
    HeaderFacts(h, x);
    StepStores(h, k, e);
    SnapshotSpares(h, k, e, d, x);
    var i, n := y - x - 1, h.c[x].size;
    assert Snapshot(h, k, d)[x + 1..x + n][i] == h.l.mem[x + 1..x + n][i];
  }

  lemma LiveBased(h: Heap, x: nat)
    requires StateOk(h) && LiveAt(h.c, x)
    ensures HeapOk(h) && h.l.base != 0
  {}

  lemma AcquireAmid(m: Machine, n: Machine, t: Tid, e: Event, k: Heap)
    requires Inv(m) && DoAcquire(m, n, t, e, k) && StateOk(m.heap)
    ensures Amid(n, t)
  {
    hide Step, StateOk, Traced, OwnersMatch, CallsOf, Callable, Settled, Snapshot, Foreign, Exclusive, Count;
    var h := m.heap;
    assert Callable(m.owner, t, e.op) by { assert CallOk(m, t); }
    CallIsNoStore(m.owner, t, e.op);
    SettledMatch(m.owner, t, e, h, k);
    StepStores(h, k, e);
    Snapshots(h, k);
    forall y: nat ensures CellAmid(n, n.threads[t], y) {
      if Foreign(h, e, y) { ForeignSnapshot(h, k, e, Count(h, k), y); }
    }
    CallsMore(m.past.es, e);
    StepReads(h, k, e);
  }

  /** What the log of reads of a step says. */
  lemma StepReads(h: Heap, k: Heap, e: Event)
    requires Step(h, k, e)
    ensures ReadsOk(h, TargetOf(e.op, h.l.base), k.l.mem, k.l.log, e.seen)
    ensures e.seen != [] ==> |h.l.log| <= e.seen[0].when
  {
    hide HeapOk, ConfigOk, Clear;
    if e.seen != [] { assert ReadOk(h, TargetOf(e.op, h.l.base), k.l.log, e.seen[0]); }
  }

  lemma CallIsNoStore(owner: map<Address, Tid>, t: Tid, op: Op)
    requires Callable(owner, t, op)
    ensures !op.UserStore?
  {}

  /** The snapshots begin and end with the memory before and after. */
  lemma Snapshots(h: Heap, k: Heap)
    requires Continues(h, k)
    ensures 0 <= Count(h, k) && Snapshot(h, k, 0) == h.l.mem && Snapshot(h, k, Count(h, k)) == k.l.mem
    ensures |k.l.mem| == |h.l.mem|
  {}

  lemma AcquireInv(m: Machine, n: Machine, t: Tid, e: Event, k: Heap)
    requires Inv(m) && DoAcquire(m, n, t, e, k)
    ensures Inv(n)
  {
    hide Step, StateOk, Traced, OwnersMatch, CallsOf, Callable, Settled, CellAmid, Amid, Extended;
    TracedState(m.past, m.heap);
    TraceStep(m.past, m.heap, k, e);
    AcquireAmid(m, n, t, e, k);
    forall u | u in n.threads ensures CallOk(n, u) { assert CallOk(m, u); }
    assert Works(n, t);
    forall u: Tid ensures u != t ==> !Works(n, u) { assert u != t ==> (Works(n, u) <==> Works(m, u)); }
  }

  // ---- the critical section ----

  /** No read of a call hits the payload of a block that the call is not about. */
  lemma ReadNotForeign(h: Heap, k: Heap, e: Event, i: nat)
    requires Step(h, k, e) && i < |e.seen|
    ensures !Foreign(h, e, e.seen[i].at)
  {
    hide Step;
    StepReads(h, k, e);
    var t, y := TargetOf(e.op, h.l.base), e.seen[i].at;
    assert ReadOk(h, t, k.l.log, e.seen[i]);
    forall x: nat
      ensures !ForeignIn(h, e, x, y)
    {}
  }

  /** A read meets in the shared memory what the sequential execution met. */
  lemma LookSees(m: Machine, t: Tid)
    requires Inv(m) && Works(m, t) && ReadDue(m.threads[t])
    ensures var r := m.threads[t].e.seen[|m.threads[t].saw|]; r.at < |m.mem| && m.mem[r.at] == r.cell
  {
    hide Step, StateOk, Traced, OwnersMatch, CallsOf, Callable, Settled, Exclusive, Foreign, Clear, Quiescent, CallOk;
    assert Amid(m, t);
    var th := m.threads[t];
    var i := |th.saw|;
    StepReads(th.before, th.after, th.e);
    ReadNotForeign(th.before, th.after, th.e, i);
    assert ReadOk(th.before, TargetOf(th.e.op, th.before.l.base), th.after.l.log, th.e.seen[i]);
    assert CellAmid(m, th, th.e.seen[i].at);
  }

  lemma LookFollows(m: Machine, n: Machine, t: Tid)
    requires Inv(m) && DoLook(m, n, t)
    ensures Following(n.threads[t])
  {
    hide Step, StateOk, Traced, OwnersMatch, CallsOf, Callable, Settled, Exclusive, Foreign, Clear, Quiescent, CallOk;
    hide CellAmid;
    LookSees(m, t);
    assert Amid(m, t);
    StepReads(m.threads[t].before, m.threads[t].after, m.threads[t].e);
  }

  lemma LookInv(m: Machine, n: Machine, t: Tid)
    requires Inv(m) && DoLook(m, n, t)
    ensures Inv(n)
  {
    hide Step, StateOk, Traced, OwnersMatch, CallsOf, Callable, Settled, Foreign, Snapshot, Following, ReadDue;
    LookFollows(m, n, t);
    forall u | u in n.threads ensures CallOk(n, u) { assert CallOk(m, u); }
    assert Works(n, t) && Amid(m, t);
    forall u: Tid ensures Works(n, u) <==> Works(m, u) {}
    forall y: nat ensures CellAmid(n, n.threads[t], y) { assert CellAmid(m, m.threads[t], y); }
  }

  /** A thread that holds the guard is on track and can go on. */
  lemma NeverStuck(m: Machine, t: Tid)
    requires Inv(m) && Works(m, t)
    ensures OnTrack(m.threads[t])
    ensures exists n :: DoLook(m, n, t) || DoPut(m, n, t) || DoRelease(m, n, t)
  {
    hide Step, StateOk, Traced, OwnersMatch, CallsOf, Callable, Settled, Exclusive, Foreign, Clear, Quiescent, CallOk;
    hide CellAmid;
    assert Amid(m, t);
    var th := m.threads[t];
    StepReads(th.before, th.after, th.e);
    if |th.saw| < |th.e.seen| {
      assert ReadOk(th.before, TargetOf(th.e.op, th.before.l.base), th.after.l.log, th.e.seen[|th.saw|]);
    }
    if ReadDue(th) {
      assert DoLook(m, Become(m, t, th.(saw := th.saw + [Loaded(m.mem, th.e.seen[|th.saw|].at)])), t);
    } else if th.done < Count(th.before, th.after) {
      var s := th.after.l.log[|th.before.l.log| + th.done];
      assert DoPut(m, Become(m, t, th.(done := th.done + 1)).(mem := Stored(m.mem, s.at, s.cell)), t);
    } else {
      assert DoRelease(m, Become(m, t, Idle).(flag := false, owner := Settled(m.owner, t, th.e),
                                              returned := m.returned + [Witnessed(th.e, th.saw)]), t);
    }
  }

  lemma CallableLegal(m: Machine, t: Tid)
    requires Inv(m) && Waits(m, t) && !m.flag
    ensures StateOk(m.heap) && SizedOk(m.heap) && Legal(m.heap, m.threads[t].op)
  {
    hide HeapOk, Untouched, ConfigOk, Traced, CallsOf, Amid, Exclusive;
    TracedState(m.past, m.heap);
    StateSized(m.heap);
    assert CallOk(m, t);
    var op := m.threads[t].op;
    if !op.Alloc? { assert LivePointer(m.heap, op.p); }
  }

  lemma StateSized(h: Heap)
    requires StateOk(h)
    ensures SizedOk(h)
  {
    hide Untouched, ConfigOk;
  }

  /** A thread that waits can take a clear lock, for whatever it calls and whatever the
      environment answers. */
  lemma CanAcquire(m: Machine, t: Tid, env: Env)
    requires Inv(m) && Waits(m, t) && !m.flag && env.base + |m.heap.l.mem| < 0x800_0000_0000_0000
    ensures exists e: Event, k, n :: e.env == env && DoAcquire(m, n, t, e, k)
  {
    hide Inv, StateOk, SizedOk, Legal, Step;
    CallableLegal(m, t);
    var k, e := StepExists(m.heap, m.threads[t].op, env);
    var n := Become(m, t, Working(e, m.heap, k, 0, [])).(flag := true, heap := k, past := Extended(m.past, k, e));
    assert DoAcquire(m, n, t, e, k);
  }

  ghost predicate GoesOn(m: Machine, u: Tid) {
    || (exists e, k, n :: DoAcquire(m, n, u, e, k))
    || (exists n :: DoLook(m, n, u) || DoPut(m, n, u) || DoRelease(m, n, u))
  }

  /** Whenever a thread waits, it or the holder of the guard can go on. */
  lemma NoDeadlock(m: Machine, t: Tid)
    requires Inv(m) && Waits(m, t)
    ensures exists u: Tid :: GoesOn(m, u)
  {
    hide Step, DoAcquire, DoLook, DoPut, DoRelease, Traced, Quiescent, Amid, StateOk;
    if m.flag {
      var u: Tid :| Works(m, u);
      NeverStuck(m, u);
      assert GoesOn(m, u);
    } else {
      TracedState(m.past, m.heap);
      StateSized(m.heap);
      CanAcquire(m, t, NO_ENV);
      assert GoesOn(m, t);
    }
  }

  lemma NotStray(m: Machine, n: Machine, t: Tid)
    requires Inv(m)
    ensures !DoStray(m, n, t)
  {
    hide Step, StateOk, Traced, CallsOf, Callable, Settled, Exclusive, Quiescent, CallOk, CellAmid;
    if Works(m, t) { assert Amid(m, t); }
  }

  lemma PutAmid(m: Machine, n: Machine, t: Tid)
    requires Inv(m) && DoPut(m, n, t)
    ensures Amid(n, t)
  {
    hide Step, StateOk, Traced, OwnersMatch, CallsOf, Callable, Settled, Snapshot, Exclusive;
    hide SparesUntargeted, Foreign;
    assert Amid(m, t);
    var th := m.threads[t];
    StepStores(th.before, th.after, th.e);
    assert StoreOk(th.before, th.after, th.done);
    var s := th.after.l.log[|th.before.l.log| + th.done];
    StoreNotForeign(th.before, th.after, th.e, th.done, s.at);
    assert Following(n.threads[t]);
    forall y: nat ensures CellAmid(n, n.threads[t], y) { assert CellAmid(m, th, y); }
  }

  /** No store of a call hits the payload of a block that the call is not about. */
  lemma StoreNotForeign(h: Heap, k: Heap, e: Event, d: nat, y: nat)
    requires SparesUntargeted(h, k, e) && 0 <= d < Count(h, k) && y == k.l.log[|h.l.log| + d].at
    ensures !Foreign(h, e, y)
  {
    forall x: nat
      ensures !ForeignIn(h, e, x, y)
    {
      if LiveAt(h.c, x) && !Targets(e, h.l.base, x) { assert SparedAt(h, k, d, x); }
    }
  }

  lemma PutInv(m: Machine, n: Machine, t: Tid)
    requires Inv(m) && DoPut(m, n, t)
    ensures Inv(n)
  {
    hide Step, StateOk, Traced, OwnersMatch, CallsOf, Callable, Settled, CellAmid, Amid;
    PutAmid(m, n, t);
    forall u | u in n.threads ensures CallOk(n, u) { assert CallOk(m, u); }
    assert Works(n, t);
    forall u: Tid ensures Works(n, u) <==> Works(m, u) {}
  }

  // ---- releasing the lock ----

  lemma DoneCells(m: Machine, th: Thread)
    requires th.Working? && th.done == Count(th.before, th.after) && Continues(th.before, th.after)
    requires forall y: nat {:trigger CellAmid(m, th, y)} :: CellAmid(m, th, y)
    ensures m.mem == m.heap.l.mem
  {
    Snapshots(th.before, th.after);
    assert CellAmid(m, th, 0);
    forall y: nat | y < |m.mem| ensures m.mem[y] == m.heap.l.mem[y] { assert CellAmid(m, th, y); }
  }

  lemma SawAll(th: Thread)
    requires th.Working? && OnTrack(th) && |th.saw| == |th.e.seen|
    ensures Witnessed(th.e, th.saw) == th.e
  {
    assert Witnessed(th.e, th.saw).seen == th.e.seen;
  }

  lemma ReleaseQuiet(m: Machine, n: Machine, t: Tid)
    requires Inv(m) && DoRelease(m, n, t)
    ensures Quiescent(n)
  {
    hide Step, StateOk, Traced, OwnersMatch, CallsOf, Callable, Settled, CellAmid, SparesUntargeted;
    hide Continues, Exclusive;
    assert Amid(m, t);
    var th := m.threads[t];
    StepStores(th.before, th.after, th.e);
    DoneCells(m, th);
    assert Witnessed(th.e, th.saw) == th.e by { SawAll(th); }
  }

  /** What other threads own stays theirs when a call returns. */
  lemma SettledKeeps(owner: map<Address, Tid>, t: Tid, e: Event, a: Blocks, b: Blocks, base: Address, p: Address)
    requires AbsStep(a, b, base, e) && MatchBlocks(owner, a, base) && Callable(owner, t, e.op)
    requires p in owner && owner[p] != t
    ensures p in Settled(owner, t, e) && Settled(owner, t, e)[p] == owner[p]
  {
    hide CommonPrefix, AllZero, Aligned;
  }

  lemma ReleaseOwner(m: Machine, n: Machine, t: Tid, p: Address)
    requires Inv(m) && DoRelease(m, n, t) && p in m.owner && m.owner[p] != t
    ensures p in n.owner && n.owner[p] == m.owner[p]
  {
    hide Step, StateOk, Traced, OwnersMatch, CallsOf, Settled, CellAmid, Exclusive, AbsStep, Abs, Onward;
    hide MatchBlocks, Callable;
    assert Amid(m, t) && CallOk(m, t);
    var th := m.threads[t];
    var h, k := th.before, th.after;
    StepRefines(h, k, th.e);
    StepOnward(h, k, th.e);
    OnwardBase(h, k);
    OwnersBlocks(m.owner, h);
    if h.l.base == 0 {
      AbsEmpty(h);
      NoBlocks(m.owner, k.l.base);
    }
    SettledKeeps(m.owner, t, th.e, Abs(h), Abs(k), k.l.base, p);
  }

  lemma ReleaseCall(m: Machine, n: Machine, t: Tid, u: Tid)
    requires Inv(m) && DoRelease(m, n, t) && u in n.threads
    ensures CallOk(n, u)
  {
    hide Step, StateOk, Traced, OwnersMatch, CallsOf, Settled, CellAmid, Exclusive, Amid, Quiescent;
    if u != t {
      assert CallOk(m, u);
      match m.threads[u] {
        case Idle =>
        case Waiting(op) => if !op.Alloc? { ReleaseOwner(m, n, t, op.p); }
        case Working(e, _, _, _, _) => if !e.op.Alloc? { ReleaseOwner(m, n, t, e.op.p); }
      }
    }
  }

  lemma NoBlocks(owner: map<Address, Tid>, base: Address)
    requires MatchBlocks(owner, map[], 0)
    ensures MatchBlocks(owner, map[], base)
  {}

  lemma ReleaseInv(m: Machine, n: Machine, t: Tid)
    requires Inv(m) && DoRelease(m, n, t)
    ensures Inv(n)
  {
    hide Step, StateOk, Traced, OwnersMatch, CallsOf, Callable, Settled, CellAmid, Amid, Quiescent, CallOk;
    ReleaseQuiet(m, n, t);
    forall u | u in n.threads ensures CallOk(n, u) { ReleaseCall(m, n, t, u); }
    forall u: Tid ensures !Works(n, u) { assert u != t ==> (Works(n, u) <==> Works(m, u)); }
  }

  // ---- stores without the lock ----

  lemma WriteIsStep(h: Heap, k: Heap, p: Address, i: u32, cell: Cell)
    requires LivePointer(h, p) && i + 1 < h.c[p - h.l.base - 1].size
    requires p - h.l.base + i < |h.l.mem| && k == h.(l := WithCell(h.l, p - h.l.base + i, cell))
    requires StateOk(h)
    ensures Step(h, k, Event(UserStore(p, i, cell), NO_ENV, Nothing, []))
  {
    hide HeapOk, Untouched, ReadsOk, ConfigOk;
    HeapSized(h);
    StoreReads(h, k, TargetOf(UserStore(p, i, cell), h.l.base), p - h.l.base + i, cell);
  }

  lemma StoreReads(h: Heap, k: Heap, t: Option<nat>, x: nat, cell: Cell)
    requires x < |h.l.mem| && k == h.(l := WithCell(h.l, x, cell))
    ensures ReadsOk(h, t, k.l.mem, k.l.log, [])
  {
    hide ReadsOk;
    NoReads(h, t);
    ReadsAfterStore(h, t, h.l.mem, h.l.log, [], x, cell);
  }

  lemma HeapSized(h: Heap)
    requires HeapOk(h)
    ensures SizedOk(h)
  {}

  /** A block that the call is not about was there before the call, with the size it has. */
  lemma UntargetedSize(h: Heap, k: Heap, e: Event, o: nat)
    requires StateOk(h) && Step(h, k, e) && LiveAt(h.c, o) && !Targets(e, h.l.base, o)
    ensures k.l.base == h.l.base != 0 && LiveAt(k.c, o) && k.c[o].size == h.c[o].size
    ensures HeapOk(h) && HeapOk(k) && Abs(k)[o] == Abs(h)[o]
  {
    hide HeapOk, Untouched, Step, AbsStep, Abs, Onward;
    LiveBased(h, o);
    StepOnward(h, k, e);
    OnwardState(h, k);
    OnwardBase(h, k);
    StepRefines(h, k, e);
    TargetsBase(e, h.l.base, k.l.base, o);
    AbsLive(h, o);
    UntargetedKept(Abs(h), Abs(k), k.l.base, e, o);
    AbsLive(k, o);
  }

  lemma TargetsBase(e: Event, b: Address, b': Address, o: nat)
    requires b == b'
    ensures Targets(e, b, o) == Targets(e, b', o)
  {}

  /** An idle thread's block is not the one that a call is about. */
  lemma OwnedForeign(m: Machine, t: Tid, u: Tid, p: Address)
    requires Inv(m) && Works(m, u) && IsIdle(m, t) && p in m.owner && m.owner[p] == t
    ensures var th := m.threads[u];
      && StateOk(th.before) && Step(th.before, th.after, th.e)
      && LivePointer(th.before, p) && !Targets(th.e, th.before.l.base, p - th.before.l.base - 1)
  {
    hide Step, StateOk, Traced, CallsOf, Settled, CellAmid, Exclusive;
    assert Amid(m, u) && CallOk(m, u);
  }

  lemma WriteCells(m: Machine, n: Machine, t: Tid, u: Tid, p: Address, i: u32, cell: Cell)
    requires Inv(m) && DoWrite(m, n, t, p, i, cell) && Works(m, u)
    ensures forall y: nat {:trigger CellAmid(n, m.threads[u], y)} :: CellAmid(n, m.threads[u], y)
  {
    hide Step, StateOk, Traced, CallsOf, Settled, Exclusive, Callable, Snapshot, Foreign, OwnersMatch;
    hide Quiescent, CallOk;
    assert Amid(m, u);
    var th, o, x := m.threads[u], p - m.heap.l.base - 1, p - m.heap.l.base + i;
    OwnedForeign(m, t, u, p);
    UntargetedSize(th.before, th.after, th.e, p - th.before.l.base - 1);
    assert Foreign(th.before, th.e, x) by { ForeignBy(th.before, th.e, o, x); }
    forall y: nat ensures CellAmid(n, th, y) { assert CellAmid(m, th, y); }
  }

  lemma SameOwners(owner: map<Address, Tid>, h: Heap, k: Heap)
    requires OwnersMatch(owner, h) && k.c == h.c && k.l.base == h.l.base
    ensures OwnersMatch(owner, k)
  {
    forall p: Address ensures p in owner <==> LivePointer(k, p) { assert LivePointer(k, p) <==> LivePointer(h, p); }
  }

  lemma WriteAmid(m: Machine, n: Machine, t: Tid, u: Tid, p: Address, i: u32, cell: Cell)
    requires Inv(m) && DoWrite(m, n, t, p, i, cell) && Works(n, u)
    ensures Amid(n, u)
  {
    hide Step, StateOk, Traced, CallsOf, Settled, Exclusive, Callable, CellAmid, OwnersMatch, Quiescent;
    hide CallOk, WithCell;
    assert Amid(m, u);
    WriteCells(m, n, t, u, p, i, cell);
    WriteShape(m.heap, n.heap, p - m.heap.l.base + i, cell);
    SameOwners(Settled(m.owner, u, m.threads[u].e), m.heap, n.heap);
    CallsMore(m.past.es, Event(UserStore(p, i, cell), NO_ENV, Nothing, []));
  }

  lemma WriteShape(h: Heap, k: Heap, x: nat, cell: Cell)
    requires x < |h.l.mem| && k == h.(l := WithCell(h.l, x, cell))
    ensures SameShape(h, k) && k.c == h.c && k.l.base == h.l.base
  {}

  lemma ForeignBy(h: Heap, e: Event, x: nat, y: nat)
    requires LiveAt(h.c, x) && !Targets(e, h.l.base, x) && x < y < x + h.c[x].size
    ensures Foreign(h, e, y)
  {
    assert ForeignIn(h, e, x, y);
  }

  lemma WriteInv(m: Machine, n: Machine, t: Tid, p: Address, i: u32, cell: Cell)
    requires Inv(m) && DoWrite(m, n, t, p, i, cell)
    ensures Inv(n)
  {
    hide Step, StateOk, Traced, CallsOf, Settled, Callable, CellAmid, Amid, OwnersMatch;
    WriteTraced(m, n, t, p, i, cell);
    if !m.flag { SameOwners(m.owner, m.heap, n.heap); }
    CallsMore(m.past.es, Event(UserStore(p, i, cell), NO_ENV, Nothing, []));
    forall u | u in n.threads ensures CallOk(n, u) { assert CallOk(m, u); }
    forall u: Tid ensures Works(n, u) <==> Works(m, u) {}
    forall u: Tid | Works(n, u) ensures Amid(n, u) { WriteAmid(m, n, t, u, p, i, cell); }
  }

  lemma WriteTraced(m: Machine, n: Machine, t: Tid, p: Address, i: u32, cell: Cell)
    requires Traced(m.past, m.heap) && DoWrite(m, n, t, p, i, cell)
    ensures Traced(n.past, n.heap) && StateOk(m.heap)
    ensures Step(m.heap, n.heap, Event(UserStore(p, i, cell), NO_ENV, Nothing, []))
  {
    hide Step, StateOk, Traced, Extended, AbsStep;
    TracedState(m.past, m.heap);
    WriteIsStep(m.heap, n.heap, p, i, cell);
    TraceStep(m.past, m.heap, n.heap, Event(UserStore(p, i, cell), NO_ENV, Nothing, []));
  }

  // ---- passing a block on ----

  lemma SettledKeys(owner: map<Address, Tid>, other: map<Address, Tid>, t: Tid, e: Event)
    requires owner.Keys == other.Keys
    ensures Settled(owner, t, e).Keys == Settled(other, t, e).Keys
  {}

  lemma MatchKeys(owner: map<Address, Tid>, other: map<Address, Tid>, h: Heap)
    requires owner.Keys == other.Keys && OwnersMatch(owner, h)
    ensures OwnersMatch(other, h)
  {
    forall p: Address ensures p in other <==> LivePointer(h, p) { assert p in owner <==> p in other; }
  }

  lemma HandAmid(m: Machine, n: Machine, t: Tid, p: Address, u: Tid, w: Tid)
    requires Inv(m) && DoHand(m, n, t, p, u) && Works(n, w)
    ensures Amid(n, w)
  {
    hide Step, StateOk, Traced, CallsOf, Settled, Exclusive, Callable, Snapshot, Foreign, OwnersMatch;
    assert Amid(m, w);
    var th := m.threads[w];
    assert n.owner.Keys == m.owner.Keys;
    SettledKeys(m.owner, n.owner, w, th.e);
    MatchKeys(m.owner, n.owner, th.before);
    MatchKeys(Settled(m.owner, w, th.e), Settled(n.owner, w, th.e), m.heap);
    forall y: nat ensures CellAmid(n, th, y) { assert CellAmid(m, th, y); }
  }

  lemma HandInv(m: Machine, n: Machine, t: Tid, p: Address, u: Tid)
    requires Inv(m) && DoHand(m, n, t, p, u)
    ensures Inv(n)
  {
    hide Step, StateOk, Traced, CallsOf, Settled, CellAmid, Amid, OwnersMatch;
    assert n.owner.Keys == m.owner.Keys;
    if !m.flag { MatchKeys(m.owner, n.owner, m.heap); }
    forall w | w in n.threads ensures CallOk(n, w) { assert CallOk(m, w); }
    forall w: Tid ensures Works(n, w) <==> Works(m, w) {}
    forall w: Tid | Works(n, w) ensures Amid(n, w) { HandAmid(m, n, t, p, u, w); }
  }

  // ---- any interleaving ----

  lemma MoveInv(m: Machine, n: Machine, v: Move)
    requires Inv(m) && Moves(m, n, v)
    ensures Inv(n)
  {
    hide Inv, DoCall, DoSpin, DoAcquire, DoLook, DoStray, DoPut, DoRelease, DoWrite, DoHand;
    match v {
      case Call(t, op) => CallInv(m, n, t, op);
      case Spin(t) => SpinSame(m, n, t);
      case Acquire(t, e, k) => AcquireInv(m, n, t, e, k);
      case Look(t) => LookInv(m, n, t);
      case Stray(t) => NotStray(m, n, t);
      case Put(t) => PutInv(m, n, t);
      case Release(t) => ReleaseInv(m, n, t);
      case Write(t, p, i, cell) => WriteInv(m, n, t, p, i, cell);
      case Hand(t, p, u) => HandInv(m, n, t, p, u);
    }
  }

  lemma NoStrayMove(m: Machine, n: Machine, v: Move)
    requires Inv(m) && Moves(m, n, v)
    ensures !v.Stray?
  {
    hide Inv, DoStray;
    if v.Stray? { NotStray(m, n, v.t); }
  }

  lemma SpinSame(m: Machine, n: Machine, t: Tid)
    requires DoSpin(m, n, t)
    ensures n == m
  {}

  /** The run in `past` only gets longer. */
  lemma PastStart(m: Machine, n: Machine, v: Move)
    requires Moves(m, n, v) && m.past.hs != [] && !v.Stray?
    ensures n.past.hs != [] && n.past.hs[0] == m.past.hs[0]
  {
    hide Step, Callable, Settled, WithCell, ReadDue, Witnessed;
  }

  lemma {:induction false} Reachable(ms: seq<Machine>, vs: seq<Move>, i: nat)
    requires Interleaving(ms, vs) && i < |ms|
    ensures Inv(ms[i]) && ms[i].past.hs != [] && ms[i].past.hs[0] == ms[0].heap
  {
    hide Inv, Moves, StateOk;
    if i == 0 {
      InitialInv(ms[0]);
    } else {
      Reachable(ms, vs, i - 1);
      assert MoveAt(ms, vs, i - 1);
      MoveInv(ms[i - 1], ms[i], vs[i - 1]);
      NoStrayMove(ms[i - 1], ms[i], vs[i - 1]);
      PastStart(ms[i - 1], ms[i], vs[i - 1]);
    }
  }

  // ---- whose block it is ----

  /** The thread that a move gives `p` to: the caller of an `alloc` or `realloc` that returns it,
      or the thread it is handed to. */
  ghost function Gives(m: Machine, v: Move, p: Address): Option<Tid> {
    match v
    case Release(t) =>
      if !Works(m, t) then None
      else
        var e := m.threads[t].e;
        if (e.op.Alloc? || e.op.Realloc?) && e.result == Pointer(Some(p)) then Some(t) else None
    case Hand(_, q, u) => if q == p then Some(u) else None
    case _ => None
  }

  lemma GivenOwner(m: Machine, n: Machine, v: Move, p: Address)
    requires Inv(m) && Moves(m, n, v)
    ensures Gives(m, v, p) != None ==> p in n.owner && n.owner[p] == Gives(m, v, p).value
    ensures Gives(m, v, p) == None && p in n.owner ==> p in m.owner && n.owner[p] == m.owner[p]
  {
    hide Inv, Step, Callable, ReadDue, Witnessed, DoStray, WithCell, Legal;
    NoStrayMove(m, n, v);
  }

  /** The move `j` gave `p` to the thread that owns it at time `i`, and none since gave it. */
  ghost predicate GivenAt(ms: seq<Machine>, vs: seq<Move>, i: nat, j: nat, p: Address)
    requires i < |ms| && |ms| == |vs| + 1
  {
    && j < i && p in ms[i].owner && Gives(ms[j], vs[j], p) == Some(ms[i].owner[p])
    && forall l: nat | j < l < i :: Gives(ms[l], vs[l], p) == None
  }

  /** In every interleaving each block belongs to the thread whose call returned it, or to the
      last one it was handed to. */
  lemma {:induction false} OwnedByLastGiven(ms: seq<Machine>, vs: seq<Move>, i: nat, p: Address)
    requires Interleaving(ms, vs) && i < |ms| && p in ms[i].owner
    ensures exists j: nat :: GivenAt(ms, vs, i, j, p)
  {
    hide Inv, Moves, Gives, StateOk;
    Reachable(ms, vs, i);
    if i > 0 {
      Reachable(ms, vs, i - 1);
      assert MoveAt(ms, vs, i - 1);
      GivenOwner(ms[i - 1], ms[i], vs[i - 1], p);
      if Gives(ms[i - 1], vs[i - 1], p) != None {
        assert GivenAt(ms, vs, i, i - 1, p);
      } else {
        OwnedByLastGiven(ms, vs, i - 1, p);
        var j: nat :| GivenAt(ms, vs, i - 1, j, p);
        assert GivenAt(ms, vs, i, j, p);
      }
    }
  }

  /** The caller owns the block that its call returns. */
  lemma CallerOwns(m: Machine, n: Machine, t: Tid, p: Address)
    requires Inv(m) && DoRelease(m, n, t)
    requires m.threads[t].e.op.Alloc? || m.threads[t].e.op.Realloc?
    requires m.threads[t].e.result == Pointer(Some(p))
    ensures p in n.owner && n.owner[p] == t
  {
    hide Inv, DoRelease;
    assert Moves(m, n, Release(t));
    ReleaseWorks(m, n, t);
    GivenOwner(m, n, Release(t), p);
  }

  lemma ReleaseWorks(m: Machine, n: Machine, t: Tid)
    requires DoRelease(m, n, t)
    ensures Works(m, t)
  {
    hide Settled, Witnessed;
  }

  // ---- what the lock gives its users ----

  /** An idle thread may call `alloc` with any arguments, and every operation on each block that
      it owns; only a size whose sum with the header overflows is not for `shrink_inplace`. */
  lemma CanCall(m: Machine, t: Tid, op: Op)
    requires IsIdle(m, t) && !op.UserStore? && (op.Shrink? ==> op.size < 0xFFFF_FFFF)
    requires op.Alloc? || (op.p in m.owner && m.owner[op.p] == t)
    ensures exists n :: DoCall(m, n, t, op)
  {
    assert DoCall(m, Become(m, t, Waiting(op)), t, op);
  }

  /** In every interleaving: one thread works at a time, and whenever the flag is clear the
      memory is that of a sequential run of the calls in lock order; that heap is in order and
      its live blocks are those that threads own. The calls that returned read in the shared
      memory, access by access, what that run reads, and so have the results that it has. */
  lemma LockProtects(ms: seq<Machine>, vs: seq<Move>, i: nat)
    requires Interleaving(ms, vs) && i < |ms|
    ensures var m := ms[i];
      && Exclusive(m)
      && Run(m.past.hs, m.past.es) && m.past.hs[0] == ms[0].heap && m.past.hs[|m.past.es|] == m.heap
      && (!m.flag ==>
            && m.mem == m.heap.l.mem && StateOk(m.heap) && OwnersMatch(m.owner, m.heap)
            && m.returned == CallsOf(m.past.es))
      && m.returned <= CallsOf(m.past.es)
  {
    hide StateOk, Run, OwnersMatch, CallsOf, CallOk, Initial, Step, Settled, CellAmid, Following;
    Reachable(ms, vs, i);
    if t: Tid :| Works(ms[i], t) { assert Amid(ms[i], t); }
    TracedState(ms[i].past, ms[i].heap);
  }

  /** What the owner of `p` reads without the lock: the header's size word and the payload. */
  ghost predicate OwnerSees(m: Machine, p: Address) {
    && m.heap.l.base < p && p - m.heap.l.base - 1 in Abs(m.heap)
    && var o := p - m.heap.l.base - 1;
    && var s := Abs(m.heap)[o];
    && o + 1 + |s| <= |m.mem|
    && WordSize(m.mem[o].sizeWord) == |s| + 1 && WordUsed(m.mem[o].sizeWord)
    && m.mem[o + 1..o + 1 + |s|] == s
  }

  lemma SequentialSees(h: Heap, p: Address)
    requires HeapOk(h) && LivePointer(h, p)
    ensures var o := p - h.l.base - 1;
      && o in Abs(h) && |Abs(h)[o]| == h.c[o].size - 1 && o + h.c[o].size <= |h.l.mem|
      && h.l.mem[o].sizeWord == 2 * h.c[o].size + 1
      && h.l.mem[o + 1..o + h.c[o].size] == Abs(h)[o]
  {
    hide HeapOk, Abs;
    AbsLive(h, p - h.l.base - 1);
    HeaderFacts(h, p - h.l.base - 1);
  }

  /** At any moment, even between the stores of another thread's call, an idle owner sees its
      block as the sequential run has it. */
  lemma UnlockedReads(m: Machine, t: Tid, p: Address)
    requires Inv(m) && IsIdle(m, t) && p in m.owner && m.owner[p] == t
    ensures OwnerSees(m, p)
  {
    hide HeapOk, Untouched, Abs, Settled, CallsOf, Step, Traced, SameShape;
    TracedState(m.past, m.heap);
    if m.flag {
      var u: Tid :| Works(m, u);
      ReadsAmid(m, t, u, p);
    } else {
      LiveBased(m.heap, p - m.heap.l.base - 1);
      SequentialSees(m.heap, p);
    }
  }

  lemma ReadsAmid(m: Machine, t: Tid, u: Tid, p: Address)
    requires Inv(m) && IsIdle(m, t) && p in m.owner && m.owner[p] == t && Works(m, u)
    ensures OwnerSees(m, p)
  {
    hide HeapOk, Untouched, Abs, Settled, CallsOf, Step, StateOk, Snapshot, Exclusive, Callable, Foreign;
    hide OwnersMatch;
    assert Amid(m, u);
    var th := m.threads[u];
    var h, k, o := th.before, th.after, p - th.before.l.base - 1;
    OwnedForeign(m, t, u, p);
    UntargetedSize(h, k, th.e, o);
    TracedHeap(m);
    SequentialSees(h, p);
    SequentialSees(m.heap, p);
    StepStores(h, k, th.e);
    SnapshotSpares(h, k, th.e, th.done, o);
    HeaderNotForeign(h, th.e, o);
    assert CellAmid(m, th, o);
    forall y | o < y < o + h.c[o].size
      ensures y < |m.mem| == |m.heap.l.mem| && m.mem[y] == m.heap.l.mem[y]
    {
      ForeignBy(h, th.e, o, y);
      assert CellAmid(m, th, y);
    }
    assert m.mem[o + 1..o + h.c[o].size] == m.heap.l.mem[o + 1..o + h.c[o].size];
  }

  lemma TracedHeap(m: Machine)
    requires Traced(m.past, m.heap)
    ensures m.heap.l.base != 0 ==> HeapOk(m.heap)
  {
    hide HeapOk, Untouched;
    TracedState(m.past, m.heap);
  }

  lemma HeaderNotForeign(h: Heap, e: Event, o: nat)
    requires HeapOk(h) && o in h.c
    ensures !Foreign(h, e, o)
  {
    forall x: nat ensures !ForeignIn(h, e, x, o) {
      if LiveAt(h.c, x) && x < o { Disjoint(h.c, |h.l.mem|, x, o); }
    }
  }

  /** An idle owner may store to every cell of its block at any moment. */
  lemma CanWrite(m: Machine, t: Tid, p: Address, i: u32, cell: Cell)
    requires Inv(m) && IsIdle(m, t) && p in m.owner && m.owner[p] == t && i < |BlockAt(m.heap, p)|
    ensures exists n :: DoWrite(m, n, t, p, i, cell)
  {
    hide Inv, HeapOk, WithCell;
    UnlockedReads(m, t, p);
    var h, x := m.heap, p - m.heap.l.base + i;
    AbsLive(h, p - h.l.base - 1);
    HeaderFacts(h, p - h.l.base - 1);
    var e := Event(UserStore(p, i, cell), NO_ENV, Nothing, []);
    var k := h.(l := WithCell(h.l, x, cell));
    assert DoWrite(m, m.(mem := Stored(m.mem, x, cell), heap := k, past := Extended(m.past, k, e)), t, p, i, cell);
  }

  /** Thread `t` still owns `p`, and what it sees there is what it saw. */
  ghost predicate Undisturbed(m: Machine, n: Machine, t: Tid, p: Address) {
    && IsIdle(n, t) && p in n.owner && n.owner[p] == t
    && OwnerSees(m, p) && OwnerSees(n, p) && n.heap.l.base == m.heap.l.base
    && BlockAt(n.heap, p) == BlockAt(m.heap, p)
  }

  lemma SameBlock(m: Machine, n: Machine, e: Event, p: Address)
    requires m.heap.l.base < p && !Targets(e, m.heap.l.base, p - m.heap.l.base - 1)
    requires OwnerSees(m, p) && Step(m.heap, n.heap, e) && StateOk(m.heap)
    ensures n.heap.l.base == m.heap.l.base
    ensures BlockAt(n.heap, p) == BlockAt(m.heap, p)
  {
    hide HeapOk, Untouched, Step;
    var o := p - m.heap.l.base - 1;
    AbsEmpty(m.heap);
    AbsLive(m.heap, o);
    UntargetedSize(m.heap, n.heap, e, o);
    AbsLive(n.heap, o);
  }

  lemma SeenBase(m: Machine, p: Address)
    requires OwnerSees(m, p)
    ensures m.heap.l.base < p
  {}

  /** Only the owner's own moves change its blocks. */
  lemma SameOwner(m: Machine, n: Machine, v: Move, t: Tid, p: Address)
    requires Inv(m) && Moves(m, n, v) && v.t != t
    requires IsIdle(m, t) && p in m.owner && m.owner[p] == t
    ensures IsIdle(n, t) && p in n.owner && n.owner[p] == t
  {
    hide Inv, Step, Callable, Settled, ReadDue, Witnessed, DoStray;
    NoStrayMove(m, n, v);
    if v.Release? { ReleaseOwner(m, n, v.t, p); }
  }

  lemma SameContents(m: Machine, n: Machine, v: Move, t: Tid, p: Address)
    requires Inv(m) && Moves(m, n, v) && v.t != t && OwnerSees(m, p)
    requires p in m.owner && m.owner[p] == t
    ensures n.heap.l.base == m.heap.l.base
    ensures BlockAt(n.heap, p) == BlockAt(m.heap, p)
  {
    hide Step, StateOk, Settled, Traced, Amid, Quiescent, Exclusive, OwnerSees, Abs, CallsOf, BlockAt;
    TracedState(m.past, m.heap);
    SeenBase(m, p);
    NoStrayMove(m, n, v);
    match v {
      case Acquire(u, e, k) =>
        assert CallOk(m, u);
        SameBlock(m, n, e, p);
      case Write(u, q, i, cell) =>
        WriteIsStep(m.heap, n.heap, q, i, cell);
        SameBlock(m, n, Event(UserStore(q, i, cell), NO_ENV, Nothing, []), p);
      case _ =>
    }
  }

  /** No move of another thread, with the lock or without it, changes what an owner sees. */
  lemma OthersCannotDisturb(m: Machine, n: Machine, v: Move, t: Tid, p: Address)
    requires Inv(m) && Moves(m, n, v) && v.t != t
    requires IsIdle(m, t) && p in m.owner && m.owner[p] == t
    ensures Undisturbed(m, n, t, p)
  {
    hide Inv, Moves, OwnerSees, Abs;
    MoveInv(m, n, v);
    SameOwner(m, n, v, t, p);
    UnlockedReads(m, t, p);
    UnlockedReads(n, t, p);
    SameContents(m, n, v, t, p);
  }

  /** No move of another thread changes a cell that a working thread relies on: all but the
      payloads of other blocks are as its own stores left them. */
  lemma WorkerUndisturbed(m: Machine, n: Machine, v: Move, t: Tid, y: nat)
    requires Inv(m) && Moves(m, n, v) && v.t != t && Works(m, t)
    requires y < |m.mem| && !Foreign(m.threads[t].before, m.threads[t].e, y)
    ensures Works(n, t) && n.threads[t] == m.threads[t] && y < |n.mem| && n.mem[y] == m.mem[y]
    ensures var th := m.threads[t];
      y < |Snapshot(th.before, th.after, th.done)| && m.mem[y] == Snapshot(th.before, th.after, th.done)[y]
  {
    hide Step, Foreign, Snapshot, Traced, StateOk, CallOk, Quiescent, Settled, Callable;
    MoveInv(m, n, v);
    assert Amid(m, t) && CellAmid(m, m.threads[t], y);
    NoStrayMove(m, n, v);
    WorkerStays(m, n, v, t);
    assert Amid(n, t) && CellAmid(n, n.threads[t], y);
  }

  lemma WorkerStays(m: Machine, n: Machine, v: Move, t: Tid)
    requires Moves(m, n, v) && v.t != t && Works(m, t) && !v.Stray?
    ensures Works(n, t) && n.threads[t] == m.threads[t]
  {
    hide Step, Callable, Settled, ReadDue, Witnessed;
  }
}
