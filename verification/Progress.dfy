/** Every legal call has an execution, and only one: the result, the stores and the heap that
    it leaves are a function of the heap, the arguments and the answers of the environment. */
module Progress {
  import opened Wrappers
  import opened Bits
  import opened Bins
  import opened Sizes
  import opened Partition
  import opened Layouts
  import opened FreeLists
  import opened Heaps
  import opened Operations
  import opened Effects
  import opened Payloads
  import opened Search
  import opened Allocation
  import opened Transitions
  import opened Executions
  import opened Reads
  import opened Runs
  import opened Stores

  // ---- there is one ----

  lemma FreeExists(h: Heap, o: nat) returns (k: Heap)
    requires HeapOk(h) && LiveAt(h.c, o)
    ensures FreeRan(h, k, o)
  {
    hide HeapOk, ReleaseLists, IsReleased, WellFormed, Ready, Replayed, NodesBelow;
    HeapFacts(h);
    var d := Release(h.c, |h.l.mem|, o);
    k := Heap(ReleaseLists(h, o), d, h.high, h.m);
  }

  lemma TrimExists(h: Heap, o: nat, n: nat) returns (k: Heap)
    requires HeapOk(h) && LiveAt(h.c, o) && 0 < n < h.c[o].size
    ensures TrimRan(h, k, o, n)
  {
    hide HeapOk, TrimLists, IsTrimmed, WellFormed, Ready, Replayed, NodesBelow;
    HeapFacts(h);
    var d := Trim(h.c, |h.l.mem|, o, n);
    k := Heap(TrimLists(h, o, n), d, h.high, h.m);
  }

  lemma ExtendExists(h: Heap, o: nat, n: nat) returns (k: Heap)
    requires HeapOk(h) && ExtendFits(h, o, n)
    ensures ExtendRan(h, k, o, n)
  {
    hide HeapOk, ExtendLists, IsExtended, WellFormed, Ready, Replayed, NodesBelow, NextFree, ReleaseEnd;
    HeapFacts(h);
    var d := Extend(h.c, |h.l.mem|, o, n);
    k := Heap(ExtendLists(h, o, n), d, RaisedTo(h.high, GrowEnd(h.c, o, n)), h.m);
  }

  lemma CarveExists(h: Heap, o: nat, align: u32, size: u32, zeroed: bool) returns (k: Heap, p: Address)
    requires HeapOk(h) && FreeAt(h.c, o) && Requestable(align, size) && size + align <= h.c[o].size
    ensures CarveRan(h, k, o, align, size, zeroed, p)
  {
    hide HeapOk, PlaceLists, ZeroedLists, IsPlaced, WellFormed, Ready, Replayed, NodesBelow, HeaderFor, AllocEnd;
    hide IsPow2, AlignOffset;
    HeapFacts(h);
    AllocNumbers(h, o, align, size);
    var header := HeaderFor(h, o, align);
    var d := Place(h.c, |h.l.mem|, o, header - o, size + 1);
    var l := PlaceLists(h, o, header - o, size + 1);
    BaseFits(h);
    p := h.l.base + header + 1;
    k := Heap(if zeroed && h.high > header + 1 then ZeroedLists(l, header + 1, size) else l, d,
              RaisedTo(h.high, AllocEnd(h, o, align, size)), h.m);
  }

  lemma BaseFits(h: Heap)
    requires HeapOk(h)
    ensures 0 < h.l.base && h.l.base + |h.l.mem| < 0x800_0000_0000_0000
  {}

  lemma AllocExists(h: Heap, align: u32, size: u32, zeroed: bool, grants: u32 -> bool)
    returns (k: Heap, r: Option<Address>)
    requires HeapOk(h)
    ensures AllocRan(h, k, align, size, zeroed, grants, r)
  {
    hide HeapOk, CarveRan, SearchedBin, BinOf, BinDown, BinUp, Granted, AllocEnd, IsPow2;
    k, r := h, None;
    if Requestable(align, size) {
      if o :| Tried(h, size + align, o) && size + align <= h.c[o].size
              && Granted(h, AllocEnd(h, o, align, size), grants) {
        TriedIsFree(h, size + align, o);
        var p;
        k, p := CarveExists(h, o, align, size, zeroed);
        r := Some(p);
      }
    }
  }

  lemma AllocCallExists(h: Heap, align: u32, size: u32, zeroed: bool, env: Env)
    returns (k: Heap, r: Option<Address>)
    requires StateOk(h) && SizedOk(h) && env.base + |h.l.mem| < 0x800_0000_0000_0000
    ensures AllocCall(h, k, align, size, zeroed, env, r)
  {
    hide HeapOk, Untouched, AllocRan, Opened, ConfigOk, IsPow2;
    k, r := h, None;
    if h.l.base != 0 {
      k, r := AllocExists(h, align, size, zeroed, env.grants);
    } else if Initializes(align, env) {
      OpenedFacts(h, env.base);
      k, r := AllocExists(Opened(h, env.base), align, size, zeroed, env.grants);
    }
  }

  lemma ShrinkExists(h: Heap, o: nat, n: u32) returns (k: Heap)
    requires HeapOk(h) && LiveAt(h.c, o)
    ensures ShrinkRan(h, k, o, n)
  {
    hide HeapOk, FreeRan, TrimRan;
    k := h;
    if n == 0 { k := FreeExists(h, o); } else if n + 1 < h.c[o].size { k := TrimExists(h, o, n + 1); }
  }

  lemma GrowExists(h: Heap, o: nat, n: nat, grants: u32 -> bool) returns (k: Heap, r: Option<u32>)
    requires HeapOk(h) && LiveAt(h.c, o) && 0 < n
    ensures GrowRan(h, k, o, n, grants, r)
  {
    hide HeapOk, ExtendRan, NextFree, ReleaseEnd;
    HeaderFacts(h, o);
    if n <= h.c[o].size {
      k, r := h, Some(h.c[o].size - 1);
    } else if CanGrow(h, o, n, grants) {
      k := ExtendExists(h, o, n);
      r := Some(n - 1);
    } else {
      k, r := h, None;
    }
  }

  lemma MoveExists(h: Heap, o: nat, align: u32, size: u32, grants: u32 -> bool)
    returns (k: Heap, r: Option<Address>)
    requires HeapOk(h) && LiveAt(h.c, o) && h.c[o].size <= size
    ensures MoveRan(h, k, o, align, size, grants, r)
  {
    hide HeapOk, AllocRan, AllocOutcome, Placed, Aligned, FreeRan, CopiedLists, AllZero, Rewrote;
    HeaderFacts(h, o);
    k, r := AllocExists(h, align, size, false, grants);
    if r.Some? {
      var i, q := k, r.value;
      AllocRanOutcome(h, i, align, size, false, grants, r);
      AllocGave(h, i, align, size, false, grants, q);
      var p := q - h.l.base - 1;
      PlacedFacts(h, i, p, size + 1);
      PlacedKeeps(h, i, p, size + 1, o);
      var j := CopiedHeap(i, o, p, h.c[o].size - 1);
      CopiedOk(i, o, p, h.c[o].size - 1);
      RewroteShape(i, j, p);
      k := FreeExists(j, o);
      assert MovedVia(h, i, k, o, align, size, grants, q);
    }
  }

  lemma ReallocExists(h: Heap, p: Address, align: u32, size: u32, env: Env) returns (k: Heap, r: Option<Address>)
    requires HeapOk(h) && LivePointer(h, p)
    ensures ReallocRan(h, k, p, align, size, env, r)
  {
    hide HeapOk, FreeRan, TrimRan, ExtendRan, MoveRan, NextFree, ReleaseEnd;
    var o := p - h.l.base - 1;
    HeaderFacts(h, o);
    k, r := h, Some(p);
    if size + 1 == h.c[o].size {
    } else if size == 0 {
      k := FreeExists(h, o);
      r := None;
    } else if size + 1 < h.c[o].size {
      k := TrimExists(h, o, size + 1);
    } else if CanGrow(h, o, size + 1, env.grants) {
      k := ExtendExists(h, o, size + 1);
    } else {
      k, r := MoveExists(h, o, align, size, env.regrants);
    }
  }

  lemma StoreExists(h: Heap, o: nat, i: nat, cell: Cell) returns (k: Heap)
    requires HeapOk(h) && LiveAt(h.c, o) && i + 1 < h.c[o].size
    ensures StoreRan(h, k, o, i, cell)
  {
    hide HeapOk;
    HeaderFacts(h, o);
    k := h.(l := WithCell(h.l, o + 1 + i, cell));
  }

  lemma ExecutionExists(h: Heap, op: Op, env: Env) returns (k: Heap, r: Result)
    requires StateOk(h) && SizedOk(h) && Legal(h, op) && env.base + |h.l.mem| < 0x800_0000_0000_0000
    ensures Executes(h, k, Event(op, env, r, []))
  {
    hide HeapOk, Untouched, AllocCall, FreeRan, ShrinkRan, GrowRan, ReallocRan, StoreRan, ConfigOk;
    r := Nothing;
    match op {
      case Alloc(align, size, zeroed) =>
        var p;
        k, p := AllocCallExists(h, align, size, zeroed, env);
        r := Pointer(p);
      case Free(p) => k := FreeExists(h, p - h.l.base - 1);
      case Shrink(p, n) => k := ShrinkExists(h, p - h.l.base - 1, n);
      case Grow(p, n) =>
        var s;
        k, s := GrowExists(h, p - h.l.base - 1, n + 1, env.grants);
        r := Size(s);
      case Realloc(p, align, n) =>
        var q;
        k, q := ReallocExists(h, p, align, n, env);
        r := Pointer(q);
      case UserStore(p, i, cell) => k := StoreExists(h, p - h.l.base - 1, i, cell);
    }
  }

  lemma ContinuesReads(h: Heap, k: Heap, t: Option<nat>)
    requires Continues(h, k)
    ensures ReadsOk(h, t, k.l.mem, k.l.log, [])
  {}

  /** Every legal operation has a step, whatever the environment answers. */
  lemma StepExists(h: Heap, op: Op, env: Env) returns (k: Heap, e: Event)
    requires StateOk(h) && SizedOk(h) && Legal(h, op) && env.base + |h.l.mem| < 0x800_0000_0000_0000
    ensures Step(h, k, e) && e.op == op && e.env == env
  {
    hide HeapOk, Untouched, Executes, Legal, SizedOk, Continues, SparesUntargeted, ReadsOk;
    var r;
    k, r := ExecutionExists(h, op, env);
    e := Event(op, env, r, []);
    ExecutionStores(h, k, e);
    ContinuesReads(h, k, TargetOf(op, h.l.base));
  }

  // ---- there is no other ----

  lemma FreeUnique(h: Heap, k: Heap, k': Heap, o: nat)
    requires FreeRan(h, k, o) && FreeRan(h, k', o)
    ensures k' == k
  {
    hide ReleaseLists, IsReleased;
    ReleasedUnique(h.c, k.c, k'.c, |h.l.mem|, o);
  }

  lemma TrimUnique(h: Heap, k: Heap, k': Heap, o: nat, n: nat)
    requires TrimRan(h, k, o, n) && TrimRan(h, k', o, n)
    ensures k' == k
  {
    hide TrimLists, IsTrimmed;
    TrimmedUnique(h.c, k.c, k'.c, |h.l.mem|, o, n);
  }

  lemma ExtendUnique(h: Heap, k: Heap, k': Heap, o: nat, n: nat)
    requires ExtendRan(h, k, o, n) && ExtendRan(h, k', o, n)
    ensures k' == k
  {
    hide ExtendLists, IsExtended, NextFree, ReleaseEnd;
    ExtendedUnique(h.c, k.c, k'.c, |h.l.mem|, o, n);
  }

  lemma CarveUnique(h: Heap, k: Heap, k': Heap, o: nat, align: u32, size: u32, zeroed: bool, p: Address, p': Address)
    requires HeapOk(h) && o in h.c && IsPow2(align)
    requires CarveRan(h, k, o, align, size, zeroed, p) && CarveRan(h, k', o, align, size, zeroed, p')
    ensures k' == k && p' == p
  {
    hide HeapOk, HeaderFor, AllocEnd, PlaceLists, ZeroedLists, IsPlaced, IsPow2;
    PlacedUnique(h.c, k.c, k'.c, o, HeaderFor(h, o, align) - o, size + 1);
  }

  lemma AllocUnique(h: Heap, k: Heap, k': Heap, align: u32, size: u32, zeroed: bool, grants: u32 -> bool,
                    r: Option<Address>, r': Option<Address>)
    requires HeapOk(h)
    requires AllocRan(h, k, align, size, zeroed, grants, r) && AllocRan(h, k', align, size, zeroed, grants, r')
    ensures k' == k && r' == r
  {
    hide HeapOk, CarveRan, SearchedBin, BinOf, BinDown, BinUp, Granted, AllocEnd, IsPow2;
    if r.Some? && r'.Some? {
      var o :| Tried(h, size + align, o) && CarveRan(h, k, o, align, size, zeroed, r.value);
      var o' :| Tried(h, size + align, o') && CarveRan(h, k', o', align, size, zeroed, r'.value);
      TriedUnique(h, size + align, o, o');
      TriedIsFree(h, size + align, o);
      CarveUnique(h, k, k', o, align, size, zeroed, r.value, r'.value);
    }
  }

  lemma AllocCallUnique(h: Heap, k: Heap, k': Heap, align: u32, size: u32, zeroed: bool, env: Env,
                        r: Option<Address>, r': Option<Address>)
    requires StateOk(h) && env.base + |h.l.mem| < 0x800_0000_0000_0000
    requires AllocCall(h, k, align, size, zeroed, env, r) && AllocCall(h, k', align, size, zeroed, env, r')
    ensures k' == k && r' == r
  {
    hide HeapOk, Untouched, AllocRan, Opened, ConfigOk, IsPow2;
    if h.l.base != 0 {
      AllocUnique(h, k, k', align, size, zeroed, env.grants, r, r');
    } else if Initializes(align, env) {
      OpenedFacts(h, env.base);
      AllocUnique(Opened(h, env.base), k, k', align, size, zeroed, env.grants, r, r');
    }
  }

  lemma MoveUnique(h: Heap, k: Heap, k': Heap, o: nat, align: u32, size: u32, grants: u32 -> bool,
                   r: Option<Address>, r': Option<Address>)
    requires HeapOk(h) && MoveRan(h, k, o, align, size, grants, r) && MoveRan(h, k', o, align, size, grants, r')
    ensures k' == k && r' == r
  {
    hide HeapOk, AllocRan, FreeRan, CopiedLists;
    if r.Some? {
      var i :| MovedVia(h, i, k, o, align, size, grants, r.value);
      var i' := k';
      if r'.Some? { i' :| MovedVia(h, i', k', o, align, size, grants, r'.value); }
      AllocUnique(h, i, i', align, size, false, grants, r, r');
      FreeUnique(CopiedHeap(i, o, r.value - h.l.base - 1, h.c[o].size - 1), k, k', o);
    } else {
      var i' := k';
      if r'.Some? { i' :| MovedVia(h, i', k', o, align, size, grants, r'.value); }
      AllocUnique(h, k, i', align, size, false, grants, r, r');
    }
  }

  lemma ReallocUnique(h: Heap, k: Heap, k': Heap, p: Address, align: u32, size: u32, env: Env,
                      r: Option<Address>, r': Option<Address>)
    requires HeapOk(h) && ReallocRan(h, k, p, align, size, env, r) && ReallocRan(h, k', p, align, size, env, r')
    ensures k' == k && r' == r
  {
    hide HeapOk, FreeRan, TrimRan, ExtendRan, MoveRan, CanGrow;
    var o := p - h.l.base - 1;
    if size + 1 == h.c[o].size {
    } else if size == 0 {
      FreeUnique(h, k, k', o);
    } else if size + 1 < h.c[o].size {
      TrimUnique(h, k, k', o, size + 1);
    } else if CanGrow(h, o, size + 1, env.grants) {
      ExtendUnique(h, k, k', o, size + 1);
    } else {
      MoveUnique(h, k, k', o, align, size, env.regrants, r, r');
    }
  }

  lemma ShrinkUnique(h: Heap, k: Heap, k': Heap, o: nat, n: u32)
    requires ShrinkRan(h, k, o, n) && ShrinkRan(h, k', o, n)
    ensures k' == k
  {
    hide FreeRan, TrimRan;
    if n == 0 { FreeUnique(h, k, k', o); } else if n + 1 < h.c[o].size { TrimUnique(h, k, k', o, n + 1); }
  }

  lemma GrowUnique(h: Heap, k: Heap, k': Heap, o: nat, n: nat, grants: u32 -> bool, r: Option<u32>, r': Option<u32>)
    requires GrowRan(h, k, o, n, grants, r) && GrowRan(h, k', o, n, grants, r')
    ensures k' == k && r' == r
  {
    hide ExtendRan, CanGrow;
    if n > h.c[o].size && CanGrow(h, o, n, grants) { ExtendUnique(h, k, k', o, n); }
  }

  /** What an operation returns, stores and leaves is determined by the heap it finds and by the
      answers of the environment. */
  lemma StepUnique(h: Heap, k: Heap, k': Heap, e: Event, e': Event)
    requires StateOk(h) && Step(h, k, e) && Step(h, k', e') && e'.op == e.op && e'.env == e.env
    ensures k' == k && (e.op.Alloc? || e.op.Grow? || e.op.Realloc? ==> e'.result == e.result)
  {
    hide HeapOk, Untouched, ReadsOk, AllocCall, FreeRan, ShrinkRan, GrowRan, ReallocRan, StoreRan, ConfigOk;
    match e.op {
      case Alloc(align, size, zeroed) =>
        AllocCallUnique(h, k, k', align, size, zeroed, e.env, e.result.p, e'.result.p);
      case Free(p) => FreeUnique(h, k, k', p - h.l.base - 1);
      case Shrink(p, n) => ShrinkUnique(h, k, k', p - h.l.base - 1, n);
      case Grow(p, n) => GrowUnique(h, k, k', p - h.l.base - 1, n + 1, e.env.grants, e.result.n, e'.result.n);
      case Realloc(p, align, n) => ReallocUnique(h, k, k', p, align, n, e.env, e.result.p, e'.result.p);
      case UserStore(p, i, cell) => StoreUnique(h, k, k', p - h.l.base - 1, i, cell);
    }
  }

  lemma StoreUnique(h: Heap, k: Heap, k': Heap, o: nat, i: nat, cell: Cell)
    requires StoreRan(h, k, o, i, cell) && StoreRan(h, k', o, i, cell)
    ensures k' == k
  {}
}
