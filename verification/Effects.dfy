/** What the operations mean: the abstract heap is a map from live blocks to their contents,
    and each operation changes one entry of it. */
module Effects {
  import opened Wrappers
  import opened Bins
  import opened Sizes
  import opened Partition
  import opened Layouts
  import opened FreeLists
  import opened Heaps
  import opened Operations

  /** The live blocks by header offset, each with the cells of its payload. */
  ghost function Contents(h: Heap): map<nat, seq<Cell>>
    requires HeapOk(h)
  {
    map o | o in h.c && h.c[o].used :: PayloadAt(h, o)
  }

  ghost function PayloadAt(h: Heap, o: nat): seq<Cell>
    requires HeapOk(h) && o in h.c
  {
    HeaderFacts(h, o);
    h.l.mem[o + 1..o + h.c[o].size]
  }

  /** The contents of the block at address `p`, if there is one. */
  ghost function ContentsAt(h: Heap, p: Address): seq<Cell> {
    if HeapOk(h) && h.l.base < p && p - h.l.base - 1 in h.c then PayloadAt(h, p - h.l.base - 1) else []
  }

  /** Payloads of different blocks do not overlap, nor do they hold any header. */
  lemma PayloadsDisjoint(h: Heap, o: nat, p: nat, x: nat)
    requires HeapOk(h) && LiveAt(h.c, o) && LiveAt(h.c, p) && o != p
    requires o < x < o + h.c[o].size
    ensures x !in h.c && !(p <= x < p + h.c[p].size)
  {
    Disjoint(h.c, |h.l.mem|, o, p);
    PayloadHasNoHeader(h.c, |h.l.mem|, o, x);
  }

  /** A block that is live before and after keeps the part of its payload it keeps. */
  lemma PayloadKept(h: Heap, k: Heap, o: nat, n: nat)
    requires HeapOk(h) && HeapOk(k) && PayloadsKept(h, k) && LiveAt(h.c, o) && LiveAt(k.c, o)
    requires 0 < n <= h.c[o].size && n <= k.c[o].size
    ensures o + n <= |h.l.mem| && k.l.mem[o + 1..o + n] == h.l.mem[o + 1..o + n]
  {
    HeaderFacts(h, o);
    forall x | o < x < o + n
      ensures k.l.mem[x] == h.l.mem[x]
    {
      PayloadHasNoHeader(h.c, |h.l.mem|, o, x);
      PayloadHasNoHeader(k.c, |k.l.mem|, o, x);
    }
  }

  /** The first `n - 1` payload cells, as part of the payload. */
  lemma PayloadPrefix(h: Heap, k: Heap, o: nat, n: nat)
    requires HeapOk(h) && HeapOk(k) && PayloadsKept(h, k) && LiveAt(h.c, o) && LiveAt(k.c, o)
    requires 0 < n <= h.c[o].size && n <= k.c[o].size
    ensures |PayloadAt(h, o)| == h.c[o].size - 1 && |PayloadAt(k, o)| == k.c[o].size - 1
    ensures PayloadAt(k, o)[..n - 1] == PayloadAt(h, o)[..n - 1]
  {
    hide HeapOk;
    HeaderFacts(h, o);
    HeaderFacts(k, o);
    PayloadKept(h, k, o, n);
    assert PayloadAt(h, o)[..n - 1] == h.l.mem[o + 1..o + n];
    assert PayloadAt(k, o)[..n - 1] == k.l.mem[o + 1..o + n];
  }

  /** Blocks other than `o` are live with the same contents before and after. */
  ghost predicate OthersKept(h: Heap, k: Heap, o: nat)
    requires HeapOk(h) && HeapOk(k)
  {
    forall x: nat {:trigger LiveAt(h.c, x)} {:trigger LiveAt(k.c, x)} | x != o ::
      && (LiveAt(h.c, x) <==> LiveAt(k.c, x))
      && (LiveAt(h.c, x) ==> PayloadAt(k, x) == PayloadAt(h, x))
  }

  lemma OthersKeptBy(h: Heap, k: Heap, o: nat)
    requires HeapOk(h) && HeapOk(k) && PayloadsKept(h, k)
    requires SameSizes(h.c, k.c, o)
    ensures OthersKept(h, k, o)
  {
    hide HeapOk;
    forall x: nat | x != o && LiveAt(h.c, x)
      ensures PayloadAt(k, x) == PayloadAt(h, x)
    {
      HeaderFacts(h, x);
      PayloadKept(h, k, x, h.c[x].size);
    }
  }

  /** Blocks other than `o` are live in both layouts with the same size. */
  ghost predicate SameSizes(c: Layout, d: Layout, o: nat) {
    forall x: nat {:trigger LiveAt(c, x)} {:trigger LiveAt(d, x)} | x != o ::
      && (LiveAt(c, x) <==> LiveAt(d, x))
      && (LiveAt(c, x) ==> d[x].size == c[x].size)
  }

  lemma LiveSizes(c: Layout, d: Layout, o: nat)
    requires Live(c) - {o} == Live(d) - {o}
    ensures SameSizes(c, d, o)
  {
    forall x: nat | x != o
      ensures LiveAt(c, x) <==> LiveAt(d, x)
      ensures LiveAt(c, x) ==> d[x].size == c[x].size
    {
      assert LiveAt(c, x) <==> x in Live(c) - {o};
      assert LiveAt(d, x) <==> x in Live(d) - {o};
      if LiveAt(c, x) { assert (Live(c) - {o})[x] == c[x].size && (Live(d) - {o})[x] == d[x].size; }
    }
  }

  // ---- single stores ----

  /** A store that neither hits the payload of `x` nor changes its size word. */
  ghost predicate Spares(h: Heap, s: Store, x: nat)
    requires x in h.c
  {
    && s.at < |h.l.mem|
    && !(x < s.at < x + h.c[x].size)
    && (s.at == x ==> s.cell.sizeWord == h.l.mem[x].sizeWord)
  }

  /** Every store from `h` to `k` spares every block that is live in `h`, except `o`. */
  ghost predicate SparesOthers(h: Heap, k: Heap, o: nat) {
    && |h.l.log| <= |k.l.log| && k.l.log[..|h.l.log|] == h.l.log
    && forall i, x: nat {:trigger Spares(h, k.l.log[i], x)} |
         |h.l.log| <= i < |k.l.log| && LiveAt(h.c, x) && x != o :: Spares(h, k.l.log[i], x)
  }

  /** `y` lies in no payload of a live block other than `t`. */
  ghost predicate Clear(c: Layout, t: Option<nat>, y: nat) {
    forall x: nat {:trigger LiveAt(c, x)} | LiveAt(c, x) && t != Some(x) :: !(x < y < x + c[x].size)
  }

  /** The live blocks of `c` other than `t` are still there in `d`. */
  ghost predicate OthersLive(c: Layout, t: Option<nat>, d: Layout) {
    forall x: nat {:trigger LiveAt(c, x)} | LiveAt(c, x) && t != Some(x) :: LiveAt(d, x) && d[x].size == c[x].size
  }

  /** Headers, and the end of the space, are in the way of no block that was there before. */
  lemma HeaderClear(c: Layout, t: Option<nat>, h: Heap, y: nat)
    requires HeapOk(h) && OthersLive(c, t, h.c) && (y in h.c || y >= |h.l.mem|)
    ensures Clear(c, t, y)
  {
    forall x: nat | LiveAt(c, x) && t != Some(x)
      ensures !(x < y < x + c[x].size)
    {
      HeaderFacts(h, x);
      if x != y && y in h.c { Disjoint(h.c, |h.l.mem|, x, y); }
    }
  }

  /** Nor is what lies inside a free chunk, or inside block `t` itself. */
  lemma ChunkClear(c: Layout, t: Option<nat>, h: Heap, p: nat, y: nat)
    requires HeapOk(h) && OthersLive(c, t, h.c)
    requires p in h.c && (!h.c[p].used || t == Some(p)) && p <= y < p + h.c[p].size
    ensures Clear(c, t, y)
  {
    forall x: nat | LiveAt(c, x) && t != Some(x)
      ensures !(x < y < x + c[x].size)
    {
      Disjoint(h.c, |h.l.mem|, p, x);
    }
  }

  lemma SparesBy(h: Heap, k: Heap, w: set<nat>, r: set<nat>, o: nat)
    requires HeapOk(h) && Stage(h.l, k.l, w, r)
    requires forall y | y in w :: Clear(h.c, Some(o), y)
    requires forall y | y in r :: LiveAt(h.c, y) ==> y == o
    ensures SparesOthers(h, k, o)
  {
    forall i, x: nat | |h.l.log| <= i < |k.l.log| && LiveAt(h.c, x) && x != o
      ensures Spares(h, k.l.log[i], x)
    {
      var s := k.l.log[i];
      assert StoreWithin(h.l, s, w, r);
      if s.at !in w {
        assert FiledOk(h.c, h.l.nodes, h.m, s.at);
        HeaderClear(h.c, Some(o), h, s.at);
      }
      assert Clear(h.c, Some(o), s.at);
      assert TagOk(h.l.mem, h.c, x);
    }
  }

  // ---- the operations ----

  /** What every operation on block `o` leaves alone. */
  ghost predicate Keeps(h: Heap, k: Heap, o: nat) {
    && HeapOk(h) && HeapOk(k) && k.l.base == h.l.base && |k.l.mem| == |h.l.mem| && k.m == h.m && h.high <= k.high
    && OthersKept(h, k, o) && SparesOthers(h, k, o)
  }

  /** `free`: the block is gone. */
  ghost predicate Freed(h: Heap, k: Heap, o: nat) {
    && Keeps(h, k, o) && k.high == h.high
    && LiveAt(h.c, o) && Live(k.c) == Live(h.c) - {o}
    && Contents(k) == Contents(h) - {o}
  }

  lemma FreedBy(h: Heap, k: Heap, o: nat)
    requires HeapOk(h) && HeapOk(k) && LiveAt(h.c, o) && ReleaseDone(h, k, o)
    requires Live(k.c) == Live(h.c) - {o} && PayloadsKept(h, k)
    requires Stage(h.l, k.l, ReleaseWrites(h, o), {ReleaseStart(h.c, o)})
    ensures Freed(h, k, o)
  {
    hide HeapOk, WellFormed, LinksOk, SparesOthers, OthersKept, StoresWithin, Contents;
    LiveSizes(h.c, k.c, o);
    OthersKeptBy(h, k, o);
    HeaderFacts(h, o);
    EndIsChunk(h, o);
    var w, r := ReleaseWrites(h, o), {ReleaseStart(h.c, o)};
    forall y | y in w
      ensures Clear(h.c, Some(o), y)
    {
      HeaderClear(h.c, Some(o), h, y);
    }
    SparesBy(h, k, w, r, o);
    ContentsWithout(h, k, o);
  }

  /** The steps of `free`, put together. */
  lemma FreeFinal(h: Heap, k: Heap, l1: Lists, l2: Lists, l3: Lists, o: nat, size: nat, prev: nat)
    requires HeapOk(h) && LiveAt(h.c, o)
    requires PrevAbsorbed(h, l1, o, size, prev)
    requires if NextFree(h.c, o) then Unlinks(l1, l2, o + h.c[o].size) else l2 == l1
    requires |l2.mem| == |h.l.mem|
    requires RegistersAndTags(l2, l3, k.l, h.m, ReleaseStart(h.c, o), prev, ReleaseEnd(h.c, o) - ReleaseStart(h.c, o))
    requires ReleaseDone(h, k, o) && Live(k.c) == Live(h.c) - {o} && Replayed(k.l)
    ensures HeapOk(k) && Freed(h, k, o)
  {
    hide HeapOk, WellFormed, Unlinks, Registers, Tags, Replayed, Stage, IsReleased, Freed;
    ReleaseShape(h, o);
    ReleaseFinish(h, k, l1, l2, l3, o);
    FreedBy(h, k, o);
  }

  lemma ContentsWithout(h: Heap, k: Heap, o: nat)
    requires HeapOk(h) && HeapOk(k) && OthersKept(h, k, o) && !LiveAt(k.c, o)
    ensures Contents(k) == Contents(h) - {o}
  {
    hide HeapOk, PayloadAt;
    var a, b := Contents(k), Contents(h) - {o};
    forall x: nat
      ensures x in a <==> x in b
      ensures x in a ==> a[x] == b[x]
    {
      assert x in a <==> LiveAt(k.c, x);
      assert x in b <==> LiveAt(h.c, x) && x != o;
    }
  }

  /** Contents after block `o` got new contents. */
  lemma ContentsWith(h: Heap, k: Heap, o: nat)
    requires HeapOk(h) && HeapOk(k) && OthersKept(h, k, o) && LiveAt(k.c, o)
    ensures Contents(k) == Contents(h)[o := PayloadAt(k, o)]
  {
    hide HeapOk, PayloadAt;
    var a, b := Contents(k), Contents(h)[o := PayloadAt(k, o)];
    forall x: nat
      ensures x in a <==> x in b
      ensures x in a ==> a[x] == b[x]
    {
      assert x in a <==> LiveAt(k.c, x);
      assert x in b <==> LiveAt(h.c, x) || x == o;
    }
  }

  /** `shrink_inplace` to `n` units: the block keeps the first part of its contents. */
  ghost predicate Shrunk(h: Heap, k: Heap, o: nat, n: nat) {
    && Keeps(h, k, o) && k.high == h.high
    && LiveAt(h.c, o) && 0 < n < h.c[o].size && Live(k.c) == Live(h.c)[o := n]
    && |PayloadAt(h, o)| >= n - 1 && Contents(k) == Contents(h)[o := PayloadAt(h, o)[..n - 1]]
  }

  lemma ShrunkBy(h: Heap, k: Heap, o: nat, n: nat)
    requires HeapOk(h) && HeapOk(k) && LiveAt(h.c, o) && 0 < n < h.c[o].size && TrimDone(h, k, o, n)
    requires Live(k.c) == Live(h.c)[o := n] && PayloadsKept(h, k)
    requires Stage(h.l, k.l, TrimWrites(h, o, n), {o, o + n})
    ensures Shrunk(h, k, o, n)
  {
    hide HeapOk, WellFormed, LinksOk, SparesOthers, OthersKept, StoresWithin, Contents, PayloadAt;
    LiveSizes(h.c, k.c, o);
    OthersKeptBy(h, k, o);
    ShrunkStores(h, k, o, n);
    PayloadPrefix(h, k, o, n);
    assert PayloadAt(k, o)[..n - 1] == PayloadAt(k, o);
    ContentsWith(h, k, o);
  }

  lemma ShrunkStores(h: Heap, k: Heap, o: nat, n: nat)
    requires HeapOk(h) && LiveAt(h.c, o) && 0 < n < h.c[o].size
    requires Stage(h.l, k.l, TrimWrites(h, o, n), {o, o + n})
    ensures SparesOthers(h, k, o)
  {
    hide HeapOk, LinksOk, SparesOthers, Frame;
    ReleaseShape(h, o);
    forall y | y in TrimWrites(h, o, n)
      ensures Clear(h.c, Some(o), y)
    {
      if y == o + n { ChunkClear(h.c, Some(o), h, o, y); } else { HeaderClear(h.c, Some(o), h, y); }
    }
    InsideChunk(h, o, o + n);
    SparesBy(h, k, TrimWrites(h, o, n), {o, o + n}, o);
  }

  lemma InsideChunk(h: Heap, o: nat, x: nat)
    requires HeapOk(h) && o in h.c && o < x < o + h.c[o].size
    ensures x !in h.c
  {
    if x in h.c { Disjoint(h.c, |h.l.mem|, o, x); }
  }

  lemma ShrinkFinal(h: Heap, k: Heap, l1: Lists, l2: Lists, l3: Lists, o: nat, n: nat)
    requires HeapOk(h) && LiveAt(h.c, o) && 0 < n < h.c[o].size
    requires Tags(h.l, l1, o, h.c[o].prev, 2 * n + 1)
    requires if NextFree(h.c, o) then Unlinks(l1, l2, o + h.c[o].size) else l2 == l1
    requires |l2.mem| == |h.l.mem| && o + n < ReleaseEnd(h.c, o)
    requires 1 <= h.m <= 8 && RegistersAndTags(l2, l3, k.l, h.m, o + n, n, ReleaseEnd(h.c, o) - (o + n))
    requires TrimDone(h, k, o, n) && Live(k.c) == Live(h.c)[o := n] && Replayed(k.l)
    ensures HeapOk(k) && Shrunk(h, k, o, n)
  {
    hide HeapOk, WellFormed, Unlinks, Registers, Tags, Replayed, Stage, IsTrimmed, Shrunk;
    TrimFinish(h, k, l1, l2, l3, o, n);
    ShrunkBy(h, k, o, n);
  }

  /** `grow_inplace` to `n` units: the block keeps all its contents. */
  ghost predicate Grown(h: Heap, k: Heap, o: nat, n: nat) {
    && Keeps(h, k, o)
    && LiveAt(h.c, o) && h.c[o].size < n && Live(k.c) == Live(h.c)[o := n]
    && LiveAt(k.c, o) && |PayloadAt(k, o)| == n - 1 && PayloadAt(h, o) <= PayloadAt(k, o)
    && Contents(k) == Contents(h)[o := PayloadAt(k, o)]
  }

  lemma GrownBy(h: Heap, k: Heap, o: nat, n: nat)
    requires HeapOk(h) && HeapOk(k) && ExtendFits(h, o, n) && ExtendDone(h, k, o, n)
    requires Live(k.c) == Live(h.c)[o := n] && PayloadsKept(h, k)
    requires Stage(h.l, k.l, ExtendWrites(h, o, n), ExtendResizes(h, o, n))
    ensures Grown(h, k, o, n)
  {
    hide HeapOk, WellFormed, LinksOk, SparesOthers, OthersKept, StoresWithin, Contents, PayloadAt;
    LiveSizes(h.c, k.c, o);
    OthersKeptBy(h, k, o);
    GrownStores(h, k, o, n);
    PayloadPrefix(h, k, o, h.c[o].size);
    assert PayloadAt(h, o)[..h.c[o].size - 1] == PayloadAt(h, o);
    ContentsWith(h, k, o);
  }

  lemma GrownStores(h: Heap, k: Heap, o: nat, n: nat)
    requires HeapOk(h) && ExtendFits(h, o, n)
    requires Stage(h.l, k.l, ExtendWrites(h, o, n), ExtendResizes(h, o, n))
    ensures SparesOthers(h, k, o)
  {
    hide HeapOk, LinksOk, SparesOthers, Frame;
    var next, end := o + h.c[o].size, ReleaseEnd(h.c, o);
    ReleaseShape(h, o);
    forall y | y in ExtendWrites(h, o, n)
      ensures Clear(h.c, Some(o), y)
    {
      if y == o + n && y != end { ChunkClear(h.c, Some(o), h, next, y); } else { HeaderClear(h.c, Some(o), h, y); }
    }
    if o + n < end { InsideChunk(h, next, o + n); }
    SparesBy(h, k, ExtendWrites(h, o, n), ExtendResizes(h, o, n), o);
  }

  /** The extent that growing block `o` to `n` units needs. */
  ghost function GrowEnd(c: Layout, o: nat, n: nat): nat
    requires o in c
  {
    o + n + if o + n < ReleaseEnd(c, o) then 1 else 0
  }

  /** Exactly when block `o` can grow to `n` units in place. */
  ghost predicate CanGrow(h: Heap, o: nat, n: nat, grants: u32 -> bool) {
    && LiveAt(h.c, o) && n < 0x1_0000_0000 && NextFree(h.c, o) && n <= ReleaseEnd(h.c, o) - o
    && GrowEnd(h.c, o, n) < 0x1_0000_0000
    && (GrowEnd(h.c, o, n) <= h.high || grants(GrowEnd(h.c, o, n)))
  }

  /** What `grow_inplace` to `n` units returns and does. */
  ghost predicate GrowOutcome(h: Heap, k: Heap, o: nat, n: nat, grants: u32 -> bool, r: Option<u32>) {
    && HeapOk(h) && LiveAt(h.c, o)
    && if n <= h.c[o].size then k == h && r == Some(h.c[o].size - 1)
       else if CanGrow(h, o, n, grants) then
         && r == Some(n - 1) && Grown(h, k, o, n)
         && k.high == if h.high < GrowEnd(h.c, o, n) then GrowEnd(h.c, o, n) else h.high
       else k == h && r == None
  }

  /** What `grow_inplace` sees of block `o` and its right neighbour. */
  lemma GrowView(h: Heap, o: nat)
    requires HeapOk(h) && LiveAt(h.c, o)
    ensures var next := o + h.c[o].size;
      && o < h.high && 0 < h.c[o].size && next <= |h.l.mem| < SPACE_LIMIT
      && WordSize(h.l.mem[o].sizeWord) == h.c[o].size
      && (next >= |h.l.mem| ==> !NextFree(h.c, o))
      && (next < |h.l.mem| ==> next < h.high && (NextFree(h.c, o) <==> !WordUsed(h.l.mem[next].sizeWord)))
      && (NextFree(h.c, o) ==> ReleaseEnd(h.c, o) == next + WordSize(h.l.mem[next].sizeWord) <= |h.l.mem|)
  {
    hide HeapOk;
    HeaderFacts(h, o);
    EndIsChunk(h, o);
    if o + h.c[o].size in h.c { HeaderFacts(h, o + h.c[o].size); }
  }

  /** The steps of `grow_inplace`, put together. */
  lemma GrowFinal(h: Heap, k: Heap, l1: Lists, l2: Lists, l3: Lists, o: nat, n: nat)
    requires HeapOk(h) && ExtendFits(h, o, n)
    requires Unlinks(h.l, l1, o + h.c[o].size)
    requires Tags(l1, l2, o, h.c[o].prev, 2 * n + 1)
    requires |l2.mem| == |h.l.mem|
    requires RegistersAndTags(l2, l3, k.l, h.m, o + n, n, ReleaseEnd(h.c, o) - (o + n))
    requires ExtendDone(h, k, o, n) && Live(k.c) == Live(h.c)[o := n] && Replayed(k.l)
    ensures HeapOk(k) && Grown(h, k, o, n)
  {
    hide HeapOk, WellFormed, Replayed, Stage, IsExtended, Grown, Unlinks, Registers, Tags;
    ExtendFinish(h, k, l1, l2, l3, o, n);
    GrownBy(h, k, o, n);
  }

  /** `alloc` of `n` units, header included, at header offset `o`: a new block appears. */
  ghost predicate Placed(h: Heap, k: Heap, o: nat, n: nat) {
    && Keeps(h, k, o)
    && !LiveAt(h.c, o) && Live(k.c) == Live(h.c)[o := n]
    && LiveAt(k.c, o) && |PayloadAt(k, o)| == n - 1
    && Contents(k) == Contents(h)[o := PayloadAt(k, o)]
  }

  lemma PlacedStores(h: Heap, k: Heap, o: nat, l: nat, n: nat)
    requires HeapOk(h) && PlaceFits(h, o, l, n)
    requires Stage(h.l, k.l, PlaceWrites(h, o, l, n), PlaceResizes(h, o, l, n))
    ensures SparesOthers(h, k, o + l)
  {
    hide HeapOk, LinksOk, SparesOthers, Frame;
    HeaderFacts(h, o);
    EndIsChunk(h, o);
    forall y | y in PlaceWrites(h, o, l, n)
      ensures Clear(h.c, Some(o + l), y)
    {
      if y == o + h.c[o].size { HeaderClear(h.c, Some(o + l), h, y); } else { ChunkClear(h.c, Some(o + l), h, o, y); }
    }
    forall y | y in PlaceResizes(h, o, l, n)
      ensures !LiveAt(h.c, y)
    {
      if y != o { InsideChunk(h, o, y); }
    }
    SparesBy(h, k, PlaceWrites(h, o, l, n), PlaceResizes(h, o, l, n), o + l);
  }

  lemma PlacedBy(h: Heap, k: Heap, o: nat, l: nat, n: nat)
    requires HeapOk(h) && HeapOk(k) && PlaceFits(h, o, l, n) && PlaceDone(h, k, o, l, n)
    requires Live(k.c) == Live(h.c)[o + l := n] && PayloadsKept(h, k)
    requires Stage(h.l, k.l, PlaceWrites(h, o, l, n), PlaceResizes(h, o, l, n))
    ensures Placed(h, k, o + l, n)
  {
    hide HeapOk, WellFormed, LinksOk, SparesOthers, OthersKept, StoresWithin, Contents;
    if l > 0 { InsideChunk(h, o, o + l); }
    LiveAfterPlace(h.c, k.c, o + l, n);
    OthersKeptBy(h, k, o + l);
    PlacedStores(h, k, o, l, n);
    HeaderFacts(k, o + l);
    ContentsWith(h, k, o + l);
  }

  lemma LiveAfterPlace(c: Layout, d: Layout, o: nat, n: nat)
    requires !LiveAt(c, o) && Live(d) == Live(c)[o := n]
    ensures SameSizes(c, d, o) && LiveAt(d, o) && d[o].size == n
  {
    assert Live(d) - {o} == Live(c) - {o};
    LiveSizes(c, d, o);
    assert o in Live(d);
  }

  lemma PlacedFacts(h: Heap, k: Heap, o: nat, n: nat)
    requires HeapOk(h) && Placed(h, k, o, n)
    ensures HeapOk(k) && LiveAt(k.c, o) && k.c[o].size == n && k.l.base == h.l.base
  {
    hide HeapOk;
    HeaderFacts(k, o);
  }

  lemma PlacedKeeps(h: Heap, k: Heap, o: nat, n: nat, x: nat)
    requires HeapOk(h) && Placed(h, k, o, n) && LiveAt(h.c, x)
    ensures x != o && LiveAt(k.c, x) && k.c[x].size == h.c[x].size
  {
    hide HeapOk;
    LiveAfterPlace(h.c, k.c, o, n);
  }

  /** The steps of `alloc`, put together. */
  lemma PlaceFinal(h: Heap, k: Heap, l1: Lists, l2: Lists, l3: Lists, l4: Lists, o: nat, l: nat, n: nat)
    requires HeapOk(h) && PlaceFits(h, o, l, n)
    requires CarvedFront(h, l1, l2, l3, o, l, n)
    requires |l3.mem| == |h.l.mem|
    requires RegistersAndTags(l3, l4, k.l, h.m, o + l + n, n, h.c[o].size - l - n)
    requires PlaceDone(h, k, o, l, n) && Live(k.c) == Live(h.c)[o + l := n] && Replayed(k.l)
    ensures HeapOk(k) && Placed(h, k, o + l, n) && PayloadsKept(h, k)
  {
    hide HeapOk, WellFormed, Replayed, Stage, IsPlaced, Placed, Unlinks, Registers, Tags;
    PlaceFinish(h, k, l1, l2, l3, l4, o, l, n);
    PlacedBy(h, k, o, l, n);
  }
}
