/** Stores into the payload of one block: the user's own, `write_bytes` and
    `copy_nonoverlapping` (src/allocator.rs:872-876 and 1108). They keep the heap and every
    other block. */
module Payloads {
  import opened Partition
  import opened FreeLists
  import opened Heaps
  import opened Operations
  import opened Effects

  ghost predicate InPayload(h: Heap, o: nat, x: nat) {
    LiveAt(h.c, o) && o < x < o + h.c[o].size
  }

  /** At `x` a run of stores into the payload of `o` changed nothing. */
  ghost predicate CellKept(h: Heap, k: Heap, o: nat, x: nat) {
    x < |h.l.mem| && x < |k.l.mem| && !InPayload(h, o, x) ==> k.l.mem[x] == h.l.mem[x]
  }

  ghost predicate StoreInside(h: Heap, o: nat, s: Store) {
    InPayload(h, o, s.at) && s.at < |h.l.mem|
  }

  /** From `h` to `k` there were stores into the payload of block `o` only. */
  ghost predicate Rewrote(h: Heap, k: Heap, o: nat) {
    && LiveAt(h.c, o) && |k.l.mem| == |h.l.mem|
    && k == h.(l := h.l.(mem := k.l.mem, log := k.l.log))
    && (forall x: nat {:trigger CellKept(h, k, o, x)} :: CellKept(h, k, o, x))
    && |h.l.log| <= |k.l.log| && k.l.log[..|h.l.log|] == h.l.log
    && (forall i | |h.l.log| <= i < |k.l.log| :: StoreInside(h, o, k.l.log[i]))
  }

  lemma RewroteRefl(h: Heap, o: nat)
    requires LiveAt(h.c, o)
    ensures Rewrote(h, h, o)
  {}

  /** One more store. */
  lemma RewroteStep(h: Heap, k: Heap, j: Heap, o: nat, x: nat, cell: Cell)
    requires Rewrote(h, k, o) && InPayload(h, o, x) && x < |k.l.mem|
    requires j == k.(l := WithCell(k.l, x, cell))
    ensures Rewrote(h, j, o)
  {
    forall y: nat ensures CellKept(h, j, o, y) { assert CellKept(h, k, o, y); }
    forall i | |h.l.log| <= i < |j.l.log|
      ensures StoreInside(h, o, j.l.log[i])
    {
      if i < |k.l.log| { assert j.l.log[i] == k.l.log[i]; }
    }
  }

  lemma PayloadCellFree(h: Heap, o: nat, x: nat)
    requires HeapOk(h) && InPayload(h, o, x)
    ensures x < h.high <= |h.l.mem| && x !in h.c && x !in h.l.nodes
  {
    HeaderFacts(h, o);
    PayloadHasNoHeader(h.c, |h.l.mem|, o, x);
    NoHeaderNoNode(h, x);
  }

  /** A store into a payload keeps the heap in order. */
  lemma PayloadStoreOk(h: Heap, o: nat, x: nat, cell: Cell)
    requires HeapOk(h) && InPayload(h, o, x)
    ensures x < |h.l.mem| && HeapOk(h.(l := WithCell(h.l, x, cell)))
  {
    PayloadCellFree(h, o, x);
    var k := h.(l := WithCell(h.l, x, cell));
    forall y | y in k.c ensures TagOk(k.l.mem, k.c, y) { assert TagOk(h.l.mem, h.c, y); }
    SameLinks(h.l, k.l);
    WithCellReplayed(h.l, x, cell);
    forall i: nat | i < |k.l.log| ensures StoredBelow(k.l.log, k.high, i) {
      if i < |h.l.log| { assert StoredBelow(h.l.log, h.high, i); }
    }
  }

  lemma RewrotePayload(h: Heap, k: Heap, o: nat)
    requires HeapOk(h) && HeapOk(k) && Rewrote(h, k, o)
    ensures OthersKept(h, k, o)
  {
    hide HeapOk;
    forall x: nat | x != o && LiveAt(h.c, x)
      ensures PayloadAt(k, x) == PayloadAt(h, x)
    {
      HeaderFacts(h, x);
      forall y | x < y < x + h.c[x].size
        ensures k.l.mem[y] == h.l.mem[y]
      {
        assert CellKept(h, k, o, y);
        OtherPayload(h, o, x, y);
      }
    }
  }

  lemma OtherPayload(h: Heap, o: nat, x: nat, y: nat)
    requires HeapOk(h) && LiveAt(h.c, o) && LiveAt(h.c, x) && x != o && x <= y < x + h.c[x].size
    ensures !InPayload(h, o, y)
  {
    Disjoint(h.c, |h.l.mem|, o, x);
  }

  /** Stores into a payload leave all other blocks alone. */
  lemma RewroteKeeps(h: Heap, k: Heap, o: nat)
    requires HeapOk(h) && HeapOk(k) && Rewrote(h, k, o)
    ensures Keeps(h, k, o)
    ensures forall x: nat | x in h.c :: x < |h.l.mem| && k.l.mem[x] == h.l.mem[x]
  {
    hide HeapOk;
    RewrotePayload(h, k, o);
    forall i, x: nat | |h.l.log| <= i < |k.l.log| && LiveAt(h.c, x) && x != o
      ensures Spares(h, k.l.log[i], x)
    {
      var s := k.l.log[i];
      assert StoreInside(h, o, s);
      PayloadCellFree(h, o, s.at);
      HeaderFacts(h, x);
      if x <= s.at < x + h.c[x].size { OtherPayload(h, o, x, s.at); }
    }
    forall x: nat | x in h.c
      ensures x < |h.l.mem| && k.l.mem[x] == h.l.mem[x]
    {
      HeaderFacts(h, x);
      assert CellKept(h, k, o, x);
      if InPayload(h, o, x) { PayloadCellFree(h, o, x); }
    }
  }

  /** A user's store: one cell of one payload changes. */
  ghost predicate Written(h: Heap, k: Heap, o: nat, i: nat, cell: Cell) {
    && Keeps(h, k, o) && k.high == h.high && k.c == h.c
    && LiveAt(h.c, o) && i < |PayloadAt(h, o)|
    && Contents(k) == Contents(h)[o := PayloadAt(h, o)[i := cell]]
  }

  lemma SliceUpdate(mem: seq<Cell>, a: nat, b: nat, i: nat, cell: Cell)
    requires a + i < b <= |mem|
    ensures mem[a + i := cell][a..b] == mem[a..b][i := cell]
  {}

  lemma WrittenBy(h: Heap, o: nat, i: nat, cell: Cell)
    requires HeapOk(h) && LiveAt(h.c, o) && i + 1 < h.c[o].size
    ensures o + 1 + i < |h.l.mem|
    ensures var k := h.(l := WithCell(h.l, o + 1 + i, cell)); HeapOk(k) && Written(h, k, o, i, cell)
  {
    hide HeapOk, Contents, Keeps, Rewrote, OthersKept;
    HeaderFacts(h, o);
    var k := h.(l := WithCell(h.l, o + 1 + i, cell));
    PayloadStoreOk(h, o, o + 1 + i, cell);
    RewroteRefl(h, o);
    RewroteStep(h, h, k, o, o + 1 + i, cell);
    RewroteKeeps(h, k, o);
    SliceUpdate(h.l.mem, o + 1, o + h.c[o].size, i, cell);
    RewrotePayload(h, k, o);
    ContentsWith(h, k, o);
  }

  predicate AllZero(s: seq<Cell>) {
    forall i | 0 <= i < |s| :: s[i] == ZERO_CELL
  }

  ghost predicate Zeroed(h: Heap, k: Heap, o: nat) {
    && HeapOk(k) && o in k.c && Rewrote(h, k, o) && AllZero(PayloadAt(k, o))
  }

  /** A new block whose payload is then overwritten is a new block. */
  lemma PlacedThenRewrote(h: Heap, j: Heap, k: Heap, o: nat, n: nat)
    requires HeapOk(h) && Placed(h, j, o, n) && Rewrote(j, k, o) && HeapOk(k)
    ensures Placed(h, k, o, n) && k.high == j.high
  {
    hide HeapOk, Contents, PayloadAt, SparesOthers, OthersKept;
    LiveAfterPlace(h.c, j.c, o, n);
    RewroteKeeps(j, k, o);
    KeepsTrans(h, j, k, o);
    PayloadSize(k, o);
    KeptContents(h, k, o);
  }

  lemma KeptContents(h: Heap, k: Heap, o: nat)
    requires HeapOk(h) && Keeps(h, k, o) && LiveAt(k.c, o)
    ensures Contents(k) == Contents(h)[o := PayloadAt(k, o)]
  {
    hide HeapOk, SparesOthers, OthersKept;
    ContentsWith(h, k, o);
  }

  lemma KeepsTrans(h: Heap, j: Heap, k: Heap, o: nat)
    requires HeapOk(h) && Keeps(h, j, o) && Keeps(j, k, o)
    requires SameSizes(h.c, j.c, o)
    ensures Keeps(h, k, o)
  {
    hide HeapOk, SparesOthers, PayloadAt;
    SparesTrans(h, j, k, o);
  }

  lemma PayloadSize(h: Heap, o: nat)
    requires HeapOk(h) && o in h.c
    ensures |PayloadAt(h, o)| == h.c[o].size - 1
  {
    HeaderFacts(h, o);
  }

  /** Runs of stores compose: blocks that the first run leaves alone look the same to the
      second. */
  lemma SparesTrans(h: Heap, j: Heap, k: Heap, o: nat)
    requires HeapOk(h) && Keeps(h, j, o) && Keeps(j, k, o)
    requires SameSizes(h.c, j.c, o)
    ensures SparesOthers(h, k, o)
  {
    hide HeapOk, OthersKept;
    assert k.l.log[..|h.l.log|] == j.l.log[..|h.l.log|];
    forall i, x: nat | |h.l.log| <= i < |k.l.log| && LiveAt(h.c, x) && x != o
      ensures Spares(h, k.l.log[i], x)
    {
      HeaderFacts(h, x);
      HeaderFacts(j, x);
      if i < |j.l.log| {
        assert k.l.log[i] == k.l.log[..|j.l.log|][i];
        assert Spares(h, j.l.log[i], x);
      } else {
        assert LiveAt(j.c, x) && Spares(j, k.l.log[i], x);
      }
    }
  }

  // ---- moving a block ----

  /** `realloc` that moves block `o` to `q`, of `n` units: the contents came along. */
  ghost predicate Moved(h: Heap, k: Heap, o: nat, q: nat, n: nat) {
    && HeapOk(h) && HeapOk(k) && k.l.base == h.l.base && |k.l.mem| == |h.l.mem| && k.m == h.m && h.high <= k.high
    && SparesOthers(h, k, o)
    && LiveAt(h.c, o) && q != o && !LiveAt(h.c, q)
    && Live(k.c) == (Live(h.c) - {o})[q := n]
    && LiveAt(k.c, q) && |PayloadAt(k, q)| == n - 1 && PayloadAt(h, o) <= PayloadAt(k, q)
    && Contents(k) == (Contents(h) - {o})[q := PayloadAt(k, q)]
  }

  /** The copy has the source's contents in front. */
  ghost predicate Copied(h: Heap, k: Heap, o: nat, q: nat) {
    && HeapOk(h) && HeapOk(k)
    && LiveAt(h.c, o) && LiveAt(k.c, q)
    && |PayloadAt(h, o)| <= |PayloadAt(k, q)|
    && forall i | 0 <= i < |PayloadAt(h, o)| :: PayloadAt(k, q)[i] == PayloadAt(h, o)[i]
  }

  /** Cell `x` of the payload has been copied. */
  ghost predicate CopiedAt(h: Heap, k: Heap, o: nat, q: nat, x: nat) {
    q + 1 + x < |k.l.mem| && o + 1 + x < |h.l.mem| && k.l.mem[q + 1 + x] == h.l.mem[o + 1 + x]
  }

  /** The source is not touched while copying. */
  lemma CopySource(h: Heap, k: Heap, o: nat, q: nat, x: nat)
    requires HeapOk(h) && Rewrote(h, k, q) && LiveAt(h.c, o) && o != q && o < x < o + h.c[o].size
    ensures x < h.high <= |k.l.mem| == |h.l.mem| && k.l.mem[x] == h.l.mem[x]
  {
    HeaderFacts(h, o);
    OtherPayload(h, q, o, x);
    assert CellKept(h, k, q, x);
  }

  /** Copying one more cell keeps the ones copied before. */
  lemma CopyStep(h: Heap, k: Heap, j: Heap, o: nat, q: nat, i: nat)
    requires forall x {:trigger CopiedAt(h, k, o, q, x)} | 0 <= x < i :: CopiedAt(h, k, o, q, x)
    requires q + 1 + i < |k.l.mem| && o + 1 + i < |h.l.mem|
    requires j == k.(l := WithCell(k.l, q + 1 + i, h.l.mem[o + 1 + i]))
    ensures forall x {:trigger CopiedAt(h, j, o, q, x)} | 0 <= x < i + 1 :: CopiedAt(h, j, o, q, x)
  {
    forall x | 0 <= x < i + 1 ensures CopiedAt(h, j, o, q, x) {
      if x < i { assert CopiedAt(h, k, o, q, x); }
    }
  }

  lemma CopiedBy(h: Heap, k: Heap, o: nat, q: nat)
    requires HeapOk(h) && HeapOk(k) && LiveAt(h.c, o) && LiveAt(k.c, q) && h.c[o].size <= k.c[q].size
    requires forall x {:trigger CopiedAt(h, k, o, q, x)} | 0 <= x < h.c[o].size - 1 :: CopiedAt(h, k, o, q, x)
    ensures Copied(h, k, o, q)
  {
    hide HeapOk;
    HeaderFacts(h, o);
    HeaderFacts(k, q);
    forall i | 0 <= i < |PayloadAt(h, o)|
      ensures PayloadAt(k, q)[i] == PayloadAt(h, o)[i]
    {
      assert CopiedAt(h, k, o, q, i);
    }
  }

  /** Allocating, copying and freeing the source moves the block. */
  lemma MovedBy(h: Heap, i: Heap, j: Heap, k: Heap, o: nat, q: nat, n: nat)
    requires HeapOk(h) && LiveAt(h.c, o) && Placed(h, i, q, n)
    requires Rewrote(i, j, q) && HeapOk(j) && Copied(i, j, o, q) && Freed(j, k, o)
    ensures Moved(h, k, o, q, n) && k.high == i.high
  {
    hide HeapOk, Contents, PayloadAt, SparesOthers, Rewrote;
    PlacedThenRewrote(h, i, j, q, n);
    assert q != o;
    MovedStores(h, j, k, o, q, n);
    assert PayloadAt(i, o) == PayloadAt(h, o);
    assert PayloadAt(k, q) == PayloadAt(j, q);
    MovedContents(Contents(h), o, q, PayloadAt(k, q));
  }

  lemma MovedContents(c: map<nat, seq<Cell>>, o: nat, q: nat, s: seq<Cell>)
    requires o != q
    ensures c[q := s] - {o} == (c - {o})[q := s]
  {}

  lemma MovedStores(h: Heap, j: Heap, k: Heap, o: nat, q: nat, n: nat)
    requires HeapOk(h) && Placed(h, j, q, n) && Freed(j, k, o) && q != o
    ensures SparesOthers(h, k, o)
  {
    hide HeapOk, Contents, PayloadAt, OthersKept;
    LiveAfterPlace(h.c, j.c, q, n);
    assert k.l.log[..|h.l.log|] == j.l.log[..|h.l.log|];
    forall i, x: nat | |h.l.log| <= i < |k.l.log| && LiveAt(h.c, x) && x != o
      ensures Spares(h, k.l.log[i], x)
    {
      HeaderFacts(h, x);
      HeaderFacts(j, x);
      if i < |j.l.log| {
        assert k.l.log[i] == k.l.log[..|j.l.log|][i];
        assert Spares(h, j.l.log[i], x);
      } else {
        assert LiveAt(j.c, x) && Spares(j, k.l.log[i], x);
      }
    }
  }
}
