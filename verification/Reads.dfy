/** What one call reads of the heap: every read is logged with the value it saw and with the
    number of stores made before it, and stays out of the payloads of all blocks but the one
    that the call is about. */
module Reads {
  import opened Wrappers
  import opened Partition
  import opened FreeLists
  import opened Heaps
  import opened Effects

  /** The cell at `at` was read after `when` stores. */
  datatype Read = Read(at: nat, cell: Cell, when: nat)

  /** The memory after `when` stores, for a call that began on `h`. */
  ghost function MemoryAt(h: Heap, log: seq<Store>, when: nat): seq<Cell> {
    if when <= |h.l.log| || when > |log| then h.l.mem else log[when - 1].after
  }

  ghost predicate ReadOk(h: Heap, t: Option<nat>, log: seq<Store>, r: Read) {
    && Clear(h.c, t, r.at)
    && |h.l.log| <= r.when <= |log|
    && r.at < |MemoryAt(h, log, r.when)| && MemoryAt(h, log, r.when)[r.at] == r.cell
  }

  /** The reads of a call on `t` that began on `h`: each saw the memory of its time, in order. */
  ghost predicate ReadsOk(h: Heap, t: Option<nat>, mem: seq<Cell>, log: seq<Store>, rs: seq<Read>) {
    && |h.l.log| <= |log| && mem == MemoryAt(h, log, |log|)
    && (forall i {:trigger ReadOk(h, t, log, rs[i])} | 0 <= i < |rs| :: ReadOk(h, t, log, rs[i]))
    && Ordered(rs)
  }

  ghost predicate Ordered(rs: seq<Read>) {
    forall i, j {:trigger rs[i], rs[j]} | 0 <= i < j < |rs| :: rs[i].when <= rs[j].when
  }

  /** The reads stay below the high-water mark. */
  ghost predicate ReadsBelow(rs: seq<Read>, high: nat) {
    forall i {:trigger rs[i]} | 0 <= i < |rs| :: rs[i].at < high
  }

  lemma NoReads(h: Heap, t: Option<nat>)
    ensures ReadsOk(h, t, h.l.mem, h.l.log, [])
  {}

  /** A store does not touch what was read before. */
  lemma ReadsAfterStore(h: Heap, t: Option<nat>, mem: seq<Cell>, log: seq<Store>, rs: seq<Read>, o: nat, cell: Cell)
    requires ReadsOk(h, t, mem, log, rs) && o < |mem|
    ensures ReadsOk(h, t, mem[o := cell], log + [Store(o, cell, mem[o := cell])], rs)
  {
    hide Clear, Ordered;
    var more := log + [Store(o, cell, mem[o := cell])];
    forall i | 0 <= i < |rs| ensures ReadOk(h, t, more, rs[i]) { assert ReadOk(h, t, log, rs[i]); }
  }

  /** One more read. */
  lemma ReadsAfterRead(h: Heap, t: Option<nat>, mem: seq<Cell>, log: seq<Store>, rs: seq<Read>, at: nat)
    requires ReadsOk(h, t, mem, log, rs) && at < |mem| && Clear(h.c, t, at)
    ensures ReadsOk(h, t, mem, log, rs + [Read(at, mem[at], |log|)])
  {
    hide Clear;
    var more := rs + [Read(at, mem[at], |log|)];
    forall i | 0 <= i < |more| ensures ReadOk(h, t, log, more[i]) {
      if i < |rs| { assert ReadOk(h, t, log, rs[i]); }
    }
    forall i, j | 0 <= i < j < |more| ensures more[i].when <= more[j].when {
      assert ReadOk(h, t, log, rs[i]);
    }
  }

  // ---- what may be read ----

  lemma OthersLiveNow(c: Layout, t: Option<nat>)
    ensures OthersLive(c, t, c)
  {}

  /** Where nothing is live, nothing can be in the way. */
  lemma NothingLive(c: Layout, t: Option<nat>, d: Layout)
    requires OthersLive(c, t, map[])
    ensures OthersLive(c, t, d)
  {
    assert forall x: nat :: !LiveAt(map[], x);
  }

  /** A new block leaves the others where they are. */
  lemma PlacedSpares(c: Layout, t: Option<nat>, h: Heap, k: Heap, o: nat, n: nat)
    requires HeapOk(h) && OthersLive(c, t, h.c) && Placed(h, k, o, n)
    ensures OthersLive(c, t, k.c)
  {
    hide HeapOk, Placed;
    forall x: nat | LiveAt(c, x) && t != Some(x)
      ensures LiveAt(k.c, x) && k.c[x].size == c[x].size
    {
      PlacedKeeps(h, k, o, n, x);
    }
  }
}
