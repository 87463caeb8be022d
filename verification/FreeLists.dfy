/** The intrusive doubly linked free lists (src/allocator.rs:539-553 and 665-737). Each node
    carries a stamp, the time it was registered; every `next` link goes to an older stamp,
    so no list can be cyclic. */
module FreeLists {
  import opened Bins
  import opened Sizes

  /** A 32-byte unit of the heap as the words a header overlays on it. A block's payload
      uses the same cells. */
  datatype Cell = Cell(prevSize: u32, sizeWord: u32, next: Word, prev: Word, rest: nat)

  const ZERO_CELL: Cell := Cell(0, 0, 0, 0, 0)

  datatype Node = Node(bin: nat, stamp: nat)

  /** One store to one cell, and the memory after it. The words that the store does not
      write keep their value in `cell`. */
  datatype Store = Store(at: nat, cell: Cell, after: seq<Cell>)

  /** The heap cells and every store made to them so far, the list heads, the mask, and the
      nodes by header offset. */
  datatype Lists = Lists(mem: seq<Cell>, log: seq<Store>, heads: seq<Word>, bits: set<nat>,
                         base: Address, nodes: map<nat, Node>, clock: nat)

  /** `p` points to a node of list `bin`. */
  ghost predicate PointsTo(l: Lists, p: Word, bin: nat) {
    l.base <= p && p - l.base < |l.mem| && p - l.base in l.nodes && l.nodes[p - l.base].bin == bin
  }

  ghost predicate NextOk(l: Lists, o: nat)
    requires o in l.nodes && o < |l.mem|
  {
    l.mem[o].next != 0 ==>
      && PointsTo(l, l.mem[o].next, l.nodes[o].bin)
      && l.nodes[l.mem[o].next - l.base].stamp < l.nodes[o].stamp
      && l.mem[l.mem[o].next - l.base].prev == l.base + o
  }

  ghost predicate PrevOk(l: Lists, o: nat)
    requires o in l.nodes && o < |l.mem| && l.nodes[o].bin < |l.heads|
  {
    if l.mem[o].prev == 0 then l.heads[l.nodes[o].bin] == l.base + o
    else
      && PointsTo(l, l.mem[o].prev, l.nodes[o].bin)
      && l.nodes[o].stamp < l.nodes[l.mem[o].prev - l.base].stamp
      && l.mem[l.mem[o].prev - l.base].next == l.base + o
  }

  ghost predicate NodeOk(l: Lists, o: nat)
    requires o in l.nodes
  {
    && o < |l.mem| && l.nodes[o].bin < |l.heads| && l.nodes[o].stamp < l.clock
    && NextOk(l, o) && PrevOk(l, o)
  }

  ghost predicate HeadOk(l: Lists, b: nat)
    requires b < |l.heads|
  {
    && (b in l.bits <==> l.heads[b] != 0)
    && (l.heads[b] != 0 ==> PointsTo(l, l.heads[b], b) && l.mem[l.heads[b] - l.base].prev == 0)
  }

  ghost predicate LinksOk(l: Lists) {
    && l.base > 0
    && (forall o {:trigger NodeOk(l, o)} | o in l.nodes :: NodeOk(l, o))
    && (forall b {:trigger HeadOk(l, b)} | 0 <= b < |l.heads| :: HeadOk(l, b))
    && (forall b <- l.bits :: b < |l.heads|)
  }

  // ---- registering a node at the front ----

  /** `register_free_space` writes the header, then links it in front of the old head. */
  ghost predicate IsInserted(l: Lists, k: Lists, o: nat, bin: nat)
    requires o < |l.mem| && bin < |l.heads| && l.base + o < 0x800_0000_0000_0000
  {
    && |k.mem| == |l.mem| && k.base == l.base
    && k.heads == l.heads[bin := l.base + o]
    && k.bits == l.bits + {bin}
    && k.nodes == l.nodes[o := Node(bin, l.clock)] && k.clock == l.clock + 1
    && k.mem[o].next == l.heads[bin] && k.mem[o].prev == 0
    && (forall x | 0 <= x < |l.mem| && x != o ::
          k.mem[x] == if l.base + x == l.heads[bin] then l.mem[x].(prev := l.base + o) else l.mem[x])
  }

  lemma InsertNode(l: Lists, k: Lists, o: nat, bin: nat, x: nat)
    requires LinksOk(l) && o < |l.mem| && bin < |l.heads| && o !in l.nodes && l.base + o < 0x800_0000_0000_0000
    requires IsInserted(l, k, o, bin) && x in k.nodes
    ensures NodeOk(k, x)
  {
    assert HeadOk(l, bin);
    if x != o { assert NodeOk(l, x); }
    if l.heads[bin] != 0 { assert NodeOk(l, l.heads[bin] - l.base); }
  }

  lemma InsertLinks(l: Lists, k: Lists, o: nat, bin: nat)
    requires LinksOk(l) && o < |l.mem| && bin < |l.heads| && o !in l.nodes && l.base + o < 0x800_0000_0000_0000
    requires IsInserted(l, k, o, bin)
    ensures LinksOk(k)
  {
    forall x | x in k.nodes ensures NodeOk(k, x) { InsertNode(l, k, o, bin, x); }
    forall b | 0 <= b < |k.heads| ensures HeadOk(k, b) { InsertHead(l, k, o, bin, b); }
  }

  lemma InsertHead(l: Lists, k: Lists, o: nat, bin: nat, b: nat)
    requires LinksOk(l) && o < |l.mem| && bin < |l.heads| && o !in l.nodes && l.base + o < 0x800_0000_0000_0000
    requires IsInserted(l, k, o, bin) && b < |l.heads|
    ensures HeadOk(k, b)
  {
    assert HeadOk(l, b);
    if b != bin && l.heads[b] == l.heads[bin] { assert HeadOk(l, bin); }
  }

  // ---- unregistering a node ----

  /** `unregister_free_space` unlinks `o`; at the front it also moves the head, and clears
      the mask bit when the list becomes empty. */
  ghost predicate IsRemoved(l: Lists, k: Lists, o: nat)
    requires o in l.nodes && o < |l.mem| && l.nodes[o].bin < |l.heads|
  {
    var bin, n, p := l.nodes[o].bin, l.mem[o].next, l.mem[o].prev;
    && |k.mem| == |l.mem| && k.base == l.base && k.clock == l.clock
    && k.nodes == l.nodes - {o}
    && (if l.heads[bin] == l.base + o
        then k.heads == l.heads[bin := n] && k.bits == (if n == 0 then l.bits - {bin} else l.bits)
        else k.heads == l.heads && k.bits == l.bits)
    && (forall x | 0 <= x < |l.mem| ::
          k.mem[x] == l.mem[x].(next := if p != 0 && l.base + x == p then n else l.mem[x].next,
                                prev := if n != 0 && l.base + x == n then p else l.mem[x].prev))
  }

  lemma RemoveNext(l: Lists, k: Lists, o: nat, x: nat)
    requires LinksOk(l) && o in l.nodes && NodeOk(l, o)
    requires IsRemoved(l, k, o) && x in l.nodes && x != o && NodeOk(l, x)
    ensures NextOk(k, x)
  {
    var n := l.mem[x].next;
    if n == l.base + o {
      assert l.mem[o].prev == l.base + x;
      assert k.mem[x].next == l.mem[o].next;
    } else {
      assert k.mem[x].next == n;
      if n != 0 {
        assert l.mem[n - l.base].prev == l.base + x;
        assert k.mem[n - l.base].prev == l.base + x;
      }
    }
  }

  lemma RemovePrev(l: Lists, k: Lists, o: nat, x: nat)
    requires LinksOk(l) && o in l.nodes && NodeOk(l, o)
    requires IsRemoved(l, k, o) && x in l.nodes && x != o && NodeOk(l, x)
    ensures PrevOk(k, x)
  {
    var p := l.mem[x].prev;
    if l.mem[o].next == l.base + x {
      assert k.mem[x].prev == l.mem[o].prev;
    } else {
      assert k.mem[x].prev == p;
      if p != 0 {
        assert l.mem[p - l.base].next == l.base + x;
        assert p != l.base + o;
        assert k.mem[p - l.base].next == l.base + x;
      }
    }
  }

  lemma RemoveNode(l: Lists, k: Lists, o: nat, x: nat)
    requires LinksOk(l) && o in l.nodes && NodeOk(l, o)
    requires IsRemoved(l, k, o) && x in k.nodes
    ensures NodeOk(k, x)
  {
    assert NodeOk(l, x);
    RemoveNext(l, k, o, x);
    RemovePrev(l, k, o, x);
  }

  lemma RemoveOwnHead(l: Lists, k: Lists, o: nat)
    requires LinksOk(l) && o in l.nodes && NodeOk(l, o) && IsRemoved(l, k, o)
    ensures HeadOk(k, l.nodes[o].bin)
  {
    var b := l.nodes[o].bin;
    assert HeadOk(l, b);
    if l.heads[b] != 0 { assert NodeOk(l, l.heads[b] - l.base); }
    if l.mem[o].next != 0 { assert NodeOk(l, l.mem[o].next - l.base); }
  }

  lemma RemoveOtherHead(l: Lists, k: Lists, o: nat, b: nat)
    requires LinksOk(l) && o in l.nodes && NodeOk(l, o) && IsRemoved(l, k, o)
    requires b < |l.heads| && b != l.nodes[o].bin
    ensures HeadOk(k, b)
  {
    assert HeadOk(l, b);
  }

  lemma RemoveHead(l: Lists, k: Lists, o: nat, b: nat)
    requires LinksOk(l) && o in l.nodes && NodeOk(l, o)
    requires IsRemoved(l, k, o) && b < |l.heads|
    ensures HeadOk(k, b)
  {
    hide IsRemoved, HeadOk;
    if b == l.nodes[o].bin { RemoveOwnHead(l, k, o); } else { RemoveOtherHead(l, k, o, b); }
  }

  lemma RemoveLinks(l: Lists, k: Lists, o: nat)
    requires LinksOk(l) && o in l.nodes && NodeOk(l, o)
    requires IsRemoved(l, k, o)
    ensures LinksOk(k)
  {
    forall x | x in k.nodes ensures NodeOk(k, x) { RemoveNode(l, k, o, x); }
    forall b | 0 <= b < |k.heads| ensures HeadOk(k, b) { RemoveHead(l, k, o, b); }
  }

  ghost predicate LinksKept(l: Lists, k: Lists) {
    && |k.mem| == |l.mem| && k == l.(mem := k.mem, log := k.log)
    && forall x | x in l.nodes && x < |l.mem| :: k.mem[x].next == l.mem[x].next && k.mem[x].prev == l.mem[x].prev
  }

  lemma SameNode(l: Lists, k: Lists, x: nat)
    requires LinksOk(l) && LinksKept(l, k) && x in l.nodes
    ensures NodeOk(k, x)
  {
    assert NodeOk(l, x);
    if l.mem[x].next != 0 { assert NodeOk(l, l.mem[x].next - l.base); }
    if l.mem[x].prev != 0 { assert NodeOk(l, l.mem[x].prev - l.base); }
  }

  lemma SameHead(l: Lists, k: Lists, b: nat)
    requires LinksOk(l) && LinksKept(l, k) && b < |l.heads|
    ensures HeadOk(k, b)
  {
    assert HeadOk(l, b);
  }

  /** Stores that leave every link alone keep the lists. */
  lemma SameLinks(l: Lists, k: Lists)
    requires LinksOk(l) && LinksKept(l, k)
    ensures LinksOk(k)
  {
    forall x | x in k.nodes ensures NodeOk(k, x) { SameNode(l, k, x); }
    forall b | 0 <= b < |k.heads| ensures HeadOk(k, b) { SameHead(l, k, b); }
  }

  // ---- the lists themselves ----

  /** A set mask bit means a list with a first node. */
  lemma HeadOfBit(l: Lists, b: nat)
    requires LinksOk(l) && b in l.bits
    ensures b < |l.heads| && l.base <= l.heads[b] && l.heads[b] - l.base in l.nodes
    ensures l.nodes[l.heads[b] - l.base].bin == b
  {
    assert HeadOk(l, b);
  }

  /** A bin that has a node has a head, and so a mask bit. */
  lemma {:induction false} NodeHasHead(l: Lists, o: nat)
    requires LinksOk(l) && o in l.nodes && NodeOk(l, o)
    ensures l.nodes[o].bin in l.bits && l.heads[l.nodes[o].bin] != 0
    decreases l.clock - l.nodes[o].stamp
  {
    assert HeadOk(l, l.nodes[o].bin);
    if l.mem[o].prev != 0 {
      var p := l.mem[o].prev - l.base;
      assert NodeOk(l, p);
      NodeHasHead(l, p);
    }
  }

  /** The offsets met when following `next` from `p`. */
  ghost function Walk(l: Lists, p: Word, bin: nat): seq<nat>
    requires LinksOk(l) && (p != 0 ==> PointsTo(l, p, bin))
    decreases if p == 0 then 0 else 1 + l.nodes[p - l.base].stamp
  {
    if p == 0 then []
    else
      var o := p - l.base;
      assert NodeOk(l, o);
      [o] + Walk(l, l.mem[o].next, bin)
  }

  ghost function FreeList(l: Lists, bin: nat): seq<nat>
    requires LinksOk(l) && bin < |l.heads|
  {
    assert HeadOk(l, bin);
    Walk(l, l.heads[bin], bin)
  }

  /** A walk visits nodes of its bin, from the most recently registered to the oldest. */
  lemma {:induction false} WalkOrdered(l: Lists, p: Word, bin: nat)
    requires LinksOk(l) && (p != 0 ==> PointsTo(l, p, bin))
    ensures var w := Walk(l, p, bin);
      && (forall i | 0 <= i < |w| :: w[i] in l.nodes && l.nodes[w[i]].bin == bin)
      && (forall i, j | 0 <= i < j < |w| :: l.nodes[w[j]].stamp < l.nodes[w[i]].stamp)
      && (p == 0 <==> w == []) && (p != 0 ==> w[0] == p - l.base)
    decreases if p == 0 then 0 else 1 + l.nodes[p - l.base].stamp
  {
    if p != 0 {
      assert NodeOk(l, p - l.base);
      WalkOrdered(l, l.mem[p - l.base].next, bin);
    }
  }

  /** Whoever is on a walk is followed there by its own next node. */
  lemma {:induction false} WalkClosed(l: Lists, p: Word, bin: nat, o: nat)
    requires LinksOk(l) && (p != 0 ==> PointsTo(l, p, bin))
    requires o in Walk(l, p, bin)
    ensures o in l.nodes && NodeOk(l, o)
    ensures l.mem[o].next != 0 ==> l.mem[o].next - l.base in Walk(l, p, bin)
    decreases if p == 0 then 0 else 1 + l.nodes[p - l.base].stamp
  {
    assert NodeOk(l, p - l.base);
    var n := l.mem[p - l.base].next;
    if o == p - l.base {
      WalkOrdered(l, n, bin);
    } else {
      WalkClosed(l, n, bin, o);
    }
  }

  /** Every node is reached from the head of its bin. */
  lemma {:induction false} WalkComplete(l: Lists, o: nat)
    requires LinksOk(l) && o in l.nodes && NodeOk(l, o)
    ensures o in FreeList(l, l.nodes[o].bin)
    decreases l.clock - l.nodes[o].stamp
  {
    var bin := l.nodes[o].bin;
    assert HeadOk(l, bin);
    WalkOrdered(l, l.heads[bin], bin);
    if l.mem[o].prev != 0 {
      var p := l.mem[o].prev - l.base;
      assert NodeOk(l, p);
      WalkComplete(l, p);
      WalkClosed(l, l.heads[bin], bin, p);
    }
  }

  /** Each list holds exactly the nodes of its bin, each of them once; the mask bit is set
      exactly when it is not empty. */
  lemma FreeListExact(l: Lists, bin: nat)
    requires LinksOk(l) && bin < |l.heads|
    ensures var w := FreeList(l, bin);
      && (forall o :: o in w <==> o in l.nodes && l.nodes[o].bin == bin)
      && (forall i, j | 0 <= i < j < |w| :: w[i] != w[j])
      && (bin in l.bits <==> w != [])
  {
    assert HeadOk(l, bin);
    WalkOrdered(l, l.heads[bin], bin);
    forall o | o in l.nodes && l.nodes[o].bin == bin
      ensures o in FreeList(l, bin)
    {
      assert NodeOk(l, o);
      WalkComplete(l, o);
    }
  }
}
