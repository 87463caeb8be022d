/** The allocator object and its operations (src/allocator.rs:564-1199). Each public operation
    starts a log of what it reads; the operations inside another one go on with its log. */
module Allocators {
  import opened Wrappers
  import opened Bits
  import opened Bins
  import opened Sizes
  import opened BitMasks
  import opened Partition
  import opened Layouts
  import opened FreeLists
  import opened Heaps
  import opened Operations
  import opened Effects
  import opened Payloads
  import opened Search
  import opened Allocation
  import opened Transitions
  import opened Executions
  import opened Reads

  class Allocator {
    const mantissaBits: nat
    const totalSpace: u32
    const mem: array<Cell>
    const firstInFreeList: array<Word>
    const freeLists: BitMask
    var allocatedSpace: u32
    var baseAddress: Address

    /** What the fields above stand for: the lists and the tiling. */
    ghost var lists: Lists
    ghost var chunks: Layout

    /** The call in progress, or the last one: the heap it began on, the block it is about,
        and what it has read. */
    ghost var callHeap: Heap
    ghost var callTarget: Option<nat>
    ghost var seen: seq<Read>

    ghost function View(): Heap
      reads this
    {
      Heap(lists, chunks, allocatedSpace, mantissaBits)
    }

    /** `Allocator::new`, for a bin configuration and words of `2^shift` bits. */
    constructor (totalSpace: u32, config: BinConfig, shift: nat)
      requires 0 < totalSpace < SPACE_LIMIT
      requires ConfigOk(config) && SecondaryLength(config.binCount, shift) < Pow2(shift)
      ensures Valid() && baseAddress == 0 && this.totalSpace == totalSpace
      ensures mantissaBits == config.mantissaBits && |lists.heads| == config.binCount
      ensures fresh(mem) && fresh(firstInFreeList) && fresh(freeLists) && fresh(freeLists.secondaryMasks)
    {
      mantissaBits := config.mantissaBits;
      this.totalSpace := totalSpace;
      mem := new Cell[totalSpace](_ => ZERO_CELL);
      firstInFreeList := new Word[config.binCount](_ => 0);
      freeLists := new BitMask(shift, SecondaryLength(config.binCount, shift));
      allocatedSpace, baseAddress, chunks := 0, 0, map[];
      new;
      lists := Lists(mem[..], [], firstInFreeList[..], {}, 0, map[], 0);
      callHeap, callTarget, seen := View(), None, [];
    }

    /** The heap cells are those of `lists`. */
    ghost predicate CellsBacked()
      reads this`lists, mem
    {
      mem.Length == totalSpace && lists.mem == mem[..]
    }

    /** The list heads and the mask are those of `lists`. */
    ghost predicate HeadsBacked()
      reads this`lists, firstInFreeList, freeLists, freeLists.secondaryMasks
    {
      && ConfigOk(BinConfig(mantissaBits, firstInFreeList.Length))
      && freeLists.Valid()
      && (forall b {:trigger freeLists.Covers(b)} | 0 <= b < firstInFreeList.Length :: freeLists.Covers(b))
      && firstInFreeList as object != freeLists.secondaryMasks
      && lists.heads == firstInFreeList[..]
      && lists.bits == freeLists.members
    }

    /** The call in progress read the memory of its time, below the mark, and no payload of
        another block. */
    ghost predicate ReadsBacked()
      reads this`lists, this`allocatedSpace, this`callHeap, this`callTarget, this`seen
    {
      ReadsOk(callHeap, callTarget, lists.mem, lists.log, seen) && ReadsBelow(seen, allocatedSpace)
    }

    ghost predicate Shaped()
      reads this`lists, this`allocatedSpace, this`baseAddress, mem
      reads this`callHeap, this`callTarget, this`seen
      reads firstInFreeList, freeLists, freeLists.secondaryMasks
    {
      && 0 < totalSpace < SPACE_LIMIT && allocatedSpace <= totalSpace
      && 1 <= mantissaBits <= 8 && baseAddress + totalSpace < 0x800_0000_0000_0000
      && |lists.mem| == totalSpace && lists.base == baseAddress
      && CellsBacked() && HeadsBacked() && ReadsBacked()
    }

    ghost predicate Linked()
      reads this`lists, this`allocatedSpace, this`baseAddress, mem, firstInFreeList, freeLists, freeLists.secondaryMasks
      reads this`callHeap, this`callTarget, this`seen
    {
      Shaped() && Ready(lists) && NodesBelow(lists, allocatedSpace)
    }

    // ---- memory accesses ----

    ghost predicate Accessible(p: Word)
      reads this`allocatedSpace, this`baseAddress
    {
      baseAddress <= p < baseAddress + allocatedSpace <= baseAddress + totalSpace
    }

    /** In reach, and in no payload that the call in progress is not about. */
    ghost predicate Readable(p: Word)
      reads this`allocatedSpace, this`baseAddress, this`callHeap, this`callTarget
    {
      Accessible(p) && Clear(callHeap.c, callTarget, p - baseAddress)
    }

    /** Starts the log of a call on block `t`. */
    ghost method Begin(t: Option<nat>)
      requires Shaped()
      modifies this`callHeap, this`callTarget, this`seen
      ensures Shaped() && callHeap == View() && callTarget == t && seen == []
    {
      callHeap, callTarget, seen := View(), t, [];
      NoReads(callHeap, t);
    }

    /** The cell as it is. Used by stores to some words of a cell, which keep the others, and
        by the owner of a block. */
    function CellAt(p: Word): (c: Cell)
      requires CellsBacked() && lists.base == baseAddress && Accessible(p)
      reads this`lists, this`allocatedSpace, this`baseAddress, mem
      ensures c == At(lists, p)
    {
      assert mem[..][p - baseAddress] == mem[p - baseAddress];
      mem[p - baseAddress]
    }

    /** One logged read, below the high-water mark and clear of other blocks' payloads. */
    method Load(p: Word) returns (c: Cell)
      requires Shaped() && Readable(p)
      modifies this`seen
      ensures Shaped() && c == At(lists, p)
      ensures seen == old(seen) + [Read(p - baseAddress, c, |lists.log|)]
    {
      c := CellAt(p);
      ReadsAfterRead(callHeap, callTarget, lists.mem, lists.log, seen, p - baseAddress);
      seen := seen + [Read(p - baseAddress, c, |lists.log|)];
    }

    /** One store, below the high-water mark only. */
    method Write(p: Word, cell: Cell)
      requires Shaped() && Accessible(p)
      modifies mem, this`lists
      ensures Shaped()
      ensures lists == Put(old(lists), p, cell)
    {
      ReadsAfterStore(callHeap, callTarget, lists.mem, lists.log, seen, p - baseAddress, cell);
      mem[p - baseAddress] := cell;
      lists := Put(lists, p, cell);
    }

    /** `chunk.next_in_list = next`. */
    method SetNextInList(chunk: Word, next: Word)
      requires Shaped() && Accessible(chunk)
      modifies mem, this`lists
      ensures Shaped()
      ensures lists == Put(old(lists), chunk, At(old(lists), chunk).(next := next))
    {
      hide HeadsBacked, ReadsBacked;
      Write(chunk, CellAt(chunk).(next := next));
    }

    /** `chunk.prev_in_list = prev`. */
    method SetPrevInList(chunk: Word, prev: Word)
      requires Shaped() && Accessible(chunk)
      modifies mem, this`lists
      ensures Shaped()
      ensures lists == Put(old(lists), chunk, At(old(lists), chunk).(prev := prev))
    {
      hide HeadsBacked, ReadsBacked;
      Write(chunk, CellAt(chunk).(prev := prev));
    }

    /** Writes a whole free chunk header. */
    method WriteFreeHeader(chunk: Address, prevChunkSize: u32, sizeWord: u32, next: Word, prev: Word)
      requires Shaped() && Accessible(chunk)
      modifies mem, this`lists
      ensures Shaped()
      ensures lists == Put(old(lists), chunk, Cell(prevChunkSize, sizeWord, next, prev, At(old(lists), chunk).rest))
    {
      hide HeadsBacked, ReadsBacked;
      Write(chunk, Cell(prevChunkSize, sizeWord, next, prev, CellAt(chunk).rest));
    }

    function Head(bin: BitIndex): (p: Word)
      requires HeadsBacked() && bin.index < |lists.heads|
      reads this`lists, firstInFreeList, freeLists, freeLists.secondaryMasks
      ensures p == HeadAt(lists, bin.index)
    {
      assert firstInFreeList[..][bin.index] == firstInFreeList[bin.index];
      firstInFreeList[bin.index]
    }

    method SetHead(bin: BitIndex, p: Word)
      requires Shaped() && bin.index < |lists.heads|
      modifies firstInFreeList, this`lists
      ensures Shaped()
      ensures lists == WithHead(old(lists), bin.index, p)
    {
      firstInFreeList[bin.index] := p;
      lists := WithHead(lists, bin.index, p);
    }

    method MarkBin(bin: BitIndex)
      requires Shaped() && freeLists.Indexed(bin)
      modifies freeLists`primaryMask, freeLists`members, freeLists.secondaryMasks, this`lists
      ensures Shaped()
      ensures lists == old(lists).(bits := old(lists).bits + {bin.index})
    {
      freeLists.Set(bin);
      lists := lists.(bits := lists.bits + {bin.index});
    }

    method ClearBin(bin: BitIndex)
      requires Shaped() && freeLists.Indexed(bin)
      modifies freeLists`primaryMask, freeLists`members, freeLists.secondaryMasks, this`lists
      ensures Shaped()
      ensures lists == old(lists).(bits := old(lists).bits - {bin.index})
    {
      freeLists.Unset(bin);
      lists := lists.(bits := lists.bits - {bin.index});
    }

    ghost method Unfile(o: nat)
      requires Shaped()
      modifies this`lists
      ensures Shaped()
      ensures lists == old(lists).(nodes := old(lists).nodes - {o})
    {
      lists := lists.(nodes := lists.nodes - {o});
    }

    ghost method File(o: nat, bin: nat)
      requires Shaped()
      modifies this`lists
      ensures Shaped()
      ensures lists
        == old(lists).(nodes := old(lists).nodes[o := Node(bin, old(lists).clock)], clock := old(lists).clock + 1)
    {
      lists := lists.(nodes := lists.nodes[o := Node(bin, lists.clock)], clock := lists.clock + 1);
    }

    // ---- bins ----

    function SizeToBinRoundDown(size: u32): (b: BitIndex)
      requires 1 <= mantissaBits <= 8
      reads freeLists
    {
      freeLists.Index(BinDown(mantissaBits, size))
    }

    function SizeToBinRoundUp(size: u32): (b: BitIndex)
      requires 1 <= mantissaBits <= 8
      reads freeLists
    {
      freeLists.Index(BinUp(mantissaBits, size))
    }

    lemma BinsIndexed(size: u32)
      requires Shaped() && size > 0
      ensures ConfigOk(BinConfig(mantissaBits, |lists.heads|)) && |lists.heads| == firstInFreeList.Length
      ensures freeLists.Indexed(SizeToBinRoundDown(size))
      ensures SizeToBinRoundDown(size).index == BinDown(mantissaBits, size)
      ensures freeLists.Indexed(SizeToBinRoundUp(size)) && SizeToBinRoundUp(size).index == BinUp(mantissaBits, size)
      ensures BinDown(mantissaBits, size) <= BinUp(mantissaBits, size) < |lists.heads|
    {
      BinInRange(BinConfig(mantissaBits, firstInFreeList.Length), size);
      freeLists.IndexSplits(BinDown(mantissaBits, size));
      freeLists.IndexSplits(BinUp(mantissaBits, size));
    }

    lemma ConfigFact()
      requires Shaped()
      ensures ConfigOk(BinConfig(mantissaBits, |lists.heads|)) && |lists.heads| == firstInFreeList.Length
    {}

    // ---- free lists ----

    method UnregisterFreeSpaceFirstChunk(chunk: Address, bin: BitIndex)
      requires Shaped() && Readable(chunk)
      requires At(lists, chunk).next != 0 ==> Accessible(At(lists, chunk).next)
      requires freeLists.Indexed(bin) && bin.index < |lists.heads|
      modifies this`lists, this`seen, mem, firstInFreeList
      modifies freeLists`primaryMask, freeLists`members, freeLists.secondaryMasks
      ensures Shaped()
      ensures lists == UnlinkedFirst(old(lists), chunk - baseAddress, bin.index)
    {
      hide CellsBacked, HeadsBacked, ReadsBacked, Clear;
      ghost var l, o := lists, chunk - baseAddress;
      assert chunk == Ptr(l, o);
      var header := Load(chunk);
      var nextInList := header.next;
      SetHead(bin, nextInList);
      Unfile(o);
      if nextInList == 0 {
        ClearBin(bin);
      } else {
        SetPrevInList(nextInList, 0);
      }
      assert lists == UnlinkedFirst(l, o, bin.index);
    }

    method UnregisterFreeSpace(chunk: Address, bin: BitIndex)
      requires Shaped() && Readable(chunk)
      requires At(lists, chunk).next != 0 ==> Accessible(At(lists, chunk).next)
      requires HeadAt(lists, bin.index) != chunk ==> Accessible(At(lists, chunk).prev)
      requires freeLists.Indexed(bin) && bin.index < |lists.heads|
      modifies this`lists, this`seen, mem, firstInFreeList
      modifies freeLists`primaryMask, freeLists`members, freeLists.secondaryMasks
      ensures Shaped()
      ensures lists == Unlinked(old(lists), chunk - baseAddress, bin.index)
    {
      hide CellsBacked, HeadsBacked, ReadsBacked, Clear;
      ghost var l, o := lists, chunk - baseAddress;
      assert chunk == Ptr(l, o);
      if Head(bin) == chunk {
        UnregisterFreeSpaceFirstChunk(chunk, bin);
      } else {
        var header := Load(chunk);
        var nextInList, prevInList := header.next, header.prev;
        Unfile(o);
        SetNextInList(prevInList, nextInList);
        if nextInList != 0 {
          SetPrevInList(nextInList, prevInList);
        }
        assert lists == UnlinkedMiddle(l, o);
      }
    }

    method RegisterFreeSpace(chunk: Address, prevChunkSize: u32, size: u32) returns (r: u32)
      requires Shaped() && size < SPACE_LIMIT
      requires baseAddress <= chunk && (size > 0 ==> Accessible(chunk))
      requires size > 0 && HeadAt(lists, BinDown(mantissaBits, size)) != 0
        ==> Accessible(HeadAt(lists, BinDown(mantissaBits, size)))
      modifies this`lists, mem, firstInFreeList
      modifies freeLists`primaryMask, freeLists`members, freeLists.secondaryMasks
      ensures Shaped()
      ensures lists == Registered(old(lists), mantissaBits, chunk - baseAddress, prevChunkSize, size)
      ensures r == if size == 0 then prevChunkSize else size
    {
      hide CellsBacked, HeadsBacked, ReadsBacked, BinDown, BinUp, ConfigOk;
      if size == 0 {
        return prevChunkSize;
      }
      BinsIndexed(size);
      ghost var l, o := lists, chunk - baseAddress;
      assert chunk == Ptr(l, o);
      var bin := SizeToBinRoundDown(size);
      var nextInList := Head(bin);
      SetHead(bin, chunk);
      WriteFreeHeader(chunk, prevChunkSize, NewUnallocated(size), nextInList, 0);
      if nextInList != 0 {
        SetPrevInList(nextInList, chunk);
      }
      MarkBin(bin);
      File(o, bin.index);
      assert lists
        == Pushed(l, o, bin.index, At(l, chunk).(prevSize := prevChunkSize, sizeWord := NewUnallocated(size)));
      return size;
    }

    method RegisterAllocation(chunk: Address, prevChunkSize: u32, size: u32)
      requires Shaped() && size < SPACE_LIMIT && Accessible(chunk)
      modifies this`lists, mem
      ensures Shaped()
      ensures lists == Tagged(old(lists), chunk - baseAddress, prevChunkSize, NewAllocated(size))
    {
      hide HeadsBacked, ReadsBacked;
      assert chunk == Ptr(lists, chunk - baseAddress);
      Write(chunk, CellAt(chunk).(prevSize := prevChunkSize, sizeWord := NewAllocated(size)));
    }

    /** `chunk.prev_chunk_size = prevChunkSize`. */
    method SetPrevChunkSize(chunk: Address, prevChunkSize: u32)
      requires Shaped() && Accessible(chunk)
      modifies this`lists, mem
      ensures Shaped()
      ensures lists == Tagged(old(lists), chunk - baseAddress, prevChunkSize, At(old(lists), chunk).sizeWord)
    {
      hide HeadsBacked, ReadsBacked;
      assert chunk == Ptr(lists, chunk - baseAddress);
      Write(chunk, CellAt(chunk).(prevSize := prevChunkSize));
    }

    /** `chunk.size = size`. */
    method SetSize(chunk: Address, sizeWord: u32)
      requires Shaped() && Accessible(chunk)
      modifies this`lists, mem
      ensures Shaped()
      ensures lists == Tagged(old(lists), chunk - baseAddress, At(old(lists), chunk).prevSize, sizeWord)
    {
      hide HeadsBacked, ReadsBacked;
      assert chunk == Ptr(lists, chunk - baseAddress);
      Write(chunk, CellAt(chunk).(sizeWord := sizeWord));
    }

    /** Asks the environment for memory up to `endOffset` unless it is there already. */
    method Expand(endOffset: u32, grants: u32 -> bool) returns (ok: bool)
      requires Shaped() && endOffset <= totalSpace
      modifies this`allocatedSpace
      ensures Shaped()
      ensures ok <==> endOffset <= old(allocatedSpace) || grants(endOffset)
      ensures allocatedSpace == if ok && old(allocatedSpace) < endOffset then endOffset else old(allocatedSpace)
    {
      if allocatedSpace < endOffset {
        if !grants(endOffset) {
          return false;
        }
        allocatedSpace := endOffset;
      }
      return true;
    }

    // ---- the invariant ----

    ghost predicate Valid()
      reads this, mem, firstInFreeList, freeLists, freeLists.secondaryMasks
    {
      Shaped() && if baseAddress == 0 then Untouched(View()) else HeapOk(View())
    }

    /** `p` came from `alloc` and was not freed since. */
    ghost predicate IsLive(p: Address)
      reads this
    {
      baseAddress != 0 && baseAddress < p && LiveAt(chunks, p - baseAddress - 1)
    }

    /** Header offset of a live pointer. */
    ghost function Block(p: Address): nat
      requires IsLive(p)
      reads this
    {
      p - baseAddress - 1
    }

    // ---- merging ----

    /** The live blocks that the call is not about are those of `c`. */
    ghost predicate Sparing(c: Layout)
      reads this`callHeap, this`callTarget
    {
      OthersLive(callHeap.c, callTarget, c)
    }

    lemma FollowsItself(o: nat)
      requires Valid() && baseAddress != 0 && o in chunks && Sparing(chunks)
      ensures Follows(View(), o)
    {
      hide CellsBacked, HeadsBacked, ReadsBacked, HeapOk, Ready, NodesBelow;
      HeapReady(View());
      HeapNodesBelow(View());
      HeaderFacts(View(), o);
    }

    /** The lists, with the tags and the nodes of `h` at `o` still in place. */
    ghost predicate Follows(h: Heap, o: nat)
      reads this, mem, firstInFreeList, freeLists, freeLists.secondaryMasks
    {
      && Linked() && Sparing(h.c)
      && h.l.base == baseAddress && |h.l.mem| == totalSpace && h.high <= allocatedSpace && h.m == mantissaBits
      && o in h.c && o < totalSpace && SameTags(lists.mem[o], h.l.mem[o])
      && (FreeAt(h.c, o) ==> o in lists.nodes && o in h.l.nodes && lists.nodes[o] == h.l.nodes[o])
      && HeapOk(h)
    }

    /** Unregisters the chunk if it is free and gives its size, or else zero. */
    method AbsorbIfFree(chunk: Address, ghost h: Heap) returns (size: u32)
      requires baseAddress <= chunk && Follows(h, chunk - baseAddress)
      modifies this`lists, this`seen, mem, firstInFreeList
      modifies freeLists`primaryMask, freeLists`members, freeLists.secondaryMasks
      ensures Linked() && Taken(h, old(lists), lists, chunk - baseAddress, size)
    {
      hide CellsBacked, HeadsBacked, ReadsBacked, HeapOk, Ready, NodesBelow, BinDown, Unlinked, Unlinks, ConfigOk;
      hide NodeOk, OthersLive, Clear, BitMask.Indexed, Taken, UnlinkedChunk, BinUp, Stage, Tags;
      ghost var o, l := chunk - baseAddress, lists;
      HeaderFacts(h, o);
      HeaderClear(callHeap.c, callTarget, h, o);
      var header := Load(chunk);
      if WordUsed(header.sizeWord) {
        TakenUsed(h, l, o);
        return 0;
      }
      size := WordSize(header.sizeWord);
      FreeNode(h, o);
      NodeReach(lists, o, allocatedSpace);
      BinsIndexed(size);
      UnlinksBy(lists, o, BinDown(mantissaBits, size), allocatedSpace);
      UnregisterFreeSpace(chunk, SizeToBinRoundDown(size));
      TakenFree(h, l, lists, o, size);
    }

    /** Merges with the chunk at `next`, the right neighbour of block `o` of `h`, if there is
        one and it is free. */
    method AbsorbNext(next: Address, ghost h: Heap, ghost o: nat) returns (size: u32)
      requires LiveAt(h.c, o) && next == baseAddress + o + h.c[o].size && |h.l.mem| == totalSpace
      requires o + h.c[o].size < totalSpace ==> Follows(h, o + h.c[o].size)
      requires Linked() && HeapOk(h)
      modifies this`lists, this`seen, mem, firstInFreeList
      modifies freeLists`primaryMask, freeLists`members, freeLists.secondaryMasks
      ensures Linked() && NextTaken(h, old(lists), lists, o, size)
    {
      hide CellsBacked, HeadsBacked, ReadsBacked, HeapOk, Ready, NodesBelow, Unlinks, Follows, UnlinkedChunk;
      ReleaseShape(h, o);
      size := 0;
      if next < PtrAdd(baseAddress, totalSpace) {
        size := AbsorbIfFree(next, h);
      }
    }

    // ---- free ----

    /** The first half of `free`: merges with the previous chunk if that is free. */
    method AbsorbPrev(block: Address, ghost h: Heap) returns (chunk: Address, size: u32, prevChunkSize: u32)
      requires baseAddress <= block && Follows(h, block - baseAddress) && h.l == lists
      requires h.c[block - baseAddress].used
      modifies this`lists, this`seen, mem, firstInFreeList
      modifies freeLists`primaryMask, freeLists`members, freeLists.secondaryMasks
      ensures PrevTaken(h, lists, block - baseAddress, size, prevChunkSize)
      ensures var o := block - baseAddress;
        && Linked() && chunk == baseAddress + ReleaseStart(h.c, o)
        && (o + h.c[o].size < totalSpace ==> Follows(h, o + h.c[o].size))
    {
      hide CellsBacked, HeadsBacked, ReadsBacked, HeapOk, Ready, NodesBelow, BinDown, BinUp, ConfigOk, Unlinks;
      hide WellFormed, UnlinkedChunk, OthersLive, Clear;
      ghost var o := block - baseAddress;
      chunk := block;
      ReleaseShape(h, o);
      HeaderFacts(h, o);
      HeaderClear(callHeap.c, callTarget, h, o);
      var header := Load(chunk);
      size := WordSize(header.sizeWord);
      prevChunkSize := header.prevSize;
      if OffsetFrom(chunk, baseAddress) != 0 {
        var prevChunk := PtrSub(chunk, prevChunkSize);
        HeaderFacts(h, o - prevChunkSize);
        HeaderClear(callHeap.c, callTarget, h, o - prevChunkSize);
        var prevHeader := Load(prevChunk);
        var prevSize := AbsorbIfFree(prevChunk, h);
        if prevSize != 0 {
          prevChunkSize := prevHeader.prevSize;
          size := UncheckedAdd(size, prevSize);
          chunk := prevChunk;
        }
      }
      FreeKeeps(h, lists, o);
    }

    /** The last step of `free`, `shrink_inplace`, `grow_inplace` and `alloc`: registers a chunk
        and tags the next one. */
    method RegisterAndTag(chunk: Address, prevChunkSize: u32, size: u32)
      requires Linked() && baseAddress <= chunk && chunk - baseAddress + size <= totalSpace
      requires size > 0 ==> Accessible(chunk)
      requires chunk - baseAddress + size < totalSpace ==> chunk - baseAddress + size < allocatedSpace
      requires prevChunkSize < SPACE_LIMIT
      modifies this`lists, mem, firstInFreeList
      modifies freeLists`primaryMask, freeLists`members, freeLists.secondaryMasks
      ensures Shaped()
      ensures lists == RegisteredAndTagged(old(lists), mantissaBits, chunk - baseAddress, prevChunkSize, size)
    {
      hide CellsBacked, HeadsBacked, ReadsBacked, Ready, NodesBelow, BinDown, ConfigOk, Registered, Tagged;
      ghost var o, l := chunk - baseAddress, lists;
      HeadReach(lists, BinDown(mantissaBits, size), allocatedSpace);
      var chunkSize := RegisterFreeSpace(chunk, prevChunkSize, size);
      var nextChunk := PtrAdd(chunk, size);
      if nextChunk < PtrAdd(baseAddress, totalSpace) {
        assert nextChunk == Ptr(lists, o + size);
        SetPrevChunkSize(nextChunk, chunkSize);
      }
    }

    method Free(pointer: Address)
      requires Valid() && IsLive(pointer)
      modifies this`lists, this`seen, this`callHeap, this`callTarget, this`chunks, mem, firstInFreeList
      modifies freeLists`primaryMask, freeLists`members, freeLists.secondaryMasks
      ensures Valid() && baseAddress == old(baseAddress)
      ensures callHeap == old(View()) && callTarget == Some(old(Block(pointer)))
      ensures FreeRan(old(View()), View(), old(Block(pointer)))
      ensures Freed(old(View()), View(), old(Block(pointer)))
    {
      hide CellsBacked, HeadsBacked, ReadsBacked, HeapOk, Freed, FreeRan, OthersLive;
      Begin(Some(Block(pointer)));
      OthersLiveNow(chunks, callTarget);
      FreeBlock(pointer);
    }

    method FreeBlock(pointer: Address)
      requires Valid() && IsLive(pointer) && Sparing(chunks)
      modifies this`lists, this`seen, this`chunks, mem, firstInFreeList
      modifies freeLists`primaryMask, freeLists`members, freeLists.secondaryMasks
      ensures Valid() && baseAddress == old(baseAddress)
      ensures FreeRan(old(View()), View(), old(Block(pointer)))
      ensures Freed(old(View()), View(), old(Block(pointer)))
    {
      hide CellsBacked, HeadsBacked, ReadsBacked, HeapOk, Ready, NodesBelow, ConfigOk, Freed, WellFormed, OthersLive;
      hide Unlinks, IsReleased, NextFree, PrevFree, ReleaseEnd, ReleaseStart, RegisteredAndTagged, Follows;
      hide PrevUnlinked, NextUnlinked, FreeRan, ReleaseLists;
      ghost var h, o := View(), Block(pointer);
      ReleaseShape(h, o);
      TagFits(h, ReleaseStart(h.c, o));
      FollowsItself(o);
      var chunk, size, prevChunkSize := AbsorbPrev(PtrSub(pointer, HEADER_SIZE), h);
      var nextSize := AbsorbNext(PtrAdd(chunk, size), h, o);
      size := UncheckedAdd(size, nextSize);
      ghost var l2 := lists;
      RegisterAndTag(chunk, prevChunkSize, size);
      HeapTiled(h);
      chunks := Release(h.c, totalSpace, o);
      FreeRanBy(h, View(), o, l2, prevChunkSize, size);
      FreeRanFreed(h, View(), o);
    }

    lemma HeapTiled(h: Heap)
      requires HeapOk(h)
      ensures WellFormed(h.c, |h.l.mem|)
    {}

    // ---- shrink ----

    method ShrinkInplace(pointer: Address, newSize: u32)
      requires Valid() && IsLive(pointer) && newSize < 0xFFFF_FFFF
      modifies this`lists, this`seen, this`callHeap, this`callTarget, this`chunks, mem, firstInFreeList
      modifies freeLists`primaryMask, freeLists`members, freeLists.secondaryMasks
      ensures Valid() && baseAddress == old(baseAddress)
      ensures callHeap == old(View()) && callTarget == Some(old(Block(pointer)))
      ensures ShrinkRan(old(View()), View(), old(Block(pointer)), newSize)
      ensures ShrinkOutcome(old(View()), View(), old(Block(pointer)), newSize)
    {
      hide CellsBacked, HeadsBacked, ReadsBacked, HeapOk, ShrinkRan, ShrinkOutcome, OthersLive;
      Begin(Some(Block(pointer)));
      OthersLiveNow(chunks, callTarget);
      ghost var h, o := View(), Block(pointer);
      ShrinkBlock(pointer, newSize);
      ShrinkRanOutcome(h, View(), o, newSize);
    }

    method ShrinkBlock(pointer: Address, newSize: u32)
      requires Valid() && IsLive(pointer) && newSize < 0xFFFF_FFFF && Sparing(chunks)
      modifies this`lists, this`seen, this`chunks, mem, firstInFreeList
      modifies freeLists`primaryMask, freeLists`members, freeLists.secondaryMasks
      ensures Valid() && baseAddress == old(baseAddress)
      ensures ShrinkRan(old(View()), View(), old(Block(pointer)), newSize)
    {
      hide CellsBacked, HeadsBacked, ReadsBacked, HeapOk, Freed, FreeRan, TrimRan, OthersLive, Clear;
      if newSize == 0 {
        FreeBlock(pointer);
        return;
      }
      ghost var h, o := View(), Block(pointer);
      HeaderFacts(h, o);
      HeaderClear(callHeap.c, callTarget, h, o);
      var size := UncheckedAdd(newSize, HEADER_SIZE);
      var chunk := PtrSub(pointer, HEADER_SIZE);
      var header := Load(chunk);
      var currentSize := WordSize(header.sizeWord);
      if size >= currentSize {
        return;
      }
      CutBlock(chunk, currentSize, size);
    }

    /** The part of `shrink_inplace` that changes the heap. */
    method CutBlock(chunk: Address, currentSize: u32, newSize: u32)
      requires Valid() && baseAddress != 0 && baseAddress <= chunk && LiveAt(chunks, chunk - baseAddress)
      requires currentSize == chunks[chunk - baseAddress].size && 0 < newSize < currentSize && Sparing(chunks)
      modifies this`lists, this`seen, this`chunks, mem, firstInFreeList
      modifies freeLists`primaryMask, freeLists`members, freeLists.secondaryMasks
      ensures Valid() && baseAddress == old(baseAddress)
      ensures TrimRan(old(View()), View(), chunk - baseAddress, newSize)
    {
      hide CellsBacked, HeadsBacked, ReadsBacked, HeapOk, Ready, NodesBelow, ConfigOk, Shrunk, WellFormed, OthersLive;
      hide Tags, Unlinks, IsTrimmed, NextFree, ReleaseEnd, UnlinkedChunk, RegisteredAndTagged, TaggedChunk, Follows;
      hide TrimRan, NextUnlinked, TrimLists;
      ghost var h, o := View(), chunk - baseAddress;
      ReleaseShape(h, o);
      HeaderFacts(h, o);
      TagFits(h, o);
      CutTag(chunk, newSize, h);
      var freeSpace := UncheckedSub(currentSize, newSize);
      var nextSize := AbsorbNext(PtrAdd(chunk, currentSize), h, o);
      freeSpace := UncheckedAdd(freeSpace, nextSize);
      ghost var l2 := lists;
      RegisterAndTag(PtrAdd(chunk, newSize), newSize, freeSpace);
      HeapTiled(h);
      chunks := Trim(h.c, totalSpace, o, newSize);
      TrimRanBy(h, View(), o, newSize, l2, freeSpace);
      TrimRanShrunk(h, View(), o, newSize);
    }

    /** `chunk.size = new_allocated(new_size)`, with the right neighbour still in place. */
    method CutTag(chunk: Address, newSize: u32, ghost h: Heap)
      requires Valid() && baseAddress != 0 && baseAddress <= chunk && h == View() && Sparing(h.c)
      requires LiveAt(h.c, chunk - baseAddress) && 0 < newSize < h.c[chunk - baseAddress].size
      modifies this`lists, mem
      ensures var o := chunk - baseAddress; var next := o + h.c[o].size;
        && Linked() && lists == TaggedChunk(h.l, o, h.c[o].prev, 2 * newSize + 1)
        && (next < totalSpace ==> Follows(h, next))
    {
      hide CellsBacked, HeadsBacked, ReadsBacked, HeapOk, Ready, NodesBelow, ConfigOk, WellFormed, OthersLive, Stage;
      hide Tags;
      ghost var o := chunk - baseAddress;
      ReleaseShape(h, o);
      HeapFacts(h);
      HeaderFacts(h, o);
      TagFits(h, o);
      TagsBy(lists, o, h.c[o].prev, NewAllocated(newSize), allocatedSpace);
      SetSize(chunk, NewAllocated(newSize));
      ShrinkKeeps(h, lists, o, newSize);
    }

    // ---- grow ----

    method GrowInplace(pointer: Address, newSize: u32, env: Env) returns (r: Option<u32>)
      requires Valid() && IsLive(pointer)
      modifies this`lists, this`seen, this`callHeap, this`callTarget, this`chunks, this`allocatedSpace
      modifies mem, firstInFreeList
      modifies freeLists`primaryMask, freeLists`members, freeLists.secondaryMasks
      ensures Valid() && baseAddress == old(baseAddress)
      ensures callHeap == old(View()) && callTarget == Some(old(Block(pointer)))
      ensures GrowRan(old(View()), View(), old(Block(pointer)), newSize + 1, env.grants, r)
      ensures GrowOutcome(old(View()), View(), old(Block(pointer)), newSize + 1, env.grants, r)
    {
      hide CellsBacked, HeadsBacked, ReadsBacked, HeapOk, GrowRan, GrowOutcome, OthersLive;
      Begin(Some(Block(pointer)));
      OthersLiveNow(chunks, callTarget);
      ghost var h, o := View(), Block(pointer);
      HeaderFacts(h, o);
      r := GrowBlock(pointer, newSize, env.grants);
      GrowRanOutcome(h, View(), o, newSize + 1, env.grants, r);
    }

    method GrowBlock(pointer: Address, newSize: u32, grants: u32 -> bool) returns (r: Option<u32>)
      requires Valid() && IsLive(pointer) && Sparing(chunks)
      modifies this`lists, this`seen, this`chunks, this`allocatedSpace, mem, firstInFreeList
      modifies freeLists`primaryMask, freeLists`members, freeLists.secondaryMasks
      ensures Valid() && baseAddress == old(baseAddress)
      ensures GrowRan(old(View()), View(), old(Block(pointer)), newSize + 1, grants, r)
    {
      hide CellsBacked, HeadsBacked, ReadsBacked, HeapOk, Grown, ReleaseEnd, NextFree, OthersLive, Clear;
      hide ExtendLists, IsExtended;
      ghost var h, o := View(), Block(pointer);
      GrowView(h, o);
      var checkedSize := CheckedAdd(newSize, HEADER_SIZE);
      if checkedSize == None {
        return None;
      }
      var size := checkedSize.value;
      var chunk := PtrSub(pointer, HEADER_SIZE);
      HeaderClear(callHeap.c, callTarget, h, o);
      var header := Load(chunk);
      var currentSize := WordSize(header.sizeWord);
      if currentSize >= size {
        return Some(UncheckedSub(currentSize, HEADER_SIZE));
      }
      var oldNextChunk := PtrAdd(chunk, currentSize);
      if oldNextChunk >= PtrAdd(baseAddress, totalSpace) {
        return None;
      }
      EndIsChunk(h, o);
      HeaderClear(callHeap.c, callTarget, h, o + h.c[o].size);
      var oldNext := Load(oldNextChunk);
      if WordUsed(oldNext.sizeWord) {
        return None;
      }
      var oldNextSize := WordSize(oldNext.sizeWord);
      var availableSpace := UncheckedAdd(currentSize, oldNextSize);
      if availableSpace < size {
        return None;
      }
      var ok := ExtendInto(chunk, oldNextChunk, oldNextSize, size, UncheckedSub(availableSpace, size), grants);
      if !ok {
        return None;
      }
      return Some(UncheckedSub(size, HEADER_SIZE));
    }

    /** `grow_inplace` once the room is known to suffice: asks for the memory and takes it. */
    method ExtendInto(chunk: Address, oldNextChunk: Address, oldNextSize: u32, newSize: u32, remainingFreeSpace: u32,
                      grants: u32 -> bool) returns (ok: bool)
      requires Valid() && baseAddress != 0 && Sparing(chunks)
      requires baseAddress <= chunk && ExtendFits(View(), chunk - baseAddress, newSize)
      requires oldNextChunk == chunk + chunks[chunk - baseAddress].size
      requires oldNextSize == ReleaseEnd(chunks, chunk - baseAddress) - (oldNextChunk - baseAddress)
      requires remainingFreeSpace == ReleaseEnd(chunks, chunk - baseAddress) - (chunk - baseAddress + newSize)
      requires ReleaseEnd(chunks, chunk - baseAddress) <= totalSpace
      modifies this`lists, this`seen, this`chunks, this`allocatedSpace, mem, firstInFreeList
      modifies freeLists`primaryMask, freeLists`members, freeLists.secondaryMasks
      ensures Valid() && baseAddress == old(baseAddress)
      ensures var end := GrowEnd(old(chunks), chunk - baseAddress, newSize);
        && end < 0x1_0000_0000
        && (ok <==> end <= old(allocatedSpace) || grants(end))
        && (ok ==> ExtendRan(old(View()), View(), chunk - baseAddress, newSize))
        && (!ok ==> View() == old(View()))
    {
      hide CellsBacked, HeadsBacked, ReadsBacked, HeapOk, Grown, ReleaseEnd, NextFree, ExtendLists, IsExtended;
      hide OthersLive;
      ghost var h := View();
      var endOffset := OffsetFrom(PtrAdd(chunk, newSize), baseAddress);
      if remainingFreeSpace != 0 {
        endOffset := UncheckedAdd(endOffset, FREE_CHUNK_HEADER_SIZE);
      }
      ok := Expand(endOffset, grants);
      if ok {
        ExtendBlock(chunk, oldNextChunk, oldNextSize, newSize, remainingFreeSpace, h);
        ExtendRanGrown(h, View(), chunk - baseAddress, newSize);
      }
    }

    /** Takes a free chunk off its list, wherever it is there. */
    method TakeFree(chunk: Address, size: u32, ghost h: Heap)
      requires Shaped() && HeapOk(h) && lists == h.l && h.m == mantissaBits && h.high <= allocatedSpace && Sparing(h.c)
      requires baseAddress <= chunk && FreeAt(h.c, chunk - baseAddress) && size == h.c[chunk - baseAddress].size
      modifies this`lists, this`seen, mem, firstInFreeList
      modifies freeLists`primaryMask, freeLists`members, freeLists.secondaryMasks
      ensures Linked() && Unlinks(h.l, lists, chunk - baseAddress) && NodesBelow(lists, h.high)
      ensures lists == UnlinkedChunk(h.l, h.m, chunk - baseAddress, size)
    {
      hide CellsBacked, HeadsBacked, ReadsBacked, HeapOk, Ready, NodesBelow, Replayed, ConfigOk, OthersLive, Clear;
      hide Unlinks, BinDown, BinUp, Unlinked, NodeOk, WellFormed, BitMask.Indexed;
      ghost var o := chunk - baseAddress;
      HeapFacts(h);
      HeaderFacts(h, o);
      FreeNode(h, o);
      HeaderClear(callHeap.c, callTarget, h, o);
      NodeReach(lists, o, h.high);
      BinsIndexed(size);
      UnlinksBy(lists, o, BinDown(mantissaBits, size), h.high);
      UnregisterFreeSpace(chunk, SizeToBinRoundDown(size));
      PlaceKeeps(h, lists, o, h.high, allocatedSpace);
    }

    /** Unregisters the free chunk that `grow_inplace` takes and sets the new size. */
    method ClaimNext(chunk: Address, oldNextChunk: Address, oldNextSize: u32, newSize: u32, ghost h: Heap)
      requires lists == h.l && h.m == mantissaBits && h.high <= allocatedSpace && Sparing(h.c)
      requires baseAddress <= chunk && ExtendFits(h, chunk - baseAddress, newSize)
      requires oldNextChunk == chunk + h.c[chunk - baseAddress].size
      requires oldNextChunk - baseAddress + oldNextSize == ReleaseEnd(h.c, chunk - baseAddress)
      requires HeapOk(h) && Shaped()
      modifies this`lists, this`seen, mem, firstInFreeList
      modifies freeLists`primaryMask, freeLists`members, freeLists.secondaryMasks
      ensures Linked()
      ensures var o := chunk - baseAddress; var next := o + h.c[o].size;
        lists == TaggedChunk(UnlinkedChunk(h.l, h.m, next, h.c[next].size), o, h.c[o].prev, 2 * newSize + 1)
    {
      hide CellsBacked, HeadsBacked, ReadsBacked, HeapOk, Ready, NodesBelow, Replayed, ConfigOk, Stage, OthersLive;
      hide Tags, Unlinks, UnlinkedChunk, BinDown, NodeOk, WellFormed;
      ghost var o := chunk - baseAddress;
      ExtendShape(h, o, newSize);
      HeapFacts(h);
      HeaderFacts(h, o);
      TagFits(h, o);
      TakeFree(oldNextChunk, oldNextSize, h);
      ghost var l1 := lists;
      ExtendKeeps(h, l1, o, newSize, allocatedSpace);
      TagsBy(lists, o, h.c[o].prev, NewAllocated(newSize), allocatedSpace);
      SetSize(chunk, NewAllocated(newSize));
      TagsKeep(l1, lists, o, h.c[o].prev, 2 * newSize + 1);
    }

    /** The part of `grow_inplace` after the environment granted the memory. */
    method ExtendBlock(chunk: Address, oldNextChunk: Address, oldNextSize: u32, newSize: u32, remainingFreeSpace: u32,
                       ghost h: Heap)
      requires baseAddress != 0 && Sparing(h.c)
      requires lists == h.l && chunks == h.c && mantissaBits == h.m && h.high <= allocatedSpace
      requires baseAddress <= chunk
      requires ExtendArgs(h, chunk - baseAddress, oldNextChunk - baseAddress, oldNextSize, newSize, remainingFreeSpace,
                          allocatedSpace)
      requires HeapOk(h) && Shaped()
      modifies this`lists, this`seen, this`chunks, mem, firstInFreeList
      modifies freeLists`primaryMask, freeLists`members, freeLists.secondaryMasks
      ensures ExtendedBy(h, lists, chunks, chunk - baseAddress, newSize)
      ensures Shaped()
    {
      hide CellsBacked, HeadsBacked, ReadsBacked, HeapOk, Ready, NodesBelow, Replayed, WellFormed, Stage, BinDown;
      hide NodeOk, IsExtended, NextFree, ReleaseEnd, UnlinkedChunk, TaggedChunk, RegisteredAndTagged, OthersLive;
      hide ConfigOk;
      ghost var o := chunk - baseAddress;
      ExtendShape(h, o, newSize);
      ClaimNext(chunk, oldNextChunk, oldNextSize, newSize, h);
      RegisterAndTag(PtrAdd(chunk, newSize), newSize, remainingFreeSpace);
      HeapTiled(h);
      chunks := Extend(h.c, totalSpace, o, newSize);
    }

    // ---- initialisation ----

    ghost predicate EnvOk(env: Env) {
      env.base + totalSpace < 0x800_0000_0000_0000
    }

    /** Starts using the address space at `base`. */
    method Open(base: Address, space: u32)
      requires Shaped() && allocatedSpace <= space <= totalSpace && base + totalSpace < 0x800_0000_0000_0000
      modifies this`lists, this`baseAddress, this`allocatedSpace
      ensures Shaped() && baseAddress == base && allocatedSpace == space
      ensures lists == old(lists).(base := base)
    {
      baseAddress := base;
      allocatedSpace := space;
      lists := lists.(base := base);
    }

    method InitializeImpl(env: Env) returns (ok: bool)
      requires Valid() && baseAddress == 0 && EnvOk(env)
      modifies this`lists, this`chunks, this`allocatedSpace, this`baseAddress, mem, firstInFreeList
      modifies freeLists`primaryMask, freeLists`members, freeLists.secondaryMasks
      ensures Valid()
      ensures ok <==> env.base != 0 && env.grants(FREE_CHUNK_HEADER_SIZE)
      ensures if ok then View() == Opened(old(View()), env.base) && baseAddress == env.base else View() == old(View())
      ensures !ok ==> baseAddress == 0
    {
      hide BinDown, BinUp, HeapOk, CellsBacked, HeadsBacked, ReadsBacked, Untouched;
      if env.base == 0 {
        return false;
      }
      if !env.grants(FREE_CHUNK_HEADER_SIZE) {
        return false;
      }
      ghost var h := View();
      ConfigFact();
      UntouchedFacts(h);
      Open(env.base, FREE_CHUNK_HEADER_SIZE);
      BinsIndexed(totalSpace);
      var bin := SizeToBinRoundDown(totalSpace);
      MarkBin(bin);
      WriteFreeHeader(env.base, 0, NewUnallocated(totalSpace), 0, 0);
      SetHead(bin, env.base);
      File(0, bin.index);
      chunks := map[0 := Chunk(0, totalSpace, false)];
      assert View() == Opened(h, env.base);
      OpenedOk(h, env.base);
      return true;
    }

    // ---- alloc ----

    /** `alloc` and `alloc_zeroed`. */
    method Alloc(align: u32, requestedSize: u32, isCalloc: bool, env: Env) returns (r: Option<Address>)
      requires Valid() && EnvOk(env)
      modifies this`lists, this`seen, this`callHeap, this`callTarget, this`chunks, this`allocatedSpace
      modifies this`baseAddress, mem, firstInFreeList
      modifies freeLists`primaryMask, freeLists`members, freeLists.secondaryMasks
      ensures Valid() && (old(baseAddress) != 0 ==> baseAddress == old(baseAddress))
      ensures callHeap == old(View()) && callTarget == None
      ensures AllocCall(old(View()), View(), align, requestedSize, isCalloc, env, r)
      ensures AllocStep(old(View()), View(), align, requestedSize, isCalloc, env, r)
    {
      hide HeapOk, Untouched, CellsBacked, HeadsBacked, ReadsBacked, AllocCall, AllocStep, OthersLive;
      Begin(None);
      OthersLiveNow(chunks, callTarget);
      ghost var h := View();
      r := AllocImpl(align, requestedSize, isCalloc, env);
      AllocCallStep(h, View(), align, requestedSize, isCalloc, env, r);
    }

    method AllocImpl(align: u32, requestedSize: u32, isCalloc: bool, env: Env) returns (r: Option<Address>)
      requires Valid() && EnvOk(env) && Sparing(chunks)
      modifies this`lists, this`seen, this`chunks, this`allocatedSpace, this`baseAddress, mem, firstInFreeList
      modifies freeLists`primaryMask, freeLists`members, freeLists.secondaryMasks
      ensures Valid() && (old(baseAddress) != 0 ==> baseAddress == old(baseAddress))
      ensures AllocCall(old(View()), View(), align, requestedSize, isCalloc, env, r)
    {
      hide HeapOk, Untouched, Opened, CellsBacked, HeadsBacked, ReadsBacked, AllocRan, SizedOk, OthersLive;
      ViewSized();
      if align == 0 || !IsPow2(align) {
        if baseAddress != 0 { NotRequestable(View(), align, requestedSize, isCalloc, env.grants); }
        return None;
      }
      if baseAddress == 0 {
        UntouchedFacts(View());
        var ok := InitializeImpl(env);
        if !ok {
          return None;
        }
        NothingLive(callHeap.c, callTarget, chunks);
      }
      r := AllocFrom(align, requestedSize, isCalloc, env.grants);
    }

    /** `alloc` on an initialised heap. */
    method AllocFrom(align: u32, requestedSize: u32, isCalloc: bool, grants: u32 -> bool) returns (r: Option<Address>)
      requires Valid() && baseAddress != 0 && align > 0 && IsPow2(align) && Sparing(chunks)
      modifies this`lists, this`seen, this`chunks, this`allocatedSpace, mem, firstInFreeList
      modifies freeLists`primaryMask, freeLists`members, freeLists.secondaryMasks
      ensures Valid() && baseAddress == old(baseAddress)
      ensures AllocRan(old(View()), View(), align, requestedSize, isCalloc, grants, r)
    {
      hide HeapOk, CellsBacked, HeadsBacked, ReadsBacked, AllocRan, CarveRan, Tried, AllocEnd, Granted, BinDown, BinUp;
      hide SearchedBin, OthersLive, Clear;
      ghost var h := View();
      var withHeader := CheckedAdd(requestedSize, HEADER_SIZE);
      if withHeader == None {
        NotRequestable(h, align, requestedSize, isCalloc, grants);
        return None;
      }
      var withPadding := CheckedAdd(withHeader.value, UncheckedSub(align, 1));
      if withPadding == None || withPadding.value > MAX_ALLOCATION_SIZE {
        NotRequestable(h, align, requestedSize, isCalloc, grants);
        return None;
      }
      var minSize := withPadding.value;
      var bin := FindChunk(minSize);
      if bin == None {
        NoneTried(h, minSize);
        NotServable(h, align, requestedSize, isCalloc, grants);
        return None;
      }
      ghost var o := HeadChunk(h, bin.value.index);
      var chunk := Head(bin.value);
      HeaderFacts(h, o);
      TriedHead(h, minSize, o);
      HeaderClear(callHeap.c, callTarget, h, o);
      var header := Load(chunk);
      var chunkSize := WordSize(header.sizeWord);
      if chunkSize < minSize {
        OnlyTried(h, minSize, o);
        NotServable(h, align, requestedSize, isCalloc, grants);
        return None;
      }
      r := AllocAt(chunk, chunkSize, bin.value, align, requestedSize, isCalloc, grants);
      if r == None {
        OnlyTried(h, minSize, o);
        NotServable(h, align, requestedSize, isCalloc, grants);
      } else {
        ServedRan(h, View(), o, align, requestedSize, isCalloc, grants, r.value);
      }
    }

    method FindChunk(minSize: u32) returns (bin: Option<BitIndex>)
      requires Valid() && baseAddress != 0 && 0 < minSize <= MAX_ALLOCATION_SIZE
      ensures bin.Some? ==> freeLists.Indexed(bin.value) && bin.value.index in lists.bits
                            && SearchedBin(View(), minSize, bin.value.index)
      ensures bin.None? ==> NoneFrom(lists.bits, BinDown(mantissaBits, minSize))
    {
      hide HeapOk, BinDown, BinUp, CellsBacked, ReadsBacked;
      BinsIndexed(minSize);
      bin := freeLists.FindFirst(SizeToBinRoundUp(minSize));
      if bin == None {
        bin := freeLists.FindFirst(SizeToBinRoundDown(minSize));
      }
    }

    /** `alloc` once the chunk is chosen: asks for the memory, carves the block, zeroes it. */
    method AllocAt(chunk: Address, chunkSize: u32, bin: BitIndex, align: u32, requestedSize: u32, isCalloc: bool,
                   grants: u32 -> bool) returns (r: Option<Address>)
      requires Valid() && baseAddress != 0 && Requestable(align, requestedSize) && Sparing(chunks)
      requires baseAddress <= chunk && FreeAt(chunks, chunk - baseAddress)
      requires chunkSize == chunks[chunk - baseAddress].size && requestedSize + align <= chunkSize
      requires freeLists.Indexed(bin) && BinOf(View(), chunk - baseAddress) == bin.index
      requires HeadAt(lists, bin.index) == chunk
      modifies this`lists, this`seen, this`chunks, this`allocatedSpace, mem, firstInFreeList
      modifies freeLists`primaryMask, freeLists`members, freeLists.secondaryMasks
      ensures Valid() && baseAddress == old(baseAddress)
      ensures HeapOk(old(View())) && IsPow2(align)
      ensures var h, o := old(View()), chunk - baseAddress;
        && (r.Some? <==> Granted(h, AllocEnd(h, o, align, requestedSize), grants))
        && (r.None? ==> View() == h)
        && (r.Some? ==> CarveRan(h, View(), o, align, requestedSize, isCalloc, r.value))
    {
      hide HeapOk, CellsBacked, HeadsBacked, ReadsBacked, HeaderFor, IsPow2, BinDown, AllocEnd, Requestable;
      hide AlignOffset, PlaceFits, BinOf, ConfigOk, PlaceLists, ZeroedLists, IsPlaced, OthersLive, Clear;
      ghost var h, o := View(), chunk - baseAddress;
      AllocNumbers(h, o, align, requestedSize);
      var chunkOffset := OffsetFrom(chunk, baseAddress);
      var dataOffset := AlignOffset(chunkOffset + HEADER_SIZE, align, baseAddress);
      var headerOffset := UncheckedSub(dataOffset, HEADER_SIZE);
      var freeSpaceLhs := UncheckedSub(headerOffset, chunkOffset);
      var freeSpaceRhs := UncheckedSub(UncheckedSub(UncheckedSub(chunkSize, requestedSize), freeSpaceLhs), HEADER_SIZE);
      var endOffset := UncheckedAdd(dataOffset, requestedSize);
      if freeSpaceRhs != 0 {
        endOffset := UncheckedAdd(endOffset, FREE_CHUNK_HEADER_SIZE);
      }
      var zeroMemory := allocatedSpace > dataOffset && isCalloc;
      var ok := Expand(endOffset, grants);
      if !ok {
        return None;
      }
      CarveAndZero(chunk, bin, freeSpaceLhs, requestedSize, freeSpaceRhs, zeroMemory, h);
      return Some(PtrAdd(baseAddress, dataOffset));
    }

    /** Carves the block and zeroes it if its memory may have been written. */
    method CarveAndZero(chunk: Address, bin: BitIndex, freeSpaceLhs: u32, requestedSize: u32, freeSpaceRhs: u32,
                        zeroMemory: bool, ghost h: Heap)
      requires Shaped() && HeapOk(h) && baseAddress != 0 && Sparing(h.c)
      requires lists == h.l && chunks == h.c && h.m == mantissaBits && h.high <= allocatedSpace
      requires baseAddress <= chunk && PlaceFits(h, chunk - baseAddress, freeSpaceLhs, requestedSize + 1)
      requires freeSpaceLhs + requestedSize + 1 + freeSpaceRhs == h.c[chunk - baseAddress].size
      requires var end := chunk - baseAddress + freeSpaceLhs + requestedSize + 1;
        end + (if freeSpaceRhs > 0 then 1 else 0) <= allocatedSpace
      requires freeLists.Indexed(bin) && BinOf(h, chunk - baseAddress) == bin.index && HeadAt(lists, bin.index) == chunk
      modifies this`lists, this`seen, this`chunks, mem, firstInFreeList
      modifies freeLists`primaryMask, freeLists`members, freeLists.secondaryMasks
      ensures Valid()
      ensures IsPlaced(h.c, chunks, chunk - baseAddress, freeSpaceLhs, requestedSize + 1)
      ensures var l := PlaceLists(h, chunk - baseAddress, freeSpaceLhs, requestedSize + 1);
        lists == if zeroMemory then ZeroedLists(l, chunk - baseAddress + freeSpaceLhs + 1, requestedSize) else l
    {
      hide HeapOk, CellsBacked, HeadsBacked, ReadsBacked, Placed, PayloadsKept, PlaceFits, BinOf, PlaceLists;
      hide ZeroedLists, IsPlaced, OthersLive, Clear, Zeroed;
      CarveBlock(chunk, bin, freeSpaceLhs, requestedSize, freeSpaceRhs, h);
      ghost var k, header := View(), chunk - baseAddress + freeSpaceLhs;
      PlacedFacts(h, k, header, requestedSize + 1);
      if zeroMemory {
        ZeroFill(PtrAdd(PtrAdd(chunk, freeSpaceLhs), HEADER_SIZE), requestedSize);
      }
    }

    /** Takes the chunk, the first of its list, off that list. */
    method TakeFirst(chunk: Address, bin: BitIndex, ghost h: Heap) returns (prevChunkSize: u32)
      requires Shaped() && HeapOk(h) && lists == h.l && h.m == mantissaBits && h.high <= allocatedSpace && Sparing(h.c)
      requires baseAddress <= chunk && FreeAt(h.c, chunk - baseAddress)
      requires freeLists.Indexed(bin) && BinOf(h, chunk - baseAddress) == bin.index && HeadAt(lists, bin.index) == chunk
      modifies this`lists, this`seen, mem, firstInFreeList
      modifies freeLists`primaryMask, freeLists`members, freeLists.secondaryMasks
      ensures Linked() && Unlinks(h.l, lists, chunk - baseAddress)
      ensures prevChunkSize == h.c[chunk - baseAddress].prev < SPACE_LIMIT
      ensures lists == UnlinkedChunk(h.l, h.m, chunk - baseAddress, h.c[chunk - baseAddress].size)
    {
      hide HeapOk, CellsBacked, HeadsBacked, ReadsBacked, Ready, NodesBelow, Replayed, Unlinks, Unlinked, NodeOk;
      hide WellFormed, BitMask.Indexed, BinDown, BinUp, ConfigOk, OthersLive, Clear;
      ghost var o := chunk - baseAddress;
      HeapFacts(h);
      HeaderFacts(h, o);
      TagFits(h, o);
      FreeNode(h, o);
      HeaderClear(callHeap.c, callTarget, h, o);
      NodeReach(lists, o, h.high);
      var header := Load(chunk);
      prevChunkSize := header.prevSize;
      UnlinkedHead(lists, o, bin.index);
      UnlinksBy(lists, o, bin.index, h.high);
      UnregisterFreeSpaceFirstChunk(chunk, bin);
      PlaceKeeps(h, lists, o, h.high, allocatedSpace);
    }

    /** Takes the chunk off its list and writes the headers up to that of the new block. */
    method CarveFront(chunk: Address, bin: BitIndex, freeSpaceLhs: u32, requestedSize: u32, ghost h: Heap)
      requires Shaped() && HeapOk(h) && lists == h.l && h.m == mantissaBits && h.high <= allocatedSpace && Sparing(h.c)
      requires baseAddress <= chunk && PlaceFits(h, chunk - baseAddress, freeSpaceLhs, requestedSize + 1)
      requires chunk - baseAddress + freeSpaceLhs < allocatedSpace
      requires freeLists.Indexed(bin) && BinOf(h, chunk - baseAddress) == bin.index && HeadAt(lists, bin.index) == chunk
      modifies this`lists, this`seen, mem, firstInFreeList
      modifies freeLists`primaryMask, freeLists`members, freeLists.secondaryMasks
      ensures Linked()
      ensures var o, prev := chunk - baseAddress, h.c[chunk - baseAddress].prev;
        var l1 := UnlinkedChunk(h.l, h.m, o, h.c[o].size);
        var l2 := RegisteredChunk(l1, h.m, o, prev, freeSpaceLhs);
        lists == TaggedChunk(l2, o + freeSpaceLhs, if freeSpaceLhs > 0 then freeSpaceLhs else prev,
                             2 * (requestedSize + 1) + 1)
    {
      hide HeapOk, CellsBacked, HeadsBacked, ReadsBacked, Ready, NodesBelow, Replayed, Unlinks, Registers, Tags;
      hide Unlinked, Registered, Tagged, NodeOk, BinUp, WellFormed, BitMask.Indexed, BinDown, ConfigOk, OthersLive;
      hide UnlinkedChunk;
      ghost var o := chunk - baseAddress;
      PlaceShape(h, o, freeSpaceLhs, requestedSize + 1);
      HeapFacts(h);
      HeaderFacts(h, o);
      var prevChunkSize := TakeFirst(chunk, bin, h);
      ghost var l1 := lists;
      PlaceKeeps(h, l1, o, allocatedSpace, allocatedSpace);
      HeadReach(l1, BinDown(mantissaBits, freeSpaceLhs), allocatedSpace);
      ConfigFact();
      RegistersBy(l1, mantissaBits, o, prevChunkSize, freeSpaceLhs, allocatedSpace);
      prevChunkSize := RegisterFreeSpace(chunk, prevChunkSize, freeSpaceLhs);
      var allocationChunk := PtrAdd(chunk, freeSpaceLhs);
      TagsBy(lists, o + freeSpaceLhs, prevChunkSize, NewAllocated(requestedSize + 1), allocatedSpace);
      RegisterAllocation(allocationChunk, prevChunkSize, UncheckedAdd(requestedSize, HEADER_SIZE));
    }

    /** The part of `alloc_impl` that changes the heap. */
    method CarveBlock(chunk: Address, bin: BitIndex, freeSpaceLhs: u32, requestedSize: u32, freeSpaceRhs: u32,
                      ghost h: Heap)
      requires Shaped() && HeapOk(h) && baseAddress != 0 && Sparing(h.c)
      requires lists == h.l && chunks == h.c && h.m == mantissaBits && h.high <= allocatedSpace
      requires baseAddress <= chunk && PlaceFits(h, chunk - baseAddress, freeSpaceLhs, requestedSize + 1)
      requires freeSpaceLhs + requestedSize + 1 + freeSpaceRhs == h.c[chunk - baseAddress].size
      requires var end := chunk - baseAddress + freeSpaceLhs + requestedSize + 1;
        end + (if freeSpaceRhs > 0 then 1 else 0) <= allocatedSpace
      requires freeLists.Indexed(bin) && BinOf(h, chunk - baseAddress) == bin.index && HeadAt(lists, bin.index) == chunk
      modifies this`lists, this`seen, this`chunks, mem, firstInFreeList
      modifies freeLists`primaryMask, freeLists`members, freeLists.secondaryMasks
      ensures Valid() && PlaceRan(h, View(), chunk - baseAddress, freeSpaceLhs, requestedSize + 1)
      ensures Placed(h, View(), chunk - baseAddress + freeSpaceLhs, requestedSize + 1)
    {
      hide HeapOk, CellsBacked, HeadsBacked, ReadsBacked, Ready, NodesBelow, Replayed, IsPlaced, Placed, WellFormed;
      hide PayloadsKept, BinDown, ConfigOk, UnlinkedChunk, RegisteredChunk, TaggedChunk, RegisteredAndTagged;
      hide OthersLive, PlaceRan, PlaceLists;
      ghost var o := chunk - baseAddress;
      PlaceShape(h, o, freeSpaceLhs, requestedSize + 1);
      CarveFront(chunk, bin, freeSpaceLhs, requestedSize, h);
      ghost var l3 := lists;
      var nextChunk := PtrAdd(PtrAdd(PtrAdd(chunk, freeSpaceLhs), HEADER_SIZE), requestedSize);
      RegisterAndTag(nextChunk, UncheckedAdd(requestedSize, HEADER_SIZE), freeSpaceRhs);
      HeapTiled(h);
      chunks := Place(h.c, totalSpace, o, freeSpaceLhs, requestedSize + 1);
      PlaceRanBy(h, View(), o, freeSpaceLhs, requestedSize + 1, l3, freeSpaceRhs);
      PlaceRanPlaced(h, View(), o, freeSpaceLhs, requestedSize + 1);
    }

    /** The first `i` cells of the payload of the block at `o` of `h` are zero. */
    ghost predicate Zeroing(h: Heap, o: nat, i: nat)
      reads this, mem, firstInFreeList, freeLists, freeLists.secondaryMasks
    {
      && Shaped() && HeapOk(h) && LiveAt(h.c, o) && i < h.c[o].size
      && h.l.base == baseAddress && |h.l.mem| == totalSpace && h.high <= allocatedSpace
      && lists == ZeroedLists(h.l, o + 1, i)
    }

    method ZeroCell(pointer: Address, i: u32, ghost h: Heap, ghost o: nat)
      requires Zeroing(h, o, i) && i + 1 < h.c[o].size && pointer == h.l.base + o + 1
      modifies this`lists, mem
      ensures Zeroing(h, o, i + 1)
    {
      hide HeapOk, CellsBacked, HeadsBacked, ReadsBacked, Rewrote;
      HeaderFacts(h, o);
      ZeroedOk(h, o, i);
      AddressesFit(ZeroedHeap(h, o, i), o + 1 + i);
      Write(PtrAdd(pointer, i), ZERO_CELL);
    }

    /** `write_bytes(0, size)` on a block's payload. */
    method ZeroFill(pointer: Address, size: u32)
      requires IsLive(pointer) && chunks[Block(pointer)].size == size + 1 && Valid()
      modifies this`lists, mem
      ensures Valid() && Zeroed(old(View()), View(), old(Block(pointer)))
      ensures lists == ZeroedLists(old(lists), old(Block(pointer)) + 1, size)
    {
      hide HeapOk, CellsBacked, HeadsBacked, ReadsBacked, Rewrote;
      ghost var h, o := View(), Block(pointer);
      HeaderFacts(h, o);
      var i := 0;
      while i < size
        invariant i <= size && Zeroing(h, o, i)
      {
        ZeroCell(pointer, i, h, o);
        i := i + 1;
      }
      ZeroedBlock(h, o, size);
    }

    // ---- the owner of a block ----

    lemma ViewSized()
      requires Valid()
      ensures SizedOk(View()) && (baseAddress == 0 ==> Untouched(View())) && (baseAddress != 0 ==> HeapOk(View()))
    {
      hide HeapOk, Untouched;
      ConfigFact();
    }

    lemma OwnerFacts(pointer: Address)
      requires IsLive(pointer) && Valid()
      ensures pointer > 0 && CellsBacked() && lists.base == baseAddress && Accessible(pointer - 1)
      ensures var n := |ContentsAt(View(), pointer)|;
        && n + 1 < SPACE_LIMIT && At(lists, pointer - 1).sizeWord == 2 * (n + 1) + 1
        && pointer - baseAddress + n <= |lists.mem|
        && ContentsAt(View(), pointer) == lists.mem[pointer - baseAddress..pointer - baseAddress + n]
    {
      hide HeapOk, Untouched, ConfigOk, CellsBacked, HeadsBacked, ReadsBacked;
      HeaderFacts(View(), Block(pointer));
    }

    /** `usable_size`, in units: reads the header of the block only. */
    method UsableSize(pointer: Address) returns (size: u32)
      requires IsLive(pointer) && Valid()
      ensures size == |ContentsAt(View(), pointer)|
    {
      hide Valid, IsLive, ContentsAt, CellsBacked;
      OwnerFacts(pointer);
      size := UncheckedSub(WordSize(CellAt(PtrSub(pointer, HEADER_SIZE)).sizeWord), HEADER_SIZE);
    }

    /** Size of the block at `p`, with its header. */
    ghost function SizeOf(p: Address): nat
      reads this
    {
      if IsLive(p) then chunks[Block(p)].size else 0
    }

    /** `usable_size_impl` as `realloc` calls it. */
    method LoadUsableSize(pointer: Address) returns (size: u32)
      requires IsLive(pointer) && Sparing(chunks) && Valid()
      modifies this`seen
      ensures size + 1 == SizeOf(pointer) && Valid()
    {
      hide HeapOk, CellsBacked, HeadsBacked, ReadsBacked, OthersLive, Clear;
      HeaderFacts(View(), Block(pointer));
      HeaderClear(callHeap.c, callTarget, View(), Block(pointer));
      var header := Load(PtrSub(pointer, HEADER_SIZE));
      size := UncheckedSub(WordSize(header.sizeWord), HEADER_SIZE);
    }

    /** The owner reads the whole block. */
    method Slice(pointer: Address) returns (s: seq<Cell>)
      requires IsLive(pointer) && Valid()
      ensures s == ContentsAt(View(), pointer)
    {
      hide Valid, IsLive, ContentsAt;
      OwnerFacts(pointer);
      var size := UsableSize(pointer);
      s := mem[pointer - baseAddress..pointer - baseAddress + size];
    }

    /** The user stores to a cell of a live block. */
    method WriteCell(pointer: Address, i: u32, cell: Cell)
      requires IsLive(pointer) && i + 1 < chunks[Block(pointer)].size && Valid()
      modifies this`lists, this`seen, this`callHeap, this`callTarget, mem
      ensures Valid() && callHeap == old(View()) && callTarget == Some(old(Block(pointer))) && seen == []
      ensures StoreRan(old(View()), View(), old(Block(pointer)), i, cell)
      ensures Written(old(View()), View(), old(Block(pointer)), i, cell)
    {
      hide HeapOk, CellsBacked, HeadsBacked, ReadsBacked, Written;
      Begin(Some(Block(pointer)));
      HeaderFacts(View(), Block(pointer));
      WrittenBy(View(), Block(pointer), i, cell);
      Write(PtrAdd(pointer, i), cell);
    }

    // ---- realloc ----

    ghost predicate Copyable(from: Address, to: Address, size: u32)
      reads this
    {
      && IsLive(from) && IsLive(to) && from != to
      && chunks[Block(from)].size == size + 1 <= chunks[Block(to)].size
    }

    /** The first `i` cells of the block at `o` of `h` have been copied to the one at `q`. */
    ghost predicate Copying(h: Heap, o: nat, q: nat, i: nat)
      reads this, mem, firstInFreeList, freeLists, freeLists.secondaryMasks
    {
      && Shaped() && HeapOk(h) && LiveAt(h.c, o) && LiveAt(h.c, q) && o != q && i < h.c[o].size <= h.c[q].size
      && callTarget == Some(o) && Sparing(h.c)
      && h.l.base == baseAddress && |h.l.mem| == totalSpace && h.high <= allocatedSpace
      && lists == CopiedLists(h.l, o + 1, q + 1, i)
    }

    method CopyCell(from: Address, to: Address, i: u32, ghost h: Heap, ghost o: nat, ghost q: nat)
      requires Copying(h, o, q, i) && i + 1 < h.c[o].size && from == h.l.base + o + 1 && to == h.l.base + q + 1
      modifies this`lists, this`seen, mem
      ensures Copying(h, o, q, i + 1)
    {
      hide HeapOk, CellsBacked, HeadsBacked, ReadsBacked, Rewrote, OthersLive, Clear, CopiedAt, CopiedLists, ConfigOk;
      HeaderFacts(h, o);
      HeaderFacts(h, q);
      CopiedOk(h, o, q, i);
      CopiedMore(h.l, o + 1, q + 1, i);
      ChunkClear(callHeap.c, callTarget, h, o, o + 1 + i);
      AddressesFit(CopiedHeap(h, o, q, i), o + 1 + i);
      AddressesFit(CopiedHeap(h, o, q, i), q + 1 + i);
      var cell := Load(PtrAdd(from, i));
      Write(PtrAdd(to, i), cell);
    }

    /** `copy_nonoverlapping` from the block that the call is about to the front of another. */
    method CopyPayload(from: Address, to: Address, size: u32)
      requires Copyable(from, to, size) && callTarget == Some(Block(from)) && Sparing(chunks) && Valid()
      modifies this`lists, this`seen, mem
      ensures Valid() && lists == CopiedLists(old(lists), old(Block(from)) + 1, old(Block(to)) + 1, size)
    {
      hide HeapOk, CellsBacked, HeadsBacked, ReadsBacked, Rewrote, OthersLive, Clear;
      ghost var h, o, q := View(), Block(from), Block(to);
      var i := 0;
      while i < size
        invariant i <= size && Copying(h, o, q, i)
      {
        CopyCell(from, to, i, h, o, q);
        i := i + 1;
      }
      CopiedOk(h, o, q, size);
    }

    /** `realloc`, with the default feature `realloc_inplace`. */
    method Realloc(pointer: Address, align: u32, newSize: u32, env: Env) returns (r: Option<Address>)
      requires Valid() && IsLive(pointer) && EnvOk(env)
      modifies this`lists, this`seen, this`callHeap, this`callTarget, this`chunks, this`allocatedSpace
      modifies this`baseAddress, mem, firstInFreeList
      modifies freeLists`primaryMask, freeLists`members, freeLists.secondaryMasks
      ensures Valid() && baseAddress == old(baseAddress)
      ensures callHeap == old(View()) && callTarget == Some(old(Block(pointer)))
      ensures ReallocRan(old(View()), View(), pointer, align, newSize, env, r)
      ensures ReallocOutcome(old(View()), View(), pointer, align, newSize, env, r)
    {
      hide HeapOk, CellsBacked, HeadsBacked, ReadsBacked, ReallocRan, ReallocOutcome, OthersLive;
      Begin(Some(Block(pointer)));
      OthersLiveNow(chunks, callTarget);
      ghost var h := View();
      r := ReallocBlock(pointer, align, newSize, env);
      ReallocRanOutcome(h, View(), pointer, align, newSize, env, r);
    }

    method ReallocBlock(pointer: Address, align: u32, newSize: u32, env: Env) returns (r: Option<Address>)
      requires Valid() && IsLive(pointer) && EnvOk(env) && callTarget == Some(Block(pointer)) && Sparing(chunks)
      modifies this`lists, this`seen, this`chunks, this`allocatedSpace, this`baseAddress, mem, firstInFreeList
      modifies freeLists`primaryMask, freeLists`members, freeLists.secondaryMasks
      ensures Valid() && baseAddress == old(baseAddress)
      ensures ReallocRan(old(View()), View(), pointer, align, newSize, env, r)
    {
      hide HeapOk, CellsBacked, HeadsBacked, ReadsBacked, Freed, FreeRan, TrimRan, MoveRan, CanGrow, OthersLive, Clear;
      hide ExtendRan;
      ghost var h, o := View(), Block(pointer);
      HeaderFacts(h, o);
      var currentSize := LoadUsableSize(pointer);
      if newSize == currentSize {
        return Some(pointer);
      }
      if newSize == 0 {
        FreeBlock(pointer);
        return None;
      }
      if newSize < currentSize {
        ShrinkBlock(pointer, newSize);
        return Some(pointer);
      }
      var grown := GrowBlock(pointer, newSize, env.grants);
      if grown.Some? {
        return Some(pointer);
      }
      r := MoveBlock(pointer, align, currentSize, newSize, env.(grants := env.regrants));
    }

    /** The last part of `realloc`: a new block, a copy, and the old block freed. */
    method MoveBlock(pointer: Address, align: u32, currentSize: u32, newSize: u32, env: Env)
      returns (r: Option<Address>)
      requires IsLive(pointer) && chunks[Block(pointer)].size == currentSize + 1 <= newSize && EnvOk(env) && Valid()
      requires callTarget == Some(Block(pointer)) && Sparing(chunks)
      modifies this`lists, this`seen, this`chunks, this`allocatedSpace, this`baseAddress, mem, firstInFreeList
      modifies freeLists`primaryMask, freeLists`members, freeLists.secondaryMasks
      ensures Valid() && baseAddress == old(baseAddress)
      ensures MoveRan(old(View()), View(), old(Block(pointer)), align, newSize, env.grants, r)
    {
      hide HeapOk, CellsBacked, HeadsBacked, ReadsBacked, Freed, FreeRan, Placed, AllocRan, AllocOutcome, Aligned;
      hide Opened, Initializes, ConfigOk, Untouched, CopiedLists, AllZero, OthersLive, Clear;
      ghost var h, o := View(), Block(pointer);
      HeaderFacts(h, o);
      r := AllocImpl(align, newSize, false, env);
      if r == None {
        return;
      }
      ghost var i, q := View(), r.value - baseAddress - 1;
      AllocRanOutcome(h, i, align, newSize, false, env.grants, r);
      AllocGave(h, i, align, newSize, false, env.grants, r.value);
      PlacedFacts(h, i, q, newSize + 1);
      PlacedKeeps(h, i, q, newSize + 1, o);
      PlacedSpares(callHeap.c, callTarget, h, i, q, newSize + 1);
      CopyPayload(pointer, r.value, currentSize);
      FreeBlock(pointer);
      assert CopyAndFreeRan(h, i, View(), o, q);
      assert MovedVia(h, i, View(), o, align, newSize, env.grants, r.value);
    }
  }
}
