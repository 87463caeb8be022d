# picoalloc: a verified model

A model of the picoalloc memory allocator in Dafny, with proofs of what its operations keep
and promise. `dafny verify dfyconfig.toml` checks all of it.

picoalloc is a TLSF-style allocator. The address space is tiled by chunks with boundary tags.
Free chunks sit in doubly linked lists, one per size bin, threaded through the free memory
itself; a two-level bit mask records which bins are non-empty; a high-water mark records how
much memory the environment has provided. `alloc`, `free`, `shrink_inplace`, `grow_inplace`
and `realloc` split, merge and relink chunks with unchecked pointer arithmetic.

## How it is modelled

- `Allocators.Allocator` is a class with the fields of the source. The heap is one mutable
  array of cells of 32 bytes; headers, free-list links and user payloads share those cells, so
  a header store in the wrong place would overwrite a payload. Every unchecked addition,
  subtraction, index and memory access of the source is a function or method with the bound as
  its precondition, so each of them is proved in range where it is used. The bit mask is a
  class over an array of words.
- Each method is proved equal, store by store, to a function on values (`Lists`, `Layout`,
  `Heap`). The invariant `HeapOk`, the global version of `paranoid_check_chunk`, and the
  meaning of the operations are proved about those values.
- `Heap.l.log` records every store and the memory after it; `Allocator.seen` records every
  read of the call in progress, with the cell it saw and the number of stores before it. Both
  are what the thread model replays.
- `Transitions` and `Executions` give each operation as what it does: its stores, what becomes
  of the tiling, and its choices on what it finds. That the heap stays in order, that other
  blocks keep their contents and that the result is right is proved from that.
- A cell is the two 32-bit tags, two 64-bit words for links and the rest; user stores range
  over all contents of a cell.
- Sizes, offsets and addresses count units of 32 bytes; all of them are multiples of 32 bytes
  in the source. A size is a `u32`. `SPACE_LIMIT` (`2^27` units) is the largest space for which
  `Size::bytes` loses no bit; the total space lies below it.
- The environment (`Env`) is an adversary: at every operation it gives any base and any answer
  to any extent, with separate answers to the two requests that one `realloc` may make.
  Memory that it provides is zero until written.
- `Runs` puts calls and user stores together into runs of any length; `Calls.Perform` shows
  that every call on the object is such a step. `FuzzTarget` is the fuzzing harness of the
  repository as a program whose checks are proved to pass.
- `Mutexes` is the spin lock as a step machine over any number of threads: attempts that fail
  (spuriously or not), acquisition, single reads and stores of the critical section, release,
  stores of owners to their own blocks without the lock, and passing blocks between threads. A
  thread that reads anything but what the sequential execution reads may do anything at all
  from there on; that no thread ever does is part of what is proved.

Files, from the ground up: `Wrappers`, `Bits`, `Bins`, `Sizes`, `BitMask`, `FreeLists`,
`Partition`, `Layouts`, `Heaps`, `Operations`, `Effects`, `Payloads`, `Search`, `Allocation`,
`Transitions`, `Executions`, `Reads`, `Allocator`, `Canonical`, `Runs`, `Promises`, `Calls`,
`FuzzTarget`, `GlobalAlloc`, `Stores`, `Progress`, `Mutex`, `MissedFit`.

## Main results

- In every state of every run, under any environment and any user stores, the chunks tile the
  space exactly, tags are right, neighbours are never both free, lists and mask hold exactly
  the free chunks, and everything above the high-water mark is zero (`Runs.RunOnward`, from
  `Runs.StepOutcome`, with `Canonical.SizesSumUp`, `Canonical.FreeListOfBin`). Every call on
  the object, of all kinds, is a step of such a run (`Calls.Perform`, `Calls.Call`).
- No cell above the mark was ever read or written, in any run, and the mark is where the run
  began or an extent that the environment granted (`Stores.RunAccesses`, `Runs.RunGranted`).
- Every legal call has exactly one execution from a given heap under given answers of the
  environment (`Progress.StepExists`, `Progress.StepUnique`).
- Every run refines a plain map from live blocks to contents (`Runs.RunRefines`); a block that
  is left alone keeps its contents (`Runs.UntargetedBlockKept`).
- The layout is a function of the live blocks (`Canonical.CanonicalLayout`,
  `Runs.RunsAreCanonical`), so undoing an operation restores it
  (`Canonical.AllocFreeRestores`, `Canonical.ShrinkGrowRestores`, `Runs.EverythingFreed`).
- The bins round soundly and tightly for every number of mantissa bits
  (`Bins.RoundUpAdjoint`, `Bins.RoundDownAdjoint`), which gives fit, near best fit and a bound
  on fragmentation (`Bins.FitSound`, `Search.NearBestFit`,
  `Allocation.AllocFailsOnlyWhenFull`).
- When calls succeed, in terms of sizes, alignments, chunks and grants alone: `alloc`
  (`Promises.AllocKept`, `Promises.AllocSucceeds`, `Promises.FirstAllocKept`), `grow_inplace`
  and `realloc` (`Promises.GrowKept`, `Promises.ReallocKept`), and the byte-level wrapper
  (`GlobalAlloc.AllocBytesKept`, `GlobalAlloc.ReallocBytesKept`).
- The fuzzing harness passes for every input, and its calls are exactly those that it should
  make (`FuzzTarget.Fuzz`).
- "`alloc` succeeds whenever a free chunk fits" is false: the fallback search looks at the head
  of one bin only, and that is the chunk freed last (`Executions.FreedIsFirst`).
  `MissedFit.FallbackMisses` and `MissedFit.Demonstrate` give a run of a new allocator, and
  `Search.MissedExactly` says exactly when a fitting chunk is missed.
- No operation reads or stores in a payload of a block that it is not about (`Calls.Perform`,
  `Effects.HeaderClear`, `Stores.StepStores`). With the lock, every interleaving of threads
  behaves like the sequential run in lock order, read by read and store by store, while owners
  use their blocks without the lock (`Mutexes.LockProtects`, `Mutexes.LookSees`,
  `Mutexes.UnlockedReads`, `Mutexes.OthersCannotDisturb`), each block is its
  caller's until handed on (`Mutexes.OwnedByLastGiven`), and there is no deadlock
  (`Mutexes.NoDeadlock`).

## Model

| member | source | states |
|---|---|---|
| Bits.AndLowMask | src/allocator.rs:141-170 | masking a word with `2^k - 1` keeps exactly its low `k` bits, as the mantissa extraction needs |
| Bits.AndHighMask | src/allocator.rs:91-96 | masking a `w`-bit word with the complement of `2^k - 1` clears its low `k` bits: it rounds down to a multiple of `2^k` |
| Bits.OrLow | src/allocator.rs:325-348 | or-ing a shifted primary index with a secondary index is adding them |
| Bits.AndBit | src/allocator.rs:128-137 | bit `i` of `a & b` is set iff it is set in both |
| Bits.TrailingZerosLeast | src/allocator.rs:128-137 | `trailing_zeros` is the least set bit of a non-zero word |
| Sizes.FromBytesCovers | src/allocator.rs:47-58 | the number of units is the least that covers the bytes, and is refused exactly when it exceeds a `u32` |
| Sizes.AlignRounds | src/allocator.rs:91-96 | adding the mask and clearing it gives the next multiple of a power of two |
| Sizes.AlignOffsetLeast | src/allocator.rs:91-96 | `align_offset` gives the least offset at or after `x` whose address is aligned |
| Sizes.ByteAlignment | src/allocator.rs:47-58 | rounding a power-of-two byte alignment to units keeps it a power of two, and unit alignment then implies byte alignment |
| Bins.ToBinIndexValue | src/allocator.rs:141-170 | the shifts and masks compute exponent, whole steps (rounding down) and started steps (rounding up) of the size |
| Bins.BinIndexFits | src/allocator.rs:141-170 | for every 32-bit size each shift count is below 32, and every shifted value, sum and bin fits 32 bits |
| Bins.BinParts | src/allocator.rs:141-170 | every bin index unpacks into exponent and mantissa, and `BinMin`, the inverse of rounding, is the mantissa shifted by the exponent |
| Bins.BinMinMonotone | src/allocator.rs:141-170 | minima of bins increase strictly |
| Bins.RoundDownBrackets | src/allocator.rs:141-170 | a size lies between the minimum of its rounded-down bin and the next minimum |
| Bins.RoundUpBrackets | src/allocator.rs:141-170 | the rounded-up bin is the first whose minimum covers the size |
| Bins.RoundUpAdjoint | src/allocator.rs:141-170 | for 1 to 8 mantissa bits, every size and every bin: `round_up(s) <= b` iff `s <= BinMin(b)` |
| Bins.RoundDownAdjoint | src/allocator.rs:141-170 | for 1 to 8 mantissa bits, every size and every bin: `b <= round_down(t)` iff `BinMin(b) <= t` |
| Bins.RoundingMonotone | src/allocator.rs:141-170 | both roundings are monotone, and differ by one bin at most |
| Bins.BinWidth | src/allocator.rs:141-170 | a bin is narrower than its minimum by a factor of `2^m` |
| Bins.RoundingLoss | src/allocator.rs:141-170 | a size that rounds down below the rounded-up bin of `s` exceeds `s` by less than one part in `2^m` |
| Bins.PowerOfTwoBin | src/allocator.rs:141-170 | both roundings put a power of two in the last bin of its octave, whose minimum it is |
| Bins.TryMantissa | src/allocator.rs:177-202 | the chosen number of mantissa bits is the largest whose bins fit the limit; none is chosen iff none fits |
| Bins.ShippedConfigs | src/allocator.rs:177-204 | 64-bit masks get 7 mantissa bits and 2432 bins, 32-bit masks 5 and 672 |
| Bins.OptimalConfigOk | src/allocator.rs:177-202 | a chosen configuration has a bin for every size up to the largest allocation, and no more bins than the mask has bits |
| Bins.ShippedConfigsOk | src/allocator.rs:177-204 | both shipped configurations cover every size up to the largest allocation |
| Bins.BinInRange | src/allocator.rs:650-663 | both clamped roundings stay inside `first_in_free_list`, so its unchecked index is in range |
| Bins.FitSound | src/allocator.rs:650-663 | a chunk in a bin at or above the rounded-up request is large enough, chunks clamped into the last bin included |
| Bins.FitExact | src/allocator.rs:650-663 | a chunk is in a bin at or above the rounded-up request iff it reaches the minimum of that bin |
| Bins.MissedIsTight | src/allocator.rs:650-663 | a chunk below the rounded-up bin of the request is smaller than the request times `1 + 2^-m` |
| Bins.LowerBinIsTight | src/allocator.rs:650-663 | a chunk of a lower or equal bin exceeds another by less than one part in `2^m` |
| BitMasks.LowestSetBitAfterLeast | src/allocator.rs:128-137 | the least set bit at or after the index, or none iff there is none, for every word width |
| BitMasks.SecondaryLength | src/allocator.rs:212-221 | the number of words is the least that covers the bins |
| BitMasks.ShippedSecondaryLengths | src/allocator.rs:212-221 | 38 words of 64 bits, 21 of 32: fewer than the word width, so the shift by `primary + 1` is in range |
| BitMasks.BitMask.constructor | src/allocator.rs:286-293 | a new mask stands for the empty set |
| BitMasks.BitMask.IndexSplits | src/allocator.rs:297-302 | shift and mask split an index into word and bit, both in range |
| BitMasks.BitMask.Set | src/allocator.rs:306-311 | setting a bit adds the index to the set, and keeps "primary bit set iff word non-zero" |
| BitMasks.BitMask.Unset | src/allocator.rs:315-321 | clearing a bit removes the index from the set, and keeps "primary bit set iff word non-zero" |
| BitMasks.BitMask.FoundInSameWord | src/allocator.rs:325-333 | a hit in the word of `min_index` is the least member at or after it |
| BitMasks.BitMask.FoundInLaterWord | src/allocator.rs:335-341 | the first bit of the first later non-zero word is the least member at or after `min_index` |
| BitMasks.BitMask.NothingFound | src/allocator.rs:335-338 | when no later word is non-zero every member is below `min_index` |
| BitMasks.BitMask.FindFirst | src/allocator.rs:325-348 | exactly the least member at or after `min_index`, or `None` iff there is none |
| FreeLists.InsertLinks | src/allocator.rs:710-737 | linking a chunk in front of its list keeps all lists acyclic with inverse links, heads and mask bits in agreement |
| FreeLists.RemoveLinks | src/allocator.rs:666-707 | unlinking a chunk, in front or in the middle, keeps them too; the mask bit goes only with the last node |
| FreeLists.SameLinks | src/allocator.rs:740-752 | stores that leave the link words alone keep the lists |
| FreeLists.NodeHasHead | src/allocator.rs:710-737 | a bin with a node has a head and a mask bit |
| FreeLists.WalkComplete | src/allocator.rs:666-737 | every node is reached from the head of its bin |
| FreeLists.FreeListExact | src/allocator.rs:666-737 | following `next_in_list` from a head meets exactly the nodes of that bin, each once; the mask bit is set iff there are any |
| Partition.SplitChunk | src/allocator.rs:902-946 | splitting a chunk keeps the exact tiling and every boundary tag |
| Partition.MergeChunks | src/allocator.rs:902-946 | merging neighbours keeps the exact tiling and every boundary tag |
| Partition.TagAfter | src/allocator.rs:925-943 | a chunk ends at the next chunk, whose tag is its size, or at the end of the space |
| Partition.TagBefore | src/allocator.rs:925-935 | the tag of a chunk leads to its left neighbour |
| Partition.Disjoint | src/allocator.rs:902-946 | different chunks do not overlap |
| Layouts.Place | src/allocator.rs:836-864 | placing a block in a free chunk keeps tiling, tags and coalescing, and adds exactly that block to the live ones |
| Layouts.Release | src/allocator.rs:1133-1175 | freeing keeps them, merging with both free neighbours, and removes exactly that block |
| Layouts.Trim | src/allocator.rs:976-1000 | cutting a block keeps them and changes the size of exactly that block |
| Layouts.Extend | src/allocator.rs:1061-1072 | extending a block keeps them and changes the size of exactly that block |
| Heaps.Unlink | src/allocator.rs:686-707 | unregistering keeps the lists, removes exactly that node and stores to free headers only |
| Heaps.Register | src/allocator.rs:710-737 | registering keeps the lists, writes the tags and files the chunk under its rounded-down bin |
| Heaps.Tag | src/allocator.rs:740-752 | a store to the tags of one header keeps the lists and changes no other cell |
| Heaps.FinishHeap | src/allocator.rs:902-946 | a change that is right at the rewritten headers and frames everything else keeps the whole invariant |
| Operations.HeaderFacts | src/allocator.rs:902-946 | what `paranoid_check_chunk` asserts of a chunk holds of every chunk of a heap in order |
| Operations.ReleaseShape | src/allocator.rs:1133-1164 | the neighbours that `free` looks at are chunks or the ends of the space, and lie below the high-water mark |
| Operations.PlaceFinish | src/allocator.rs:836-864 | the stores of `alloc` keep the whole invariant and every payload |
| Operations.ReleaseFinish | src/allocator.rs:1133-1175 | the stores of `free` keep the whole invariant and every payload |
| Operations.TrimFinish | src/allocator.rs:976-1000 | the stores of `shrink_inplace` keep the whole invariant and every payload |
| Operations.ExtendFinish | src/allocator.rs:1061-1072 | the stores of `grow_inplace` keep the whole invariant and every payload |
| Effects.PayloadsDisjoint | src/allocator.rs:766-879 | payloads of different live blocks do not overlap and hold no header |
| Effects.HeaderClear | src/allocator.rs:502-511 | a header, old or new, lies in no payload of a block that the call is not about |
| Effects.ChunkClear | src/allocator.rs:1108-1108 | nor does what lies inside a free chunk, or inside the block that the call is about |
| Effects.FreeFinal | src/allocator.rs:1119-1178 | `free` removes one block; no store of it touches the payload or size word of another |
| Effects.ShrinkFinal | src/allocator.rs:956-1005 | `shrink_inplace` keeps the front of one payload; no store of it touches the payload or size word of another block |
| Effects.GrowFinal | src/allocator.rs:1061-1077 | `grow_inplace` keeps the whole old payload; no store of it touches the payload or size word of another block |
| Effects.PlaceFinal | src/allocator.rs:836-864 | `alloc` adds one block; no store of it touches the payload or size word of another |
| Payloads.PayloadStoreOk | src/allocator.rs:872-876 | a store into a live payload keeps the whole invariant |
| Payloads.WrittenBy | fuzz/fuzz_targets/allocator_buffer.rs:95-101 | a user's store changes one cell of one block's contents and nothing else |
| Payloads.MovedBy | src/allocator.rs:1107-1111 | allocating, copying and freeing the source moves a block with its contents and keeps all others |
| Transitions.FreeRanFreed | src/allocator.rs:1119-1178 | from the stores of `free` and the merged tiling alone: the heap stays in order and exactly one block goes |
| Transitions.TrimRanShrunk | src/allocator.rs:976-1005 | from the stores of `shrink_inplace` and the cut tiling alone: the heap stays in order and the front of the payload stays |
| Transitions.ExtendRanGrown | src/allocator.rs:1061-1077 | from the stores of `grow_inplace` and the extended tiling alone: the heap stays in order and the whole payload stays |
| Transitions.PlaceRanPlaced | src/allocator.rs:836-864 | from the stores of `alloc` and the split tiling alone: the heap stays in order, one block is added and no payload changes |
| Search.TriedUnique | src/allocator.rs:784-797 | the search tries one chunk at most |
| Search.TriedExists | src/allocator.rs:784-792 | it tries a chunk iff some free chunk is in the rounded-down bin of the request or above |
| Search.UpperBinFits | src/allocator.rs:784-805 | a chunk found by the rounded-up search always fits |
| Search.FragmentationBound | src/allocator.rs:784-805 | when the search misses, every free chunk `t` satisfies `t * 2^m < min_size * (2^m + 1)` |
| Search.NearBestFit | src/allocator.rs:784-805 | the tried chunk `c` satisfies `c * 2^m < t * (2^m + 1)` for every `t` at or above the rounded-up bin, and for every fitting `t` when the fallback bin is used |
| Search.PassedOverBin | src/allocator.rs:788-792 | a fitting chunk that the rounded-up search passes over is in the rounded-down bin |
| Search.MissedExactly | src/allocator.rs:784-805 | with a fitting free chunk present, the request is missed iff no chunk is filed at the rounded-up bin or above and the head of the fallback bin is too small |
| MissedFit.FallbackMisses | src/allocator.rs:788-805 | in every run of seven given calls on a new allocator of the shipped configuration, with nothing refused, the last `alloc` returns `None` although a free chunk has exactly the units it needs |
| MissedFit.Demonstrate | src/allocator.rs:788-805 | the seven calls on the object: they are legal, they make such a run, and the last one returns `None` |
| Allocation.OpenedOk | src/allocator.rs:625-646 | initialisation sets up a heap in order with one free chunk over the whole space |
| Allocation.HeaderForLeast | src/allocator.rs:807-812 | the payload starts at the least aligned address behind the header of the chunk |
| Allocation.PaddingFits | src/allocator.rs:775-823 | the request with its alignment slack fits the chosen chunk, so `free_space_rhs` is not negative |
| Allocation.AllocNumbers | src/allocator.rs:807-825 | every unchecked sum and difference of `alloc_impl` stays in range |
| Allocation.AllocServes | src/allocator.rs:766-879 | `alloc` succeeds iff the request is well-formed (`Promises.SoundRequest` says when), the tried chunk fits and the environment grants its extent |
| Allocation.AllocFailsOnlyWhenFull | src/allocator.rs:775-805 | when the environment refuses nothing, `alloc` fails a well-formed request only if every free chunk `t` satisfies `t * 2^m < min_size * (2^m + 1)` |
| Allocation.AllocGave | src/allocator.rs:866-878 | a successful `alloc` made one new aligned block of the requested size, all zero if asked |
| Allocation.AllocMark | src/allocator.rs:828-834 | the high-water mark moves only to an extent that was granted |
| Allocation.FreshIsZero | src/allocator.rs:827-834 | a payload above the high-water mark is zero without zeroing |
| Allocation.ReallocKeepsContents | src/allocator.rs:1085-1112 | a returned block has exactly the new size and the old contents up to the smaller size; a non-empty `realloc` that returns `None` changed nothing |
| Executions.ZeroedOk | src/allocator.rs:872-876 | zeroing cell by cell keeps the heap in order and makes exactly the first cells of one payload zero |
| Executions.CopiedOk | src/allocator.rs:1108-1108 | copying cell by cell keeps the heap in order and makes the front of the new payload equal to the old one |
| Executions.CarveServed | src/allocator.rs:807-878 | carving at the aligned offset, with zeroing only below the high-water mark, serves the request: aligned, in place, all zero if asked |
| Executions.AllocRanOutcome | src/allocator.rs:766-879 | every execution of `alloc` on an initialised heap has its outcome |
| Executions.AllocCallStep | src/allocator.rs:766-879 | so has every execution that starts before initialisation |
| Executions.FreedIsFirst | src/allocator.rs:1166-1175 | the chunk that `free` leaves, merged or not, is the head of its list: lists are last in, first out |
| Executions.ShrinkRanOutcome | src/allocator.rs:956-1005 | every execution of `shrink_inplace` has its outcome |
| Executions.GrowRanOutcome | src/allocator.rs:1012-1078 | every execution of `grow_inplace` has its outcome |
| Executions.MoveRanOutcome | src/allocator.rs:1107-1111 | allocating, copying and freeing in turn moves the block with its contents, or changes nothing |
| Executions.ReallocRanOutcome | src/allocator.rs:1085-1112 | every execution of `realloc` has its outcome, on each of its paths |
| Reads.ReadsAfterStore | src/allocator.rs:508-511 | a later store does not change what earlier reads saw |
| Reads.PlacedSpares | src/allocator.rs:1107-1111 | the block that `realloc` allocates leaves all blocks of the start of the call where they were |
| Allocators.Allocator.constructor | src/allocator.rs:584-592 | a new allocator is uninitialised, with empty mask and lists |
| Allocators.Allocator.Load | src/allocator.rs:502-505 | a read is made below the high-water mark and outside the payloads of all live blocks but the one that the call is about; it is logged with what it saw and when |
| Allocators.Allocator.Write | src/allocator.rs:508-511 | a store is made below the high-water mark only, and changes one cell |
| Allocators.Allocator.UnregisterFreeSpaceFirstChunk | src/allocator.rs:666-683 | the stores unlink the head of a list, and clear its mask bit when it was the last |
| Allocators.Allocator.UnregisterFreeSpace | src/allocator.rs:686-707 | the stores unlink a node anywhere in a list |
| Allocators.Allocator.RegisterFreeSpace | src/allocator.rs:710-737 | the stores put a chunk in front of the list of its rounded-down bin; an empty chunk changes nothing |
| Allocators.Allocator.RegisterAllocation | src/allocator.rs:740-752 | one store writes the tags of an allocated header |
| Allocators.Allocator.BinsIndexed | src/allocator.rs:650-663 | the bins of a size are valid indices of mask and lists |
| Allocators.Allocator.Expand | src/allocator.rs:828-834 | the high-water mark rises to the wanted extent iff that was granted |
| Allocators.Allocator.InitializeImpl | src/allocator.rs:605-647 | succeeds iff the base is not null and the first unit is granted, and then sets up the one-chunk heap; otherwise nothing changes |
| Allocators.Allocator.FindChunk | src/allocator.rs:784-792 | finds the searched bin, or none iff every set bit is below the rounded-down bin |
| Allocators.Allocator.Alloc | src/allocator.rs:754-764 | the whole outcome of `alloc` and `alloc_zeroed`, before and after initialisation: when it succeeds, where, and what it leaves alone; when it fails nothing changed but the initialisation; when it succeeds is said in terms of sizes and grants alone by `Promises.AllocKept` and `Promises.FirstAllocKept` |
| Allocators.Allocator.AllocImpl | src/allocator.rs:766-879 | the execution behind it: the stores of the heap and the choices of chunk, padding, extent and zeroing are those of `Executions.AllocCall` |
| Allocators.Allocator.AllocAt | src/allocator.rs:807-878 | serving a request from the chosen chunk succeeds iff its extent is granted; otherwise nothing changes |
| Allocators.Allocator.CarveAndZero | src/allocator.rs:836-876 | the new block is all zero if asked, whether or not it is zeroed |
| Allocators.Allocator.TakeFirst | src/allocator.rs:836-838 | takes the chosen chunk, the head of its list, off that list |
| Allocators.Allocator.TakeFree | src/allocator.rs:1061-1063 | takes a free chunk off its list, wherever it is in it |
| Allocators.Allocator.CarveBlock | src/allocator.rs:836-864 | the stores place the block, with free chunks before and behind it |
| Allocators.Allocator.ZeroFill | src/allocator.rs:872-876 | zeroes exactly one payload |
| Allocators.Allocator.ShrinkInplace | src/allocator.rs:956-1005 | frees at size zero, cuts the block to a smaller size, or changes nothing |
| Allocators.Allocator.CutBlock | src/allocator.rs:976-1000 | the stores cut the block and merge the rest with a free right neighbour |
| Allocators.Allocator.GrowInplace | src/allocator.rs:1012-1078 | succeeds iff the size is already there or the right neighbour is free, large enough and granted (`Promises.GrowKept`); otherwise nothing changes |
| Allocators.Allocator.ExtendBlock | src/allocator.rs:1061-1072 | the stores extend the block into its right neighbour |
| Allocators.Allocator.Realloc | src/allocator.rs:1085-1112 | the whole outcome of `realloc` on each of its paths; which path it takes is said by `Promises.ReallocKept` |
| Allocators.Allocator.MoveBlock | src/allocator.rs:1107-1111 | moves the block iff a new one can be served; otherwise nothing changes |
| Allocators.Allocator.CopyPayload | src/allocator.rs:1108-1108 | copies the old payload to the front of the new one and changes no other cell |
| Allocators.Allocator.Free | src/allocator.rs:1119-1178 | removes exactly that block from the live ones, and keeps the invariant and all other contents |
| Allocators.Allocator.AbsorbIfFree | src/allocator.rs:1150-1164 | unregisters a neighbour iff it is free, and gives its size or zero |
| Allocators.Allocator.AbsorbPrev | src/allocator.rs:1133-1148 | merges with the previous chunk iff it is free |
| Allocators.Allocator.AbsorbNext | src/allocator.rs:1150-1164 | merges with the next chunk iff it is free |
| Allocators.Allocator.RegisterAndTag | src/allocator.rs:1166-1175 | registers a chunk and tags the chunk behind it |
| Allocators.Allocator.UsableSize | src/allocator.rs:1191-1193 | the usable size, read from the header, is the length of the contents |
| Allocators.Allocator.Slice | fuzz/fuzz_targets/allocator_buffer.rs:108-110 | the owner reads exactly the contents of its block |
| Allocators.Allocator.WriteCell | fuzz/fuzz_targets/allocator_buffer.rs:95-101 | a user's store to a live block |
| Canonical.FreeChunksAreGaps | src/allocator.rs:1133-1175 | the free chunks are exactly the maximal gaps between live blocks |
| Canonical.CanonicalLayout | src/allocator.rs:1133-1175 | two layouts with the same live blocks are equal, tags included |
| Canonical.CanonicalHeap | src/allocator.rs:666-737 | two heaps with the same live blocks have the same layout and the same mask |
| Canonical.ChunksExact | src/allocator.rs:902-946 | walking the chunks from the base meets each exactly once, in order |
| Canonical.SizesSumUp | src/allocator.rs:902-946 | the sizes of the chunks add up to the whole space |
| Canonical.ChunkCovers | src/allocator.rs:902-946 | every unit of the space lies in exactly one chunk |
| Canonical.FreeListOfBin | src/allocator.rs:666-737 | the list of a bin holds exactly the free chunks of that bin, each once; its mask bit is set iff there are any |
| Canonical.MaskIsBins | src/allocator.rs:666-737 | the mask is exactly the set of bins of the free chunks |
| Canonical.AllocFreeRestores | src/allocator.rs:1119-1178 | allocating and freeing restores layout, mask and contents |
| Canonical.RoomAfterShrink | src/allocator.rs:1045-1059 | after a shrink the block can grow back, within the extent already in use |
| Canonical.ShrinkGrowRestores | src/allocator.rs:956-1078 | growing back after a shrink always succeeds, asks the environment for nothing, and restores layout, mask and high-water mark |
| Runs.StepOutcome | src/allocator.rs:583-1199 | every execution of every operation, given by its stores and choices, has the effect that its caller relies on |
| Runs.StepOnward | src/allocator.rs:583-1199 | every operation keeps the invariant and the space, and never lowers the high-water mark |
| Runs.RunOnward | src/allocator.rs:583-1199 | so does every run, under any answers of the environment and any user stores |
| Runs.StepGranted | src/allocator.rs:822-834 | an operation leaves the high-water mark where it was or at an extent it was granted |
| Runs.RunGranted | src/allocator.rs:822-834 | in every reachable state the high-water mark is an extent that was granted during the run |
| Runs.AllocRefines | src/allocator.rs:766-879 | `alloc` refines adding one aligned block to a map from blocks to contents |
| Runs.ReallocRefines | src/allocator.rs:1085-1112 | `realloc` refines resizing, relocating or removing one entry, with a common prefix of contents |
| Runs.StepRefines | src/allocator.rs:583-1199 | every operation refines its meaning on the map |
| Runs.RunRefines | src/allocator.rs:583-1199 | every run refines a run on the map |
| Runs.UntargetedBlockKept | fuzz/fuzz_targets/allocator_buffer.rs:104-164 | over a whole run, a block that nobody calls on or stores to stays live with its contents |
| Runs.RunsAreCanonical | src/allocator.rs:1133-1175 | two runs that end with the same live blocks end with the same layout and mask |
| Runs.EverythingFreed | src/allocator.rs:1133-1175 | after any run that ends with nothing live there is one free chunk over the whole space |
| Promises.SoundRequest | src/allocator.rs:766-782 | a request is well-formed iff its alignment is a power of two and it has at most 1 GiB with its alignment |
| Promises.AllocKept | src/allocator.rs:766-879 | on an initialised heap: beyond 1 GiB or for other alignments `None`; a request that some free chunk exceeds by one part in `2^m` succeeds unless memory that a fitting chunk needs was refused; the block is at the least aligned address of a near-best free chunk, zero if asked, and the mark rises to its end alone; a failure changes nothing |
| Promises.AllocSucceeds | src/allocator.rs:775-805 | with a free chunk of that size and nothing refused every power-of-two alignment and every size up to 1 GiB is served |
| Promises.SoleDecides | src/allocator.rs:784-834 | with one free chunk, `alloc` succeeds iff the request is well-formed, fits with its alignment, and the memory for it is there or granted |
| Promises.FirstAllocKept | src/allocator.rs:603-647 | the first `alloc` succeeds iff the base is not null, its first unit is granted, the request fits the space and the memory for it is granted; otherwise there are no blocks |
| Promises.GrowKept | src/allocator.rs:1012-1078 | `grow_inplace` returns the current size if that suffices; else it succeeds iff a free chunk behind makes room and memory to the end of the block, with a header if the chunk is not used up, is there or granted |
| Promises.NothingAsked | src/allocator.rs:956-1005 | `free` and `shrink_inplace` leave the high-water mark |
| Promises.ReallocKept | src/allocator.rs:1085-1112 | `realloc` returns the same pointer whenever the block can stay (smaller, equal, or growable), never otherwise, and when it has to move it fails only as `alloc` does |
| Calls.NewAllocator | src/allocator.rs:204-221 | the shipped configurations give a valid new allocator |
| Calls.Perform | src/allocator.rs:583-1199 | every call on the allocator object, and every user store, is one step of a run, with the reads that the object logged |
| Calls.Call | src/allocator.rs:583-1199 | any legal call extends the run so far, and refines its meaning on the map of blocks |
| FuzzTarget.TracksRemoved | fuzz/fuzz_targets/allocator_buffer.rs:104-116 | freeing one entry leaves the others with their expected data |
| FuzzTarget.AliveRemoved | fuzz/fuzz_targets/allocator_buffer.rs:104-111 | the pointer that is freed is among the live addresses, once |
| FuzzTarget.NextPowerOfTwo | fuzz/fuzz_targets/allocator_buffer.rs:81-81 | the least power of two at or above the value |
| FuzzTarget.ZeroedBlock | fuzz/fuzz_targets/allocator_buffer.rs:80-97 | the call is `alloc_zeroed` with the rounded alignment and size; a new block is aligned, large enough and all zero |
| FuzzTarget.FuzzAllocOp | fuzz/fuzz_targets/allocator_buffer.rs:80-103 | the checks on an allocation pass; the returned pointer is appended with exactly its filling |
| FuzzTarget.FuzzFreeOp | fuzz/fuzz_targets/allocator_buffer.rs:104-116 | the checks pass; the block freed is the entry at `index` modulo the number of entries, which the last one replaces |
| FuzzTarget.FuzzShrinkOp | fuzz/fuzz_targets/allocator_buffer.rs:117-137 | the checks pass; the block shrunk is that entry, and its data is truncated |
| FuzzTarget.FuzzGrowOp | fuzz/fuzz_targets/allocator_buffer.rs:138-165 | the checks pass; the block grown is that entry, and its data is extended to the returned size and refilled from there |
| FuzzTarget.ExpectedMore | fuzz/fuzz_targets/allocator_buffer.rs:77-166 | what is held and called after one more operation follows from what was held before |
| FuzzTarget.Fuzz | fuzz/fuzz_targets/allocator_buffer.rs:72-169 | every check of the fuzzing harness passes, for every sequence of operations, filling and environment; what it performs is a run whose calls, with their pointers, are determined by the operations and the results of the calls before; in the end each held block has exactly the data it should |
| GlobalAlloc.Alloc | src/allocator.rs:1203-1233 | byte-level `alloc` and `alloc_zeroed`: null without touching the heap when a size does not fit units, else the outcome in units |
| GlobalAlloc.Realloc | src/allocator.rs:1235-1253 | byte-level `realloc`: null in, null out; otherwise the outcome in units |
| GlobalAlloc.Dealloc | src/allocator.rs:1255-1259 | byte-level `dealloc`: frees the block, ignores null |
| GlobalAlloc.UsableSize | src/global_allocator_libc.rs:156-161 | 32 times the units of the payload, zero for null |
| GlobalAlloc.AllocBytesGood | src/allocator.rs:1203-1233 | for every byte size and every power-of-two byte alignment a non-null result is a new block at a divisible address with at least the requested bytes |
| GlobalAlloc.ReallocBytesGood | src/allocator.rs:1235-1253 | a non-null result has at least the new bytes, the alignment and the old contents up to the smaller size; after null nothing changed |
| GlobalAlloc.AllocBytesKept | src/allocator.rs:1203-1233 | null, and nothing changed, when size and alignment in units exceed 1 GiB together; else exactly what `alloc` promises |
| GlobalAlloc.FirstAllocBytesKept | src/allocator.rs:1203-1233 | the first byte-level `alloc` is non-null iff the request is within 1 GiB and the space is there, large enough and granted |
| GlobalAlloc.ReallocBytesKept | src/allocator.rs:1235-1253 | null for null and for sizes that do not fit; else exactly what `realloc` promises |
| GlobalAlloc.ReallocBytesSucceeds | src/allocator.rs:1235-1253 | a non-empty `realloc` returns the same pointer if the units suffice or the block can grow, and a non-null one if there is room to spare and nothing is refused |
| Stores.StepStores | src/allocator.rs:583-1199 | every operation is a sequence of single-cell stores, none of which touches the payload or the size word of a block that the call is not about |
| Stores.SnapshotSpares | src/allocator.rs:1191-1198 | after any number of those stores every other block has its size word and contents |
| Stores.StepAccesses | src/allocator.rs:502-511 | no operation stores to or reads a cell at or above the high-water mark that it leaves, and those cells are zero |
| Stores.RunAccesses | src/allocator.rs:502-511 | nor does any operation or user store of any run: the log of all stores ever made only grows, and stays below a mark that never falls |
| Progress.StepExists | src/allocator.rs:583-1199 | every legal call, and every legal user store, has an execution, whatever the environment answers |
| Progress.StepUnique | src/allocator.rs:583-1199 | and only one: the heap it finds and the answers of the environment determine its result, its stores and the heap it leaves |
| Mutexes.AcquireInv | src/mutex.rs:27-36 | a successful compare-exchange keeps the invariant of the machine |
| Mutexes.LookSees | src/mutex.rs:27-43 | each read of a critical section meets in the shared memory the cell that the sequential execution reads |
| Mutexes.LookInv | src/mutex.rs:27-43 | a read of the critical section keeps the invariant of the machine |
| Mutexes.NeverStuck | src/mutex.rs:27-43 | the thread that holds the guard has read what it should have and can make its next read, its next store, or release |
| Mutexes.CanAcquire | src/mutex.rs:27-36 | a waiting thread can take a clear lock, for every call and every answer of the environment |
| Mutexes.NoDeadlock | src/mutex.rs:27-44 | whenever a thread waits, it or the holder of the guard can go on |
| Mutexes.PutInv | src/mutex.rs:27-43 | so does each store of a critical section |
| Mutexes.ReleaseInv | src/mutex.rs:39-44 | so does dropping the guard |
| Mutexes.WriteInv | src/mutex.rs:27-43 | so does an owner's store without the lock, in the middle of any call |
| Mutexes.Reachable | src/mutex.rs:27-43 | the invariant holds in every state of every interleaving of any number of threads |
| Mutexes.LockProtects | src/mutex.rs:27-43 | one thread works at a time; whenever the flag is clear the memory is that of the sequential run in lock order, and threads own exactly its live blocks; the calls that returned read, access by access, what that run reads, and have its results |
| Mutexes.CallerOwns | src/mutex.rs:27-44 | the thread whose `alloc` or `realloc` returns a block owns it |
| Mutexes.OwnedByLastGiven | src/mutex.rs:27-44 | in every interleaving each block belongs to the thread whose call returned it or to the last one it was handed to |
| Mutexes.CanCall | src/mutex.rs:27-36 | an idle thread may call `alloc` with any arguments and every operation on its own blocks |
| Mutexes.CanWrite | src/mutex.rs:27-43 | an idle owner may store to every cell of its block at any moment, in the middle of any call |
| Mutexes.UnlockedReads | src/global_allocator_libc.rs:156-161 | between any two stores of another thread an owner reads its usable size and contents as the sequential run has them |
| Mutexes.OthersCannotDisturb | src/global_allocator_libc.rs:156-161 | no move of another thread changes what an owner sees or owns |
| Mutexes.WorkerUndisturbed | src/mutex.rs:27-43 | no move of another thread changes a cell that the working thread relies on |

## Left out

- The backends of `Env` (`src/env/linux.rs`, `src/env/polkavm.rs`, `src/env/corevm.rs`, `src/env/wasm.rs`): system calls and host imports; the model takes any answers from the environment.
- Zeroed memory is assumed of the environment: `ArrayPointer` (`src/env.rs:43-57`) does not zero its array, and `alloc_zeroed` is right on it only if the array starts as zero.
- `Drop for Allocator`, `abort`, releasing the address space when initialisation fails, pointer provenance, Send and Sync, formatting and hashing.
- Addresses that are not multiples of 32 bytes.
- Allocators.Allocator.constructor: spaces of `2^27` units or more are excluded, because there `Size::bytes` would lose bits.
- Calls.NewAllocator: the same limit on the space.
- 32-bit addresses: pointers are modelled with 64-bit byte addresses; masks are modelled for every word width.
- Allocators.Allocator.ShrinkInplace: requires `newSize + 1` to fit a `u32`, because the source adds the header without a check (src/allocator.rs:963).
- Allocators.Allocator.Realloc: models the default feature `realloc_inplace`; without it the copy at src/allocator.rs:1108 is not bounded by the new size.
- Misuse outside the safety contracts (freeing twice, foreign pointers): live pointers are a precondition, and in the thread model a thread calls on blocks it owns.
- `src/global_allocator_libc.rs` except `malloc_usable_size`: errno and thin wrappers.
- Weak memory: the steps of the lock machine are sequentially consistent, where the source uses Acquire and Release.
- Fairness and termination of the spin loop: the source promises neither.
- Mutexes.LockProtects: what a call does next is a function of its arguments, the environment, the cells it read and the fields of the allocator that are not in the shared cells (mask, list heads, mark), as `Progress.StepUnique` says of the whole heap; that the thread follows the sequential execution as long as its reads agree with it is the model of that. Reads and stores have the granularity of one 32-byte cell: a store to some words of a cell stores the others as the call knows them.
- Constant running time: the operations have no loops besides zeroing and copying, so there is nothing to prove by induction.
- The second fuzz target (`fuzz/fuzz_targets/allocator_system.rs`): it exercises the same operations through the system backend.
- FuzzTarget.Fuzz: data is compared in whole cells of 32 bytes, and the filling is any function instead of a seeded generator.
