# RT-Thread kernel core: a verified model

This project models the single-core core of the RT-Thread 4.1.1 kernel and two of its build tools in Dafny, and proves
what their data structures and protocols keep over every run. `dafny verify dfyconfig.toml` checks all of it.

## How it is built

Where the C code updates structures in place, so does the model: a class holds the same fields, its methods make the same
stores in the same order, and loops are loops. Beside the fields a ghost value says what the structure means (a tiling of
the heap by blocks, a list of runs, a queue of messages); `Valid()` ties the two together, and each method states the new
ghost value as a function of the old one. The main properties are lemmas about those functions. Blocking calls become
transition systems with one step for each stretch of code that runs with interrupts disabled, so a run of steps is any
interleaving of any number of threads; a method for each stretch carries out the step on the real fields.

| module | models | main results |
|---|---|---|
| `Tiling` | what the two boundary-tag heaps share | cutting and merging keep a gapless cover of the heap; header stores and copies reach no foreign payload |
| `SmallMem` | `src/mem.c` | invariant, exact null condition and lowest fit, byte-exact realloc, round trip |
| `MemHeap` | `src/memheap.c` | invariant with circular block and free lists, exact accounting, byte-exact realloc, exact conditions for the strict guard and for alignment |
| `Stores`, `SlabPages`, `SlabZones` | `src/slab.c` | canonical page list, zones and class lists, no address handed out twice, exact null condition, the page table finds every live pointer, realloc; headers, links and the page table reach no live pointer's bytes; `used` is exact |
| `RtList` | `include/rtservice.h` | the circular lists under everything else |
| `Bits`, `Scheduler` | `__rt_ffs` in `src/kservice.c`, `src/scheduler.c`, `src/thread.c` | both versions of `__rt_ffs`, both bitmap widths, dispatch of the most urgent thread, first ready first run, fair yields |
| `Timer` | `src/timer.c` | the skip list refines a list sorted by true deadlines, for any number of levels and wraps; when a check ends and what it does |
| `Waiting` | the wait lists in `src/ipc.c` | order of waiters; the accounting behind "no lost wakeups" |
| `MessageQueue`, `Links` | message queues in `src/ipc.c` | every block in exactly one place under any interleaving, every receiver gets the buffer that was sent, no overflow, no lost wakeups |
| `Mailbox`, `MemPool` | mailboxes in `src/ipc.c`, `src/mempool.c` | ring buffer, first sent first received, conservation, no lost wakeups with barging |
| `Mutex` | mutexes in `src/ipc.c` | ownership and inheritance; over every run with any nesting, which release hands on and exactly when a priority is restored |
| `Event` | events in `src/ipc.c` | one send as a left-to-right delivery, bit by bit; no satisfied waiter sleeps |
| `Wcs` | `tools/WCS.py` | memoised worst-case stack equals the maximum over all call chains |
| `Romfs` | `tools/mkromfs.py` | the image reads back as the tree; exactly when it is aligned |
| `Align`, `Lists`, `Basics` | `RT_ALIGN`, and what several modules need | |

## What turned out otherwise

The model follows the code in each of these places, and the member named proves what happens instead.

- The slab promises that power-of-two sizes are aligned to themselves (the comments at `src/slab.c:107-108` and `src/slab.c:624-627`). A live chunk is if and only if its zone is, and zones are only page aligned: `SlabZones.AlignedIff`, and `SlabZones.Slab.Alloc` for every request, pages included. It holds for a chunk size in all states exactly if that divides the page size and the address of the heap, on every heap with room for a zone and a few pages: `SlabZones.AlignedEverywhere` and `SlabZones.LosesAlignment`. It fails for two pages of 4096: `SlabZones.TwoPages`.
- `rt_memheap_alloc` refuses an exact fit of the last free bytes, because its guard is strict. `MemHeap.RefusedAlthoughItFits` gives the one case in which that matters, `MemHeap.WholeHeapRefused` an instance.
- `RT_MEMHEAP_MINIALLOC` is 12, and is not rounded to `RT_ALIGN_SIZE`. A cut for a request keeps the blocks aligned if and only if 12 is a multiple of the alignment or the aligned request is at least 12: `MemHeap.AlignedKept`, and `MemHeap.FirstCutAligned` on a fresh heap. With an alignment of 8 one byte is enough to lose it: `MemHeap.AlignmentLost`.
- On a heap smaller than the minimum block, `rt_smem_alloc` does not return: `SmallMem.ScanNeverEnds`. On every other heap, and for every size it refuses before the scan, it does: `SmallMem.SmallHeap.Alloc`.
- `rt_smem_realloc` does not raise a size to the minimum block before it cuts the tail off: `SmallMem.BelowMinimumIff` says exactly when a block ends up below it, `SmallMem.BelowMinimumExample` is one that does.
- A yield is remembered if and only if no other thread is ready at all, of whatever priority, or the scheduler is locked: `Scheduler.YieldRemembered`. It is then acted on when an equal becomes ready later: `Scheduler.YieldKept`.
- Threads waiting for a memory pool are served last come, first served: `MemPool.LastComeFirstWoken`.
- A priority inherited through a mutex is restored to what it was when the thread became the owner of that mutex, whatever happens in between: `Mutex.RestoredOverRuns`. With two mutexes held at once that need not be the thread's own priority: `Mutex.NestedNotRestored`. It is, exactly if no waiter on another mutex had raised the thread by then: `Mutex.RestoredUnlessRaised`. It also stays when the waiter it came from times out: `Mutex.Kernel.TimeOutThread`.
- A periodic timer with a period of zero keeps `rt_timer_check` going for ever once it has expired: `Timer.CheckEnds`.
- `mkromfs.py` says that it pads names to a 4-byte boundary, but counts characters where it should count bytes. The addresses stored in an image are multiples of four if and only if the base is and every name's encoding exceeds its character count by a multiple of four: `Romfs.AlignedIff`; one accented letter breaks it: `Romfs.NotAlignedExample`. The image can be read back all the same: `Romfs.ImageRoundTrip`.

## Conventions

- Addresses in a heap are offsets from its start (for the slab, `start` is the address of the heap itself, of which the code asks only that it is a multiple of the page size); the null pointer is a negative number there, and 0 where blocks are numbered. Sizes and addresses are in range of the machine word, so only ticks wrap.
- A header store changes the header's record and, in the byte array, the bytes the header occupies in some unknown way. Claims about payload bytes are therefore claims about where header stores may and may not go.
- Calls and asserts on the object registry, hooks, debug output and interrupt enabling leave no trace in the model. `rt_tick_get`, priorities and the callers' threads are parameters or fields.

## Model

| member | source | states |
|---|---|---|
| RtList.Memory.Init | include/rtservice.h:47-50 | a node on its own is a ring of one, and every ring without it is still a ring |
| RtList.InsertRing | include/rtservice.h:58-65 | the four stores of an insertion turn the circle of `next` and `prev` links into the circle with the new node just behind the chosen one, and nothing else |
| RtList.RemoveRing | include/rtservice.h:86-92 | taking a node out closes the circle round it, in both directions |
| RtList.RingFrame | include/rtservice.h:47-119 | stores to nodes outside a circle leave the circle as it is |
| RtList.Memory.InsertAfter | include/rtservice.h:58-65 | after the stores the new circle holds the same nodes in the same order with n behind l, and every circle disjoint from it is unchanged |
| RtList.Memory.InsertBefore | include/rtservice.h:73-80 | inserting before the head puts the node at the end of the list, which is how a queue grows; elsewhere it goes in front of l |
| RtList.Memory.Remove | include/rtservice.h:86-92 | the node becomes a circle by itself and the others close up; on a node that is already alone nothing changes |
| RtList.Memory.IsEmpty | include/rtservice.h:98-101 | true exactly for a head without nodes |
| RtList.Memory.Len | include/rtservice.h:107-119 | the number of nodes in the circle, the head not counted |
| Align.AlignUp | include/rtdef.h:345 | a multiple of the alignment, not below the size and less than one alignment above it |
| Align.AlignUpLeast | include/rtdef.h:345 | no multiple of the alignment at or above the size is skipped |
| Align.AlignDown | include/rtdef.h:354 | a multiple of the alignment, not above the size and less than one alignment below it |
| Align.AlignDownMost | include/rtdef.h:354 | no multiple of the alignment at or below the size is skipped |
| Tiling.SplitTiles | src/mem.c:337-354 | cutting a block leaves a gapless, non-overlapping cover of the heap in address order |
| Tiling.PlugTiles | src/mem.c:125-163 | merging with either neighbour keeps the cover gapless |
| Tiling.PlugCoalesces | src/mem.c:125-163 | if a freed block is the only place where two free blocks can meet, merging leaves no two free neighbours anywhere |
| Tiling.MergeSplit | src/mem.c:125-163 | merging undoes a cut exactly |
| Tiling.ReleaseLive | src/mem.c:512-556 | every live pointer but the freed one is still live, for the same block |
| Tiling.ShrinkKeepsLive | src/mem.c:464-492 | cutting the tail off a block leaves every other live pointer live, for the same block |
| Tiling.StillBoth | src/mem.c:494-502 | after an allocation and the release of one pointer every other pointer is live, for the same block |
| Tiling.FreeDone | src/mem.c:512-556 | header stores of a free reach no payload byte of a used block |
| Tiling.ShrinkPayloads | src/mem.c:464-492 | cutting the tail off a block leaves its first n bytes and every other payload alone |
| Tiling.CopyDone | src/mem.c:494-500 | the copy puts the common prefix at the new place and reaches no other used block |
| Tiling.ThenFreeDone | src/mem.c:494-502 | freeing the old block afterwards disturbs neither the copy nor any other payload |
| Tiling.CopyBytes | src/mem.c:498 | the destination gets the source bytes and no byte outside it changes |
| SmallMem.SmallHeap.constructor | src/mem.c:178-243 | a fresh heap is one free block up to the sentinel, and satisfies the invariant |
| SmallMem.InitSize | src/mem.c:184-205 | none exactly when the aligned region behind the object has no room for two headers, although the test compares with the address before it is aligned; otherwise the heap ends at the last aligned address of the region |
| SmallMem.SmallHeap.Alloc | src/mem.c:279-404 | null exactly for size zero or when every free block is too small for every aligned size that holds the request and the minimum; otherwise the lowest-addressed block that is not, although the scan starts at `lfree` and stops at `mem_size_aligned - size`; the invariant (tiling, back links of all but the sentinel, no two free neighbours, `lfree` lowest, `used` exact, `max` not below) holds again, all live pointers stay live and all their bytes are kept; on null nothing changes |
| SmallMem.RoundedLeast | src/mem.c:297-311 | the size looked for is the least multiple of the alignment that holds the request and the minimum block |
| SmallMem.FirstFitMeans | src/mem.c:313-322 | the block found is the lowest free one that is not too small for every such multiple; none is found exactly when all free blocks are |
| SmallMem.CarveMeans | src/mem.c:324-370 | a block is cut behind the size exactly when that leaves a free block with the minimum of room, otherwise it is handed out whole |
| SmallMem.SmallHeap.Scan | src/mem.c:313-319 | the bounded scan agrees with a first fit over the whole heap |
| SmallMem.SmallHeap.AdvanceLfree | src/mem.c:381-388 | `lfree` ends at the next free block, or at the sentinel |
| SmallMem.SmallHeap.PlugHoles | src/mem.c:125-163 | the free block is merged with its free neighbours; `lfree`, the used bytes and every byte outside headers stay as they are |
| SmallMem.SmallHeap.Free | src/mem.c:512-556 | the block is freed and merged, the invariant holds again, every other live pointer and its bytes are untouched; null is ignored |
| SmallMem.SmallHeap.ShrinkInPlace | src/mem.c:464-492 | the tail becomes a free block and merges with a free block behind it |
| SmallMem.SmallHeap.Move | src/mem.c:494-502 | either nothing fits and nothing changes, or the block is at the first fit with the common prefix of its bytes and its old place is free; every other live pointer stays live for the same block |
| SmallMem.SmallHeap.Realloc | src/mem.c:418-503 | size zero frees, null allocates, an oversized request is refused; otherwise the block stays if its size does not change or the cut leaves more than the header and MIN_SIZE, and has exactly the new size then, or moves to where there is room for it; the first min(old, new) bytes are kept, every other pointer stays live for the same block with its bytes, and a null result leaves the old block live and unchanged |
| SmallMem.ResizedMeans | src/mem.c:456-504 | in addresses, when a block stays, how long it is afterwards, and that null means no free block is large enough |
| SmallMem.BelowMinimumIff | src/mem.c:430-502 | a resized block is left with less than the minimum if and only if the aligned size is below the minimum and the block is cut to it, or had that size already |
| SmallMem.MovedRoom | src/mem.c:494-502 | a block that moves gets room for the rounded size, never less than the minimum |
| SmallMem.BelowMinimumExample | src/mem.c:464-492 | a block of 64 bytes resized to 4 is left with 4, where an allocation would give 12 |
| SmallMem.RoundTrip | src/mem.c:279-404 | freeing a block just handed out restores the tiling exactly, whether it was cut or not; `lfree` and `used` are functions of the tiling |
| SmallMem.Conservation | src/mem.c:355-370 | used and free bytes, headers included, always make up the heap |
| SmallMem.CarveUsed | src/mem.c:355-370 | an allocation adds exactly the extent it takes to `used` |
| SmallMem.ReleaseUsed | src/mem.c:552 | a free takes exactly the extent of the block off `used` |
| SmallMem.LinkedSplit | src/mem.c:337-354 | the header stores of a cut describe the cut tiling, forward and backward |
| SmallMem.LinkedMerge | src/mem.c:125-163 | the header stores of a merge describe the merged tiling |
| SmallMem.NoFitAbove | src/mem.c:313-315 | past the offset at which the scan gives up no block can hold the request |
| SmallMem.ScanNeverEnds | src/mem.c:302-315 | on a heap smaller than the minimum block the unsigned bound of the scan wraps and the scan never leaves the sentinel: after any number of steps it goes on |
| MemHeap.Rounded | src/memheap.c:193-195 | the size looked for is at least the request and the minimum; it is aligned if the minimum is |
| MemHeap.RoundedLeast | src/memheap.c:193-195 | it is no more than any multiple of the alignment that holds the request, or than the minimum; and it is one of the two |
| MemHeap.Heap.constructor | src/memheap.c:74-150 | one free block and a tail over the pool size rounded down, one entry in the free list, `available_size` without the two headers |
| MemHeap.Heap.Search | src/memheap.c:202-231 | the loop stops at the first block of the free list that is large enough, or finds none |
| MemHeap.Heap.TakeBlock | src/memheap.c:235-310 | the block is cut if enough is left over, leaves the free list, the rest comes to its front, and `available_size` and `max_used_size` follow |
| MemHeap.Heap.Alloc | src/memheap.c:183-345 | null exactly when the strict guard fails or no free block is large enough; otherwise the first such block of the free list; the invariant (circular links tile the pool, free list holds each free block once and nothing else, no two free neighbours, exact `available_size`, `max_used_size` not below use) holds again, live pointers stay live and all their bytes are kept; on null nothing changes |
| MemHeap.RefusedIff | src/memheap.c:200-231 | nothing is found exactly when the rounded size is all there is or more, or more than every free block has |
| MemHeap.TakenMeans | src/memheap.c:235-310 | a block is cut exactly when that leaves a free block of 12 bytes or more, which comes first in the free list |
| MemHeap.RestFirst | src/memheap.c:235-287 | the rest of a block that has been cut is the first that the next search looks at |
| MemHeap.Heap.Merge | src/memheap.c:656-688 | two free neighbours become one block, with one header more to give |
| MemHeap.Heap.FreeBlock | src/memheap.c:645-713 | the block is merged with both free neighbours; merged to the left it keeps the left block's place in the free list, otherwise it comes first; the counts stay exact |
| MemHeap.Heap.Free | src/memheap.c:597-724 | the invariant holds again and every other live pointer keeps its block and its bytes; null is ignored |
| MemHeap.FreedFirst | src/memheap.c:690-713 | what has been freed last is found first, by any request that fits into it, unless it joined the block before it |
| MemHeap.Heap.Grow | src/memheap.c:408-485 | the free block behind gives up its front, the rest of it is listed, and the counts stay exact |
| MemHeap.Heap.GrowLive | src/memheap.c:408-485 | growing in place keeps the pointer, all its old bytes and every other payload |
| MemHeap.Heap.Cut | src/memheap.c:505-587 | the tail becomes a free block, or the front of the free block behind, and the counts stay exact |
| MemHeap.Heap.CutLive | src/memheap.c:505-587 | shrinking in place keeps the pointer, the remaining bytes and every other payload |
| MemHeap.Heap.Move | src/memheap.c:494-502 | either nothing turns up and nothing changes, or the block is at its new place with its old bytes and its old place is free; every other live pointer stays live for the same block |
| MemHeap.Heap.Realloc | src/memheap.c:361-588 | size zero frees; null allocates, with the outcome of `rt_memheap_alloc`; a larger size extends the block where it is if and only if the block behind is free and both together exceed the size by more than 12 bytes and the headers, a smaller one keeps it there, cut if that leaves more than 12 bytes; what is cut off comes first in the free list; otherwise the block moves, or null leaves it live and unchanged; the first min(old, new) bytes are kept, and every other pointer stays live for the same block with its bytes |
| MemHeap.ResizedMeans | src/memheap.c:391-588 | in addresses, when a block stays where it is, how long it is then and what is free behind it, and what null means |
| MemHeap.CanGrowIff | src/memheap.c:413-430 | the test of the growth in place, in addresses |
| MemHeap.RefusedAlthoughItFits | src/memheap.c:200 | the strict guard refuses a request that some free block could hold if and only if that block would be filled to the last byte and no other free block has any payload |
| MemHeap.WholeHeapRefused | src/memheap.c:200 | on a fresh heap with 32 bytes to give, a request for 32 is refused |
| MemHeap.AlignedKept | src/memheap.c:193-195 | freeing always keeps all blocks aligned; an operation that cuts a block for a request keeps them aligned if and only if the minimum size is a multiple of the alignment or the aligned request is at least the minimum |
| MemHeap.RoundedAligned | src/memheap.c:193-195 | the size looked for is a multiple of the alignment if and only if the minimum is or the aligned request is at least the minimum |
| MemHeap.CutAligned | src/memheap.c:251-265 | a cut keeps the blocks aligned if and only if the size left in front is |
| MemHeap.FirstCutAligned | src/memheap.c:193-195 | the first request on a fresh heap that leaves room for another block leaves the blocks aligned if and only if its rounded size is, for every alignment and request |
| MemHeap.AlignmentLost | src/memheap.c:193-195 | with an alignment of 8 a request for 1 byte is given 12; with 16 it is given 16, and only a request for 0 is given 12 |
| MemHeap.RoundTrip | src/memheap.c:597-724 | freeing a block just handed out restores the tiling exactly, cut or not |
| MemHeap.CutLinked | src/memheap.c:261-265 | the stores of a cut describe the cut tiling round the whole circle |
| MemHeap.JoinLinked | src/memheap.c:41-49 | the stores that unlink a block from its neighbours describe the merged tiling |
| MemHeap.SplitListed | src/memheap.c:267-277 | after a cut the free list again holds each free block once and nothing else |
| MemHeap.MergeListed | src/memheap.c:670-688 | after a merge to the right the free list without the swallowed block is exact again |
| MemHeap.SplitBytes | src/memheap.c:282-287 | what a cut does to the sum of the free payloads |
| MemHeap.MergeBytes | src/memheap.c:648-673 | merging two free blocks adds one header to the free payloads; merging one into a used block takes its payload off |
| MemHeap.LeftThenRight | src/memheap.c:650-688 | merging first to the left and then to the right gives the same tiling as the other way round |
| MemHeap.BytesKept | src/memheap.c:183-724 | stores into headers of either tiling reach no payload of a block that is in both |
| SlabPages.Pages.Alloc | src/slab.c:211-242 | null exactly for zero pages or when no run is long enough; otherwise the front of the first run in address order that is, and the list stays linked, ordered and merged; it writes only to records of pages that were free |
| SlabPages.Pages.Free | src/slab.c:252-294 | pages that are not free join the run before, the run behind, both or neither, and the list stays linked, ordered and merged; it writes only to records of pages that are free afterwards |
| SlabPages.GivenOrdered | src/slab.c:252-294 | giving pages back keeps the runs in address order with no two adjacent, and adds exactly those pages to the count |
| SlabPages.GivenPages | src/slab.c:252-294 | a page is free afterwards if and only if it was before or has been given back |
| SlabPages.TakenOrdered | src/slab.c:211-242 | taking pages keeps the order and takes exactly that many off the count |
| SlabPages.TakenPages | src/slab.c:211-242 | a page is free afterwards if and only if it was before and has not been taken |
| SlabPages.Canonical | src/slab.c:211-294 | two ordered lists with the same free pages are the same list, so the list does not depend on the order of operations |
| SlabPages.RoundTrip | src/slab.c:211-294 | giving back pages just taken restores the list exactly |
| SlabZones.ZoneIndexRight | src/slab.c:408-460 | for every request below 16 KiB the index is in range, determines the chunk size, and the chunk holds the request wasting less than 8 bytes or an eighth of the request |
| SlabZones.ZoneIndexLeast | src/slab.c:408-460 | no smaller chunk size holds the request |
| SlabZones.ChunkSizesDiffer | src/slab.c:408-460 | larger indices have larger chunks, so no two classes share a chunk size |
| SlabZones.PowerTest | src/slab.c:628 | the bit test holds for the powers of two and for nothing else |
| SlabZones.AlignedIff | src/slab.c:621-631 | wherever the heap starts, a live chunk of power-of-two size is aligned to its size if and only if its zone is |
| SlabZones.AlignedEverywhere | src/slab.c:107-108 | if the size divides the page size and the address of the heap, every live chunk of it is aligned, in every state |
| SlabZones.LosesAlignment | src/slab.c:107-108 | if it does not, and the heap has room for one zone and a few pages more, a run of at most two allocations ends with a live chunk that is not |
| SlabZones.TwoPages | src/slab.c:107-108 | on a small heap at a multiple of 8192 with pages of 4096: a request for 8192 gets page 1, a request for 8191 a chunk of 8192 on page 3, neither aligned to 8192 |
| SlabZones.PowerRequest | src/slab.c:408-460 | a request for a power of two gets a chunk of exactly that size, or of 8 bytes if it is less than 8 |
| SlabZones.InitPages | src/slab.c:327-340 | refuses exactly the regions without room for a page behind the object, both aligned; otherwise all whole pages up to the last page boundary |
| SlabZones.ZoneSizes | src/slab.c:358-365 | the loop picks the zone size from the size of the heap; a request below the limit is at most a quarter of a zone |
| SlabZones.TwoChunksFit | src/slab.c:358-367 | with the limits set at init every new zone has room for two chunks of its class |
| SlabZones.ChunkCount | src/slab.c:541-577 | `z_nfree` is the number of chunks less the number of live ones |
| SlabZones.TakeOk | src/slab.c:541-577 | taking a chunk makes one chunk live that was not, and changes no other; the free chunk the code relies on is there |
| SlabZones.GiveOk | src/slab.c:786-796 | giving a chunk back makes that chunk free and changes no other |
| SlabZones.TakeMeans | src/slab.c:556-570 | chunks are handed out in address order first, and then the one given back last |
| SlabZones.GiveThenTake | src/slab.c:556-570 | in a zone without unused chunks, a chunk given back is the next to be handed out, and leaves no trace |
| SlabZones.NewZoneOk | src/slab.c:618-641 | a new zone is cut into as many chunks as fit, starting where their size asks for; it has one live chunk, the first, and more to give |
| SlabZones.TakeZones | src/slab.c:541-577 | a class list again holds exactly the zones of its class with a chunk to give, at most one of them wholly free |
| SlabZones.NewZones | src/slab.c:587-650 | a zone that comes into use is the one zone of its list |
| SlabZones.GiveZones | src/slab.c:786-823 | the same after a chunk is given back, whether the zone was full, stays in its list or leaves it |
| SlabZones.ClaimOwn | src/slab.c:503-526 | pages handed out belonged to nobody and now belong to one zone or large allocation; every page is free or has exactly one owner |
| SlabZones.ReleaseOwn | src/slab.c:736-850 | the same after pages go back to the page allocator |
| SlabZones.Found | src/slab.c:759-783 | the page table leads any live pointer back to its zone and chunk number, or to the length of its page run |
| SlabZones.ChunksApart | src/slab.c:487-653 | no byte belongs to two chunks, of one zone or of two |
| SlabZones.AliveApart | src/slab.c:487-653 | the bytes of any two live pointers, chunks or page runs, lie in the heap and clear of each other |
| SlabZones.ExhaustedMeans | src/slab.c:503-610 | nothing is left for a small request when every chunk that fits into a zone of its class is live, no zone is free and no run has the pages for one; for a large one when no run is long enough |
| SlabZones.FreedThenTaken | src/slab.c:541-577 | a chunk freed into a full zone is the very one that the next request for its size gets, and zones and lists are as before |
| Stores.Ram.Touch | src/slab.c:487-853 | a store to a record changes no byte outside it |
| SlabZones.InPlace | src/slab.c:487-653 | the bytes of a live pointer lie in the pages it was given, behind the header of its zone |
| SlabZones.HeaderClear | src/slab.c:613-641 | no byte of a zone header, of a used zone or a free one, belongs to a live pointer |
| SlabZones.NodeClear | src/slab.c:211-294 | no byte of a free page's record belongs to a live pointer |
| SlabZones.TableClear | src/slab.c:372-375 | nor does any byte of the page table |
| SlabZones.AllocBytes | src/slab.c:487-653 | wherever an allocation writes, every live pointer keeps all the bytes it has room for |
| SlabZones.FreeBytes | src/slab.c:736-853 | wherever a free writes, link of the freed chunk included, every pointer but the freed one keeps its bytes |
| SlabZones.MoveBytes | src/slab.c:693-723 | the same for an allocation, a copy and a free in a row; the copy arrives |
| SlabZones.OneApart | src/slab.c:521-790 | what is handed out differs by the room of the pointer that is allocated or freed, summed over all live pointers |
| SlabZones.Slab.constructor | src/slab.c:321-380 | the pages behind the page table are one free run, the table has room for an entry for each page, the zone size is what the heap size asks for; the invariant holds and nothing is in use |
| SlabZones.Slab.AllocLarge | src/slab.c:503-526 | null exactly when no run of pages is long enough; otherwise as many pages as the size needs, off the front of the first such run |
| SlabZones.Slab.FromList | src/slab.c:541-577 | a chunk that was not live is live, of the class asked for, and no other chunk changes; `used` grows by its size |
| SlabZones.Slab.PickZone | src/slab.c:587-611 | a free zone if there is one, otherwise fresh pages marked with their distance from its start; null exactly when both are missing |
| SlabZones.Slab.FromNew | src/slab.c:587-650 | null exactly when there is no free zone and no run of pages for a new one; otherwise the first chunk of a zone that was not in use |
| SlabZones.Slab.OpenZone | src/slab.c:613-650 | the zone is cut into chunks, its first one is live, and it is the one zone of its list |
| SlabZones.Slab.Alloc | src/slab.c:487-653 | null exactly for size zero or when class list, free zones and pages are all exhausted, so that every chunk of the class is live; otherwise a pointer that was not live, with room for the size, from the first zone of the class list, else the first free zone, else the first run of pages long enough; the new zones, lists, free zones and runs are determined; a request for a power of two is aligned to it if and only if the page it comes from is; every other live pointer stays live at its place with all its bytes; `used` is the sum of the room of all live pointers, `max` its highest value; on null nothing changes |
| SlabZones.Slab.Free | src/slab.c:736-853 | the pointer is no longer live, every other one stays live at its place with all its bytes; the chunk comes first in its zone and a zone that was full first in its list; a zone that becomes wholly free beside another of its list goes to the front of the free zones, or beyond two of them back to the pages; `used` goes down by the room it had; null is ignored |
| SlabZones.Slab.Regroup | src/slab.c:786-850 | zones, lists, free zones and runs after a chunk has come back, whether its zone was full, stays, or leaves its list |
| SlabZones.Slab.Unlist | src/slab.c:817-819 | the walk along the links finds the zone and takes it, and nothing else, out of its list |
| SlabZones.Slab.SetAside | src/slab.c:808-850 | a wholly free zone leaves its list for the free zones, of which at most two are kept |
| SlabZones.Slab.ReleaseZone | src/slab.c:825-849 | the zone's pages go back to the page list and every page still has one owner or is free |
| SlabZones.Slab.Move | src/slab.c:693-723 | nothing changes if nothing can be allocated; otherwise the new block holds the common part of the bytes, the old one is free, and every other live pointer stays live at its place with all its bytes |
| SlabZones.Slab.Realloc | src/slab.c:667-726 | size zero frees; null allocates, with the outcome of `rt_slab_alloc`; a chunk that serves the new size too stays where it is; otherwise null exactly when the heap is exhausted for the new size, with nothing changed, or a block with the common part of the bytes and room for the new size; every other live pointer stays live with all its bytes |
| SlabZones.ServesIff | src/slab.c:706-708 | a block stays where it is if and only if its chunk holds the new size and no smaller chunk does |
| Bits.LowestAlone | src/kservice.c:1717 | the expression of the small version isolates the lowest bit, whatever the word |
| Bits.TinyEntry | src/kservice.c:1696-1703 | the 32 powers of two differ modulo 37 and the table turns each residue back into its bit number |
| Bits.TinyFfsRight | src/kservice.c:1715-1718 | the small version returns the number of the lowest bit of every 32-bit word, and 0 for 0 |
| Bits.TableFfsRight | src/kservice.c:1750-1764 | the table version returns the same for every 32-bit word |
| Bits.EntryRight | src/kservice.c:1720-1738 | each entry of the 256-byte table is the number of zeros below the lowest bit of its index |
| Scheduler.MarkIndexed | src/scheduler.c:736-747 | inserting a thread keeps both bitmap levels in step with the queues, for both widths |
| Scheduler.UnmarkIndexed | src/scheduler.c:828-841 | clearing the bits of an emptied queue keeps both levels in step with the queues |
| Scheduler.HighestIsLowest | src/scheduler.c:169-191 | the two-level lookup finds the most urgent nonempty queue, with either version of `__rt_ffs` and either width |
| Scheduler.GroupZero | src/scheduler.c:437 | the group word is zero if and only if no thread is ready |
| Scheduler.ScheduledGood | src/scheduler.c:423-545 | after a call of rt_schedule each READY thread is in exactly the queue of its priority, the RUNNING one in none, and unless the scheduler is locked no ready thread is more urgent than the running one |
| Scheduler.ScheduledMeans | src/scheduler.c:433-545 | in terms of the queues: a running thread goes on if it is more urgent than every ready one, or as urgent as the most urgent and has not yielded; otherwise it joins the end of its queue and the first of the most urgent queue runs |
| Scheduler.RisenInOrder | src/scheduler.c:718-752 | threads of one priority that become ready one after the other queue up in that order, behind those there before |
| Scheduler.RunInOrder | src/scheduler.c:433-545 | as one running thread after the other suspends itself, those at the most urgent priority run in the order of their queue |
| Scheduler.FirstReadyFirstRun | src/scheduler.c:433-752 | so threads of one priority run in the order in which they became ready |
| Scheduler.YieldRotates | src/thread.c:541-554 | a yield moves the running thread behind its equals and runs the next of them |
| Scheduler.YieldRemembered | src/scheduler.c:433-459 | the mark of a yield outlasts it if and only if no other thread is ready, of whatever priority, or the scheduler is locked; then nothing else changes |
| Scheduler.EachRuns | src/thread.c:541-554 | among n threads of equal priority each runs within n yields, in order, and after n the order is as at the start |
| Scheduler.YieldKept | src/scheduler.c:437-459 | what becomes of the mark: when an equal becomes ready later, the next `rt_schedule` switches to it although nobody has yielded since |
| Scheduler.Kernel.constructor | src/scheduler.c:197-273 | empty queues and bitmaps, one running thread: the invariant holds |
| Scheduler.Kernel.InsertThread | src/scheduler.c:718-752 | the thread is READY at the end of its queue, or RUNNING if it is the current one, and the bitmap, set from the thread's stored masks, agrees with the queues |
| Scheduler.Kernel.RemoveThread | src/scheduler.c:815-845 | the thread leaves its queue, and the bits of its stored masks are cleared exactly if the queue is empty |
| Scheduler.Kernel.Schedule | src/scheduler.c:423-545 | the stores carry out the dispatch rule and keep bitmap, queues and states in step |
| Scheduler.Kernel.SwitchTo | src/scheduler.c:461-476 | the next thread leaves its queue and runs; the one before joins the end of its own if it was running |
| Scheduler.Kernel.GoOn | src/scheduler.c:532-536 | taking the running thread out of its queue changes nothing, bitmap included |
| Scheduler.Kernel.Yield | src/thread.c:541-554 | the thread is marked and the dispatch rule applied |
| Scheduler.Kernel.SuspendCurrent | src/thread.c:836-869 | the running thread is suspended and in no queue; an error for a thread that is not running |
| Scheduler.Kernel.Resume | src/thread.c:881-917 | a suspended thread joins the end of its queue, and every other queue is as before; an error, and no change, for any other thread |
| Scheduler.Kernel.Startup | src/thread.c:351-381 | the masks are worked out from the priority; the new thread is ready, and runs at once if it is more urgent |
| Scheduler.Kernel.ChangePriority | src/thread.c:728-771 | a READY thread leaves its queue and goes to the end of the one of its new priority; for any other only the priority changes; the masks follow, and the invariant is kept |
| Scheduler.Kernel.EnterCritical | src/scheduler.c:891-906 | one more level of locking and nothing else |
| Scheduler.Kernel.ExitCritical | src/scheduler.c:955-982 | only the last exit schedules what has been held back |
| Waiting.Suspend | src/ipc.c:122-169 | the list loop puts the thread at the end, or by priority at its place |
| Waiting.PrioKeepsOrder | src/ipc.c:135-162 | by priority the newcomer goes behind everyone at least as urgent and in front of everyone less urgent, so equals stay in order of arrival |
| Waiting.NoSleeper | src/ipc.c:1991-2376 | if every woken thread has come back, nobody sleeps while something is there for it |
| Waiting.WokenIs | src/ipc.c:189-205 | a wakeup takes the first thread off the list and no other; by priority there is none more urgent |
| Waiting.FifoOrder | src/ipc.c:131-133 | without priorities threads are woken in the order in which they suspended |
| Waiting.PrioOrder | src/ipc.c:135-161 | with priorities the list stays in order, and equals are in it in the order in which they suspended |
| MessageQueue.StepKeeps | src/ipc.c:2749-3217 | every step of every thread keeps it: each block is in exactly one of free list, queue, a sender's, an urgent sender's or a receiver's hands, and no wakeup is lost on either side |
| MessageQueue.RunKeeps | src/ipc.c:2749-3283 | so does every interleaving of steps, timeouts and resets |
| MessageQueue.NeverOverflows | src/ipc.c:2881-2890 | whoever is about to link a block finds the queue shorter than the pool, so the failure branch on `RT_MQ_ENTRY_MAX` is unreachable |
| MessageQueue.StepMessages | src/ipc.c:2749-3217 | the linked blocks behave as a double-ended queue of contents: a send appends, an urgent send prepends, a receive takes the first, a reset empties, and no other step changes the messages |
| MessageQueue.StepDelivers | src/ipc.c:2749-3283 | every block that is filled, linked or taken starts with the buffer that was sent in it, and those linked form the double-ended queue of the buffers sent |
| MessageQueue.RunDelivers | src/ipc.c:2749-3283 | so over every interleaving |
| MessageQueue.Delivered | src/ipc.c:3166-3190 | from a fresh queue, over every interleaving, a receiver with enough room gets the buffer that was in front when it took its block |
| MessageQueue.ReceiverUndisturbed | src/ipc.c:3183-3193 | a block in a receiver's hands keeps its contents whatever other threads do |
| MessageQueue.FreshInv | src/ipc.c:2486-2537 | the initial state satisfies the invariant |
| MessageQueue.LinkFree | src/ipc.c:2520-2528 | the loop of the initialisation links every block of the pool once, the last in front |
| MessageQueue.Mq.constructor | src/ipc.c:2486-2537 | fields and pool describe the initial state |
| MessageQueue.Mq.PopFree | src/ipc.c:2779-2859 | 0 exactly when no block is free, otherwise the first free block goes to the sender |
| MessageQueue.Mq.WaitToSend | src/ipc.c:2784-2840 | an error if no time is left, otherwise the sender is suspended at its place |
| MessageQueue.Mq.FillBlock | src/ipc.c:2861-2864 | the sender's block starts with the message, its rest and every other block are unchanged, and its link is cleared |
| MessageQueue.Mq.FillUrgentBlock | src/ipc.c:2994-2997 | the block starts with the message, its rest and every other block are unchanged |
| MessageQueue.Mq.LinkMessage | src/ipc.c:2866-2908 | head, tail and count describe the queue with the block at its end, the first receiver is woken, and the overflow test always passes |
| MessageQueue.Mq.LinkUrgentMessage | src/ipc.c:2999-3037 | the same with the block in front |
| MessageQueue.Mq.TakeMessage | src/ipc.c:3168-3184 | the first block of the queue goes to the receiver; head, tail and count follow |
| MessageQueue.Mq.WaitToReceive | src/ipc.c:3096-3153 | an error if no time is left, otherwise the receiver is suspended at its place |
| MessageQueue.Mq.CopyMessage | src/ipc.c:3186-3187 | as much of the message as the receiver has room for |
| MessageQueue.Mq.PutBack | src/ipc.c:3189-3215 | the block is the first of the free list and the first sender is woken |
| MessageQueue.Mq.TimeOutThread | src/thread.c:126-155 | a suspended thread leaves its list, and nothing else changes |
| MessageQueue.Mq.ResetAll | src/ipc.c:3234-3283 | all waiters are resumed and every queued block goes to the free list, the last queued first; blocks in the hands of threads stay there |
| MemPool.StepKeeps | src/mempool.c:319-465 | each block is on the free list once or handed out, the count is exact, and no wakeup is lost, even when another thread barges in |
| MemPool.RunKeeps | src/mempool.c:319-465 | so over every interleaving |
| MemPool.Conservation | src/mempool.c:319-465 | free blocks and blocks handed out make up the pool |
| MemPool.RoundTrip | src/mempool.c:319-465 | freeing a block just handed out restores the free list and the live blocks |
| MemPool.FreedFirst | src/mempool.c:434-439 | the block freed last is the next to be handed out |
| MemPool.LastComeFirstWoken | src/mempool.c:354 | waiters are pushed in front, so a free undoes the latest wait: the last to come is woken first |
| MemPool.FirstFree | src/mempool.c:387-398 | a count above zero means that the list has a block, so the assertion in the code holds |
| MemPool.Pool.constructor | src/mempool.c:89-132 | the blocks are linked in address order and all of them are free |
| MemPool.Pool.AllocOnce | src/mempool.c:319-407 | a block that was not handed out if there is one, otherwise null without time or suspension in front of the list |
| MemPool.Pool.FreeBlock | src/mempool.c:415-465 | the block is first on the free list and the first waiter is woken |
| MemPool.Pool.TimeOutThread | src/thread.c:126-155 | a waiter leaves the list |
| Mailbox.StepKeeps | src/ipc.c:1991-2376 | mails never exceed the ring, and no wakeup is lost on either side, although an urgent send takes room without waiting its turn |
| Mailbox.RunKeeps | src/ipc.c:1991-2426 | so over every interleaving |
| Mailbox.RunServes | src/ipc.c:1991-2426 | whenever all woken threads have come back, no receiver sleeps beside a mail and no sender beside a free cell |
| Mailbox.StepMails | src/ipc.c:1991-2426 | a send appends, an urgent send prepends, a receive takes the first, a reset empties, and nothing else touches the mails |
| Mailbox.FirstSentFirstReceived | src/ipc.c:1991-2426 | over every interleaving without urgent mails and resets, what has been received and what is left is what was there and what was sent, in that order |
| Mailbox.RingSend | src/ipc.c:2085-2096 | storing at `in_offset` and moving it on, wrapping, appends the mail |
| Mailbox.RingUrgent | src/ipc.c:2183-2197 | moving `out_offset` back, wrapping, and storing there prepends the mail |
| Mailbox.RingReceive | src/ipc.c:2340-2352 | the cell at `out_offset` is the first mail, and moving on removes it |
| Mailbox.Mb.constructor | src/ipc.c:1780-1812 | an empty ring |
| Mailbox.Mb.SendOnce | src/ipc.c:1991-2120 | one pass: sent and the first receiver woken if there is room, otherwise an error or suspension at its place; the overflow branch is not reached |
| Mailbox.Mb.SendUrgent | src/ipc.c:2164-2216 | the mail is in front, or an error and no change if the mailbox is full |
| Mailbox.Mb.ReceiveOnce | src/ipc.c:2245-2376 | one pass: the first mail and the first sender woken, otherwise an error or suspension at its place |
| Mailbox.Mb.TimeOutThread | src/thread.c:126-155 | a suspended thread leaves its list |
| Mailbox.Mb.ResetAll | src/ipc.c:2393-2426 | no mails, no waiters |
| Mutex.TakeOk | src/ipc.c:914-1055 | a take keeps it: value is 1 iff there is no owner iff hold is 0, waiters imply an owner and are in order of priority, the owner is at least as urgent as each of them; no priority but the owner's changes |
| Mutex.QueueOk | src/ipc.c:993-1009 | raising the owner before queueing the newcomer keeps owner and queue in order |
| Mutex.ReleaseOk | src/ipc.c:1090-1198 | a release keeps it; the last one gives the owner back the priority it had when it took the mutex, and the mutex to the most urgent waiter, the first among equals |
| Mutex.TimeOutOk | src/thread.c:126-155 | a waiter that times out keeps it |
| Mutex.OkFrame | src/ipc.c:914-1198 | priorities of threads that take no part in the mutex do not matter to it |
| Mutex.AllKeep | src/ipc.c:914-1198 | a step on one mutex leaves all others in order, as long as threads hold or wait for at most one |
| Mutex.NestedNotRestored | src/ipc.c:1131-1139 | a run with two mutexes held at once after which the thread keeps the inherited priority |
| Mutex.GainRecords | src/ipc.c:970-1160 | whoever becomes the owner, by taking or by being handed the mutex, the mutex records the priority it has at that moment |
| Mutex.RecordStays | src/ipc.c:914-1198 | until the owner's last release no take, release, timeout or change of priority, on any mutex by any thread, changes that record |
| Mutex.RunRecordStays | src/ipc.c:914-1198 | nor does any run of such steps, however mutexes are nested |
| Mutex.RestoredOverRuns | src/ipc.c:1131-1139 | over every such run the last release sets the priority to what it was when the thread became the owner, so its own comes back if and only if it was at its own then |
| Mutex.StepTold | src/ipc.c:914-1198 | without outside changes of priority a thread is above its own exactly if the history of raises and releases says so, and so is what a mutex recorded |
| Mutex.RunTold | src/ipc.c:914-1198 | so over every run |
| Mutex.RestoredUnlessRaised | src/ipc.c:1131-1139 | from any start with free mutexes: a thread is back at its own priority after its last release if and only if no waiter on another mutex had raised it, and not been made up for, when it became the owner |
| Mutex.StepCounts | src/ipc.c:936-953 | each take by the owner that the counter has room for counts one up, each release but the last one down, and nothing else counts |
| Mutex.RunCounts | src/ipc.c:914-1198 | so over every run |
| Mutex.LastReleaseHandsOn | src/ipc.c:1121-1180 | over every run, a release leaves the mutex with its owner as long as it was taken more often than released, and otherwise hands it to the first waiter or leaves it free |
| Mutex.Mutex.constructor | src/ipc.c:741-763 | no owner, no waiters |
| Mutex.Kernel.TakeMutex | src/ipc.c:914-1055 | the fields and priorities follow the specification, and all mutexes stay in order |
| Mutex.Kernel.TakeFields | src/ipc.c:914-1055 | the stores of a take, field by field, compute the specification |
| Mutex.Kernel.ReleaseMutex | src/ipc.c:1090-1198 | an error exactly for a thread that is not the owner; the last release leaves it at its own priority; all mutexes stay in order |
| Mutex.Kernel.ReleaseFields | src/ipc.c:1090-1198 | the stores of a release, field by field, compute the specification |
| Mutex.Kernel.TimeOutThread | src/thread.c:126-155 | the waiter leaves the queue; the owner keeps what it inherited; all mutexes stay in order |
| Event.DeliverSplits | src/ipc.c:1465-1519 | a send wakes some waiters and keeps the rest in order, changes nothing of what those asked for, and leaves no more bits than there were |
| Event.DeliverLeavesNone | src/ipc.c:1465-1519 | no waiter left behind is satisfied by the bits left behind |
| Event.DeliverOnce | src/ipc.c:1465-1519 | a woken waiter gets some bits of those there were, and never one cleared for a waiter in front of it |
| Event.DeliverReaches | src/ipc.c:1465-1519 | if nobody clears, exactly the waiters satisfied by the whole set are woken and the set stays |
| Event.DeliverExact | src/ipc.c:1463-1524 | bit by bit: a waiter goes on if and only if all it asked for, or with OR alone any of it, is set among the bits left by those in front of it, and gets exactly those of its bits |
| Event.DeliverLeaves | src/ipc.c:1463-1502 | the bits left are those there were, less what the waiters with CLEAR got |
| Event.DeliverMeans | src/ipc.c:1463-1524 | whoever goes on got bits that were set, whoever stays lacks one, or with OR alone all |
| Event.SuspendKeeps | src/ipc.c:1638-1660 | a thread that suspends is not satisfied by what is there |
| Event.ReceiveKeeps | src/ipc.c:1614-1627 | a receive that clears bits cannot satisfy anyone who waits |
| Event.EventObject.constructor | src/ipc.c:1270-1292 | no bits, no waiters |
| Event.EventObject.Send | src/ipc.c:1440-1529 | the walk over the list is the left-to-right delivery; a waiter that goes on got bits that were set, all it asked for if it asked for all, and one that stays lacks a bit in the end, or with OR alone every one; the error branch is unreachable |
| Event.EventObject.Receive | src/ipc.c:1565-1685 | a thread goes on at once if and only if all its bits are set, or with OR alone any is; all four outcomes, the bits received and the bits cleared |
| Event.EventObject.TimeOutThread | src/thread.c:126-155 | a waiter leaves the list and the invariant stays |
| Event.EventObject.Reset | src/ipc.c:1703-1731 | no bits, no waiters |
| Timer.LaterExact | src/timer.c:464-471 | the wrapped comparison of the search agrees with the true order for deadlines less than half the tick range apart, and gives the wrong answer one tick beyond |
| Timer.ExpiredExact | src/timer.c:648-652 | the wrapped test for expiry is right within half the tick range of now |
| Timer.RowOfNext | src/timer.c:447-496 | each row is the next denser one with the lower timers dropped |
| Timer.PosPick | src/timer.c:447-475 | where a scan of a sparser row stops is where the scan of the denser one stops, thinned out |
| Timer.InsertKeeps | src/timer.c:459-485 | linking a timer in at its place keeps the row sorted by true deadline with ties in the order of starting |
| Timer.InsertRows | src/timer.c:481-496 | linking a timer into its lowest rows keeps all rows in step, whatever its height |
| Timer.ExtraMeans | src/timer.c:478-496 | a timer joins k rows above the last exactly if the counter is a multiple of 2 to the k, or of 4 to the k with two bits to a row |
| Timer.RemoveRows | src/timer.c:188-196 | unlinking from every row keeps all rows in step |
| Timer.ScanRow | src/timer.c:450-472 | along one row the wrapped comparisons stop at the first timer due later |
| Timer.Search | src/timer.c:447-475 | the search over all rows stops in each of them exactly where a linear scan of that row would |
| Timer.DrainKeeps | src/timer.c:637-690 | a check fires the expired timers, re-arms exactly the periodic ones one period from now, and leaves none expired |
| Timer.CheckEnds | src/timer.c:637-690 | the loop of a check comes to an end if and only if no expired timer is periodic with a period of zero |
| Timer.TimerSystem.constructor | src/timer.c:831-840 | no timers in any row |
| Timer.TimerSystem.Init | src/timer.c:120-147 | a timer not armed, with its period and kind |
| Timer.TimerSystem.SetTime | src/timer.c:584-587 | an armed timer keeps its deadline and place |
| Timer.TimerSystem.SetPeriodic | src/timer.c:589-595 | only the kind of the timer changes |
| Timer.TimerSystem.RemoveTimer | src/timer.c:188-196 | the timer is in no row and the others keep their order |
| Timer.TimerSystem.Link | src/timer.c:481-496 | the counter decides the height, and every row up to it gets the timer at the place found |
| Timer.TimerSystem.Start | src/timer.c:407-498 | whatever the number of rows and of tick wraps, the timer goes to its place in the order of true deadlines, behind those due at the same time; an armed timer is moved |
| Timer.TimerSystem.Stop | src/timer.c:533-556 | an error exactly for a timer that is not armed; otherwise it is out of every row |
| Timer.TimerSystem.Tick | src/timer.c:627-638 | a tick on time keeps wrapped and true deadlines in step |
| Timer.TimerSystem.FireFirst | src/timer.c:652-684 | one round: the first timer fires and goes back in if it is periodic |
| Timer.TimerSystem.Check | src/timer.c:627-694 | fires each expired timer exactly once in order of deadline and start, re-arms exactly the periodic ones, and leaves no expired timer armed |
| Wcs.FindFxn | tools/WCS.py:84-99 | a name is resolved to a global if there is one, otherwise to the local of the caller's unit, and to nothing exactly when neither exists |
| Wcs.FxnsAre | tools/WCS.py:93-100 | the functions looked up are those of the call graph, each under its own name and unit |
| Wcs.ResolveCalls | tools/WCS.py:224-233 | every call is either resolved from the function's own unit or listed as unresolved |
| Wcs.ResolveAllCalls | tools/WCS.py:223-242 | the same for all functions, and every resolved call is in the graph |
| Wcs.CleanMeans | tools/WCS.py:259-268 | no call chain meets a pointer call or a repetition exactly if neither a pointer call nor a cycle is reachable |
| Wcs.CleanStep | tools/WCS.py:259-283 | a function is clean exactly if it makes no pointer call and all it calls is clean |
| Wcs.WorstCaseStep | tools/WCS.py:270-291 | the maximum over the calls plus the own stack is the maximum over all call chains |
| Wcs.MissingStep | tools/WCS.py:287-289 | the union over the calls is the union over all reachable functions |
| Wcs.BackEdge | tools/WCS.py:264-267 | a call to a function that is being looked at closes a cycle |
| Wcs.Analysis.CalcWcs | tools/WCS.py:246-291 | the memoised search terminates, records only right figures and never changes one it has recorded |
| Wcs.Analysis.Descend | tools/WCS.py:270-291 | the same for the loop over the calls |
| Wcs.Analysis.Visit | tools/WCS.py:271-289 | one round: the call's figure is known, and either makes the caller unbounded or is taken into its maximum |
| Wcs.CalcAllWcs | tools/WCS.py:223-299 | for every call graph a function gets a number if and only if it reaches no pointer call and no cycle; the number is the largest stack over its call chains, and its unresolved calls are those of all functions it can reach |
| Romfs.ImageRoundTrip | tools/mkromfs.py:165-214 | for every tree with NUL-free names and every base address, following the stored name and data addresses in the image gives the tree back |
| Romfs.ReadBack | tools/mkromfs.py:182-214 | a list of children laid out anywhere reads back as itself |
| Romfs.NameRoundTrip | tools/mkromfs.py:194 | the encoding of a name can be decoded |
| Romfs.WordRoundTrip | tools/mkromfs.py:206-210 | the four bytes of a word give the word back |
| Romfs.WordMeans | tools/mkromfs.py:62 | the byte of least weight comes first |
| Romfs.PackMeans | tools/mkromfs.py:62-63 | type, name, data and size, in this order |
| Romfs.Utf8Means | tools/mkromfs.py:194 | six bits of a character in each byte but the first, in as few bytes as it needs |
| Romfs.BinNameMeans | tools/mkromfs.py:31-36 | the encoding, then as many zeros, one to four, as make the number of characters a multiple of four |
| Romfs.PaddedMeans | tools/mkromfs.py:200-203 | data is followed by the fewest zeros that make it a multiple of four bytes |
| Romfs.LayOutStep | tools/mkromfs.py:184-212 | an entry holds the address of its name, which comes first, and of its data behind that |
| Romfs.ImageFits | tools/mkromfs.py:233-244 | an image that ends below 4 GiB is always built, and its length is what the layout promises |
| Romfs.AlignedIff | tools/mkromfs.py:165-244 | every name and data address stored in the image, from the root entry down, is a multiple of four if and only if the base is and every name's encoding is longer than its character count by a multiple of four |
| Romfs.StoredAligned | tools/mkromfs.py:165-214 | the addresses stored in the entries of a list laid out in an image are those the layout works out |
| Romfs.LayOutAligned | tools/mkromfs.py:165-214 | from a word-aligned place on, those are all multiples of four if and only if every name is regular |
| Romfs.NamePadding | tools/mkromfs.py:31-36 | a padded name is a whole number of words under the same condition |
| Romfs.AsciiRegular | tools/mkromfs.py:31-36 | plain ASCII names always meet it |
| Romfs.NotAlignedExample | tools/mkromfs.py:31-36 | the image of one empty file with an accented letter for a name is built at base 0, and holds an address that is no multiple of four |
| Romfs.BuildFolder | tools/mkromfs.py:165-214 | the loop over the children computes the layout |
| Romfs.BuildBinData | tools/mkromfs.py:55-56 | file contents and folder images are computed by recursion over the tree |
| Romfs.BuildImage | tools/mkromfs.py:233-244 | the image built reads back as the tree it was built from |

## Left out

- SmallMem.SmallHeap.Alloc: asks that the heap is at least as large as the minimum block, or the request zero or too large; the other case does not return and is the subject of SmallMem.ScanNeverEnds.
- SmallMem.SmallHeap.constructor: the mask on the pool pointer, which tells heaps apart, is left out; the used mark beside it is modelled.
- MemHeap.Heap.constructor: asks for a pool that holds two headers; the semaphore that locks the heap and the object registration are left out, as is `rt_memheap_info`; the lock makes each call one step.
- SlabZones.Slab.constructor: takes the page address and the number of pages that SlabZones.InitPages works out; sizes are taken to fit 32 bits, as in the code.
- SlabZones.LosesAlignment: asks for room for one zone and a few pages more, so that there is more than one place to start a zone at.
- Timer.TimerSystem.Tick: the tick goes up by one at a time and only once no deadline has gone by, which is what a check on every tick provides.
- Timer.TimerSystem.Check: callbacks do not start, stop or change timers, and the tick does not move during a check.
- Timer.TimerSystem.Start: hard timers only; the list and thread of soft timers are a second instance of the same list.
- Mutex.Kernel.TakeMutex: a thread holds or waits for at most one mutex, and nobody else changes priorities; what happens otherwise is stated by Mutex.RestoredOverRuns, Mutex.RestoredUnlessRaised and, for the stores, Mutex.Kernel.TakeFields and ReleaseFields, which place no such restriction.
- Mutex.Kernel.ReleaseMutex: the effect of a changed priority on the ready queues is Scheduler.Kernel.ChangePriority; the two are not combined.
- MemPool.Pool.constructor: a pool with no room for a single block is left out.
- MessageQueue.Mq.WaitToSend: the new value of the timeout after a wake-up is an argument of the next pass, not computed from ticks.
- Scheduler.Kernel.constructor: the first dispatch is folded into the start, with one thread already running.
- Bits.TinyFfsRight: words are numbers, so the overflow of `value - 1` on the smallest signed word is taken to wrap.
- Wcs.CalcAllWcs: functions are told apart by name and unit, where the code compares dictionaries; the limit on recursion in Python is left out, and so are the readers of the object, RTL and stack usage files and the printed report.
- Romfs.BuildImage: the tree is given; walking and sorting a directory, the C output and names that cannot be encoded are left out.
- The SMP branches, `src/cpu.c` and spinlocks: the single-core build is the one modelled.
- Context switches, stacks and stack checks, `src/signal.c`, `src/idle.c`, `src/components.c`, devices, modules, the console and its commands.
- The object registry, names, hooks, and detaching or deleting objects and threads while they are in use.
- Semaphores: they would add an easier case of the counting proved for mailboxes.
- Auto-binding across memory heaps, `RT_MEMHEAP_BSET_MODE`, and the memory traces.
- `RT_TIMER_CTRL_GET_STATE`, which falls through to the next case, and `rt_timer_next_timeout_tick`.
- The formatting functions of `src/kservice.c`.
- Wrap-around of `RT_ALIGN` and of sizes near the end of the address space.
