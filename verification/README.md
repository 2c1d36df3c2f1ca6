# A model of the RT-Thread 1.1.0 kernel and proofs about it

This project models the kernel under `src/os/rt-thread` in Dafny and proves what it is for: its
three memory allocators never hand out overlapping memory and get back what is freed, its IPC
objects lose no wake-up, unit or message over any interleaving, its scheduler always finds the best
ready thread, and its timers fire at exactly the tick they are due across wraparound.  Where that
holds only under a condition, the exact condition is proved too.

Each component comes as a specification (a state, its operations as functions, an invariant),
proofs that every operation keeps the invariant, and theorems over whole runs.  A run begins in an
initial or well-formed state and asks of a step only what its caller knows; that every later state is
well formed is derived, never assumed.
For every operation there are also results that say what it answers and changes in terms of its
caller: bits, members of a list, ticks, who owns what.  Beside the specification stands a class whose methods follow the C code, and they are proved to
compute what the specification says.

| component | specification and theorems | class | what the class updates |
|---|---|---|---|
| first-fit heap (`mem.c`) | `SmallHeapSpec`, `SmallHeapProofs`, `SmallHeapTheorems` | `SmallHeap` | headers and payload in one array of memory |
| memory heap objects (`memheap.c`) | `MemHeapSpec`, `MemHeapTheorems` | `MemHeap` | two rings of links and flags |
| slab and pages (`slab.c`) | `Pages`, `SlabSizes`, `SlabZones`, `SlabSpec`, `SlabProofs`, `SlabTheorems`, `SlabResults` | `Pages`, `SlabAllocator` | singly linked lists (`Chains`) of runs and zones, memusage; zone headers in a map |
| intrusive lists (`rtservice.h`) | `Rings` | `Rings`, `ListTables` | next and prev links |
| threads and scheduler (`thread.c`, `scheduler.c`) | `Bits`, `ReadyIndex`, `ThreadsSpec`, `ThreadsProofs`, `ThreadsTheorems`, `ThreadsResults` | `Threads` | one list node in each thread, list headers, bitmap words, thread fields |
| message queue (`ipc.c`) | `MessageQueueSpec`, `MessageQueueResults` | `MessageQueue` | links and contents of the nodes; receivers in a sequence |
| mailbox (`ipc.c`) | `MailboxSpec`, `MailboxResults` | `Mailbox` | the ring buffer; suspend lists in sequences |
| semaphore, mutex, event (`ipc.c`) | `WaitQueue`, `Semaphore`, `SemaphoreResults`, `MutexSpec`, `MutexProofs`, `Mutex`, `MutexOutcomes`, `Event`, `EventResults` | `Semaphore`, `Mutex`, `Event` | counters and sets; suspend lists in sequences, with the loops of the source over them |
| timers (`timer.c`, `clock.c`) | `TimerSpec`, `TimerResults` | `TimerList` | the 32-bit counter; the timer list in a sequence |

That a suspend list of linked thread nodes behaves as a sequence is proved in `ListTables` and used
by `Threads`; the IPC objects are stated on the sequence.

How the model reads the code:

- An interrupts-off section is one atomic step.  A blocking call is a step that suspends the
  thread and a later step that resumes it, with any steps of other threads and timers between.
  A call with two sections is two steps: `rt_thread_resume`, `rt_timer_start`, and the sends and
  receives of the message queue.
- Each call of an allocator is one step.  Memory of the small heap is an array of cells in which a
  header field occupies the first cell of its word and a payload one cell per byte.
- Integers are unbounded; the widths of the source appear where they matter (32-bit `RT_ALIGN`
  and ticks, 16-bit semaphore value, 8-bit mutex hold, 32-bit event set).
- Callers are held to what the code demands of them: live pointers to `free`, a thread that
  blocks is running, timers below half the tick range.

Where the code does less than its comments or a naive reading promise, the model follows the
code, and the exact boundary is a theorem:

- The search guard of `mem.c` skips a block that ends exactly at the heap end, and the same
  happens in `memheap.c` when a request would use up `available_size` (`WholeHeapRefused`,
  `SmallHeapTheorems.RefusesIff`, `MemHeapTheorems.RefusesIff`).
- `RT_ALIGN` wraps for the last three sizes, and then a 12-byte block is granted
  (`GrantHoldsRequest`, `GrantHolds`).
- A shrinking `rt_realloc` does not lower `lfree` (`ShrinkLowestIff`, `ShrinkHidesFreeChunk`).
- `heap_end->prev` is not maintained, so the heap invariant says nothing about it.
- A heap of 4 or 8 bytes never answers (`GuardWrapsIff`, `TinyHeapNeverAnswers`), so
  `SmallHeap.Heap.constructor` asks for 12.
- The first-fit heap and the memory heap return to their initial state when everything is freed
  (`FullRecovery`); the slab keeps its page table and a bounded number of empty zones
  (`NothingHeld`).
- Power-of-two requests beyond one page need not be aligned (`LargerRequestsAlignedIff`,
  `TwoPagesUnaligned`).
- Mutex ownership holds however many mutexes a thread takes (`OwnershipOverRuns`).  Inheritance
  does not: a hand-off does not raise the new owner, a release restores one saved priority, and a
  boost does not travel on.  For each the exact condition is `HandOffInheritsIff`,
  `ReleaseKeepsOtherIff` and `RaiseKeepsOtherIff`, with runs that fail in `FifoHandOffInverts` and
  `TwoMutexesInvert`; with one mutex at a time and the PRIO flag it holds over all runs
  (`OwnerOutranksWaiters`).
- `rt_thread_resume` switches interrupts on between taking a thread off its list and putting it on
  the ready list; a second resume in between links the thread twice (`OverlapKeepsIff`,
  `OverlapRun`).
- `rt_timer_start` reads the tick before it switches interrupts off; a caller held up for
  `init_tick` ticks inserts a timer that fires late (`InsertKeepsIff`, `OnTimeIff`, `LateRun`).
- The mutex `hold` counter and the semaphore value overflow silently (`NestedTakeIff`,
  `ReleaseConservesIff`).
- A periodic timer of zero ticks keeps the check busy for ever (`NeverEndsIff`).

## Model

| member | source | states |
|---|---|---|
| `SmallHeapProofs.InitOk` | src/os/rt-thread/src/mem.c:196-213 | The initial heap, one free block and a used end marker, is well formed and its cursor is on the lowest free block. |
| `SmallHeapProofs.MallocKeepsHeap` | src/os/rt-thread/src/mem.c:229-352 | rt_malloc keeps the heap well formed: aligned blocks that tile the heap, no two free neighbours, a cursor on a free block or on heap_end, used_mem equal to the span of the used blocks. |
| `SmallHeapProofs.PlugRow` | src/os/rt-thread/src/mem.c:124-158 | plug_holes turns a row that is coalesced except around one free block into a well-formed row, with the same live blocks and the same used span. |
| `SmallHeapProofs.FreeKeepsHeap` | src/os/rt-thread/src/mem.c:482-534 | rt_free of null, of a pointer outside the heap, which it ignores, and of a live block keeps the heap well formed. |
| `SmallHeapProofs.FreeAtKeepsHeap` | src/os/rt-thread/src/mem.c:514-532 | Freeing a used block keeps the heap well formed and removes that block, and no other, from the live ones. |
| `SmallHeapProofs.ShrinkAtKeepsHeap` | src/os/rt-thread/src/mem.c:408-431 | The in-place shrink of rt_realloc keeps the heap well formed and replaces the live block by a shorter one at the same place. |
| `SmallHeapProofs.ReallocKeepsHeap` | src/os/rt-thread/src/mem.c:363-444 | rt_realloc keeps the heap well formed on every path: refusal, null, foreign pointer, same size, shrink, move. |
| `SmallHeapTheorems.RunKeepsHeap` | src/os/rt-thread/src/mem.c:229-534 | Every run of malloc, free and realloc keeps the heap well formed. |
| `SmallHeapTheorems.LiveDisjoint` | src/os/rt-thread/src/mem.c:124-158 | Two blocks of a well-formed heap never overlap. |
| `SmallHeapTheorems.MallocAddsOne` | src/os/rt-thread/src/mem.c:261-345 | A successful rt_malloc adds exactly one live block: aligned, inside the heap, at least as large as the rounded request and less than a header and a smallest block larger, disjoint from all live blocks. |
| `SmallHeapTheorems.GrantHoldsRequest` | src/os/rt-thread/src/mem.c:244-256 | The granted block holds the bytes asked for if and only if the 32-bit RT_ALIGN of the size does not wrap. |
| `SmallHeapTheorems.FreeRemovesOne` | src/os/rt-thread/src/mem.c:504-532 | rt_free of a live pointer removes exactly that block from the live ones. |
| `SmallHeapTheorems.ReallocEffect` | src/os/rt-thread/src/mem.c:363-444 | For every live block and every new size: which path rt_realloc takes, what it returns, and the exact set of live blocks afterwards. |
| `SmallHeapTheorems.MallocOutcome` | src/os/rt-thread/src/mem.c:229-352 | A request is refused exactly under the condition above and then changes nothing; any other adds one block, large enough, to the live ones and returns its pointer. |
| `SmallHeapTheorems.ReallocOfNull` | src/os/rt-thread/src/mem.c:374-383 | rt_realloc of null, on every well-formed heap: null if and only if the rounded size is 0 or too large or no block at or above the cursor is usable, and then nothing changes; otherwise the pointer of a block that was not live, large enough, which alone joins the live ones. |
| `SmallHeapTheorems.ReallocOfForeign` | src/os/rt-thread/src/mem.c:387-394 | rt_realloc of a pointer outside the heap returns that pointer, or null for a size that is too large, and changes nothing. |
| `SmallHeapTheorems.ReallocMoveFailsIff` | src/os/rt-thread/src/mem.c:435-443 | rt_realloc that has to move a block fails, with the block kept, if and only if a request for the new size is refused. |
| `SmallHeapTheorems.FreeOfOthers` | src/os/rt-thread/src/mem.c:489-501 | rt_free of null or of a pointer outside the heap changes nothing. |
| `SmallHeapTheorems.RefusalKeeps` | src/os/rt-thread/src/mem.c:247-259 | A refused rt_malloc of any size changes nothing. |
| `SmallHeapTheorems.LivePtrInside` | src/os/rt-thread/src/mem.c:387-394 | Every live pointer passes the range check of rt_realloc and rt_free. |
| `SmallHeapTheorems.CursorIsSound` | src/os/rt-thread/src/mem.c:261-266 | With the cursor on the lowest free block, searching from it gives the same answer as searching from offset 0. |
| `SmallHeapTheorems.RefusesIff` | src/os/rt-thread/src/mem.c:247-266 | On every well-formed heap rt_malloc returns null if and only if the size is 0 or too large, or no free block at or above the cursor is usable: large enough, and not an exact fit that ends at the heap end. |
| `SmallHeapTheorems.GrantsLowest` | src/os/rt-thread/src/mem.c:261-266 | rt_malloc serves from the lowest usable block at or above the cursor. |
| `SmallHeapTheorems.LowestSeesAll` | src/os/rt-thread/src/mem.c:261-266 | While the cursor is on the lowest free block, a request is refused if and only if no block of the whole heap is usable. |
| `SmallHeapTheorems.WholeHeapRefused` | src/os/rt-thread/src/mem.c:261-261 | A fresh heap refuses a request for all of its bytes, the exact fit at the heap end, and grants one word less. |
| `SmallHeapTheorems.MallocKeepsLowest` | src/os/rt-thread/src/mem.c:324-331 | rt_malloc keeps the cursor on the lowest free block. |
| `SmallHeapTheorems.FreeKeepsLowest` | src/os/rt-thread/src/mem.c:521-525 | rt_free keeps the cursor on the lowest free block. |
| `SmallHeapTheorems.FreeAtKeepsLowest` | src/os/rt-thread/src/mem.c:514-532 | So does the release of one block, through both merges of plug_holes. |
| `SmallHeapTheorems.RunKeepsLowest` | src/os/rt-thread/src/mem.c:229-534 | Over every run of malloc and free the cursor is the lowest free block or heap_end. |
| `SmallHeapTheorems.ShrinkLowestIff` | src/os/rt-thread/src/mem.c:408-427 | After an in-place shrink the cursor is still the lowest free block if and only if it was already below the block or the remainder merged with the block it stood on. |
| `SmallHeapTheorems.ShrinkHidesFreeChunk` | src/os/rt-thread/src/mem.c:408-431 | A run from a new heap of 124 bytes, malloc 88, malloc 12, realloc of the first block to 12, after which a request of 24 is refused although a free block of 64 is there. |
| `SmallHeapTheorems.MaxMemIsRunningMaximum` | src/os/rt-thread/src/mem.c:300-318 | Over every run max_mem is the running maximum of used_mem, including inside a moving realloc. |
| `SmallHeapTheorems.EmptyIsInitial` | src/os/rt-thread/src/mem.c:199-208 | A well-formed heap without live blocks is the initial heap, but for max_mem. |
| `SmallHeapTheorems.FullRecovery` | src/os/rt-thread/src/mem.c:514-532 | Freeing all live blocks, in any order, is a legal run that ends in the initial single free block. |
| `SmallHeapTheorems.GuardWrapsIff` | src/os/rt-thread/src/mem.c:247-261 | The unsigned difference in the search guard wraps if and only if the heap is smaller than the smallest block. |
| `SmallHeapTheorems.TinyHeapNeverAnswers` | src/os/rt-thread/src/mem.c:247-262 | On a heap of 4 or 8 bytes no pass of the search for a request that passed the size check finds a block or ends the loop. |
| `SmallHeap.Heap.constructor` | src/os/rt-thread/src/mem.c:168-214 | Writes the two headers into memory; the result is the initial heap. |
| `SmallHeap.Heap.Find` | src/os/rt-thread/src/mem.c:261-266 | The search loop over the headers in memory returns the first block from the cursor on that fits. |
| `SmallHeap.Heap.Split` | src/os/rt-thread/src/mem.c:268-298 | Cutting a block in memory gives the specified row and leaves every live payload untouched. |
| `SmallHeap.Heap.TakeWhole` | src/os/rt-thread/src/mem.c:305-322 | Taking a block without a cut gives the specified row and leaves every live payload untouched. |
| `SmallHeap.Heap.AdvanceCursor` | src/os/rt-thread/src/mem.c:324-331 | The loop leaves the cursor on the next free block or on heap_end. |
| `SmallHeap.Heap.Take` | src/os/rt-thread/src/mem.c:266-331 | One allocation in memory, headers, cursor and counters, is the specified one. |
| `SmallHeap.Heap.Malloc` | src/os/rt-thread/src/mem.c:229-352 | The in-place rt_malloc computes the specified heap and pointer, and changes no byte of a live block. |
| `SmallHeap.Heap.PlugForward` | src/os/rt-thread/src/mem.c:133-144 | The forward merge in memory is the specified one. |
| `SmallHeap.Heap.PlugBackward` | src/os/rt-thread/src/mem.c:146-157 | The backward merge in memory is the specified one. |
| `SmallHeap.Heap.PlugHoles` | src/os/rt-thread/src/mem.c:124-158 | plug_holes in memory merges exactly the free neighbours, moves the cursor with them and keeps live payloads. |
| `SmallHeap.Heap.Release` | src/os/rt-thread/src/mem.c:514-532 | rt_free of a block in memory is the specified one and keeps the payloads of the others. |
| `SmallHeap.Heap.Free` | src/os/rt-thread/src/mem.c:482-534 | The in-place rt_free computes the specified heap, for null and for pointers outside the heap too; the contents of all remaining live blocks are unchanged. |
| `SmallHeap.Heap.Shrink` | src/os/rt-thread/src/mem.c:408-431 | The in-place shrink computes the specified heap and keeps the bytes that remain. |
| `SmallHeap.Heap.Copy` | src/os/rt-thread/src/mem.c:439-439 | The copy moves the bytes asked for and no others. |
| `SmallHeap.Heap.Move` | src/os/rt-thread/src/mem.c:435-443 | Allocate, copy and free: the first min(old, new) bytes arrive at the new block and other live blocks are untouched. |
| `SmallHeap.Heap.Realloc` | src/os/rt-thread/src/mem.c:363-444 | The in-place rt_realloc computes the specified heap and pointer; on success the first min(old, new) bytes are kept, and every other live block keeps its contents. |
| `SmallHeap.Heap.Store` | src/os/rt-thread/src/mem.c:344-345 | A write by the holder of a live block keeps the heap valid and changes no other block. |
| `MemHeapProofs.InitPoolOk` | src/os/rt-thread/src/memheap.c:41-98 | A new pool, one free block and a used tail, is well formed. |
| `MemHeapProofs.AllocKeeps` | src/os/rt-thread/src/memheap.c:122-246 | rt_memheap_alloc keeps the pool well formed: blocks tile it, no two unused neighbours, the free list holds exactly the unused blocks once each, available_size is the sum of their payloads. |
| `MemHeapProofs.FreeAtKeeps` | src/os/rt-thread/src/memheap.c:277-333 | rt_memheap_free of a used block keeps the pool well formed through both merges. |
| `MemHeapProofs.TakeAccounts` | src/os/rt-thread/src/memheap.c:169-223 | Cutting or taking a block changes the free list and available_size by exactly what it changes in the row of blocks. |
| `MemHeapProofs.FreeAccounts` | src/os/rt-thread/src/memheap.c:280-333 | So does freeing, in each of the four merge cases. |
| `MemHeapTheorems.RunKeeps` | src/os/rt-thread/src/memheap.c:122-337 | Every run of allocations and frees keeps the pool well formed. |
| `MemHeapTheorems.BlocksApart` | src/os/rt-thread/src/memheap.c:52-98 | Two blocks of a well-formed pool never overlap. |
| `MemHeapTheorems.AllocAddsOne` | src/os/rt-thread/src/memheap.c:150-235 | A successful allocation adds exactly one live block: aligned, before the tail, large enough and not much larger, apart from every live block. |
| `MemHeapTheorems.GrantHolds` | src/os/rt-thread/src/memheap.c:130-133 | The granted block holds the bytes asked for if and only if RT_ALIGN does not wrap. |
| `MemHeapTheorems.FreeRemovesOne` | src/os/rt-thread/src/memheap.c:259-333 | rt_memheap_free removes exactly the block of the pointer. |
| `MemHeapTheorems.RefusesIff` | src/os/rt-thread/src/memheap.c:137-165 | An allocation is refused if and only if no free block is large enough or the rounded size equals available_size. |
| `MemHeapTheorems.RefusalKeeps` | src/os/rt-thread/src/memheap.c:137-165 | A refused allocation changes nothing. |
| `MemHeapTheorems.WholePoolRefused` | src/os/rt-thread/src/memheap.c:137-137 | A new pool refuses a request for all of its bytes and grants one word less. |
| `MemHeapTheorems.EmptyIsInitial` | src/os/rt-thread/src/memheap.c:52-98 | A well-formed pool without live blocks is the initial pool, free list and counter included. |
| `MemHeapTheorems.FullRecovery` | src/os/rt-thread/src/memheap.c:249-337 | Freeing all live blocks in any order restores the initial pool. |
| `MemHeap.Heap.constructor` | src/os/rt-thread/src/memheap.c:41-98 | The rings and flags it writes represent the initial pool. |
| `MemHeap.Heap.Search` | src/os/rt-thread/src/memheap.c:150-162 | The walk along the free ring returns the first entry that is large enough, in list order. |
| `MemHeap.Heap.Split` | src/os/rt-thread/src/memheap.c:169-208 | Relinking both rings for a cut block gives the rings of the specified pool. |
| `MemHeap.Heap.TakeWhole` | src/os/rt-thread/src/memheap.c:210-223 | Unlinking a block from the free ring gives the rings of the specified pool. |
| `MemHeap.Heap.Alloc` | src/os/rt-thread/src/memheap.c:122-246 | The in-place allocation computes the specified pool and pointer, with next and prev inverse on both rings. |
| `MemHeap.Heap.JoinLeft` | src/os/rt-thread/src/memheap.c:285-301 | The merge with an unused left neighbour removes the block from the block ring. |
| `MemHeap.Heap.JoinRight` | src/os/rt-thread/src/memheap.c:303-321 | The merge with an unused right neighbour removes that one from both rings. |
| `MemHeap.Heap.Merge` | src/os/rt-thread/src/memheap.c:285-333 | Both merges and the insertion into the free ring give the rings of the specified pool. |
| `MemHeap.Heap.Free` | src/os/rt-thread/src/memheap.c:249-337 | The in-place free computes the specified pool, with next and prev inverse on both rings. |
| `Rings.InsertAfterRing` | src/os/rt-thread/include/rtservice.h:52-59 | Insertion behind any node of a ring yields the ring with the node there, linked both ways. |
| `Rings.InsertBeforeIsAfter` | src/os/rt-thread/include/rtservice.h:67-74 | Insertion in front of a node is insertion behind its predecessor. |
| `Rings.InsertBeforeRing` | src/os/rt-thread/include/rtservice.h:67-74 | Insertion in front of any node yields the ring with the node there, linked both ways. |
| `Rings.BypassRing` | src/os/rt-thread/include/rtservice.h:80-83 | Linking the neighbours of a node closes the ring without it. |
| `Rings.IsolateRing` | src/os/rt-thread/include/rtservice.h:80-86 | rt_list_remove leaves two rings: the rest, and the node by itself. |
| `Rings.RingFrame` | src/os/rt-thread/include/rtservice.h:52-86 | A ring whose nodes keep their links is not affected by changes elsewhere. |
| `Rings.InsertThenRemove` | src/os/rt-thread/include/rtservice.h:52-86 | Removal undoes insertion. |
| `Chains.Relinked` | src/os/rt-thread/src/slab.c:245-316 | Changing one link of a singly linked list, and linking what hangs there, replaces exactly that stretch of it. |
| `Lists.Nodes.Init` | src/os/rt-thread/include/rtservice.h:41-44 | A node that links to itself is a ring of one. |
| `Lists.Nodes.InsertAfter` | src/os/rt-thread/include/rtservice.h:52-59 | The four assignments perform the insertion. |
| `Lists.Nodes.InsertBefore` | src/os/rt-thread/include/rtservice.h:67-74 | Insertion in front of any node of a ring; in front of the header the node comes last. |
| `Lists.Nodes.Remove` | src/os/rt-thread/include/rtservice.h:80-86 | Any node leaves its ring, the ring closes, and the node is a ring of its own. |
| `Lists.Nodes.IsEmpty` | src/os/rt-thread/include/rtservice.h:92-95 | True if and only if the header is alone in its ring. |
| `PagesSpec.AllocFailsIff` | src/os/rt-thread/src/slab.c:235-269 | rt_page_alloc returns null if and only if no run of that many consecutive free pages exists. |
| `PagesSpec.AllocTakes` | src/os/rt-thread/src/slab.c:235-269 | It takes exactly the pages it returns out of the free set, and the list stays the sorted list of maximal runs. |
| `PagesSpec.FreeGives` | src/os/rt-thread/src/slab.c:271-321 | rt_page_free adds exactly the given pages to the free set, and the list stays the sorted list of maximal runs. |
| `PagesSpec.Unique` | src/os/rt-thread/src/slab.c:235-321 | There is only one sorted list of maximal runs for a set of free pages. |
| `PagesSpec.AllocThenFree` | src/os/rt-thread/src/slab.c:235-321 | Freeing what was just allocated restores the list exactly. |
| `PagesSpec.InitIsOneRun` | src/os/rt-thread/src/slab.c:326-333 | Initialisation makes one run of all pages. |
| `Pages.PageList.constructor` | src/os/rt-thread/src/slab.c:326-333 | Freeing all pages into an empty list makes one run of them. |
| `Pages.PageList.FindFit` | src/os/rt-thread/src/slab.c:245-263 | The search loop finds the first run that is long enough. |
| `Pages.PageList.Alloc` | src/os/rt-thread/src/slab.c:235-269 | rt_page_alloc on the links and lengths stored in the pages is the specified one. |
| `Pages.PageList.TakeFrom` | src/os/rt-thread/src/slab.c:247-262 | Cutting a run or taking it whole, through the pointer to the link before it, relinks the list as specified. |
| `Pages.PageList.FindStop` | src/os/rt-thread/src/slab.c:285-314 | The loop stops at the run that touches or follows the freed pages. |
| `Pages.PageList.Free` | src/os/rt-thread/src/slab.c:271-321 | rt_page_free on the links and lengths stored in the pages, with its three ways to merge, is the specified one. |
| `Pages.PageList.Extend` | src/os/rt-thread/src/slab.c:290-299 | The run before the freed pages grows and swallows the one behind them if it touches it. |
| `Pages.PageList.PutInFront` | src/os/rt-thread/src/slab.c:301-308 | The run behind the freed pages starts with them. |
| `Pages.PageList.PutBefore` | src/os/rt-thread/src/slab.c:314-316 | The freed pages become a run of their own at their place. |
| `SlabSizes.ChooseZoneSize` | src/os/rt-thread/src/slab.c:373-376 | The zone size is 32, 64 or 128 KB, the first that the heap does not outgrow. |
| `SlabSizes.ZoneIndexOk` | src/os/rt-thread/src/slab.c:400-456 | Every request below the limit gets an index below 72 and a chunk that is large enough and less than one granule larger; the index alone determines the chunk size. |
| `SlabSizes.PowerOfTwoTest` | src/os/rt-thread/src/slab.c:632-632 | The bit test is true exactly of the powers of two. |
| `SlabSizes.CapacityOk` | src/os/rt-thread/src/slab.c:625-643 | Every size class fits at least two chunks behind the zone header, so a new zone always has a chunk to spare. |
| `SlabZones.LiveCount` | src/os/rt-thread/src/slab.c:169-182 | z_nfree counts exactly the chunks nobody holds: those on the free list and those never used; it equals z_nmax if and only if no chunk is held. |
| `SlabZones.GrabOk` | src/os/rt-thread/src/slab.c:540-569 | Taking a chunk hands out one that nobody held and changes nothing else. |
| `SlabZones.PutOk` | src/os/rt-thread/src/slab.c:843-859 | Giving a chunk back removes exactly that one from the held ones. |
| `SlabZones.AlignedIff` | src/os/rt-thread/src/slab.c:628-635 | A chunk of a power-of-two size is aligned to its size if and only if its zone is; up to one page it always is. |
| `PageOwners.TakeSpan` | src/os/rt-thread/src/slab.c:235-269 | Every page of the heap is free or in exactly one taken stretch, and allocation keeps it so. |
| `PageOwners.GiveSpan` | src/os/rt-thread/src/slab.c:271-321 | Freeing a stretch keeps it so. |
| `SlabProofs.ListedKeeps` | src/os/rt-thread/src/slab.c:540-569 | Allocation from a listed zone keeps the directory: a zone is in zone_array exactly when it is not parked and has a free chunk, once. |
| `SlabProofs.ParkedKeeps` | src/os/rt-thread/src/slab.c:588-649 | So does taking a parked zone over for another size class. |
| `SlabProofs.NewKeeps` | src/os/rt-thread/src/slab.c:597-649 | So does making a zone from fresh pages, with memusage leading each of its pages back to it. |
| `SlabProofs.PutBackKeeps` | src/os/rt-thread/src/slab.c:839-859 | So does returning a chunk. |
| `SlabProofs.ParkKeeps` | src/os/rt-thread/src/slab.c:867-885 | So does parking a zone without held chunks. |
| `SlabProofs.ReleaseKeeps` | src/os/rt-thread/src/slab.c:887-911 | So does giving the pages of a parked zone back. |
| `SlabTheorems.StartInv` | src/os/rt-thread/src/slab.c:343-394 | rt_system_heap_init yields a slab that satisfies the whole invariant, whatever the memusage pages contained. |
| `SlabTheorems.MallocKeeps` | src/os/rt-thread/src/slab.c:475-669 | rt_malloc keeps the whole invariant, including at most two parked zones and at most one zone without held chunks per size class. |
| `SlabTheorems.FreeKeeps` | src/os/rt-thread/src/slab.c:777-915 | rt_free keeps the whole invariant. |
| `SlabTheorems.ChunkHome` | src/os/rt-thread/src/slab.c:839-841 | memusage leads every held chunk to its own zone, and the chunk lies behind the header within the zone. |
| `SlabTheorems.LargeHome` | src/os/rt-thread/src/slab.c:810-819 | memusage leads every large block to its page count. |
| `SlabTheorems.OneHome` | src/os/rt-thread/src/slab.c:810-841 | A pointer is held in one zone only and is never also a large block. |
| `SlabTheorems.LiveApart` | src/os/rt-thread/src/slab.c:475-669 | Two held blocks, small or large, share no byte. |
| `SlabTheorems.MallocAddsOne` | src/os/rt-thread/src/slab.c:475-669 | A null result changes nothing; otherwise the result was held by nobody, is large enough, and every other held block stays with its size. |
| `SlabTheorems.PagesForEnough` | src/os/rt-thread/src/slab.c:495-499 | 32-bit rounding to pages never yields fewer bytes than asked for, except that it yields none at all for the last 4095 sizes. |
| `SlabTheorems.FreeRemovesOne` | src/os/rt-thread/src/slab.c:777-915 | rt_free removes exactly the block it is given, on the large path and on every small path. |
| `SlabTheorems.StaysAlone` | src/os/rt-thread/src/slab.c:867-867 | A zone that becomes free of held chunks and stays on its list is the only such zone of its class. |
| `SlabTheorems.MallocFailsIff` | src/os/rt-thread/src/slab.c:475-669 | The exact condition under which rt_malloc returns null, for large and for small sizes. |
| `SlabResults.SmallBase` | src/os/rt-thread/src/slab.c:530-649 | A small request is served from the zone that the state before the call determines, with a chunk of its class. |
| `SlabResults.LargeBase` | src/os/rt-thread/src/slab.c:495-506 | A large request gets the first run of free pages that is long enough in the state before the call. |
| `SlabResults.SmallRequestsAligned` | src/os/rt-thread/src/slab.c:152-153 | Every power-of-two request up to one page is aligned to its size. |
| `SlabResults.LargerRequestsAlignedIff` | src/os/rt-thread/src/slab.c:152-153 | A power-of-two request beyond one page is aligned to its size if and only if the page that the state before the call assigns to it is a multiple of the request in pages. |
| `SlabResults.TwoPagesUnaligned` | src/os/rt-thread/src/slab.c:152-153 | A new heap on which a request for 8192 bytes is not aligned to 8192, against the comment. |
| `SlabResults.StepAgrees` | src/os/rt-thread/src/slab.c:475-915 | Every rt_malloc and every rt_free of a held pointer keeps the invariant, the agreement of the slab with the set of held pointers, and the sizes of the blocks that stay held. |
| `SlabResults.RunAgrees` | src/os/rt-thread/src/slab.c:475-915 | Over every run from start-up the invariant holds, and the live blocks are exactly the pointers that callers hold. |
| `SlabResults.HeldBlocksApart` | src/os/rt-thread/src/slab.c:475-915 | At every point of every run the blocks that callers hold share no byte. |
| `SlabResults.NothingHeld` | src/os/rt-thread/src/slab.c:777-915 | When nothing is held, every zone is whole and every page is free but those of the memusage table and of the zones kept: at most two parked and at most one for each size class. |
| `SlabAllocator.Allocator.constructor` | src/os/rt-thread/src/slab.c:343-394 | Computes the zone size from the heap size, takes the memusage pages and leaves a slab that satisfies the invariant, with nothing held. |
| `SlabAllocator.Allocator.MarkPages` | src/os/rt-thread/src/slab.c:612-619 | The loop over memusage writes exactly the entries of the zone. |
| `SlabAllocator.Allocator.PushZone` | src/os/rt-thread/src/slab.c:647-649 | Linking a zone in front of its list keeps every other list. |
| `SlabAllocator.Allocator.PopZone` | src/os/rt-thread/src/slab.c:544-549 | Unlinking the first zone of a list keeps every other list. |
| `SlabAllocator.Allocator.FindZone` | src/os/rt-thread/src/slab.c:873-875 | The walk through pointers to links stops at the link that leads to the zone. |
| `SlabAllocator.Allocator.TakeOut` | src/os/rt-thread/src/slab.c:873-876 | Redirecting that link takes the zone, and no other, off its list. |
| `SlabAllocator.Allocator.PushParked` | src/os/rt-thread/src/slab.c:881-885 | The zone is linked in front of the parked ones and counted. |
| `SlabAllocator.Allocator.PopParked` | src/os/rt-thread/src/slab.c:591-596 | The first parked zone is unlinked and discounted. |
| `SlabAllocator.Allocator.MallocLarge` | src/os/rt-thread/src/slab.c:495-506 | The large path in place is the specified one. |
| `SlabAllocator.Allocator.MallocListed` | src/os/rt-thread/src/slab.c:540-569 | The path through the first zone of a list, with its links in zone_array and z_next, is the specified one. |
| `SlabAllocator.Allocator.OpenZone` | src/os/rt-thread/src/slab.c:622-649 | Writing the header and linking the zone in front of its list gives the specified slab and the first chunk. |
| `SlabAllocator.Allocator.TakeChunk` | src/os/rt-thread/src/slab.c:551-569 | A chunk that was never used, or else the first of the free list. |
| `SlabAllocator.Allocator.PutBack` | src/os/rt-thread/src/slab.c:843-859 | The chunk goes to the free list of its zone, and a zone that was full is linked in front of its list. |
| `SlabAllocator.Allocator.NewFromParked` | src/os/rt-thread/src/slab.c:591-596 | A parked zone is reused as specified. |
| `SlabAllocator.Allocator.NewFromPages` | src/os/rt-thread/src/slab.c:597-620 | A zone from fresh pages is made as specified. |
| `SlabAllocator.Allocator.Malloc` | src/os/rt-thread/src/slab.c:475-669 | The in-place rt_malloc computes the specified slab and pointer and keeps the invariant. |
| `SlabAllocator.Allocator.IsSpare` | src/os/rt-thread/src/slab.c:867-867 | The test reads off the links exactly whether the zone is to be parked. |
| `SlabAllocator.Allocator.Park` | src/os/rt-thread/src/slab.c:873-885 | Parking in place is the specified one. |
| `SlabAllocator.Allocator.Release` | src/os/rt-thread/src/slab.c:887-911 | Releasing a parked zone in place is the specified one. |
| `SlabAllocator.Allocator.Retire` | src/os/rt-thread/src/slab.c:867-911 | Parking a whole zone and releasing one beyond the second parked is as specified. |
| `SlabAllocator.Allocator.FreeLarge` | src/os/rt-thread/src/slab.c:810-834 | The large path of rt_free in place is the specified one. |
| `SlabAllocator.Allocator.FreeSmall` | src/os/rt-thread/src/slab.c:836-914 | The zone path of rt_free in place is the specified one. |
| `SlabAllocator.Allocator.Free` | src/os/rt-thread/src/slab.c:777-915 | The in-place rt_free returns at once for null, computes the specified slab for every held pointer and keeps the invariant. |
| `WaitQueue.Suspend` | src/os/rt-thread/src/ipc.c:80-118 | The walk over the suspend list puts the thread at the end, or before the first thread of lower priority. |
| `WaitQueue.EnqueueInOrder` | src/os/rt-thread/src/ipc.c:85-115 | The list stays in serving order: arrival, or priority and then arrival. |
| `WaitQueue.HeadIsFirst` | src/os/rt-thread/src/ipc.c:129-142 | The thread resumed from the head is served before every other. |
| `WaitQueue.FailAllValues` | src/os/rt-thread/src/ipc.c:152-180 | Resuming all waiters fails every thread of the list and nobody else. |
| `WaitQueue.RemainingEnds` | src/os/rt-thread/src/ipc.c:1413-1431 | A thread woken early has used its time up if and only if it has slept that long; for ever stays for ever; otherwise what is left and what was slept add up. |
| `WaitQueue.RemainingAdds` | src/os/rt-thread/src/ipc.c:1413-1431 | Charging two sleeps one after the other is charging their sum. |
| `SemaphoreSpec.NextKeeps` | src/os/rt-thread/src/ipc.c:308-442 | Every take, release and timeout keeps: a positive value means no waiter, and the list is in serving order. |
| `SemaphoreSpec.ReleaseServesFirst` | src/os/rt-thread/src/ipc.c:409-442 | A release grants the unit to the waiter that comes first by the flag. |
| `SemaphoreSpec.ReleaseConservesIff` | src/os/rt-thread/src/ipc.c:409-442 | A release conserves units if and only if it does not overflow the 16-bit value with nobody waiting. |
| `SemaphoreSpec.RunConserves` | src/os/rt-thread/src/ipc.c:308-442 | Over every run without overflow, initial value plus releases equals value plus successful takes. |
| `SemaphoreResults.TakeAnswers` | src/os/rt-thread/src/ipc.c:308-385 | rt_sem_take succeeds if and only if there is a unit, and otherwise gives up if and only if it may not wait. |
| `SemaphoreResults.TakeChanges` | src/os/rt-thread/src/ipc.c:308-385 | A take that succeeds uses up one unit, one that gives up changes nothing, one that blocks adds exactly this thread, with its time, to the list. |
| `SemaphoreResults.ReleaseChanges` | src/os/rt-thread/src/ipc.c:409-442 | A release hands the unit to the first waiting thread, which alone leaves the list, or adds one to the 16-bit value. |
| `SemaphoreResults.TimeoutChanges` | src/os/rt-thread/src/thread.c:607-628 | A timeout fails one waiting thread and changes nothing else. |
| `SemaphoreResults.UnitsOverRuns` | src/os/rt-thread/src/ipc.c:308-442 | Over every run without overflow: initial value plus the releases made is the value plus the takes that succeeded at once plus the units handed to waiting threads. |
| `Semaphore.Object.Take` | src/os/rt-thread/src/ipc.c:308-385 | The in-place rt_sem_take is the specified step and gives its answer. |
| `Semaphore.Object.Release` | src/os/rt-thread/src/ipc.c:409-442 | The in-place rt_sem_release is the specified step. |
| `Semaphore.Object.Timeout` | src/os/rt-thread/src/thread.c:607-628 | A timeout of a waiter is the specified step. |
| `MutexProofs.TakeKeeps` | src/os/rt-thread/src/ipc.c:615-729 | rt_mutex_take by a thread involved with no other mutex keeps inheritance and ownership over all mutexes and threads, on each of its four paths. |
| `MutexProofs.ReleaseKeeps` | src/os/rt-thread/src/ipc.c:740-815 | rt_mutex_release keeps it, through nested release, hand-off and free. |
| `MutexProofs.ExpireKeeps` | src/os/rt-thread/src/thread.c:607-628 | So does the timeout of a waiter. |
| `MutexProofs.PriorityKeeps` | src/os/rt-thread/src/thread.c:455-496 | So does a change of priority by the application of a thread that is involved with no mutex. |
| `MutexProofs.NextKeeps` | src/os/rt-thread/src/ipc.c:615-815 | Every step keeps the invariant. |
| `MutexTheorems.RunKeepsInv` | src/os/rt-thread/src/ipc.c:615-815 | Every state of such a run satisfies it. |
| `MutexTheorems.OwnerOutranksWaiters` | src/os/rt-thread/src/ipc.c:679-689 | In every run in which a thread is involved with one mutex at a time, and applications change priorities of uninvolved threads freely: the owner of a PRIO mutex has a priority number no greater than that of any waiter. |
| `MutexTheorems.ReleaseRestores` | src/os/rt-thread/src/ipc.c:772-810 | The final release restores exactly the priority recorded at acquisition, which is the one the application gave, and no thread that owns nothing runs at a borrowed priority. |
| `MutexTheorems.AcquireRecords` | src/os/rt-thread/src/ipc.c:650-659 | Acquisition records the priority the thread has at that moment. |
| `MutexTheorems.OwnershipOverRuns` | src/os/rt-thread/src/ipc.c:640-810 | In every state of every run, with any number of mutexes for each thread: value is 0 or 1; it is 1 exactly when there is no owner, exactly when hold is 0, and then nobody waits; the owner does not wait; hold is the number of unmatched takes; no thread waits twice. |
| `MutexTheorems.NextOwned` | src/os/rt-thread/src/ipc.c:615-815 | Every take, release, timeout and change of priority keeps ownership, whatever other mutexes the thread owns; hold must have room and the caller must be awake. |
| `MutexTheorems.FairRunOwned` | src/os/rt-thread/src/ipc.c:615-815 | So does every run of such steps. |
| `MutexTheorems.ReleaseKeepsOtherIff` | src/os/rt-thread/src/ipc.c:772-810 | A thread that owns two mutexes and releases one leaves the other inherited if and only if the priority saved in the first is no lower than that of any thread waiting for the second. |
| `MutexTheorems.RaiseKeepsOtherIff` | src/os/rt-thread/src/ipc.c:679-689 | Raising an owner that itself waits keeps the mutex it waits for inherited if and only if the owner of that one outranks the new priority already. |
| `MutexTheorems.PrioHeadIsHighest` | src/os/rt-thread/src/ipc.c:91-113 | On a PRIO mutex the head of the wait list has the highest priority, so a hand-off inherits. |
| `MutexTheorems.HandOffInheritsIff` | src/os/rt-thread/src/ipc.c:783-800 | After a hand-off, in any run, the new owner outranks its waiters if and only if the head of the list had the highest current priority. |
| `MutexTheorems.FifoHandOffInverts` | src/os/rt-thread/src/ipc.c:783-800 | A run of three takes and a release on a FIFO mutex that leaves the new owner below a waiter. |
| `MutexTheorems.TwoMutexesInvert` | src/os/rt-thread/src/ipc.c:776-781 | A run in which a thread takes two mutexes, is raised through the first and releases the second, which lowers it below its waiter. |
| `MutexTheorems.NestedTakeIff` | src/os/rt-thread/src/ipc.c:640-644 | A nested take keeps ownership consistent if and only if the 8-bit hold counter has room. |
| `MutexOutcomes.TakeAnswers` | src/os/rt-thread/src/ipc.c:615-729 | rt_mutex_take succeeds if and only if the mutex is free or the caller's own, and otherwise gives up if and only if it may not wait. |
| `MutexOutcomes.TakeGrants` | src/os/rt-thread/src/ipc.c:640-660 | A take that succeeds makes the caller the owner, one take deeper, and changes no priority and no other mutex. |
| `MutexOutcomes.TakeGivesUp` | src/os/rt-thread/src/ipc.c:662-672 | A take that gives up changes nothing. |
| `MutexOutcomes.TakeBlocks` | src/os/rt-thread/src/ipc.c:674-729 | A take that blocks leaves the owner, adds exactly the caller to the waiting threads and gives the owner the better of the two priorities; no other priority changes. |
| `MutexOutcomes.TakeBlocksAt` | src/os/rt-thread/src/ipc.c:85-115 | The caller comes last on a FIFO list, and on a PRIO list behind all threads whose current priority is no worse and in front of the first one whose current priority is. |
| `MutexOutcomes.ReleaseByOther` | src/os/rt-thread/src/ipc.c:760-769 | A release by a thread that is not the owner fails and changes nothing. |
| `MutexOutcomes.ReleaseUndoesTake` | src/os/rt-thread/src/ipc.c:640-772 | The release of a nested take restores the state before it. |
| `MutexOutcomes.ReleaseUndoesFirstTake` | src/os/rt-thread/src/ipc.c:646-810 | A take and a release of a free mutex leave it free and every priority as it was. |
| `MutexOutcomes.ReleaseAnswers` | src/os/rt-thread/src/ipc.c:771-810 | The owner's release succeeds; it gives the mutex up exactly at the last of its takes, and then the owner has the saved priority again; other threads and mutexes are not touched. |
| `MutexOutcomes.ReleaseHandsOver` | src/os/rt-thread/src/ipc.c:783-800 | The last release makes the first waiting thread the owner, held once, and that thread alone leaves the list. |
| `MutexOutcomes.ExpireLeaves` | src/os/rt-thread/src/thread.c:607-628 | A timeout takes one thread off one list and changes nothing else. |
| `MutexOutcomes.OnlyTheOwnerReleases` | src/os/rt-thread/src/ipc.c:740-815 | In every run a thread loses a mutex only by its own release of it. |
| `MutexOutcomes.OwnerKeepsMutex` | src/os/rt-thread/src/ipc.c:740-815 | In every run a mutex keeps its owner for as long as that thread does not release it, whatever others take, release or time out. |
| `Mutex.Kernel.constructor` | src/os/rt-thread/src/ipc.c:498-520 | Fresh mutexes satisfy the invariant. |
| `Mutex.Kernel.Take` | src/os/rt-thread/src/ipc.c:615-729 | rt_mutex_take, with its walk over the current priorities of the waiting threads, is the specified step, for any number of mutexes. |
| `Mutex.Kernel.Release` | src/os/rt-thread/src/ipc.c:740-815 | The in-place rt_mutex_release is the specified step and gives its answer. |
| `Mutex.Kernel.Timeout` | src/os/rt-thread/src/thread.c:607-628 | A timeout of a waiter is the specified step. |
| `EventSpec.ServeLeavesUnsatisfied` | src/os/rt-thread/src/ipc.c:978-1028 | After the loop of rt_event_send nobody left on the list is satisfied by the final set, whatever was cleared on the way. |
| `EventSpec.ServeThins` | src/os/rt-thread/src/ipc.c:978-1028 | The loop only removes threads and keeps the order of the rest. |
| `EventSpec.NextKeeps` | src/os/rt-thread/src/ipc.c:959-1150 | Every step keeps: no suspended thread is satisfied, and the list is in serving order. |
| `EventSpec.NobodyWaitsSatisfied` | src/os/rt-thread/src/ipc.c:959-1150 | In every reachable state no suspended thread is satisfied by the event set. |
| `EventResults.SameBits` | src/os/rt-thread/src/ipc.c:1078-1090 | A 32-bit set is determined by the numbers of its bits. |
| `EventResults.SatisfiedIff` | src/os/rt-thread/src/ipc.c:1078-1090 | The test holds if and only if, with AND, every bit asked for is in the set, and otherwise, with OR, some bit asked for is. |
| `EventResults.RecvAnswers` | src/os/rt-thread/src/ipc.c:1053-1150 | On single bits: a receive of no bits fails; any other ends at once if and only if, with AND, every bit it asks for is there, and otherwise, with OR, some bit is; else it gives up if and only if it may not wait. |
| `EventResults.RecvTakes` | src/os/rt-thread/src/ipc.c:1092-1103 | A receive that succeeds returns the bits it shares with the set, and with CLEAR exactly the bits it asks for leave the set. |
| `EventResults.RecvWaits` | src/os/rt-thread/src/ipc.c:1104-1130 | A receive that fails or gives up changes nothing; one that blocks adds exactly this thread, with its wish, to the list. |
| `EventResults.SendWakes` | src/os/rt-thread/src/ipc.c:959-1040 | A send of some bits wakes, in list order, exactly the threads whose wish is met, on single bits, by the old and the sent bits less what threads before them cleared; each gets the bits it shares with that set, and every other stays on the list. |
| `EventResults.SendSets` | src/os/rt-thread/src/ipc.c:959-1040 | Afterwards the set holds exactly the old and the sent bits less what the woken threads cleared. |
| `EventResults.SendAdds` | src/os/rt-thread/src/ipc.c:978-979 | With nobody waiting it holds exactly the old and the sent bits. |
| `EventResults.TimeoutLeaves` | src/os/rt-thread/src/thread.c:607-628 | A timeout fails one waiting thread and changes nothing else. |
| `EventResults.ResetFails` | src/os/rt-thread/src/ipc.c:1158-1183 | A reset clears every bit and fails every waiting thread. |
| `EventResults.NobodyWaitsForWhatIsThere` | src/os/rt-thread/src/ipc.c:959-1150 | In every reachable state, on single bits: a thread that waits with AND misses a bit, and one that waits with OR misses all of them. |
| `Event.WokenAsImmediate` | src/os/rt-thread/src/ipc.c:991-1019 | A thread woken in the loop receives and clears exactly what an immediate receive at that moment would. |
| `Event.EventObject.ServeAll` | src/os/rt-thread/src/ipc.c:978-1028 | The loop over the list in place serves the threads in list order as specified. |
| `Event.EventObject.Send` | src/os/rt-thread/src/ipc.c:959-1040 | The in-place rt_event_send is the specified step and gives its answer. |
| `Event.EventObject.Recv` | src/os/rt-thread/src/ipc.c:1053-1150 | The in-place rt_event_recv, up to its return or its sleep, is the specified step, with the received set. |
| `Event.EventObject.Timeout` | src/os/rt-thread/src/thread.c:607-628 | A timeout of a waiter is the specified step. |
| `MailboxSpec.SendSectionKeeps` | src/os/rt-thread/src/ipc.c:1366-1453 | A sender that runs stores a mail, gives up or waits again, and no wake-up is lost. |
| `MailboxSpec.RecvSectionKeeps` | src/os/rt-thread/src/ipc.c:1507-1599 | A receiver that runs takes a mail, gives up or waits again, and no wake-up is lost. |
| `MailboxSpec.NextKeeps` | src/os/rt-thread/src/ipc.c:1347-1648 | Every step of every thread, timer and reset keeps the invariant: while a receiver is suspended, entry is at most the number of woken receivers that have not run, and dually for senders and free slots. |
| `MailboxSpec.RunKeepsInv` | src/os/rt-thread/src/ipc.c:1347-1648 | Every state of every interleaving satisfies it. |
| `MailboxSpec.NobodySleepsThroughAMail` | src/os/rt-thread/src/ipc.c:1347-1607 | Once everyone who was woken has run, suspended receivers mean an empty box and suspended senders a full one. |
| `MailboxSpec.DeliversInOrder` | src/os/rt-thread/src/ipc.c:1433-1440 | Over every run, what was received since the last reset is a prefix of what was sent, and the rest is stored, in order. |
| `MailboxResults.SendAnswers` | src/os/rt-thread/src/ipc.c:1366-1453 | A sender stores its mail if and only if there is room, and otherwise gives up if and only if its time is used up. |
| `MailboxResults.SendStores` | src/os/rt-thread/src/ipc.c:1433-1453 | A mail that is stored is the last one, and exactly the first suspended receiver is woken. |
| `MailboxResults.SendWaits` | src/os/rt-thread/src/ipc.c:1366-1412 | A sender that gives up changes nothing; one that blocks joins the suspended senders, with its mail and the time it has left. |
| `MailboxResults.RecvAnswers` | src/os/rt-thread/src/ipc.c:1507-1599 | A receiver takes a mail if and only if there is one, and otherwise gives up if and only if its time is used up. |
| `MailboxResults.RecvTakes` | src/os/rt-thread/src/ipc.c:1576-1599 | The mail taken is the oldest, and exactly the first suspended sender is woken. |
| `MailboxResults.RecvWaits` | src/os/rt-thread/src/ipc.c:1507-1555 | A receiver that gives up changes nothing; one that blocks joins the suspended receivers. |
| `MailboxResults.SenderRetries` | src/os/rt-thread/src/ipc.c:1413-1453 | A woken sender that finds the box full again gives up if and only if it has slept for as long as it had left, and otherwise waits for exactly the rest. |
| `MailboxResults.ReceiverRetries` | src/os/rt-thread/src/ipc.c:1556-1599 | So does a woken receiver that finds the box empty again. |
| `MailboxResults.TimeoutFails` | src/os/rt-thread/src/thread.c:607-628 | A timeout fails one suspended thread and changes nothing else. |
| `MailboxResults.ResetFails` | src/os/rt-thread/src/ipc.c:1619-1648 | A reset empties the box and fails every suspended thread. |
| `Mailbox.Mailbox.constructor` | src/os/rt-thread/src/ipc.c:1200-1223 | The empty mailbox. |
| `Mailbox.Mailbox.Put` | src/os/rt-thread/src/ipc.c:1433-1440 | Writing at the input offset appends to the bounded FIFO; in_offset stays (out_offset + entry) mod size. |
| `Mailbox.Mailbox.Get` | src/os/rt-thread/src/ipc.c:1576-1584 | Reading at the output offset removes the head of the FIFO. |
| `Mailbox.Mailbox.SendSection` | src/os/rt-thread/src/ipc.c:1366-1453 | One critical section of rt_mb_send_wait on the ring is the specified one. |
| `Mailbox.Mailbox.RecvSection` | src/os/rt-thread/src/ipc.c:1507-1599 | One critical section of rt_mb_recv on the ring is the specified one, and returns the oldest mail. |
| `Mailbox.Mailbox.Send` | src/os/rt-thread/src/ipc.c:1347-1459 | A call of rt_mb_send_wait is the specified step; it succeeds if and only if there is room, and otherwise is refused or sleeps, by its timeout. |
| `Mailbox.Mailbox.Recv` | src/os/rt-thread/src/ipc.c:1488-1607 | A call of rt_mb_recv is the specified step; it succeeds, with the oldest mail, if and only if there is one, and otherwise times out or sleeps. |
| `Mailbox.Mailbox.SendAgain` | src/os/rt-thread/src/ipc.c:1413-1431 | A woken sender charges the time it slept and retries, as specified, and is refused if and only if nothing is left of its time. |
| `Mailbox.Mailbox.RecvAgain` | src/os/rt-thread/src/ipc.c:1556-1574 | A woken receiver charges the time it slept and retries, as specified, and times out if and only if nothing is left of its time. |
| `Mailbox.Mailbox.SenderTimeout` | src/os/rt-thread/src/thread.c:607-628 | The timeout of a waiting sender is the specified step. |
| `Mailbox.Mailbox.ReceiverTimeout` | src/os/rt-thread/src/thread.c:607-628 | The timeout of a waiting receiver is the specified step. |
| `Mailbox.Mailbox.FailedReturn` | src/os/rt-thread/src/ipc.c:1413-1418 | A thread whose wait failed returns its error. |
| `Mailbox.Mailbox.FailLists` | src/os/rt-thread/src/ipc.c:152-180 | Resuming all waiters fails exactly the threads on both lists. |
| `Mailbox.Mailbox.Reset` | src/os/rt-thread/src/ipc.c:1619-1648 | A reset is the specified step. |
| `MessageQueueSpec.Conservation` | src/os/rt-thread/src/ipc.c:1864-1904 | Queue, free list and messages in flight together always number the nodes of the pool. |
| `MessageQueueSpec.ReserveKeeps` | src/os/rt-thread/src/ipc.c:1864-1881 | Taking a free node keeps the pool well formed: links, partition, ends, entry and contents. |
| `MessageQueueSpec.FillKeeps` | src/os/rt-thread/src/ipc.c:1883-1886 | Filling the node one holds, with interrupts on, touches neither list. |
| `MessageQueueSpec.AppendKeeps` | src/os/rt-thread/src/ipc.c:1888-1904 | So does appending a filled node. |
| `MessageQueueSpec.PrependKeeps` | src/os/rt-thread/src/ipc.c:1974-1986 | So does an urgent message in front. |
| `MessageQueueSpec.PopKeeps` | src/os/rt-thread/src/ipc.c:2108-2121 | So does taking the head, and the message taken is the first stored one. |
| `MessageQueueSpec.GiveBackKeeps` | src/os/rt-thread/src/ipc.c:2126-2132 | So does giving a node back. |
| `MessageQueueSpec.ResetKeeps` | src/os/rt-thread/src/ipc.c:2164-2182 | So does a reset, which puts the queued nodes in front of the free ones, last first, and leaves nodes in flight alone. |
| `MessageQueueSpec.EndsOf` | src/os/rt-thread/src/ipc.c:1889-1898 | What the code tests, head, tail and free for null and entry for 0, decides which lists are empty. |
| `MessageQueueRuns.WakeKeeps` | src/os/rt-thread/src/ipc.c:1906-1917 | A send with its wake-up loses no wake-up. |
| `MessageQueueRuns.RecvKeeps` | src/os/rt-thread/src/ipc.c:2036-2121 | A receiver that runs takes a message, gives up or waits again, and no wake-up is lost. |
| `MessageQueueRuns.NextKeeps` | src/os/rt-thread/src/ipc.c:1849-2190 | Every step of every sender, receiver, timer and reset keeps the pool well formed and, while a receiver is suspended, entry at most the number of woken receivers that have not run. |
| `MessageQueueRuns.RunKeepsInv` | src/os/rt-thread/src/ipc.c:1849-2190 | So does every interleaving from rt_mq_init. |
| `MessageQueueRuns.RunKeepsPool` | src/os/rt-thread/src/ipc.c:1849-2190 | In every state of every interleaving the pool is partitioned and conserved, head and tail are null together and exactly when entry is 0, and suspended receivers mean that every message has a woken receiver on its way. |
| `MessageQueueRuns.NextIsDeque` | src/os/rt-thread/src/ipc.c:1849-2190 | Every step acts on the stored messages as a deque of the buffers that senders passed: send appends, urgent prepends, receive takes the first. |
| `MessageQueueRuns.BoxIsDeque` | src/os/rt-thread/src/ipc.c:1849-2190 | In every interleaving the stored messages are those of a reference deque, in its order. |
| `MessageQueueRuns.DeliversInOrder` | src/os/rt-thread/src/ipc.c:1849-2137 | Without urgent messages and resets, what receivers took is a prefix of what was sent and the rest is stored, in order. |
| `MessageQueueRuns.NothingInvented` | src/os/rt-thread/src/ipc.c:1883-2124 | In every run whatever is stored or held by a receiver is a buffer that some sender passed. |
| `MessageQueueRuns.CopiesTheBuffer` | src/os/rt-thread/src/ipc.c:2123-2124 | What a receiver copies out of its node, whenever it does so, has min(size, msg_size) bytes and agrees with that buffer as far as both go. |
| `MessageQueueResults.NextMovesNodes` | src/os/rt-thread/src/ipc.c:1849-2190 | Every step moves exactly one node between free list, flight and queue, and which one and where: a reset moves all queued ones to the free list, and timeouts none. |
| `MessageQueueResults.RecvAnswers` | src/os/rt-thread/src/ipc.c:2036-2121 | A receiver takes a message if and only if there is one, and otherwise gives up, changing nothing, if and only if its time is used up; else it joins the suspended receivers. |
| `MessageQueueResults.SendWakes` | src/os/rt-thread/src/ipc.c:1906-1917 | A message that is queued wakes exactly the first suspended receiver. |
| `MessageQueueResults.ReceiverRetries` | src/os/rt-thread/src/ipc.c:2088-2106 | A woken receiver that finds the queue empty again gives up if and only if it has slept for as long as it had left, and otherwise waits for exactly the rest. |
| `MessageQueueResults.TimeoutFails` | src/os/rt-thread/src/thread.c:607-628 | A timeout fails one suspended receiver and changes nothing else. |
| `MessageQueueResults.ResetFails` | src/os/rt-thread/src/ipc.c:2159-2182 | A reset fails every suspended receiver. |
| `MessageQueue.Queue.constructor` | src/os/rt-thread/src/ipc.c:1671-1712 | All nodes are on the free list and nobody waits. |
| `MessageQueue.Queue.LinkAll` | src/os/rt-thread/src/ipc.c:1701-1707 | The loop chains every node exactly once. |
| `MessageQueue.Queue.Begin` | src/os/rt-thread/src/ipc.c:1849-1881 | A buffer above the message size is refused; otherwise a node is taken, or the queue is full exactly when no node is free. |
| `MessageQueue.Queue.FillNode` | src/os/rt-thread/src/ipc.c:1883-1886 | The buffer is copied into the node one holds and no other. |
| `MessageQueue.Queue.AppendNode` | src/os/rt-thread/src/ipc.c:1888-1924 | The second section of rt_mq_send, links and wake-up, is the specified step. |
| `MessageQueue.Queue.PrependNode` | src/os/rt-thread/src/ipc.c:1974-2003 | The second section of rt_mq_urgent, links and wake-up, is the specified step. |
| `MessageQueue.Queue.Receive` | src/os/rt-thread/src/ipc.c:2036-2121 | One critical section of rt_mq_recv is the specified one and gives the node of the first message. |
| `MessageQueue.Queue.TakeHead` | src/os/rt-thread/src/ipc.c:2108-2121 | Unlinking the head is as specified. |
| `MessageQueue.Queue.Recv` | src/os/rt-thread/src/ipc.c:2019-2121 | A call of rt_mq_recv is the specified step; it succeeds, with the node of the first message, if and only if there is one, and otherwise times out or sleeps. |
| `MessageQueue.Queue.RecvAgain` | src/os/rt-thread/src/ipc.c:2088-2121 | A woken receiver charges the time it slept and retries, as specified, and times out if and only if nothing is left of its time. |
| `MessageQueue.Queue.Copy` | src/os/rt-thread/src/ipc.c:2123-2124 | The receiver gets the first min(size, msg_size) bytes of its node. |
| `MessageQueue.Queue.GiveNodeBack` | src/os/rt-thread/src/ipc.c:2126-2132 | The second section of rt_mq_recv is the specified step. |
| `MessageQueue.Queue.Timeout` | src/os/rt-thread/src/thread.c:607-628 | The timeout of a waiting receiver is the specified step. |
| `MessageQueue.Queue.Reset` | src/os/rt-thread/src/ipc.c:2149-2190 | A reset fails every receiver and moves the queued nodes to the free list, as specified. |
| `MessageQueue.Queue.Drain` | src/os/rt-thread/src/ipc.c:2164-2182 | The loop relinks node after node until the queue is empty, as specified. |
| `Bits.TableIsLowBit` | src/os/rt-thread/src/scheduler.c:51-69 | The table holds the lowest bit of every non-zero byte. |
| `Bits.Lowest32IsLowBit` | src/os/rt-thread/src/scheduler.c:234-250 | The byte-wise lookup finds the lowest bit of every non-zero 32-bit group. |
| `ReadyIndex.SetKeeps` | src/os/rt-thread/src/scheduler.c:328-331 | Setting the bits of the cached masks of a priority keeps the bitmap in agreement with the lists, in the one-word form and in the two-level form. |
| `ReadyIndex.ClearKeeps` | src/os/rt-thread/src/scheduler.c:363-374 | So does clearing them when the list has become empty, where the upper bit goes only with the last bit of its byte. |
| `ReadyIndex.LookupIsFirst` | src/os/rt-thread/src/scheduler.c:226-256 | With a bitmap that agrees with the lists, the lookup gives the smallest priority whose list is not empty, in both forms. |
| `ThreadLists.DetachOk` | src/os/rt-thread/include/rtservice.h:80-86 | Removing a thread from whatever list it is on keeps every list exact. |
| `ThreadLists.AttachOk` | src/os/rt-thread/include/rtservice.h:67-74 | So does inserting a thread that is on none. |
| `ThreadsProofs.InsertOk` | src/os/rt-thread/src/scheduler.c:304-335 | rt_schedule_insert_thread through the cached masks keeps lists and bitmap exact and in agreement. |
| `ThreadsProofs.RemoveOk` | src/os/rt-thread/src/scheduler.c:344-378 | So does rt_schedule_remove_thread. |
| `ThreadsProofs.StartupKeeps` | src/os/rt-thread/src/thread.c:181-204 | rt_thread_startup, up to the resume, keeps every thread in one place and calculates masks that agree with the priority. |
| `ThreadsProofs.ResumeBeginKeeps` | src/os/rt-thread/src/thread.c:571-592 | So does the first section of rt_thread_resume, if no resume of that thread is pending. |
| `ThreadsProofs.ResumeEndKeeps` | src/os/rt-thread/src/thread.c:594-595 | So does its second section. |
| `ThreadsProofs.ResumeKeeps` | src/os/rt-thread/src/thread.c:562-598 | So does rt_thread_resume under its caller's interrupts-off section. |
| `ThreadsProofs.SuspendKeeps` | src/os/rt-thread/src/thread.c:524-552 | So does rt_thread_suspend. |
| `ThreadsProofs.WaitKeeps` | src/os/rt-thread/src/ipc.c:80-118 | So does suspending on an IPC list, with or without a timer. |
| `ThreadsProofs.TimeoutKeeps` | src/os/rt-thread/src/thread.c:607-628 | So does rt_thread_timeout, and its assertion that the thread is suspended holds. |
| `ThreadsProofs.PriorityKeeps` | src/os/rt-thread/src/thread.c:455-496 | So does a change of priority, which calculates the masks again. |
| `ThreadsProofs.YieldKeeps` | src/os/rt-thread/src/thread.c:348-381 | So does rt_thread_yield. |
| `ThreadsProofs.SleepKeeps` | src/os/rt-thread/src/thread.c:391-419 | So does rt_thread_sleep. |
| `ThreadsProofs.ExitKeeps` | src/os/rt-thread/src/thread.c:35-71 | So does rt_thread_exit. |
| `ThreadsProofs.NextKeeps` | src/os/rt-thread/src/thread.c:35-628 | Every thread operation keeps the invariant, in both forms of the bitmap. |
| `ThreadsTheorems.BootInv` | src/os/rt-thread/src/scheduler.c:126-155 | The state at start-up satisfies it. |
| `ThreadsTheorems.RunKeepsInv` | src/os/rt-thread/src/thread.c:35-628 | So does every reachable state. |
| `ThreadsTheorems.OnePlace` | src/os/rt-thread/src/thread.c:524-627 | In every reachable state a thread is READY if and only if it is on the ready list of its current priority; it is on at most one list and there once; on a suspend list only while suspended; its cached masks are those of its priority; an active timer means it is suspended. |
| `ThreadsTheorems.LookupIsBest` | src/os/rt-thread/src/scheduler.c:226-260 | The lookup leads to a READY thread and no READY thread is better. |
| `ThreadsTheorems.ScheduleFindsBest` | src/os/rt-thread/src/scheduler.c:226-260 | In every reachable state with a READY thread, in both forms, the lookup of rt_schedule gives the best priority, with a READY thread first in its list. |
| `ThreadsTheorems.ErrorStays` | src/os/rt-thread/src/thread.c:607-628 | While a thread is suspended nothing but the expiry of its own timer changes its error. |
| `ThreadsTheorems.TimedOutIff` | src/os/rt-thread/src/thread.c:562-628 | In every run, the call a thread waited in ends with a timeout error if and only if the step that made it READY again was the expiry of its timer. |
| `ThreadsTheorems.OverlapKeepsIff` | src/os/rt-thread/src/thread.c:580-595 | Once all pending resumes of a thread have come to their end, everything is in place if and only if the last one did not begin while another was pending; otherwise the thread is on its ready list twice. |
| `ThreadsTheorems.OverlapRun` | src/os/rt-thread/src/thread.c:580-595 | A run from start-up in which a second resume of a thread begins between the two sections of the first, and links it twice. |
| `ThreadsOutcomes.NextMovesOne` | src/os/rt-thread/src/thread.c:35-628 | Every thread operation changes one thread: all others keep status, priority, error and timer, and their order on every list. |
| `ThreadsOutcomes.InsertReadyLast` | src/os/rt-thread/src/scheduler.c:304-335 | rt_schedule_insert_thread makes the thread READY behind all others of its priority. |
| `ThreadsOutcomes.RemoveReadyOff` | src/os/rt-thread/src/scheduler.c:344-378 | rt_schedule_remove_thread takes the thread off its list and leaves all others in their order. |
| `ThreadsOutcomes.StartupSuspends` | src/os/rt-thread/src/thread.c:181-204 | rt_thread_startup gives the thread its initial priority and leaves it suspended. |
| `ThreadsOutcomes.ResumeBeginTakesOff` | src/os/rt-thread/src/thread.c:571-592 | The first section of rt_thread_resume refuses threads that are not suspended, and takes a suspended one off its list and switches its timer off. |
| `ThreadsOutcomes.ResumeEndReadies` | src/os/rt-thread/src/thread.c:594-595 | Its second section makes the thread READY, behind all others of its priority. |
| `ThreadsOutcomes.ResumeReadies` | src/os/rt-thread/src/thread.c:562-598 | So do both together. |
| `ThreadsOutcomes.SuspendTakesOff` | src/os/rt-thread/src/thread.c:524-552 | rt_thread_suspend refuses threads that are not READY, and leaves a READY one suspended and on no list. |
| `ThreadsOutcomes.WaitJoins` | src/os/rt-thread/src/ipc.c:80-118 | A wait leaves the thread suspended with no error at its place of the suspend list, off the ready list, and with its timer active if and only if the wait is timed. |
| `ThreadsOutcomes.SleepSuspends` | src/os/rt-thread/src/thread.c:391-410 | rt_thread_sleep leaves the thread suspended, on no list, with its timer active. |
| `ThreadsOutcomes.TimeoutReadies` | src/os/rt-thread/src/thread.c:607-628 | rt_thread_timeout makes the thread READY with a timeout error, behind all others of its priority. |
| `ThreadsOutcomes.PriorityChanges` | src/os/rt-thread/src/thread.c:455-496 | After a change of priority the thread has the new one, and a READY thread is behind all others of that priority. |
| `ThreadsOutcomes.YieldGoesLast` | src/os/rt-thread/src/thread.c:348-381 | After rt_thread_yield the READY thread is behind all others of its priority, they keep their order, and every other list, status and bitmap word is as it was. |
| `ThreadsOutcomes.YieldGivesWay` | src/os/rt-thread/src/thread.c:360-367 | If there is another thread of that priority, the first one is then another. |
| `ThreadsOutcomes.ExitLeaves` | src/os/rt-thread/src/thread.c:35-53 | rt_thread_exit leaves the thread closed, on no ready or suspend list, with its timer off. |
| `ThreadsTurns.ReadyListTurns` | src/os/rt-thread/src/thread.c:35-628 | Any step leaves a ready list as it was, or without the thread of the step, or with that thread last. |
| `ThreadsTurns.EveryoneHasATurn` | src/os/rt-thread/src/scheduler.c:304-335 | In every run, between two turns of a thread at the head of its ready list, every other thread that stays READY at that priority has been at the head, unless it yielded or was given its priority anew before. |
| `ListTables.LaidInsert` | src/os/rt-thread/include/rtservice.h:67-74 | With one node in each thread and a header for each list: inserting a thread in front of any node of a list changes the rings exactly as the lists, and no other ring. |
| `ListTables.LaidRemove` | src/os/rt-thread/include/rtservice.h:80-86 | So does removing a thread, wherever it is. |
| `ListTables.Table.Insert` | src/os/rt-thread/include/rtservice.h:67-74 | The four assignments put the thread at that place of that list. |
| `ListTables.Table.Remove` | src/os/rt-thread/include/rtservice.h:80-86 | rt_list_remove takes the thread off whatever list it is on. |
| `ListTables.Table.Following` | src/os/rt-thread/src/ipc.c:98-101 | Following the links from the header visits the threads of the list in order. |
| `ListTables.Table.HasPeers` | src/os/rt-thread/src/thread.c:360-360 | The links next and prev of a listed thread differ if and only if it is not alone on its list. |
| `Threads.Scheduler.constructor` | src/os/rt-thread/src/scheduler.c:126-155 | The state at start-up. |
| `Threads.Scheduler.InsertThread` | src/os/rt-thread/src/scheduler.c:304-335 | Relinking the node and setting bits through the cached masks is the specified insertion, in both forms. |
| `Threads.Scheduler.RemoveThread` | src/os/rt-thread/src/scheduler.c:344-378 | Unlinking the node and clearing bits when the header is alone is the specified removal. |
| `Threads.Scheduler.Highest` | src/os/rt-thread/src/scheduler.c:226-260 | The thread picked is the first of its ready list, is READY, and no READY thread has a better priority. |
| `Threads.Scheduler.Startup` | src/os/rt-thread/src/thread.c:181-204 | rt_thread_startup up to its resume is the specified step. |
| `Threads.Scheduler.ResumeBegin` | src/os/rt-thread/src/thread.c:571-592 | The first section of rt_thread_resume is the specified step; it fails exactly for threads that are not suspended. |
| `Threads.Scheduler.ResumeEnd` | src/os/rt-thread/src/thread.c:594-595 | The second section is the specified step. |
| `Threads.Scheduler.Resume` | src/os/rt-thread/src/thread.c:562-598 | Both, under the caller's interrupts-off section, are the specified step. |
| `Threads.Scheduler.FindPlace` | src/os/rt-thread/src/ipc.c:85-115 | The walk along the links, reading current priorities, stops at the header or before the first thread of lower priority. |
| `Threads.Scheduler.Wait` | src/os/rt-thread/src/ipc.c:80-118 | Suspending the running thread on a list at that place is the specified step. |
| `Threads.Scheduler.Suspend` | src/os/rt-thread/src/thread.c:524-552 | rt_thread_suspend on the links is the specified one; it fails exactly for threads that are not READY. |
| `Threads.Scheduler.Sleep` | src/os/rt-thread/src/thread.c:391-410 | rt_thread_sleep up to the scheduling is the specified step. |
| `Threads.Scheduler.Timeout` | src/os/rt-thread/src/thread.c:607-628 | rt_thread_timeout is the specified step. |
| `Threads.Scheduler.ChangePriority` | src/os/rt-thread/src/thread.c:455-496 | Removal, new priority and masks, insertion are the specified step. |
| `Threads.Scheduler.Yield` | src/os/rt-thread/src/thread.c:348-381 | rt_thread_yield, which looks only at the links of its own node, is the specified step. |
| `Threads.Scheduler.Exit` | src/os/rt-thread/src/thread.c:35-53 | rt_thread_exit up to the scheduling is the specified step. |
| `TimerSpec.WrappedOrder` | src/os/rt-thread/src/timer.c:258-262 | On the wrapped counter the subtraction test decides the true order of two moments no more than half the range apart. |
| `TimerSpec.InsertSorted` | src/os/rt-thread/src/timer.c:254-272 | Insertion keeps the list sorted by deadline. |
| `TimerSpec.HeadDueIff` | src/os/rt-thread/src/timer.c:386-394 | The 32-bit test of the check loop is true if and only if the first deadline has been reached. |
| `TimerSpec.FireHeadDue` | src/os/rt-thread/src/timer.c:386-424 | Each turn of the check loop with a positive period leaves fewer timers due. |
| `TimerSpec.ZeroPeriodStays` | src/os/rt-thread/src/timer.c:409-415 | A due periodic timer of zero ticks is still on the sorted list after every turn, and the head is still due. |
| `TimerSpec.NeverEndsIff` | src/os/rt-thread/src/timer.c:386-424 | The loop still runs after every number of turns if and only if a periodic timer of zero ticks is due on the list; otherwise it ends. |
| `TimerSpec.CheckKeeps` | src/os/rt-thread/src/timer.c:373-430 | The check ends, and after it nothing on the list is due, the list is sorted, and everything that fired did so on time. |
| `TimerSpec.CheckOutcome` | src/os/rt-thread/src/timer.c:386-424 | The check fires a timer exactly when it is due and keeps it otherwise. |
| `TimerSpec.InsertKeepsIff` | src/os/rt-thread/src/timer.c:236-274 | rt_timer_start reads the tick before it switches interrupts off; the insertion keeps everything on the list still to come if and only if its deadline is. |
| `TimerSpec.NextKeeps` | src/os/rt-thread/src/timer.c:221-430 | Every read, insertion in time, stop and tick keeps the invariant. |
| `TimerSpec.RunKeepsInv` | src/os/rt-thread/src/timer.c:221-430 | So does every run from an empty list, at whatever tick it begins. |
| `TimerSpec.NeverEarlyNeverLate` | src/os/rt-thread/src/timer.c:373-430 | In every run, every firing happens at the tick the timer was due. |
| `TimerSpec.FiresExactlyWhenDue` | src/os/rt-thread/src/timer.c:373-430 | In every run, across wraparound, a timer that is not stopped stays on the list until the tick it is due and has fired at exactly that tick by then. |
| `TimerSpec.LateNeverOnTime` | src/os/rt-thread/src/timer.c:236-274 | Whatever happens afterwards, a timer inserted at or after its deadline never fires at its tick. |
| `TimerSpec.OnTimeIff` | src/os/rt-thread/src/timer.c:236-274 | A timer that is not stopped fires at its tick if and only if fewer than init_tick ticks passed between the read of the tick and the insertion. |
| `TimerSpec.LateRun` | src/os/rt-thread/src/timer.c:236-274 | A start of one tick whose caller is held up for one tick fires one tick late. |
| `TimerResults.ReadArms` | src/os/rt-thread/src/timer.c:229-236 | The read of rt_timer_start leaves an active timer alone and makes any other due that many ticks from now. |
| `TimerResults.InsertLists` | src/os/rt-thread/src/timer.c:254-272 | The insertion adds exactly the timer that was read to the list. |
| `TimerResults.StopRemoves` | src/os/rt-thread/src/timer.c:303-327 | After rt_timer_stop no entry of that timer is on the list, every other entry is, and time, log and reads are unchanged. |
| `TimerResults.StoppedNeverFires` | src/os/rt-thread/src/timer.c:303-327 | In every run, after a stop of a timer no start of which is under way, the log gains no entry of it and it is not on the list, until it is started again. |
| `TimerResults.IdleNeverFires` | src/os/rt-thread/src/timer.c:373-430 | In every run a timer that is not running and not started never fires. |
| `TimerResults.StartFires` | src/os/rt-thread/src/timer.c:221-430 | In every run a start that reads the tick for an inactive timer and inserts it in time makes it fire exactly that many ticks after the read, unless it is stopped. |
| `TimerResults.FiresExactlyOnce` | src/os/rt-thread/src/timer.c:386-424 | In every run a one-shot timer that is neither stopped nor started again fires exactly once. |
| `TimerResults.PeriodicFires` | src/os/rt-thread/src/timer.c:409-415 | In every run a periodic timer that is not stopped has fired at every multiple of its period that has come. |
| `TimerResults.NowCountsTicks` | src/os/rt-thread/src/clock.c:73-95 | In every run time is the number of ticks. |
| `TimerList.Timers.constructor` | src/os/rt-thread/src/timer.c:26-26 | An empty list at any value of the counter. |
| `TimerList.Timers.FindSlot` | src/os/rt-thread/src/timer.c:254-272 | The insertion loop with 32-bit subtraction finds the place by true deadline. |
| `TimerList.Timers.Read` | src/os/rt-thread/src/timer.c:229-236 | The part of rt_timer_start before interrupts go off is the specified step; it fails exactly for an active timer. |
| `TimerList.Timers.InsertTimer` | src/os/rt-thread/src/timer.c:238-277 | The part with interrupts off is the specified step. |
| `TimerList.Timers.Start` | src/os/rt-thread/src/timer.c:221-293 | Both parts under the caller's interrupts-off section are a read and an insertion in time. |
| `TimerList.Timers.Stop` | src/os/rt-thread/src/timer.c:303-327 | rt_timer_stop is the specified step; it fails exactly for an inactive timer. |
| `TimerList.Timers.Check` | src/os/rt-thread/src/timer.c:373-430 | The firing loop with 32-bit subtraction ends where the specification says it does and is the specified check. |
| `TimerList.Timers.FireFirst` | src/os/rt-thread/src/timer.c:386-424 | One turn of it is the specified one. |
| `TimerList.Timers.Tick` | src/os/rt-thread/src/clock.c:73-95 | A tick with the counter wrapping at 2^32 is the specified step. |

## Left out

- Memory pools (`mempool.c`): after a wake-up a block is taken without another check of the count, so the blocking invariants do not hold as written.
- The module loader (`module.c`), the Ethernet driver, the board code and the vendor headers.
- Software timers and the timer thread: compiled out, and they delay by an absolute tick.
- `kservice.c`, `device.c`, `object.c`, `idle.c`, `irq.c`: formatting, name lookup and plumbing.
- Detach and delete of IPC objects and threads: object lifetime, without a new invariant.
- Hooks, debug logs, stack checks, context switches and the scheduler lock count.
- `rt_calloc`, `rt_memory_info`, `rt_tick_set`, `rt_tick_from_millisecond`, `rt_timer_next_timeout_tick`: easy members.
- `rt_timer_control` on an active timer, and timer callbacks that start or stop timers.
- The clearing of the timeout error by `rt_thread_sleep` after it wakes up.
- The test of the status at the top of `rt_thread_resume` and `rt_thread_suspend`, which the source makes just before it switches interrupts off, is part of the section that follows.
- Two starts of one timer that overlap: the model keeps one start of a timer at a time.
- The contents of slab and memory-heap blocks, and `rt_realloc` of `slab.c`, which is a malloc, a copy and a free.
- `used_mem` and `max_mem` of `slab.c`, and its heap semaphore, which it drops around calls of the page allocator and releases twice when page allocation fails.
- The unlock before the block is marked in `rt_memheap_alloc`, and its return inside a debug macro: the call is one step that returns the pointer.
- The link of an urgent message before it is put in front, which the source leaves unset.
- The priorities that `WaitQueue` orders by, except for mutexes: the source compares the current priority of each waiting thread, the model the one it had when it was suspended; so the serving order of semaphores, events, mailboxes and message queues is proved for waiting threads whose priority does not change meanwhile.
- WaitQueue.Suspend: compares recorded priorities, as above; `Threads.Scheduler.FindPlace` and `Mutex.Kernel.SuspendOn` read the current ones.
- WaitQueue.EnqueueInOrder: is about recorded priorities, as above.
- SemaphoreSpec.ReleaseServesFirst: is about recorded priorities, as above.
- MemHeap.Heap.constructor: asks for a pool that has room for its two headers, because `available_size` wraps below that.
- Pages.PageList.Free: is stated for pages that are not free, which the source asserts in part.
- SlabAllocator.Allocator.Free: is stated for null and for pointers that are held; the source does not check others.
- TimerList.Timers.Check: is stated for lists on which the loop ends; `NeverEndsIff` says which those are.
- TimerList.Timers.Tick: leaves out the time slice of the running thread, a counter and a yield.
- MutexProofs.TakeKeeps: is about inheritance, which needs one mutex at a time; ownership without that is `MutexTheorems.NextOwned`.
- MutexTheorems.OwnerOutranksWaiters: holds for threads involved with one mutex at a time; `ReleaseKeepsOtherIff` and `RaiseKeepsOtherIff` say what happens beyond.
