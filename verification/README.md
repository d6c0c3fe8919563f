# s-kernel in Dafny

A model of the core of s-kernel, a small real-time kernel for aarch64, with proofs about it.

* **Heap** (`PageRuns`, `PageAllocator`, `SizeClasses`, `Heap`, `HeapInvariant`, `HeapSteps`, `HeapRuns`, `HeapSafety`,
  `HeapRelease`, `HeapWords`, `SlabAllocator`): the page list, the size classes and the slab zones of `mem/slab.c`. `Heap` is the
  allocator on values: every page has one owner, a zone remembers which chunks it handed out and which came back.
  `PageAllocator` and `SlabAllocator` are the code on its link words and headers, proved to compute exactly that.
  `HeapWords` places all these words at their addresses, apart from each other and from the clients' blocks.
* **Scheduler** (`Kernel`, `KernelInvariant`, `KernelSteps`, `KernelRuns`, `Boot`, `Conservation`, `FindFirstSet`,
  `Scheduler`, `Klist`, `LinkedLists`, `LinkedScheduler`, `RoundRobin`, `ContextSwitch`, `Timers`, `Sleeping`,
  `SystemClock`): ready and wait lists, the priority bitmap, the deferred switch of an interrupt, the timer walk, sleeping.
  `Kernel` has one function per kernel operation, `Scheduler` the same operations on mutable fields. `Klist` has the pointer rings, `LinkedLists` a whole table of them, and
  `LinkedScheduler` the list operations of the scheduler on that table, proved to compute those of `Kernel`. Runs begin with
  `sk_system_scheduler_init` (`Boot`); `Conservation` says where each thread goes in each step. `Sleeping` puts
  threads, their timers and the tick together, `SystemClock` does so on the objects.
* **IPC** (`IpcBase`, `Mutex`, `Semaphore`, `Mailbox`, `InterruptedMailbox`, `MessageCells`, `MessageTransfer`,
  `MessageQueue`): each object among everything else the kernel may do, timeouts, foreign resumes and calls from interrupt
  handlers included, over every run.
* **Ring buffer** (`Memory`, `Circular`, `RingBuffer`): the mirror-bit ring as a bounded byte queue.
* `Arith`, `Bits`, `Seqs` and `Options` hold what the others use about products, machine words, sequences and missing values.

`dafny verify dfyconfig.toml` checks everything.

Each section with interrupts off is one step. A thread that suspends itself leaves its call at `sk_schedule` and goes on
with a step of its own when it runs again; between the two the kernel may do anything else. The copies of the message queue
run with interrupts on and are one step per byte. Object numbers stand for wait lists, thread numbers for thread pointers.
Sizes are counted as in the code: 64-bit addresses, the 32-bit heap limit, 8-bit hold counts, 16-bit semaphore values and
message counts, 15-bit ring indices.

Where the code does not do what its comments promise, the model follows the code, and the exact condition is proved:

* `zone_index` rounds 1024 to 2047 bytes with the mask of 127 although its table says 128. Odd sizes in that band get one
  byte too much under an index they share with others. The bytes the allocator reserves for its blocks stay disjoint exactly
  for request sizes that do not mix the two (`HeapSafety.SafeIffConsistent`); 1024 beside 1025 overlap. Reserved are the
  bytes of the chunk `zone_index` computes for the request, not only those requested.
* The release branch of `sk_free` decrements the pointer `sys_zone_free` where the counter was meant. `sk_free` keeps the
  heap intact exactly outside that branch (`HeapSafety.FreeKeepsIff`), and the branch is taken
  (`HeapRelease.ReleaseReached`): every size served from zones and every heap with room for four of them has a run to it.
* A tick that expires a slice between the suspension of a thread on a wait list and its `sk_schedule` puts it on two lists
  (`KernelRuns.TickKeepsIff`, `KernelRuns.TickWindowDuplicates`, reached in `Conservation.WindowFromStart`).
* A yielding thread gives way even to a lower priority (`KernelSteps.ScheduleOptimalIff`, reached in
  `Conservation.YieldsDown`).
* `sk_thread_sleep(n)` lasts n ticks exactly for n of at least 1 that do not run over the end of the 32-bit tick counter, or
  from its last tick on (`Sleeping.DelayExact`; otherwise it lasts `Sleeping.Delay`). A tick that ends the slice of the thread between its
  suspension and its `sk_schedule` ends the sleep at once (`Sleeping.WindowWakes`, `Sleeping.CutShort`).
* `sk_timer_check` loops forever on two due periodic timers whose restart is due at once, and leaves a lone timer active and
  due (`Timers.EndsIff`, `Timers.TwoZeroPeriods`, `Timers.NoneLeftIff`).
* A timed-out `sk_mutex_lock` or `sk_sem_wait` returns `SK_EOK` without the mutex or a permit (`Mutex.ReturnOwnsIff`,
  `Semaphore.ReturnGrantsIff`, reached in `Mutex.TimedLockFromStart` and `Semaphore.TimedWaitFromStart`).
* Behind a wait `sk_mailbox_recv` and `sk_mailbox_send_wait` go on with interrupts on. When a handler calls the same mailbox
  in between, a mail may come twice or be overwritten; the exact condition is in `InterruptedMailbox.InterruptedReceive` and
  `InterruptedMailbox.InterruptedSend`.
* A send to a full message queue with a timeout reads through the null pointer, because the code tests `mq` for `msg`
  (`MessageQueue.MessageQueueObject.BeginSend`).
* `sk_ring_buffer_put_force` loses data or leaves the buffer for some lengths (`RingBuffer.PutForceIff`).

## Model

| member | source | states |
|---|---|---|
| `PageRuns.CanonicalUnique` | `mem/slab.c:113-145` | an address-sorted, disjoint, fully coalesced page list is determined by the set of free pages alone |
| `PageRuns.FirstFitRun` | `mem/slab.c:154-182` | the first run that is long enough starts at the lowest address with that many contiguous free pages |
| `PageRuns.NoFit` | `mem/slab.c:154-182` | when every run is too short there are not that many contiguous free pages anywhere |
| `PageRuns.FirstFitUnique` | `mem/slab.c:154-182` | there is only one first fit |
| `PageAllocator.PageAllocator.constructor` | `mem/slab.c:94-103` | sk_page_init leaves a valid list of one run, whatever the memory held |
| `PageAllocator.PageAllocator.Free` | `mem/slab.c:113-145` | sk_page_free of pages that are not free keeps the list sorted, disjoint and coalesced and adds exactly those pages |
| `PageAllocator.PageAllocator.MergeAfter` | `mem/slab.c:121-128` | growing the run before the freed pages, closing the gap to the next run if there is none left |
| `PageAllocator.PageAllocator.MergeBefore` | `mem/slab.c:130-136` | extending the run behind the freed pages downwards |
| `PageAllocator.PageAllocator.Insert` | `mem/slab.c:138-145` | linking the freed pages as a run of their own |
| `PageAllocator.PageAllocator.Alloc` | `mem/slab.c:154-182` | sk_page_alloc returns null exactly when there are not that many contiguous free pages, else it removes exactly the first fit |
| `PageAllocator.PageAllocator.Cut` | `mem/slab.c:167-178` | the pages leave the front of their run, or the run leaves the list |
| `PageAllocator.FreeUndoesAlloc` | `mem/slab.c:113-182` | freeing what sk_page_alloc just returned restores the identical list |
| `PageAllocator.FreesCommute` | `mem/slab.c:113-145` | two frees lead to the same list in either order |
| `PageAllocator.Relinked` | `mem/slab.c:113-182` | the link words spell the new list after one run took the place of several |
| `PageAllocator.Unlinked` | `mem/slab.c:154-182` | the link words spell the list without a run |
| `Bits.SkAlignRoundsUp` | `include/kernel/base_def.h:76` | for a power of two SK_ALIGN rounds up to the next multiple, or wraps to 0 at the end of the word |
| `Bits.SkAlign127` | `mem/slab.c:266-268` | what SK_ALIGN with 127 does to the sizes of the 1024 band |
| `Bits.PowerOfTwoTest` | `mem/slab.c:369-372` | the bit test of the zone set-up accepts exactly the powers of two |
| `SizeClasses.TableIncreasing` | `mem/slab.c:229-237` | the documented chunk sizes grow with the zone index |
| `SizeClasses.ZoneIndexIsBestFit` | `mem/slab.c:248-279` | apart from odd sizes of 1024 to 2047, zone_index picks the smallest chunk of the table that holds the request |
| `SizeClasses.MisroundedClass` | `mem/slab.c:266-268` | an odd size of that band gets one byte more than the chunk its index stands for |
| `SizeClasses.SharedIndex` | `mem/slab.c:248-279` | two sizes with one index have one chunk size, unless exactly one of them is misrounded |
| `SizeClasses.OffsetBounds` | `mem/slab.c:366-372` | chunks start behind the zone header on a multiple of 8 |
| `SizeClasses.OffsetExact` | `mem/slab.c:366-372` | chunks of a power of two bytes start at the first multiple of their size behind the header, all others directly behind it |
| `SizeClasses.ZoneLayout` | `mem/slab.c:366-378` | a zone holds at least three chunks, the last one ends inside it, and one more would not fit |
| `HeapInvariant.LiveGeometry` | `mem/slab.c:288-475` | the owner of its page is the zone or block a live pointer belongs to, and where the pointer lies in it |
| `HeapInvariant.LiveDisjoint` | `mem/slab.c:288-475` | two live blocks never overlap |
| `HeapInvariant.LiveClear` | `mem/slab.c:288-475` | no byte of a live block lies outside the heap, in a free page, in the usage table or in a zone header |
| `HeapInvariant.NoRoomIff` | `mem/slab.c:376` | z_nmax counts exactly the chunks that end inside the zone |
| `HeapInvariant.FullIff` | `mem/slab.c:326-341` | a zone has no chunk to give exactly when every chunk it handed out is in use and the zone ends before another one would |
| `HeapSteps.TakeChunkKeeps` | `mem/slab.c:319-341` | a chunk from the first zone of a class was not live, and nothing else changes for the clients |
| `HeapSteps.TakeOrder` | `mem/slab.c:326-341` | a class hands out the next never-used chunk of its first zone as long as the zone has room for it, else the chunk freed last; no other zone changes |
| `HeapSteps.NewZoneKeeps` | `mem/slab.c:343-389` | a cached or newly carved zone hands out its first chunk; it fails only with no cached zone and no room |
| `HeapSteps.NewZonePlace` | `mem/slab.c:346-364` | the zone cached last is reused before any page is taken; a carved zone takes exactly the first fit |
| `HeapSteps.LargeGranted` | `mem/slab.c:299-312` | a page block becomes live with exactly its pages |
| `HeapSteps.FreeLargeKeeps` | `mem/slab.c:409-420` | a freed page block returns exactly its pages |
| `HeapSteps.PushChunkKeeps` | `mem/slab.c:422-433` | a freed chunk is the only block that ceases to be live, and its zone is listed again if it was full |
| `HeapSteps.TakeUndoesPush` | `mem/slab.c:319-433` | a chunk freed in a zone without never-used chunks, full or first on its list, is the next one handed out, and that gives the heap back as it was |
| `HeapSteps.RetiresIff` | `mem/slab.c:439-441` | a zone leaves its class exactly when its last chunk in use comes back and another zone of the class has a chunk to give |
| `HeapSteps.FreeChunkPlace` | `mem/slab.c:422-454` | freeing a chunk moves no page; it is on top of the freed chunks of its zone, or its zone is the one cached last |
| `HeapSteps.RetireInv` | `mem/slab.c:439-454` | moving a totally free zone to the cache keeps the invariant |
| `HeapSteps.RetireLive` | `mem/slab.c:439-454` | moving a totally free zone to the cache takes no block from a client |
| `HeapSteps.FreeBlockKeeps` | `mem/slab.c:400-475` | outside the release branch sk_free keeps the invariant and returns exactly the freed block |
| `HeapRuns.RegularSizesConsistent` | `mem/slab.c:248-279` | without odd sizes of 1024 to 2047 every index has one chunk size |
| `HeapRuns.FirstFitComplete` | `mem/slab.c:154-182` | looking for pages fails exactly when the heap has not that many contiguous free ones |
| `HeapRuns.MallocKeeps` | `mem/slab.c:288-390` | sk_malloc keeps the invariant; a returned block was not live, is at least as large as requested, and is the only change |
| `HeapRuns.MallocFailsOnlyWhenFull` | `mem/slab.c:288-390` | sk_malloc returns null exactly when nothing can serve: for a large size too few contiguous free pages; for a small one none for a zone, no parked zone, and in each zone of the class all chunks in use and no room for another |
| `HeapRuns.ReservedTight` | `mem/slab.c:248-312` | less than a page is set aside beyond what was requested |
| `HeapRuns.MallocUndoesFree` | `mem/slab.c:288-475` | the next sk_malloc of the class returns the chunk just freed, and the two calls leave the heap as it was, in a zone without never-used chunks that is full or first on its list |
| `HeapRuns.FreeUndoesMalloc` | `mem/slab.c:299-420` | sk_free of a page block gives the heap back as it was before its sk_malloc |
| `HeapSafety.InitKeeps` | `mem/slab.c:192-226` | the fresh heap has no live block and satisfies the invariant |
| `HeapSafety.FreeEnabled` | `mem/slab.c:400-475` | every block a client holds can be freed |
| `HeapSafety.RunSafe` | `mem/slab.c:288-475` | at every moment of every run over consistent sizes the live blocks are pairwise disjoint, inside the heap and clear of headers, usage table and free pages |
| `HeapSafety.RunKeepsSafe` | `mem/slab.c:288-475` | every step of a run keeps the invariant and the agreement of allocator and client about what is live |
| `HeapSafety.RunAligned` | `mem/slab.c:366-372` | over every run, without odd sizes of 1024 to 2047 every block lies on a multiple of 8, and one of a power of two reserved bytes up to a page on a multiple of its size |
| `HeapSafety.SafeIffConsistent` | `mem/slab.c:248-390` | all runs over a set of sizes keep the reserved bytes of the blocks disjoint if and only if sizes with one index have one chunk size |
| `HeapSafety.OverlapByThree` | `mem/slab.c:319-341` | three requests to a fresh zone, the second rounded to one byte more, end with overlapping reserved bytes |
| `HeapSafety.OddSizeOverlaps` | `mem/slab.c:266-268` | a client that requests both 1024 and 1025 bytes is not safe |
| `HeapSafety.FreeKeepsIff` | `mem/slab.c:439-473` | sk_free keeps the invariant exactly when it does not take the release branch |
| `HeapSafety.ReleaseBreaks` | `mem/slab.c:456-473` | after the release branch the cache list starts at an address that is no zone |
| `HeapRelease.ReleaseReached` | `mem/slab.c:288-475` | for every size served from zones and every heap with room for four zones, a run from the fresh heap ends with a held block whose sk_free takes the release branch and breaks the heap |
| `HeapWords.WordsApart` | `mem/slab.c:33-71` | page heads, usage entries, zone headers and chunk links, each at its address and with its size, share no byte |
| `HeapWords.LiveApart` | `mem/slab.c:288-475` | none of these words lies in a block a client holds |
| `HeapWords.WordPage` | `mem/slab.c:33-84` | the page each word lies in has the owner that word belongs to |
| `HeapWords.RunTable` | `mem/slab.c:205-475` | over every run the usage table keeps its pages and is large enough |
| `HeapWords.RunApart` | `mem/slab.c:288-475` | at every moment of every run over consistent sizes each byte belongs to at most one word of the allocator, and then to no block the client holds |
| `SlabAllocator.UsageFinds` | `mem/slab.c:409-424` | the usage entry of the page of a live pointer leads to the zone or page block it belongs to |
| `SlabAllocator.SlabAllocator.SkMalloc` | `mem/slab.c:288-390` | sk_malloc on headers, usage table and link words does exactly what the model does and keeps the words in order |
| `SlabAllocator.SlabAllocator.SkFree` | `mem/slab.c:400-475` | sk_free does exactly what the model does; null changes nothing; the words stay in order outside the release branch |
| `SlabAllocator.SlabAllocator.ClientWrite` | `mem/slab.c:288-475` | a client may overwrite its own blocks: no link word the allocator will read lies in them |
| `SlabAllocator.SlabAllocator.AllocLarge` | `mem/slab.c:299-312` | the page path of sk_malloc and its usage entries |
| `SlabAllocator.SlabAllocator.AllocChunk` | `mem/slab.c:319-341` | the chunk path of sk_malloc, with unlisting a zone that runs full |
| `SlabAllocator.SlabAllocator.NextChunk` | `mem/slab.c:322-339` | never-used chunks first; a link is popped only if it was freed since the last set-up: of the links exactly z_nfree - (z_nmax - 1 - z_uindex) are valid, however stale z_freechunk is |
| `SlabAllocator.SlabAllocator.CarveZone` | `mem/slab.c:353-364` | taking the first fit for a zone and numbering its usage entries |
| `SlabAllocator.SlabAllocator.SetUpZone` | `mem/slab.c:366-387` | setting up a zone for a class, z_freechunk left as it was |
| `SlabAllocator.SlabAllocator.AllocZone` | `mem/slab.c:346-389` | reusing a cached zone before carving a new one |
| `SlabAllocator.SlabAllocator.FreePageBlock` | `mem/slab.c:409-420` | freeing a page block through the page allocator |
| `SlabAllocator.SlabAllocator.PushBack` | `mem/slab.c:422-433` | pushing a chunk on its zone and listing a zone that was full |
| `SlabAllocator.SlabAllocator.Unlink` | `mem/slab.c:443-447` | the unlink loop removes exactly the zone |
| `SlabAllocator.SlabAllocator.RetireZone` | `mem/slab.c:439-454` | a totally free zone goes to the front of the cache |
| `SlabAllocator.SlabAllocator.ReleaseZone` | `mem/slab.c:456-473` | the pages go back to the page allocator and the cache pointer moves one header down |
| `SlabAllocator.SlabAllocator.FreeZoneChunk` | `mem/slab.c:422-474` | freeing a chunk with its three outcomes |
| `SlabAllocator.MemInit` | `mem/slab.c:192-226` | sk_system_mem_init fails exactly for a start above the end, else it leaves a valid empty allocator on the aligned pages |
| `SlabAllocator.InitPages` | `mem/slab.c:205-223` | all pages but those of the usage table are free |
| `SlabAllocator.TableTight` | `mem/slab.c:220-223` | the usage table has as many pages as its entries need and no more |
| `SlabAllocator.HeapBounds` | `mem/slab.c:197-206` | the heap is exactly the pages between the two aligned addresses if they are less than 4 GiB apart, else the difference modulo 4 GiB |
| `SlabAllocator.ZoneSizeFor` | `mem/slab.c:209-212` | the zone size is the largest doubling of 32 KiB, up to 128 KiB, below a 1024th of the heap |
| `Klist.Node.constructor` | `include/kernel/klist.h:91-94` | sk_list_init makes a ring of one |
| `Klist.AddTail` | `include/kernel/klist.h:103-110` | linking before a node puts it there in the ring; before the head that is the end |
| `Klist.Add` | `include/kernel/klist.h:133-136` | the node becomes the first of the list |
| `Klist.Del` | `include/kernel/klist.h:158-162` | the node leaves its ring and forms its own; on a lone node nothing changes, so a second delete is harmless |
| `Klist.Empty` | `include/kernel/klist.h:171-174` | the list is empty exactly when its head is alone |
| `Klist.DelUndoesAdd` | `include/kernel/klist.h:133-162` | deleting what was just linked gives the ring back |
| `Klist.InsertByPriority` | `ipc/ipc_base.c:77-94` | the walk over the ring stops behind everybody of the same or a better priority |
| `FindFirstSet.TableIsLowestBit` | `include/kernel/base_def.h:300-318` | the byte table holds the lowest set bit of every byte |
| `FindFirstSet.FfsIsLowestBit` | `include/kernel/base_def.h:298-332` | for every 32-bit word __sk_ffs is 0 for 0, else one more than the lowest set bit |
| `Scheduler.FfsFindsHighest` | `thread/schedule.c:30-43` | while bit p is set exactly for non-empty ready lists, the lowest set bit is the best ready priority |
| `Scheduler.GroupAfterDetach` | `thread/schedule.c:52-66` | taking a thread off clears the bit exactly when its list runs empty |
| `Scheduler.GroupAfterInsert` | `thread/schedule.c:75-97` | queueing a thread sets the bit of its priority and no other |
| `KernelSteps.WakeKeeps` | `thread/thread.c:102-121` | a wake takes the thread off whatever list it is on and queues it by its priority; every list keeps its other members |
| `KernelSteps.WakeExact` | `thread/thread.c:102-121` | the timeout does the same for any thread: every list, every state, and the order of the lists |
| `KernelSteps.ResumeKeeps` | `thread/thread.c:309-329` | sk_thread_resume takes a suspended thread off whatever list it is on and puts it last on its ready list, or lets the current one run on, and changes nothing else; for any other thread it changes nothing |
| `KernelSteps.SuspendKeeps` | `thread/thread.c:351-373` | sk_thread_suspend takes exactly the thread off its list |
| `KernelSteps.SuspendExact` | `thread/thread.c:351-373` | sk_thread_suspend takes a ready or running thread off its list, the others keep their order, and changes nothing for a thread in any other state |
| `KernelSteps.CreateKeeps` | `thread/thread.c:175-227` | a new thread joins the end of the ready list of its priority and every other list stays |
| `KernelSteps.StartupMarkKeeps` | `thread/thread.c:332-342` | marking a thread suspended wherever it is keeps the invariant |
| `KernelSteps.CloseKeeps` | `thread/thread.c:128-158` | an exiting thread is closed and on no list; all other lists and threads stay |
| `KernelSteps.NextKnown` | `thread/schedule.c:136-142` | the chosen thread is the current one or the first on the list of the best ready priority, and never a current one that cannot run |
| `KernelSteps.LeavesIff` | `thread/schedule.c:136-142` | sk_schedule leaves the current thread exactly when some thread is ready and the current one does not plainly run, or some ready thread is strictly better |
| `KernelSteps.ScheduleStays` | `thread/schedule.c:127-168` | a running thread in mid-slice keeps the processor and nothing changes while no ready thread is strictly better, equal ones included |
| `KernelSteps.SwitchKeeps` | `thread/schedule.c:144-154` | exactly the leaving thread joins its ready list, unless suspended or closed, and exactly the chosen one leaves its list |
| `KernelSteps.SwitchExact` | `thread/schedule.c:144-154` | the exact state after a switch: the chosen thread runs and left its list, the other one is last on its ready list unless suspended or closed, its slice and every other thread and list are as before |
| `KernelSteps.ScheduleKeeps` | `thread/schedule.c:127-168` | sk_schedule keeps the invariant and always leaves a running thread as current |
| `KernelSteps.SwitchReady` | `thread/schedule.c:127-168` | who is ready after a switch, both directions |
| `KernelSteps.ScheduleOptimalIff` | `thread/schedule.c:127-168` | sk_schedule leaves no ready thread of strictly higher priority, except exactly when an expired slice gives way to a lower one |
| `KernelSteps.PrioInsertSplits` | `ipc/ipc_base.c:77-94` | a waiter by priority goes behind its equals and before the first worse one |
| `KernelSteps.PrioInsertKeepsSorted` | `ipc/ipc_base.c:77-94` | the wait list stays sorted by priority |
| `KernelSteps.WaitOnKeeps` | `ipc/ipc_base.c:66-101` | __ipc_list_suspend adds exactly the current thread to exactly this list |
| `KernelRuns.TickKeepsIff` | `init/sys_tick.c:324-348` | a tick keeps the invariant exactly outside the window between joining a wait list and sk_schedule |
| `KernelRuns.TickExact` | `init/sys_tick.c:334-343` | a tick touches only the current thread: one tick less as a 64-bit word, and at the end of the slice a full one and the yield mark |
| `KernelRuns.TickWindowDuplicates` | `init/sys_tick.c:340-348` | in that window the thread ends on a wait list and a ready list at once |
| `KernelRuns.TickWindowReached` | `ipc/ipc_base.c:66-101` | any thread that joins a wait list in the last tick of its slice reaches the window; the tick and sk_schedule then leave lists that are not in order |
| `KernelRuns.ResumeProgressIff` | `ipc/ipc_base.c:34-55` | resuming the first waiter makes progress exactly when it is suspended |
| `KernelRuns.ResumeFirst` | `thread/thread.c:309-329` | the wait list loses its head, which joins the end of its ready list; all other lists stay |
| `KernelRuns.ResumeAll` | `ipc/ipc_base.c:34-55` | __ipc_list_resume_all ends, with an empty list |
| `KernelRuns.ResumeAllAppends` | `ipc/ipc_base.c:34-55` | every waiter ends behind its own ready list, in the order of the wait list |
| `KernelRuns.ResumeAllStates` | `ipc/ipc_base.c:34-55` | every waiter becomes ready, no other thread changes |
| `Boot.EmptyBoots` | `thread/schedule.c:104-120` | after sk_system_scheduler_init no thread is on a list |
| `Boot.BootCreateKeeps` | `thread/thread.c:175-227` | a thread created before the start is queued by its priority |
| `Boot.BootMarkKeeps` | `thread/thread.c:332-342` | sk_thread_startup before the start only marks the thread |
| `Boot.BootKeeps` | `init/startup.c:91-102` | whatever is created and started before the start: every thread is queued by its priority and nobody runs |
| `Boot.StartKeeps` | `thread/schedule.c:175-192` | with an idle thread, sk_system_scheduler_start runs the best queued thread, leaves all others ready and establishes the invariant |
| `Boot.StartExact` | `thread/schedule.c:175-192` | exactly the first thread of the best priority starts and leaves its list; no other thread or list changes |
| `Boot.IdleAlone` | `init/startup.c:91-102` | the idle thread alone is such a system |
| `Boot.BootThreadLists` | `thread/thread.c:175-342` | a thread created and started before the start is the last of its priority, marked suspended; all other lists and threads stay |
| `Boot.AppStarts` | `thread/schedule.c:175-192` | the only thread of the best priority runs first, with its whole slice, and the idle thread is ready |
| `Boot.StartsWith` | `thread/schedule.c:175-192` | a thread of the best priority runs first, with its whole slice |
| `KernelRuns.StepKeeps` | `thread/thread.c:102-416` | every kernel step keeps the invariant and deletes no thread; after sk_schedule the current one runs |
| `KernelRuns.AwakeStep` | `thread/thread.c:102-416` | every step leaves a ready or running thread so, unless it is suspended or started by name, waits or exits |
| `Conservation.StepMoves` | `thread/thread.c:102-416` | for every step and thread: it stays running or linked unless the step drops it, a dropped one comes back only by its resume or timeout, and a waiter leaves its list exactly when it is woken, to be ready or running |
| `Conservation.ResumeAllPlaces` | `ipc/ipc_base.c:34-55` | waking a whole list moves its waiters to their ready lists and nobody else |
| `Conservation.SwitchPlaces` | `thread/schedule.c:144-154` | exactly who is running or on a list after a switch |
| `Conservation.RunKeeps` | `thread/thread.c:102-416` | over every run from sk_system_scheduler_init each thread is on at most one list and the current one on no ready list |
| `Conservation.RunConserves` | `thread/thread.c:102-416` | over every such run a thread, once created, runs or is on a list, unless its own suspension, sleep or exit dropped it and nothing has resumed it since |
| `Conservation.WaiterKept` | `ipc/ipc_base.c:34-101` | a waiter stays on its list until a resume, a timeout or the waking of the whole list makes it ready or running |
| `Conservation.WaiterStays` | `ipc/ipc_base.c:34-101` | a waiter that no such step touches waits on |
| `Conservation.RunnerStep` | `thread/thread.c:102-416` | a step leaves the running thread running exactly when it is not its own wait, exit or suspension, the end of its slice, or sk_schedule beside a strictly better ready thread |
| `Conservation.RunnerKeeps` | `thread/schedule.c:127-168` | over every run a running thread keeps the processor, whatever becomes ready beside it, until one of these |
| `Conservation.ExitIsFinal` | `thread/thread.c:128-158` | over every run a thread that has exited is on no list and never runs again; no resume, timeout, startup or suspension brings it back |
| `Conservation.YieldsDown` | `init/sys_tick.c:340-348` | a started system in which the end of a slice leaves the idle thread running beside a ready thread of the best priority |
| `Conservation.WindowFromStart` | `init/sys_tick.c:324-348` | a started system whose first thread waits in its last tick and is then ticked into disorder |
| `Scheduler.Scheduler.constructor` | `thread/schedule.c:104-120` | sk_system_scheduler_init: no threads, empty lists, no bit set |
| `Scheduler.Scheduler.CreateThreadOf` | `thread/thread.c:175-227` | the list part of __thread_init, bitmap included, before the start or on a running system |
| `Scheduler.Scheduler.StartScheduler` | `thread/schedule.c:175-192` | sk_system_scheduler_start on bitmap and lists, from any set of created threads with the idle one |
| `Scheduler.BestReady` | `thread/schedule.c:30-43` | the priority looked up is the best ready one |
| `Scheduler.Scheduler.InsertThread` | `thread/schedule.c:75-97` | sk_schedule_insert_thread: the current thread is only marked running, any other queued and its bit set |
| `Scheduler.Scheduler.RemoveThread` | `thread/schedule.c:52-66` | sk_schedule_remove_thread: off the list, the bit cleared if it was the last |
| `Scheduler.Scheduler.Choose` | `thread/schedule.c:136-142` | the bitmap search finds the thread the model chooses |
| `Scheduler.Scheduler.Switch` | `thread/schedule.c:144-154` | the state changes of the switch |
| `Scheduler.Scheduler.Reschedule` | `thread/schedule.c:127-168` | sk_schedule as a whole; a running thread is current afterwards |
| `Scheduler.Scheduler.SuspendThreadOf` | `thread/thread.c:351-373` | sk_thread_suspend fails exactly for threads neither ready nor running |
| `Scheduler.Scheduler.Requeue` | `thread/thread.c:102-121` | the bit that sk_list_del leaves stale is set again by the insert |
| `Scheduler.Scheduler.ResumeThreadOf` | `thread/thread.c:309-329` | sk_thread_resume succeeds exactly for suspended threads |
| `Scheduler.Scheduler.Timeout` | `thread/thread.c:102-121` | sk_thread_timeout wakes the thread from any list and schedules |
| `Scheduler.Scheduler.Startup` | `thread/thread.c:332-342` | sk_thread_startup |
| `Scheduler.Scheduler.Sleep` | `thread/thread.c:384-408` | the sleeping thread is on no list and another one runs |
| `Scheduler.Scheduler.ThreadExit` | `thread/thread.c:128-158` | __thread_exit leaves for another thread |
| `Scheduler.Scheduler.TickIncrease` | `init/sys_tick.c:324-352` | a tick counts the slice down; at its end it is refilled and the thread yields |
| `Scheduler.Scheduler.ListSuspend` | `ipc/ipc_base.c:66-101` | __ipc_list_suspend with its search loop |
| `Scheduler.Scheduler.FindPlace` | `ipc/ipc_base.c:81-93` | the search loop stops where the model inserts |
| `Scheduler.Scheduler.ListResumeAll` | `ipc/ipc_base.c:34-55` | the resume loop ends because every waiter is suspended |
| `LinkedLists.ListTable.constructor` | `include/kernel/klist.h:91-94` | a table with no list and no thread |
| `LinkedLists.ListTable.NewHead` | `include/kernel/klist.h:91-94` | sk_list_init of a new head: one more empty list, no other node touched |
| `LinkedLists.ListTable.NewNode` | `include/kernel/klist.h:91-94` | sk_list_init of the node of a new thread: on no list, no other node touched |
| `LinkedLists.ListTable.LinkTail` | `include/kernel/klist.h:103-110` | of all lists exactly this one changes, by the thread at its end; every other ring keeps its links |
| `LinkedLists.ListTable.LinkByPriority` | `ipc/ipc_base.c:77-94` | the pointer walk puts the thread behind its equals and before the first worse one, and changes no other list |
| `LinkedLists.ListTable.Unlink` | `include/kernel/klist.h:158-162` | sk_list_del takes the thread off whatever list it is on, without knowing it; on a lone node nothing changes |
| `LinkedLists.ListTable.IsEmpty` | `include/kernel/klist.h:171-174` | the head is alone exactly for an empty list |
| `LinkedLists.ListTable.First` | `thread/schedule.c:37-39` | the entry of the node behind the head is the first thread |
| `LinkedLists.AllKept` | `include/kernel/klist.h:103-162` | nodes outside one ring and one thread untouched, all other lists stay spelled by their rings |
| `LinkedScheduler.SchedulerInit` | `thread/schedule.c:104-120` | the loop that makes a ring of each ready head leaves empty lists, all on new nodes |
| `LinkedScheduler.LinkedScheduler.constructor` | `thread/schedule.c:104-120` | the scheduler over these rings |
| `LinkedScheduler.LinkedScheduler.StartScheduler` | `thread/schedule.c:175-192` | on rings and bitmap, sk_system_scheduler_start computes StartFirst and establishes the invariant |
| `LinkedScheduler.LinkedScheduler.BootThreadOf` | `thread/thread.c:175-342` | on rings and bitmap, creation and startup before the start, with one new node |
| `LinkedScheduler.StartSystem` | `init/startup.c:91-102` | from initialisation over two created threads to the start: the application runs, the idle thread is ready, all objects are new |
| `LinkedScheduler.LinkedScheduler.SuspendSelf` | `thread/thread.c:351-373` | on rings and bitmap, sk_thread_suspend of the current thread computes SuspendThread |
| `LinkedScheduler.LinkedScheduler.NewObject` | `ipc/ipc_base.c:23-29` | a new wait list changes no other |
| `LinkedScheduler.LinkedScheduler.CreateThreadOf` | `thread/thread.c:175-227` | on rings and bitmap, __thread_init computes CreateThread, with one new node |
| `LinkedScheduler.LinkedScheduler.InsertThread` | `thread/schedule.c:75-97` | on rings and bitmap, sk_schedule_insert_thread computes Insert |
| `LinkedScheduler.LinkedScheduler.RemoveThread` | `thread/schedule.c:52-66` | on rings and bitmap, sk_schedule_remove_thread computes Detach |
| `LinkedScheduler.LinkedScheduler.DeleteNode` | `include/kernel/klist.h:158-162` | sk_list_del on the node computes Detach from whatever list |
| `LinkedScheduler.LinkedScheduler.Requeue` | `thread/thread.c:102-121` | on rings and bitmap, resume and timeout compute WakeThread |
| `LinkedScheduler.LinkedScheduler.ListSuspend` | `ipc/ipc_base.c:66-101` | on rings and bitmap, __ipc_list_suspend computes WaitOn |
| `LinkedScheduler.LinkedScheduler.LinkWaiter` | `ipc/ipc_base.c:72-95` | its list part, first come first served or by the priority walk |
| `LinkedScheduler.LinkedScheduler.Choose` | `thread/schedule.c:136-142` | bitmap search and first entry of the ring give the thread the model chooses |
| `LinkedScheduler.LinkedScheduler.Switch` | `thread/schedule.c:144-154` | on rings and bitmap, the state changes of the switch |
| `LinkedScheduler.LinkedScheduler.Reschedule` | `thread/schedule.c:127-168` | on rings and bitmap, sk_schedule as a whole |
| `RoundRobin.WithinSlice` | `init/sys_tick.c:324-352` | while its slice lasts the thread keeps running and nothing else changes |
| `RoundRobin.ZeroSlice` | `init/sys_tick.c:334-348` | a slice of 0 lasts for 2 to the 64 ticks |
| `RoundRobin.LastTick` | `init/sys_tick.c:340-348` | the last tick of a slice rotates the ready list by one |
| `RoundRobin.OneTurn` | `init/sys_tick.c:324-352` | a turn lasts exactly the slice and charges only its thread |
| `RoundRobin.FullRound` | `init/sys_tick.c:324-352` | over the sum of the slices each thread of the top priority runs for exactly its own, and the list is back where it started |
| `ContextSwitch.MoveKeeps` | `arch/aarch64/src/vector.S:55-82` | every kernel step, call, interrupt and return keeps the agreement of frames, stack pointers and pending switch |
| `ContextSwitch.StartInv` | `arch/aarch64/src/context.S:71-74` | the agreement holds when the first thread starts with the frames of __thread_stack_init |
| `ContextSwitch.RunKeeps` | `thread/schedule.c:144-163` | the agreement holds over every run, with any number of sk_schedule calls in any number of interrupts |
| `ContextSwitch.IrqExitResumesCurrent` | `arch/aarch64/src/vector.S:55-82` | after the interrupt the processor runs the latest frame of the current thread, the interrupted one keeps its own frame, and nothing is pending |
| `ContextSwitch.IrqExitEnabled` | `arch/aarch64/src/vector.S:65-80` | the thread to switch to has a stack pointer |
| `ContextSwitch.NotedSwitchKeeps` | `arch/aarch64/src/context.S:93-105` | noting a further switch keeps the first from and takes the last to |
| `ContextSwitch.DirectSwitchKeeps` | `arch/aarch64/src/context.S:81-87` | a direct switch saves the leaving frame and runs the saved one of the other thread |
| `ContextSwitch.SwitchWords.ContextSwitchInterrupt` | `arch/aarch64/src/context.S:93-105` | the flag test on the three words |
| `ContextSwitch.SwitchWords.LeaveIrq` | `arch/aarch64/src/vector.S:63-82` | the tail of vector_irq on the words |
| `Timers.EndsIff` | `init/sys_tick.c:271-317` | sk_timer_check ends exactly when at most one listed timer is due again right after its restart |
| `Timers.WalkEnds` | `init/sys_tick.c:283-313` | the measure by which the walk ends although restarts move timers to the front |
| `Timers.LoopsForever` | `init/sys_tick.c:283-313` | two such timers keep the walk going for ever |
| `Timers.TwoZeroPeriods` | `init/sys_tick.c:167-188` | two started periodic timers of period 0 are such timers |
| `Timers.CheckFiresOnce` | `init/sys_tick.c:271-317` | with two or more timers, none due again at once, each active due timer fires exactly once and is restarted or switched off, the others stay untouched |
| `Timers.NoneLeftIff` | `init/sys_tick.c:299-303` | a finished check leaves no timer active and due exactly under a condition on list and periods; a lone due timer stays |
| `Timers.TimerQueue.TimerStart` | `init/sys_tick.c:167-188` | the timer goes to the front of the list with its new expiry |
| `Timers.TimerQueue.TimerStop` | `init/sys_tick.c:197-218` | stopping fails exactly for inactive timers, else the timer leaves the list |
| `Timers.TimerQueue.TimerCheck` | `init/sys_tick.c:271-317` | the loop computes the walk |
| `Timers.TimerQueue.Visit` | `init/sys_tick.c:283-313` | the body of the loop |
| `Sleeping.RestStep` | `thread/thread.c:102-416` | every kernel section that does not rouse a sleeping or waiting thread leaves it suspended where it is |
| `KernelInvariant.AwakeMeans` | `thread/thread.c:102-416` | an awake thread is running or on its ready list |
| `Sleeping.OneShotFires` | `init/sys_tick.c:271-317` | in a walk that ends, an active one-shot timer fires exactly when it is due, whatever the other timers are |
| `Sleeping.HandlesRests` | `init/sys_tick.c:324-352` | through a whole tick a sleeping thread wakes exactly when its timer fires |
| `Sleeping.TickRests` | `init/sys_tick.c:324-352` | a tick wakes a sleeping thread exactly when the tick counter has reached its time |
| `Sleeping.QuietRests` | `thread/thread.c:351-408` | everything else leaves a sleeping thread and its timer as they are |
| `Sleeping.SleepsUntil` | `thread/thread.c:384-408` | over every run, a thread that sleeps or waits for n ticks and that nothing else wakes sleeps through all but the last of Delay(tick, n) ticks |
| `Sleeping.WakesAt` | `init/sys_tick.c:271-352` | and that last tick makes it ready or running |
| `Sleeping.DelayIsFirst` | `init/sys_tick.c:167-188` | Delay is the first number of ticks after which the 32-bit counter is at or beyond the computed time |
| `Sleeping.DelayExact` | `init/sys_tick.c:167-188` | it is the number asked for exactly when that is at least 1 and does not run over the end of the counter, or the sleep starts in its last tick |
| `Sleeping.WindowWakes` | `init/sys_tick.c:340-348` | a tick that ends the slice of a sleeping thread before its sk_schedule makes it ready at once |
| `Sleeping.CutShort` | `thread/thread.c:384-408` | a started system whose first thread sleeps for n ticks and is ready after one |
| `Sleeping.MoveKeeps` | `thread/thread.c:102-416` | every action keeps the kernel invariant and the timers of the threads in order |
| `SystemClock.Clock.Arm` | `init/sys_tick.c:167-249` | stopping, setting and starting the timer of a thread |
| `SystemClock.Clock.ThreadSleep` | `thread/thread.c:384-408` | sk_thread_sleep on scheduler and timer queue is the Sleep of the model |
| `SystemClock.Clock.TickIncrease` | `init/sys_tick.c:324-352` | sk_tick_increase with its slice, walk and timeouts is the tick of the model |
| `SystemClock.Clock.FireThreads` | `init/sys_tick.c:291-293` | exactly the threads whose timers fired time out, each followed by sk_schedule |
| `IpcBase.EnvironmentLeaves` | `ipc/ipc_base.c:34-101` | whatever else the kernel does, it can only take threads off a wait list |
| `IpcBase.WaitOrder` | `ipc/ipc_base.c:66-101` | where a waiter queues: last with FIFO, behind its equals with PRIO |
| `IpcBase.Join` | `ipc/ipc_base.c:66-101` | joining a wait list adds exactly the caller and keeps a sorted list sorted |
| `IpcBase.QueuedJoin` | `ipc/ipc_base.c:77-94` | a newcomer stands behind everybody of its priority: by priority and, among equals, by arrival |
| `IpcBase.QueuedSurvives` | `ipc/ipc_base.c:34-101` | threads that leave do not disturb that order |
| `IpcBase.WakeHead` | `thread/thread.c:309-329` | resuming the first waiter removes exactly it |
| `IpcBase.HeadWoken` | `thread/thread.c:309-329` | the first waiter is ready and last on the list of its priority, or runs on if it is current; all other lists and threads stay |
| `IpcBase.WakeFirstExact` | `ipc/mailbox.c:192-199` | the wake of a send or a receive: nothing without a waiter, else exactly the first one, which is then ready or running |
| `IpcBase.TimeoutLeaves` | `thread/thread.c:102-121` | a timeout takes exactly its own thread off the list |
| `IpcBase.WakeCovers` | `ipc/mailbox.c:192-208` | waking one receiver per item keeps at least as many woken receivers as items while somebody waits |
| `IpcBase.EnvironmentCovers` | `ipc/ipc_base.c:34-101` | nothing else the kernel does uncovers an item |
| `IpcBase.RunnerCovers` | `ipc/mailbox.c:279-291` | a receiver that looks gives up one cover |
| `Mutex.LockKeeps` | `ipc/mutex.c:113-180` | locking keeps the mutex in order; a free mutex is taken with a hold of 1, the owner gets one hold more or SK_EFULL at 255, another thread SK_ETIMEOUT without a wait and else queues by priority; exactly these cases |
| `Mutex.UnlockKeeps` | `ipc/mutex.c:205-260` | only the owner unlocks; each unlock takes one hold, the last one frees the mutex or hands it to the first waiter with a hold of 1 |
| `Mutex.UnlockWakes` | `ipc/mutex.c:225-243` | the hand-over makes exactly the new owner ready; all other lists and threads stay |
| `Mutex.MoveKeeps` | `ipc/mutex.c:113-260` | every lock, unlock, return, timeout and other kernel step keeps: value 1 iff no owner iff hold 0, waiters imply an owner that does not wait, waiters by priority and, among equals, by arrival |
| `Mutex.RunKeeps` | `ipc/mutex.c:113-260` | the same over every run; without timeouts nobody comes back empty-handed |
| `Mutex.InitInv` | `ipc/mutex.c:28-48` | a new mutex satisfies it |
| `Mutex.ReturnOwnsIff` | `ipc/mutex.c:155-172` | a lock that blocked returns SK_EOK, and its caller owns the mutex exactly when nothing but an unlock took it off the list |
| `Mutex.TimeoutExpels` | `ipc/mutex.c:155-172` | every timeout of a waiter makes it one that returns SK_EOK without the mutex |
| `Mutex.TimedLockFails` | `ipc/mutex.c:143-172` | every lock that waits for a mutex of another thread can end with SK_EOK and without it |
| `Mutex.TimedLockFromStart` | `ipc/mutex.c:143-172` | a run from the start of a system to such a lock |
| `Mutex.OwnerStep` | `ipc/mutex.c:113-260` | the owner keeps the mutex through every action but its own last unlock, whoever waits; that unlock hands it to the first waiter or frees it |
| `Mutex.HoldStep` | `ipc/mutex.c:113-260` | every action changes the hold of every thread by its granted lock or its unlock |
| `Mutex.NestedLocks` | `ipc/mutex.c:113-260` | over every run, for every thread and with any contention: hold is the old hold plus locks granted, at once or by a hand-over, minus unlocks; from a free mutex on a thread owns it exactly while its unlocks are fewer than its locks |
| `Mutex.LastUnlock` | `ipc/mutex.c:205-260` | over every run from a free mutex: k locks are undone by exactly k unlocks; the last one hands the mutex to the first waiter, or frees it |
| `Mutex.FirstInLine` | `ipc/mutex.c:205-260` | over every run, the first waiter has the best priority and, among its equals, came first |
| `Mutex.HandedAwake` | `ipc/mutex.c:225-243` | over every run, the waiter that gets the mutex is its owner and ready or running until it unlocks or something suspends it |
| `Mutex.MutexObject.constructor` | `ipc/mutex.c:28-48` | sk_mutex_init |
| `Mutex.MutexObject.SkMutexLock` | `ipc/mutex.c:113-180` | sk_mutex_lock on its fields, with 8-bit hold: SK_EOK exactly for a free mutex or its owner below the limit, and then one hold more |
| `Mutex.MutexObject.SkMutexUnlock` | `ipc/mutex.c:205-260` | sk_mutex_unlock on its fields; the last unlock wakes exactly the new owner |
| `Semaphore.MoveKeeps` | `ipc/semaphore.c:107-223` | every step conserves permits; a waiting thread implies value 0; a blocked thread waits, was woken by a post or was expelled |
| `Semaphore.WaitOutcome` | `ipc/semaphore.c:107-155` | SK_EOK and one permit less exactly when there is one, whatever the timeout; else SK_ETIMEOUT and nothing changed without a wait, or the caller queued as the flag says |
| `Semaphore.PostOutcome` | `ipc/semaphore.c:180-223` | with a waiter exactly the first one becomes ready and the value stays; else one permit more, or SK_EFULL exactly at 65535 |
| `Semaphore.RunConserves` | `ipc/semaphore.c:107-223` | over every run: value, successful waits and permits on their way equal initial value, accepted posts and waits that came back empty-handed |
| `Semaphore.UndisturbedBound` | `ipc/semaphore.c:107-223` | without timeouts the semaphore grants exactly what it was given |
| `Semaphore.HandedAwake` | `ipc/semaphore.c:192-209` | over every run, the waiter a post wakes is ready or running, its permit on the way, until it returns or something suspends it |
| `Semaphore.ReturnGrantsIff` | `ipc/semaphore.c:132-151` | a wait that blocked returns SK_EOK and brings a permit exactly when a post woke it |
| `Semaphore.TimeoutExpels` | `ipc/semaphore.c:132-151` | every timeout of a waiter makes it one that returns SK_EOK without a permit |
| `Semaphore.TimedWaitFails` | `ipc/semaphore.c:132-151` | every wait on a semaphore without permits can end with SK_EOK and without one |
| `Semaphore.TimedWaitFromStart` | `ipc/semaphore.c:132-151` | a run from the start of a system to such a wait |
| `Semaphore.InitInv` | `ipc/semaphore.c:30-45` | a new semaphore satisfies the law |
| `Semaphore.SemaphoreObject.constructor` | `ipc/semaphore.c:30-45` | sk_sem_init |
| `Semaphore.SemaphoreObject.SkSemWait` | `ipc/semaphore.c:107-155` | sk_sem_wait on its field, with its outcomes |
| `Semaphore.SemaphoreObject.SkSemPost` | `ipc/semaphore.c:180-223` | sk_sem_post on its field, with its outcomes |
| `Mailbox.MoveKeeps` | `ipc/mailbox.c:136-314` | every send and receive, of a thread or of an interrupt handler at any moment, retry after a wait, timeout and other kernel step keeps received and pending mails equal to the sent ones in order, and loses no wake-up |
| `Mailbox.RunKeeps` | `ipc/mailbox.c:136-314` | the same over every run |
| `Mailbox.SendOutcomes` | `ipc/mailbox.c:136-213` | sent exactly when there is room, whatever the timeout, and then exactly the first receiver becomes ready; else SK_EFULL or a wait among the senders |
| `Mailbox.SendAgainOutcomes` | `ipc/mailbox.c:177-213` | behind its wait a send fails exactly when the mailbox is full again |
| `Mailbox.RecvOutcomes` | `ipc/mailbox.c:239-314` | the oldest mail exactly when there is one, whatever the timeout, and then exactly the next receiver becomes ready; else SK_ETIMEOUT or a wait among the receivers |
| `Mailbox.RecvAgainOutcomes` | `ipc/mailbox.c:279-314` | behind its wait a receive fails exactly when the mailbox is empty again |
| `Mailbox.ReceiverAwake` | `ipc/mailbox.c:192-309` | over every run, a receiver that a send or a receive takes off the list is ready or running until it looks for its mail or something suspends it |
| `Mailbox.HandlerSends` | `ipc/mailbox.c:136-213` | a send with timeout 0 is possible at every moment, over the idle thread and over threads inside a call, and keeps all that |
| `Mailbox.HandlerReceives` | `ipc/mailbox.c:239-314` | so is a receive |
| `Mailbox.Quiet` | `ipc/mailbox.c:192-314` | once every woken receiver has looked, nobody waits beside a mail |
| `Mailbox.InitInv` | `ipc/mailbox.c:74-96` | an empty mailbox satisfies it |
| `Mailbox.RecvIgnoresSenders` | `ipc/mailbox.c:293-309` | a receive leaves the list of waiting senders as it was |
| `Mailbox.MailboxObject.constructor` | `ipc/mailbox.c:74-96` | sk_mailbox_init gives an empty queue, of the low 16 bits of the size |
| `Mailbox.MailboxObject.Offsets` | `ipc/mailbox.c:181-291` | in_offset is out_offset plus entry modulo size |
| `Mailbox.MailboxObject.Store` | `ipc/mailbox.c:181-191` | the word goes to the end of the queue, over the end of the array or not |
| `Mailbox.MailboxObject.Fetch` | `ipc/mailbox.c:283-291` | the oldest word leaves the queue |
| `Mailbox.MailboxObject.FinishSend` | `ipc/mailbox.c:177-213` | the send after its wait: full again, or stored and exactly the first receiver ready |
| `Mailbox.MailboxObject.SkMailboxSend` | `ipc/mailbox.c:136-213` | sk_mailbox_send_wait on array and offsets is the queue operation, with its outcomes |
| `Mailbox.MailboxObject.FinishRecv` | `ipc/mailbox.c:279-314` | the receive after its wait: still empty, or the oldest word and exactly the next receiver ready |
| `Mailbox.MailboxObject.SkMailboxRecv` | `ipc/mailbox.c:239-314` | sk_mailbox_recv on array and offsets is the queue operation, with its outcomes |
| `InterruptedMailbox.InterruptedReceive` | `ipc/mailbox.c:279-291` | a receive that a call of a handler interrupts behind the wait ends as if the two came one after the other exactly when the handler sends, or two mails are there and the call does not fall between read and move |
| `InterruptedMailbox.InterruptedSend` | `ipc/mailbox.c:177-191` | a send so interrupted does exactly when the handler receives, or there is room for both and the call does not fall between store and move; or by chance in a mailbox of one cell |
| `InterruptedMailbox.HandlerServes` | `ipc/mailbox.c:136-314` | an uninterrupted call does to words and offsets what it does to the queue |
| `InterruptedMailbox.Uninterrupted` | `ipc/mailbox.c:177-291` | uninterrupted, the code behind the wait is the step of the mailbox model |
| `MessageCells.CellsApart` | `ipc/msg_queue.c:106-121` | with the 16-bit sizes, every cell lies inside the pool and no two overlap |
| `MessageCells.PoolUsedIff` | `ipc/msg_queue.c:106-121` | the pool has no room for one more cell exactly when the 16-bit counter can hold the number of its cells |
| `MessageCells.ChainUnique` | `ipc/msg_queue.c:116-121` | the links spell only one list |
| `MessageCells.TakeFreeKeeps` | `ipc/msg_queue.c:191-223` | popping the free list leaves both lists in order |
| `MessageCells.ClearLinkKeeps` | `ipc/msg_queue.c:228-229` | clearing the link of a cell on no list touches no list |
| `MessageCells.LinkKeeps` | `ipc/msg_queue.c:236-244` | the cell becomes the last of the FIFO, tail and counter included |
| `MessageCells.TakeHeadKeeps` | `ipc/msg_queue.c:335-345` | the first cell leaves the FIFO, the tail with it if it was the last |
| `MessageCells.PutFreeKeeps` | `ipc/msg_queue.c:355-357` | the cell becomes the first of the free list |
| `MessageTransfer.MoveKeeps` | `ipc/msg_queue.c:172-380` | whichever thread makes its next section or copies its next byte: each cell in one place, entry the length of the FIFO, messages intact |
| `MessageTransfer.BeginKeeps` | `ipc/msg_queue.c:188-226` | the first section of a send takes a cell no other thread has |
| `MessageTransfer.FinishKeeps` | `ipc/msg_queue.c:233-244` | the second section queues a completely copied message behind the earlier ones |
| `MessageTransfer.TakeKeeps` | `ipc/msg_queue.c:331-348` | the first section of a receive takes the oldest message |
| `MessageTransfer.ReleaseKeeps` | `ipc/msg_queue.c:353-357` | the second section of a receive frees a completely read cell |
| `MessageTransfer.LocalKeeps` | `ipc/msg_queue.c:228-231` | copies with interrupts on touch only the private cell of their thread |
| `MessageTransfer.HeldLeavesRoom` | `ipc/msg_queue.c:243-244` | the 16-bit counter cannot overflow |
| `MessageTransfer.OnePlace` | `ipc/msg_queue.c:172-380` | each cell is in exactly one of free list, FIFO, one sender, one receiver |
| `MessageTransfer.ReleaseDelivers` | `ipc/msg_queue.c:350-357` | a receive brings the wanted bytes of the message that was linked at its turn |
| `MessageQueue.MoveKeeps` | `ipc/msg_queue.c:172-380` | the same among all other kernel steps, for threads, the idle thread and interrupt handlers, which may call between any two bytes of a copy, and no wake-up is lost |
| `MessageQueue.RunKeeps` | `ipc/msg_queue.c:172-380` | over every run, at every byte of every copy |
| `MessageQueue.SendLinks` | `ipc/msg_queue.c:172-244` | over every run a send that began with a message links exactly that message, whatever happens between its two sections |
| `MessageQueue.ReceiveBrings` | `ipc/msg_queue.c:331-357` | over every run the receive that takes the j-th message returns the bytes of the j-th linked message, as many as it asked for and the message has |
| `MessageQueue.TakeEnabled` | `ipc/msg_queue.c:299-348` | while a message is queued, whoever may call can take the oldest one |
| `MessageQueue.ReceiverAwake` | `ipc/msg_queue.c:246-375` | over every run, a receiver that a send or a receive takes off the list is ready or running until its own next section or until something suspends it |
| `MessageQueue.HandlerSends` | `ipc/msg_queue.c:172-244` | a handler can begin a send at every moment while a cell is free |
| `MessageQueue.Quiet` | `ipc/msg_queue.c:246-375` | once every woken receiver has looked, nobody waits beside a message |
| `MessageQueue.InitInv` | `ipc/msg_queue.c:95-130` | a new queue satisfies it |
| `MessageQueue.MessageQueueObject.constructor` | `ipc/msg_queue.c:95-130` | sk_msg_queue_init: all cells on the free list, last one first, and the system invariant holds |
| `MessageQueue.MessageQueueObject.BuildFreeList` | `ipc/msg_queue.c:116-121` | the loop that pushes the cells |
| `MessageQueue.MessageQueueObject.BeginSend` | `ipc/msg_queue.c:181-226` | the first section: too long, full, or the first free cell; a read through null exactly for a full queue and a timeout |
| `MessageQueue.MessageQueueObject.FillCell` | `ipc/msg_queue.c:228-231` | the copy puts the message into the cell and changes no other |
| `MessageQueue.MessageQueueObject.LinkCell` | `ipc/msg_queue.c:236-244` | the links of the second section of a send |
| `MessageQueue.MessageQueueObject.EndSend` | `ipc/msg_queue.c:233-267` | the second section of a send makes exactly the first receiver ready |
| `MessageQueue.MessageQueueObject.TakeFirst` | `ipc/msg_queue.c:331-345` | the receive after its wait |
| `MessageQueue.MessageQueueObject.BeginRecv` | `ipc/msg_queue.c:299-345` | the first section of a receive: nothing, a wait, or the oldest cell |
| `MessageQueue.MessageQueueObject.DrainCell` | `ipc/msg_queue.c:350-351` | the copy out brings at most msg_size bytes of the cell |
| `MessageQueue.MessageQueueObject.FreeCell` | `ipc/msg_queue.c:355-357` | the links of the second section of a receive |
| `MessageQueue.MessageQueueObject.EndRecv` | `ipc/msg_queue.c:353-380` | the second section of a receive makes exactly the next receiver ready |
| `Memory.MemCopy` | `include/kernel/base_def.h:163-177` | sk_memcpy gives the destination what the source held before, however the two overlap |
| `Memory.SourceAhead` | `include/kernel/base_def.h:169-171` | copying upwards never reads a byte it has overwritten |
| `Memory.SourceBehind` | `include/kernel/base_def.h:172-175` | copying downwards neither |
| `RingBuffer.WriterAhead` | `common/ring_buffer.c:16-61` | the writer is data_len cells ahead of the reader, modulo the size, and space_len is what the bytes in the ring leave |
| `RingBuffer.PutCharQueues` | `common/ring_buffer.c:220-236` | a byte goes to the end of the queue if there is room, else nothing changes |
| `RingBuffer.GetCharDequeues` | `common/ring_buffer.c:243-259` | the oldest byte leaves the queue, if any |
| `RingBuffer.PutQueues` | `common/ring_buffer.c:138-170` | a bulk put queues exactly the bytes that fit, in order, over the wrap or not |
| `RingBuffer.PutIsPutChars` | `common/ring_buffer.c:138-236` | it leaves exactly the state of putting the bytes one by one |
| `RingBuffer.GetDequeues` | `common/ring_buffer.c:181-259` | a bulk get returns exactly the oldest bytes and the state and bytes of getting them one by one |
| `RingBuffer.RoundTrip` | `common/ring_buffer.c:138-213` | a get for everything returns the old bytes and then those that were put |
| `RingBuffer.PutCharForceKeepsNewest` | `common/ring_buffer.c:301-321` | a forced byte always leaves the newest bytes, although the mirror turns twice |
| `RingBuffer.PutForceIff` | `common/ring_buffer.c:264-294` | a forced put leaves the newest bytes exactly for lengths that fit |
| `RingBuffer.ForceWraps` | `common/ring_buffer.c:281-291` | over the end of the buffer, each byte is the right one |
| `RingBuffer.CapacityFits` | `common/ring_buffer.c:275-291` | over the end, every length up to the capacity fits |
| `RingBuffer.ForceLosesData` | `common/ring_buffer.c:275-279` | one byte forced into a full ring of four leaves one byte |
| `RingBuffer.RingBufferObject.constructor` | `common/ring_buffer.c:72-84` | a new ring is empty |
| `RingBuffer.RingBufferObject.SkDataLen` | `common/ring_buffer.c:16-49` | the number of bytes in the ring |
| `RingBuffer.RingBufferObject.SkSpaceLen` | `common/ring_buffer.c:58-61` | the room left |
| `RingBuffer.RingBufferObject.SkPutChar` | `common/ring_buffer.c:220-236` | the byte put on the array |
| `RingBuffer.RingBufferObject.SkGetChar` | `common/ring_buffer.c:243-259` | the byte get on the array |
| `RingBuffer.RingBufferObject.SkPut` | `common/ring_buffer.c:138-170` | the bulk put on the array queues what fits |
| `RingBuffer.RingBufferObject.SkGet` | `common/ring_buffer.c:181-213` | the bulk get on the array returns the oldest bytes |
| `RingBuffer.RingBufferObject.SkPutCharForce` | `common/ring_buffer.c:301-321` | the forced byte on the array |
| `RingBuffer.RingBufferObject.SkPutForce` | `common/ring_buffer.c:264-294` | the forced put on the array keeps the newest bytes exactly for lengths that fit |

## Left out

- PageAllocator.PageAllocator.constructor: no pages at all, for which `sk_page_init` writes a page that does not belong to it.
- SlabAllocator.MemInit: a heap of no pages, for the same reason.
- HeapSafety.RunSafe: runs that go on after `sk_free` took its release branch, because there the invariant fails (`HeapSafety.FreeKeepsIff`, `HeapRelease.ReleaseReached`).
- HeapSafety.RunKeepsSafe: the same runs.
- HeapSafety.RunAligned: the same runs.
- HeapSafety.SafeIffConsistent: the same runs; and it speaks of reserved bytes, so sizes whose requested bytes happen not to meet count as unsafe too.
- HeapWords.RunTable: the same runs.
- HeapWords.RunApart: the same runs.
- SlabAllocator.SlabAllocator.SkMalloc: the words are kept in one map per kind, and z_next as one sequence per class; `HeapWords.RunApart` shows that at their addresses they do not meet, without the step that stores them in one memory.
- SlabAllocator.SlabAllocator.SkFree: the same maps; nothing is said about the words after a release.
- SlabAllocator.SlabAllocator.ClientWrite: the chunk links; that no other word lies in a client's block is `HeapWords.LiveApart`.
- SlabAllocator.SlabAllocator.Unlink: walks the sequence that stands for the z_next links.
- SlabAllocator.SlabAllocator.ReleaseZone: what the words behind the shifted cache pointer then mean.
- KernelRuns.StepKeeps: a tick in the window of `KernelRuns.TickKeepsIff`, after which the invariant fails; a blocking idle thread, calls of blocked threads and timers of closed threads.
- Conservation.StepMoves: a tick in that window.
- Conservation.RunKeeps: runs with a tick in that window.
- Conservation.RunConserves: runs with a tick in that window.
- Conservation.WaiterKept: runs with a tick in that window.
- Conservation.WaiterStays: runs with a tick in that window.
- Conservation.RunnerStep: a tick in that window.
- Conservation.RunnerKeeps: runs with a tick in that window.
- Conservation.ExitIsFinal: runs with a tick in that window.
- Scheduler.Scheduler.TickIncrease: a tick in that window, and the timers, which are in `SystemClock.Clock.TickIncrease`.
- SystemClock.Clock.TickIncrease: a tick in that window, and functions of other timers that change threads or timers.
- Sleeping.WakesAt: timeout functions that start or stop timers of threads.
- Sleeping.SleepsUntil: the same functions.
- Scheduler.Scheduler.Sleep: the timer that ends the sleep, which is in `SystemClock.Clock.ThreadSleep`.
- Scheduler.Scheduler.ThreadExit: the cleanup function of the thread and the deletion of its timer.
- Scheduler.Scheduler.InsertThread: keeps its lists as sequences, as all methods of this class and the IPC objects on it do; `LinkedScheduler` has the list operations on pointers.
- LinkedScheduler.LinkedScheduler.Reschedule: the exit of a thread is not repeated on the pointers.
- ContextSwitch.RunKeeps: register contents and stack layout; a frame is an owner and a number.
- Timers.TimerQueue.TimerCheck: timeout functions that change the timer list.
- RoundRobin.FullRound: wake-ups during the round.
- Mailbox.MailboxObject.FinishSend: one step where the code after a wait runs with interrupts on; what a handler's call in between does is `InterruptedMailbox.InterruptedSend`.
- Mailbox.MailboxObject.FinishRecv: one step likewise, see `InterruptedMailbox.InterruptedReceive`.
- InterruptedMailbox.InterruptedReceive: more than one call in between, calls of other threads there, and an interrupt inside one statement.
- InterruptedMailbox.InterruptedSend: the same.
- MessageQueue.MessageQueueObject.TakeFirst: one step where the code after a wait runs with interrupts on.
- Mailbox.MoveKeeps: when a waiting sender runs again; no receive ever wakes one (`Mailbox.RecvIgnoresSenders`).
- MessageTransfer.MoveKeeps: the read through null of `MessageQueue.MessageQueueObject.BeginSend`; such a send makes no further move.
- RingBuffer.RingBufferObject.constructor: capacities 0 and above 32767, which the signed size and the 15-bit indices cannot hold.
- Timer start of timed waits in the runs of the IPC objects: a timeout may come there at any moment after a wait began.
- Interrupt-mask levels and the early return of `sk_schedule_insert_thread`; sections with interrupts off are steps.
- The FIQ path, exception entry, stack set-up, caches, interrupt controller, UART and boot code: hardware.
- Dynamic creation of mailboxes and message queues, whose null test is inverted, and the delete functions of all IPC objects.
- Priority inheritance, which the mutex records a priority for but does not do.
- Events: they suspend and resume through the same `ipc/ipc_base.c` lists as the semaphore, with a flag word in place of its counter.
- Completions: one flag and one list of suspended threads, a semaphore of value 0 or 1.
- The object registry, shell, file system and serial drivers: table look-ups, text parsing and device registers on top of the parts modelled here.
- `sk_tick_from_ms`, `sk_thread_delay`, the other commands of `sk_timer_control`, string and memory helpers other than `sk_memcpy`.
