# Allocator, lock, thread pool and UDP sessions: a verified model

This project models four components of a C++ server library and proves what they keep.

**Memory pool.** A flat, byte-addressed memory holds everything: the link words threaded
through the free chunks, the header word of each block, the two-byte home tag behind each
chunk's user bytes, and the users' data. `Memory`, `Layout`, `FreeList` and `Carving` define
the operations once on registers and raw memory (what the code does) and once on a sequence of
free chunks and a set of live ones (what it means), with one invariant tying the two. `Pool`
holds the classes that update the fields in place, `PurgeMemory` included. `ObjectPool` puts
one pool per thread into the same memory, `PoolRuns` covers whole runs of all threads and says
exactly when the code is well defined on them, `PoolBounds` counts chunks, `PoolLimits` carries
the counts to those runs and reaches their limits, and `ObjectPools` is the in-place form with
`Preallocate`.
`Appenders` is a separate machine at a finer grain: the owner's and the appenders' single
memory accesses interleaved in every way.

**Spinlock.** A machine over the atomic accesses of any number of threads, and the two atomics
as a class.

**ThreadPool.** A machine over its critical sections, and the queue and flag as a class.

**UDP sessions.** A machine over handler steps, increments and the reaper's accesses
(`Sessions`), whole sweeps (`Sweeps`), the receives posted on the socket (`Receives`), the packet
layout (`Packets`), the in-place tables and loops (`SessionManager`) and, joined to the packet
pool, the datagrams that are delivered (`Deliveries`).

A machine's step function defines each access once. What each access does to the program's state
is stated apart from that function, and the classes' methods, proved equal to the steps, state it
in terms of their fields. All properties of runs are proved about the steps.

## What the proofs show about the code

- `head_ == tail_` holds one chunk back for good, and this is what lets `free_append` leave the
  new tail's link unwritten: `FreeList.Linked` says nothing about the last link.
- A growth that overlaps appends loses chunks. `Appenders.GrowthLoss` gives the exact number:
  the tail updates between the empty check and the read of `tail_`; `Appenders.LossHappens` is a
  run that loses one.
- `PurgeMemory` resets `head_` but not `tail_`. If the pool had ever grown, the next `Malloc`
  takes null for a free chunk and reads its link (`Pool.MallocAfterPurge`).
- `ObjectPool::malloc` writes its tag behind the returned address even when that is null
  (`PoolRuns.StarvedWritesNull`). So `Preallocate` either returns true or has already left what
  is defined (`ObjectPools.Preallocate`); its `false` is unreachable. The requests for a thread's
  pool object and for the scratch array of `Preallocate` are not checked either
  (`PoolRuns.UnplacedHasNoPool`, `PoolLimits.FirstFreeMayFail`).
- A 65th thread is given an id past the end of the array (`PoolRuns.NoRoomLeavesArray`,
  `PoolLimits.SixtyFifthThreadFails`). A run of whole operations goes wrong in no other way
  than by a 65th thread or by a system without memory for chunks or for a pool object
  (`PoolRuns.RunRefines`, `PoolLimits.DefinedRunIff`).
- Each delivered datagram starts a thread that takes an id from the packet pool, so the 65th at
  the latest leaves the array (`Deliveries.DeliveriesBounded`); one client can send them
  (`Deliveries.OneClientDelivers`).
- A pool of chunks of 2^58 bytes or more asks the system for a wrapped size
  (`Carving.FirstRequestWraps`).
- The readers/writer lock does not exclude readers from writers: `Spinlock.OverlapHappens` is a
  run with both inside, `Spinlock.ExclusionIff` is the exact condition, and
  `Spinlock.FusedExcludes` shows that fusing test and increment repairs it.
- A pool of zero workers drops accepted tasks (`ThreadPool.NoWorkersNoDrain`); any other drains.
- A session accepted while its endpoint is already active gets its accept call but can never be
  disconnected (`Sessions.AckDropsIff`, `Sessions.DroppedForGood`, `Sessions.DropHappens`).
- A worker that found a session before its disconnection can raise its credit afterwards
  (`Sessions.LateIncrementIff`), and the guard of the data branch stops only the first such
  increment (`Sessions.LateGuard`).
- A receive-loop turn that ends in `continue` posts no new receive, and each such turn is a loss
  for good: after as many of them as there are workers, no datagram is received any more
  (`Receives.PostedCount`, `Receives.StrangersDeafen`). An evicted client that goes on sending
  heartbeats is enough (`Receives.ClaimsCost`), and so is a packet of more than 508 body bytes
  (`Receives.OversizedFails`).
- The sender accepts sizes up to 65000, the receiver's buffer holds 508 body bytes
  (`Packets.FitsIff`).

## Conventions

Pointers are eight bytes and addresses lie below 2^47. Memory is sequentially consistent.
The system allocator may answer null or any block apart from those it has handed out; its
answers, to requests for blocks, for pool objects and for scratch arrays, are parameters, as are
the contents of memory it has taken back. Session endpoints are
integers, since only their equality matters. The key order in which the reaper walks the
session table is a parameter.

## Model

| member | source | states |
|---|---|---|
| `FreeList.EmptyMeansOneHeldBack` | core/memory_pool/include/segregated_storage.hpp:51-54 | `head_ == tail_` holds exactly when at most one chunk is free, so the last free chunk is never handed out |
| `FreeList.PopRefines` | core/memory_pool/include/segregated_storage.hpp:27-32 | when two chunks are free, popping on raw memory takes the front of the free sequence and re-establishes the invariant |
| `FreeList.PushRefines` | core/memory_pool/include/segregated_storage.hpp:34-38 | freeing a live chunk on raw memory puts it at the front of the sequence |
| `FreeList.AppendRefines` | core/memory_pool/include/segregated_storage.hpp:40-49 | `tail_` is not null when a live chunk is appended, and the append puts it at the back although its own link is left as garbage |
| `FreeList.LiveWriteKeepsInv` | core/memory_pool/include/segregated_storage.hpp:84-87 | whatever a user writes into a chunk it holds, all links and headers survive |
| `Carving.LinkDownSpec` | core/memory_pool/include/segregated_storage.hpp:74-78 | the descending loop links every chunk to the next higher one and changes no byte outside link words |
| `Carving.SegregateSpec` | core/memory_pool/include/segregated_storage.hpp:62-82 | carving yields the chunks in ascending order followed by the old tail (or null), the tail is the last chunk only if there was none before, and only link words change |
| `Carving.DescentMeetsBlock` | core/memory_pool/include/segregated_storage.hpp:74-78 | the descending loop variable meets the block start if and only if the size is a multiple of the partition size and at least two partitions |
| `Carving.GrowthSizes` | core/memory_pool/include/pool.hpp:80-94 | at every reachable growth nothing wraps in `size_t`, header included, the size is an exact multiple of the chunk size and there are at least 32 chunks, so carving terminates |
| `Carving.FirstRequestWraps` | core/memory_pool/include/pool.hpp:82-85 | a new pool's request is the exact product, with room for the header, if and only if the chunk size is at most 2^58 - 1 |
| `Carving.NextSizeBound` | core/memory_pool/include/pool.hpp:82-94 | the next request, header included, never wraps in `size_t`, because it is twice the largest block obtained |
| `Carving.GrowHeaders` | core/memory_pool/include/pool.hpp:91-92 | after a growth the header words lead through all blocks, newest first, to null |
| `Carving.GrowRefines` | core/memory_pool/include/pool.hpp:80-96 | growth on an empty list puts all new chunks, ascending, before the one held back and keeps the invariant |
| `Carving.MallocRefines` | core/memory_pool/include/pool.hpp:30-36 | `Malloc` on raw memory returns the address the queue returns, for every answer of the system allocator including null, and keeps the invariant |
| `Carving.MallocTouches` | core/memory_pool/include/pool.hpp:30-36 | `Malloc` writes nowhere outside a block it adds |
| `Layout.ChunksApart` | core/memory_pool/include/segregated_storage.hpp:65-78 | two different chunks of a pool share no byte |
| `Layout.FreshChunk` | core/memory_pool/include/pool.hpp:84-89 | chunks of a newly obtained block are none of the old ones |
| `Pool.SegregatedStorage.Segregate` | core/memory_pool/include/segregated_storage.hpp:62-82 | the loop terminates at the block start with the memory and tail that `Carving.SegregateSpec` characterises |
| `Pool.SegregatedStorage.AddBlock` | core/memory_pool/include/segregated_storage.hpp:56-60 | as `Segregate`, with the head on the block |
| `Pool.Pool.constructor` | core/memory_pool/include/pool.hpp:17-23 | any requested size is accepted; the result is a sound empty pool, first growth 64 chunks, if and only if that size is at most 2^58 - 1 |
| `Pool.Pool.Empty` | core/memory_pool/include/pool.hpp:66-69 | true exactly when a `Malloc` would have to grow the pool |
| `Pool.Pool.Malloc` | core/memory_pool/include/pool.hpp:30-36 | on a valid pool: the view becomes that of the queue operation, memory and registers those of the pointer code, the system books only gain the new block |
| `Pool.Pool.ResizeAndMalloc` | core/memory_pool/include/pool.hpp:80-97 | growth in place, including the null answer that leaves everything as it was |
| `Pool.Pool.Free` | core/memory_pool/include/pool.hpp:56-59 | the chunk returns to the front and the pool stays valid |
| `Pool.Pool.FreeAppend` | core/memory_pool/include/pool.hpp:61-64 | the chunk returns to the back and the pool stays valid |
| `Pool.Pool.UserWrite` | core/memory_pool/include/pool.hpp:30-36 | a user may overwrite all bytes of its chunk without disturbing the pool |
| `Pool.Pool.PurgeMemory` | core/memory_pool/include/pool.hpp:43-54 | terminates and releases every block ever obtained exactly once, newest first, although a released block may be overwritten at once; of the registers only `tail_` and the chunk size survive |
| `Pool.PurgeStep` | core/memory_pool/include/pool.hpp:45-49 | one round reads the header before releasing its block, and the rest of the chain is still whole |
| `Pool.HeadersAfterFree` | core/memory_pool/include/pool.hpp:46-48 | overwriting the released block does not break the chain of the remaining headers |
| `Pool.MallocAfterPurge` | core/memory_pool/include/pool.hpp:32-35 | after a purge the next `Malloc` returns null without asking the system and makes the word at address null the new head, if and only if the pool had ever grown; if it had not, the pool is sound again |
| `Pool.PurgedUsable` | core/memory_pool/include/pool.hpp:50-53 | purged registers can stand for a pool if and only if the tail is null |
| `Pool.MallocHolds` | core/memory_pool/include/pool.hpp:30-36 | the invariant and the match between blocks and system books survive every `Malloc` |
| `ObjectPool.TagKept` | core/memory_pool/include/object_pool.hpp:111-116 | a write confined to one chunk does not reach the tag of another |
| `ObjectPool.MallocNullIff` | core/memory_pool/include/pool.hpp:30-36 | `Pool::Malloc` returns null exactly when it must grow and the system has no memory, and then changes nothing |
| `ObjectPool.MallocOwn` | core/memory_pool/include/object_pool.hpp:111-116 | malloc and the tag write: unless null is returned, the chunk was not live before, is tagged, and the tag write breaks neither a link nor another tag, even when tag and link share bytes |
| `ObjectPool.PushOwn` | core/memory_pool/include/object_pool.hpp:118-123 | freeing into the own pool overwrites at most the tag of the chunk given back |
| `ObjectPool.AppendOwn` | core/memory_pool/include/object_pool.hpp:125-132 | appending to a foreign pool finds a tail and spoils no tag of a live chunk |
| `ObjectPool.ForeignWrite` | core/memory_pool/include/object_pool.hpp:118-127 | an operation confined to one pool's blocks leaves every other pool's links, headers and tags intact |
| `ObjectPool.EnterKeeps` | core/memory_pool/include/object_pool.hpp:85-99 | a thread's first use keeps the invariant of all pools if and only if fewer than 64 ids were given out and the system has memory for the pool object; without that memory the thread is left without a pool |
| `ObjectPool.TagFitsIff` | core/memory_pool/include/object_pool.hpp:22 | the computed chunk size is the intended one, and the tag lies inside its chunk, if and only if `RequestedSize + 2` does not wrap |
| `ObjectPool.MallocRefinesWorld` | core/memory_pool/include/object_pool.hpp:46-49 | malloc by any thread, whatever the system answers to its requests for chunks and for a pool object: with a pool it returns what the queue operation returns, null exactly when starved, after the tag has been written behind null; without one nothing but an id is used up; otherwise the invariant over all pools is kept |
| `ObjectPool.FreeRefinesWorld` | core/memory_pool/include/object_pool.hpp:118-132 | free by any thread reads a tag inside the array and finds a tail there; unless the thread gets no pool object or no id, the chunk returns to the pool that carved it: front for its owner, back for others |
| `ObjectPool.MallocEffect` | core/memory_pool/include/object_pool.hpp:46-49 | malloc takes the front of the caller's own pool, or the first chunk of a new block put before what was left, or returns null; no other pool changes |
| `ObjectPool.FreeEffect` | core/memory_pool/include/object_pool.hpp:118-127 | free puts the chunk before its home pool's list if that is the caller's pool and behind it otherwise; no other pool changes |
| `ObjectPool.EnterEffect` | core/memory_pool/include/object_pool.hpp:85-99 | a new thread gets the next id and an empty pool; a known one changes nothing |
| `ObjectPool.TagIsHome` | core/memory_pool/include/object_pool.hpp:118-121 | the tag of a live chunk is the index of the pool that carved it |
| `ObjectPool.PoolsDisjoint` | core/memory_pool/include/object_pool.hpp:85-99 | chunks of different threads' pools share no byte |
| `ObjectPool.LiveApart` | core/memory_pool/include/object_pool.hpp:46-54 | no two chunks in users' hands share a byte |
| `PoolRuns.DefinedIff` | core/memory_pool/include/object_pool.hpp:46-54 | an operation uses no pool object at null, stays in the array, writes no tag behind null and passes the assertion if and only if there is an id left for its thread and none of its requests, for chunks or for a pool object, meets an exhausted system |
| `PoolRuns.StepRefines` | core/memory_pool/include/object_pool.hpp:46-54 | each such operation of any thread on raw bytes simulates the operation on the queues |
| `PoolRuns.WriteEffect` | core/memory_pool/include/object_pool.hpp:111-116 | a user's write puts exactly its bytes into its chunk |
| `PoolRuns.StarvedWritesNull` | core/memory_pool/include/object_pool.hpp:113-115 | malloc in an exhausted system returns null after writing its tag behind address null |
| `PoolRuns.NoRoomLeavesArray` | core/memory_pool/include/object_pool.hpp:94-95 | a new thread after 64 others gets id 65, one past the end of the array |
| `PoolRuns.UnplacedHasNoPool` | core/memory_pool/include/object_pool.hpp:89-96 | the first call of a thread, even a free, is not well defined when the system has no memory for the pool object, and leaves the thread without a pool |
| `PoolRuns.RunRefines` | core/memory_pool/include/object_pool.hpp:33-132 | a whole run of all threads is well defined on raw bytes if and only if no 65th thread enters and no request, for chunks or for a pool object, meets an exhausted system; it then returns exactly the addresses the per-thread queues return |
| `PoolRuns.StepKeepsData` | core/memory_pool/include/object_pool.hpp:111-127 | no other operation changes the user bytes of a live chunk, and no malloc returns it |
| `PoolRuns.RunKeepsData` | core/memory_pool/include/object_pool.hpp:111-127 | from malloc to free, through any run of all threads, a chunk keeps its user's bytes and its home tag |
| `PoolRuns.HandedOutOnce` | core/memory_pool/include/object_pool.hpp:46-54 | until it is freed, no malloc of any thread in any run returns the chunk again |
| `PoolRuns.StartOk` | core/memory_pool/include/object_pool.hpp:17-22 | the state before first use satisfies the invariant |
| `PoolBounds.ChunkCount` | core/memory_pool/include/pool.hpp:94 | the number of chunks in k blocks is the sum over k growths |
| `PoolBounds.CarvedExactly` | core/memory_pool/include/pool.hpp:17-23 | after k growths exactly start*(2^k - 1) chunks exist (64*(2^k - 1) from construction), and free plus live is all of them |
| `PoolBounds.GrowthIsNeeded` | core/memory_pool/include/pool.hpp:30-36 | a `Malloc` grows the pool if and only if all but at most one of its chunks are live |
| `PoolBounds.StepViewOk` | core/memory_pool/include/pool.hpp:30-64 | every operation conserves live plus free chunks |
| `PoolBounds.PeakBound` | core/memory_pool/include/pool.hpp:80-97 | a purge-free run keeps the number of carved chunks within twice its peak of live chunks plus 64 |
| `PoolBounds.CarvedBound` | core/memory_pool/include/pool.hpp:80-97 | the same bound from construction on, for every run |
| `PoolLimits.EveryPoolBounded` | core/memory_pool/include/object_pool.hpp:85-132 | over every run of all threads, each thread's pool carves at most twice the peak of its own live chunks plus 64 |
| `PoolLimits.FirstMallocMayFail` | core/memory_pool/include/object_pool.hpp:111-116 | the run of one malloc in an exhausted system is not well defined |
| `PoolLimits.FirstFreeMayFail` | core/memory_pool/include/object_pool.hpp:91-93 | a run in which one thread allocates and another frees, which fails at the free because the freeing thread gets no pool object |
| `PoolLimits.SafeRunIff` | core/memory_pool/include/object_pool.hpp:85-99 | from any sound state: a run is safe if and only if all its requests are served and the threads so far together with those of the run are at most 64 |
| `PoolLimits.DefinedRunIff` | core/memory_pool/include/object_pool.hpp:83-99 | from the first use on: a run is well defined if and only if all its requests are served and at most 64 different threads allocate or free in it, in whatever order |
| `PoolLimits.SixtyFifthThreadFails` | core/memory_pool/include/object_pool.hpp:83-95 | a run in which 64 threads arrive and allocate, and the 65th breaks it |
| `PoolBounds.MallocManySpec` | core/memory_pool/include/object_pool.hpp:37 | n mallocs return n different chunks, none of them live before |
| `PoolBounds.FreeManySpec` | core/memory_pool/include/object_pool.hpp:38-41 | giving chunks back removes exactly them from the live set and grows nothing |
| `PoolBounds.NoGrowth` | core/memory_pool/include/pool.hpp:30-36 | with n+1 chunks free, n mallocs succeed without asking the system, whatever it would answer |
| `PoolBounds.PreallocateSpec` | core/memory_pool/include/object_pool.hpp:33-44 | after n mallocs and n frees the live set is as before and the next n mallocs carve nothing |
| `ObjectPools.ObjectPools.ObjectPool` | core/memory_pool/include/object_pool.hpp:85-99 | creates the pool of the calling thread on first use and only then; the pools stay sound if and only if an id was left and the system had memory for the pool object |
| `ObjectPools.ObjectPools.Malloc` | core/memory_pool/include/object_pool.hpp:46-49 | in-place malloc for any system answers, equal to the step on raw memory and, for a thread with a pool, to the queue operation; null comes exactly from a starved pool, with the tag written behind null, or from the lack of a pool object |
| `ObjectPools.ObjectPools.Free` | core/memory_pool/include/object_pool.hpp:118-127 | in-place routing by the tag for any system answer, equal to the step on raw memory; the chunk returns home and the pools stay sound if the thread has or gets its pool and id |
| `ObjectPools.ObjectPools.Preallocate` | core/memory_pool/include/object_pool.hpp:33-44 | for any system answers, returns if and only if the scratch array was obtained (or n <= 0) and the run of its mallocs is well defined; otherwise it faults for want of the array, even when no chunk is missing, or at the first malloc that cannot be done; false is never returned; on return the live set and all other pools are unchanged and the next n mallocs of that thread carve nothing |
| `Appenders.StepKeeps` | core/memory_pool/include/segregated_storage.hpp:27-82 | whatever single memory access of whichever thread comes next, the invariant of the concurrent list is kept |
| `Appenders.OwnPushEffect` | core/memory_pool/include/segregated_storage.hpp:34-38 | the owner's free makes the chunk the head, before the old list, and leaves the live set alone, in every state of the other threads |
| `Appenders.ListLaw` | core/memory_pool/include/segregated_storage.hpp:27-82 | for every access in every sound state: the list grows at the front by the owner's push, at the back by an append's store, shrinks by a pop, changes by a publication, and by nothing else; so do `head_` and `tail_` |
| `Appenders.LiveLaw` | core/memory_pool/include/segregated_storage.hpp:27-49 | chunks become live by a pop and stop being live when given back, by nothing else |
| `Appenders.OwnerLaw` | core/memory_pool/include/pool.hpp:30-36 | each access takes the owner to the next place of `Malloc`, growth or free, and no other thread moves it |
| `Appenders.AppenderLaw` | core/memory_pool/include/segregated_storage.hpp:40-49 | each access takes its appender, and no other, to the next place of `free_append`; the lock is held exactly from the second access to the last |
| `Appenders.LinkLaw` | core/memory_pool/include/segregated_storage.hpp:34-78 | which link word each access writes, and with what |
| `Appenders.NobodyStuck` | core/memory_pool/include/segregated_storage.hpp:40-49 | the owner can always go on, and every appender too unless it waits for a lock whose holder can |
| `Appenders.OnlyPopHandsOut` | core/memory_pool/include/segregated_storage.hpp:27-32 | in every run a chunk that nobody has stays with nobody until a pop hands it out |
| `Appenders.LengthLaw` | core/memory_pool/include/segregated_storage.hpp:27-82 | in every run the list grows by one with every push and every append and by the size of every new block, and shrinks by one with every pop and by what growths lose |
| `Appenders.SoloMalloc` | core/memory_pool/include/pool.hpp:30-36 | undisturbed, a malloc with two chunks free hands out the front |
| `Appenders.SoloFree` | core/memory_pool/include/segregated_storage.hpp:34-38 | undisturbed, the owner's free is a push at the front |
| `Appenders.SoloAppend` | core/memory_pool/include/segregated_storage.hpp:40-49 | undisturbed, free_append is a push at the back and leaves the lock free |
| `Appenders.SoloGrowth` | core/memory_pool/include/pool.hpp:80-97 | undisturbed, a growth puts the new chunks before the one held back, hands out the first and loses none; so does the first growth of a pool |
| `Appenders.HeadReachesTail` | core/memory_pool/include/segregated_storage.hpp:27-54 | at every moment of every interleaving the links lead from `head_` to `tail_` through different chunks, none live or on its way back |
| `Appenders.NoSecondHandOut` | core/memory_pool/include/segregated_storage.hpp:27-32 | between two hand-outs of a chunk it has been given back, in every interleaving |
| `Appenders.PopHandsOut` | core/memory_pool/include/segregated_storage.hpp:27-32 | a pop hands out a chunk that was nobody's and is never the tail |
| `Appenders.CountsAddUp` | core/memory_pool/include/pool.hpp:30-36 | every chunk is exactly one of live, being given back, in the list, or lost |
| `Appenders.AppendersSeeATail` | core/memory_pool/include/segregated_storage.hpp:42 | the assertion of `free_append` holds from call to return of every appender |
| `Appenders.OnlyPublishLoses` | core/memory_pool/include/segregated_storage.hpp:56-60 | only the head update that ends a growth loses chunks, and its loss is the difference of two counts |
| `Appenders.WindowKeepsCheck` | core/memory_pool/include/segregated_storage.hpp:64-71 | until a growth reads the tail, every append is counted by exactly one tail update |
| `Appenders.GrowthLoss` | core/memory_pool/include/segregated_storage.hpp:62-82 | a growth loses exactly as many chunks as there were `tail_` updates between its empty check and its own access to `tail_`; for the first growth of a pool that is none |
| `Appenders.LossHappens` | core/memory_pool/include/segregated_storage.hpp:64-71 | a run from the empty pool in which one append inside a growth costs the chunk held back |
| `Spinlock.StepKeeps` | core/lock/Spinlock.cpp:12-46 | every atomic access keeps the lock's invariant |
| `Spinlock.NextAccess` | core/lock/Spinlock.cpp:12-46 | which accesses a thread can make next, from its place alone |
| `Spinlock.ExchangeEffect` | core/lock/Spinlock.cpp:16 | after an exchange the flag is set whoever is inside; the thread owns the lock if and only if the flag was clear; the readers do not notice |
| `Spinlock.WriterEffect` | core/lock/Spinlock.cpp:18-29 | a load lets the writer in if and only if it finds no reader; unlocking clears the flag; neither touches the count |
| `Spinlock.ReaderEffect` | core/lock/Spinlock.cpp:35-45 | a test passes if and only if the flag is clear; entering and leaving change the count by one; none touches the flag |
| `Spinlock.OthersStay` | core/lock/Spinlock.cpp:12-46 | no access moves another thread |
| `Spinlock.RunAtomics` | core/lock/Spinlock.cpp:12-46 | after any run the flag is what the last exchange or unlock left and the count is entries minus leavings |
| `Spinlock.WritersExclude` | core/lock/Spinlock.cpp:12-29 | in every run at most one thread is past `exchange`, and `reader_` is the number of readers inside |
| `Spinlock.OverlapExplained` | core/lock/Spinlock.cpp:31-41 | a reader inside together with a writer made its test before the writer's exchange and its increment after the writer saw no reader; the four positions in the run are produced |
| `Spinlock.OverlapHappens` | core/lock/Spinlock.cpp:35-36 | a run in which a reader and a writer are inside together |
| `Spinlock.ExclusionIff` | core/lock/Spinlock.cpp:12-46 | a writer that has got in stays alone in every continuation if and only if no reader was between test and increment at that moment |
| `Spinlock.FusedExcludes` | core/lock/Spinlock.cpp:35-36 | with test and increment as one access, readers and writers exclude each other in every run |
| `Spinlock.DrainBounded` | core/lock/Spinlock.cpp:16-19 | while the lock is taken, reader steps made plus steps left is constant and no new reader gets past the test |
| `Spinlock.DrainFromExchange` | core/lock/Spinlock.cpp:16-19 | from every won exchange to the unlock, with readers inside or not: the flag stays set, no new reader passes its test, and the readers make at most two steps for each that is past its test and one for each inside |
| `Spinlock.DrainedWriterEnters` | core/lock/Spinlock.cpp:18 | the draining writer's load succeeds exactly when no reader is inside, and must once the steps are used up |
| `Spinlock.SpinlockCells.Exchange` | core/lock/Spinlock.cpp:16 | leaves 1 in the flag; wins exactly when 0 was there, which is when the thread owns the lock |
| `Spinlock.SpinlockCells.LoadReaders` | core/lock/Spinlock.cpp:18 | sees zero exactly when no reader is inside, which lets the writer in; changes neither atomic |
| `Spinlock.SpinlockCells.Unlock` | core/lock/Spinlock.cpp:25-29 | clears the flag, leaves the count, and the thread is out |
| `Spinlock.SpinlockCells.Test` | core/lock/Spinlock.cpp:35 | passes exactly when the flag is clear; changes neither atomic |
| `Spinlock.SpinlockCells.Increment` | core/lock/Spinlock.cpp:36 | one more reader inside, flag untouched |
| `Spinlock.SpinlockCells.ReadUnlock` | core/lock/Spinlock.cpp:43-46 | one reader less, flag untouched |
| `ThreadPool.StepKeeps` | core/thread_manager/ThreadPool.cpp:10-29 | every step keeps: the queue is the undispatched rest of the accepted tasks in order, each dispatched task is with one worker or has run once, workers return only from a stopped empty pool |
| `ThreadPool.DispatchInOrder` | core/thread_manager/ThreadPool.cpp:19-22 | a worker that takes a task takes the oldest accepted one not yet dispatched |
| `ThreadPool.StopEffect` | core/thread_manager/ThreadPool.cpp:33-36 | stopping sets the flag and leaves queue, workers and all records alone |
| `ThreadPool.EnqueueEffect` | core/thread_manager/ThreadPool.h:27-33 | enqueuing adds at the back of an unstopped pool and is refused by a stopped one |
| `ThreadPool.WorkerEffect` | core/thread_manager/ThreadPool.cpp:12-26 | a worker takes the front of the queue, leaves a stopped empty pool, or goes round; a running one can only finish its task |
| `ThreadPool.AcceptedLaw` | core/thread_manager/ThreadPool.h:27-33 | in every run the accepted tasks are those accepted before followed by those of the Enqueue events before the first Stop, in order |
| `ThreadPool.DispatchedInOrder` | core/thread_manager/ThreadPool.cpp:19-22 | in every run the tasks given to workers are the oldest accepted ones, in order of acceptance |
| `ThreadPool.DrainOnShutdown` | core/thread_manager/ThreadPool.cpp:31-39 | with at least one worker: when all have returned, the queue is empty and the tasks that ran are, as a multiset, those of the Enqueue events before the first Stop |
| `ThreadPool.NoWorkersNoDrain` | core/thread_manager/ThreadPool.cpp:6-8 | a pool of zero workers leaves an accepted task unrun |
| `ThreadPool.StoppedStep` | core/thread_manager/ThreadPool.cpp:16-22 | after stop nothing is accepted and each locked iteration lowers queued tasks plus active workers by one |
| `ThreadPool.StoppedRun` | core/thread_manager/ThreadPool.cpp:31-39 | after stop, locked iterations made plus queued tasks plus active workers is constant, so at most queue plus workers of them remain |
| `ThreadPool.ThreadPool.Enqueue` | core/thread_manager/ThreadPool.h:16-35 | accepts at the back exactly when the pool is not stopped |
| `ThreadPool.ThreadPool.LockedIteration` | core/thread_manager/ThreadPool.cpp:14-23 | exits exactly on a stopped empty pool, takes exactly the front of a non-empty queue, which is the oldest undispatched task, and otherwise changes nothing |
| `ThreadPool.ThreadPool.RequestStop` | core/thread_manager/ThreadPool.cpp:33-36 | sets the flag; the queue and everything else stay as they were |
| `Sessions.StepKeeps` | core/udp_server/src/session_manager.cpp:37-153 | every handler step and every reaper step keeps the invariant of tables, credits and in-flight lookups |
| `Sessions.SynEffect` | core/udp_server/src/session_manager.cpp:87-95 | a SYN creates a session of its endpoint with credit 0, pending unless the endpoint is a key already, and changes nothing else |
| `Sessions.AckEffect` | core/udp_server/src/session_manager.cpp:99-119 | an ACK removes the endpoint's pending session, puts it into the active table unless the endpoint is a key there, calls the accept handler for it, and changes nothing else |
| `Sessions.AliveEffect` | core/udp_server/src/session_manager.cpp:121-153 | a lookup finds the active session and changes no table; an increment raises that session's credit by one, whatever the reaper has done |
| `Sessions.ReaperEffect` | core/udp_server/src/session_manager.cpp:41-61 | a sweep sets out to visit every active endpoint; a visit lowers one credit by one; a test evicts from -2 down; the second loop goes from the front to behind the back |
| `Sessions.ReapEffect` | core/udp_server/src/session_manager.cpp:54-60 | each access of the second loop lowers one credit by one; at -3 the session leaves the vector and is disconnected, else the loop moves on |
| `Sessions.OnePlace` | core/udp_server/src/session_manager.cpp:41-120 | every session ever created is in exactly one of pending, active, evicted, disconnected or the two kinds of drops, in every run; keys are the sessions' endpoints |
| `Sessions.HandlersOnce` | core/udp_server/src/session_manager.cpp:53-119 | the accept handler runs at most once per session and only for an ACK from its own endpoint; the disconnect handler at most once and only for accepted sessions |
| `Sessions.AckDropsIff` | core/udp_server/src/session_manager.cpp:114-119 | an accepted session is missing from the active table if and only if its endpoint was already active at the ACK |
| `Sessions.DroppedForGood` | core/udp_server/src/session_manager.cpp:114-119 | such a session is never disconnected, in any continuation |
| `Sessions.DropHappens` | core/udp_server/src/session_manager.cpp:87-119 | two handshakes from one endpoint accept two sessions and drop the second |
| `Sessions.EvictedAtMinusTwo` | core/udp_server/src/session_manager.cpp:43-47 | the test evicts exactly at credit -2; it is never lower, whatever in-flight increments did |
| `Sessions.MinusThreeNotSkipped` | core/udp_server/src/session_manager.cpp:53-58 | before each second-phase decrement the credit is at least -2, and the session is disconnected exactly when it was -2 |
| `Sessions.DataGuardHolds` | core/udp_server/src/session_manager.cpp:147 | the guard of the data branch holds for every session not yet disconnected |
| `Sessions.LateIncrementIff` | core/udp_server/src/session_manager.cpp:54-56 | after a disconnection some run still raises the deleted session's credit if and only if a worker held the session at that moment |
| `Sessions.LateGuard` | core/udp_server/src/session_manager.cpp:147-152 | for a deleted session the guard turns away exactly the first late increment and passes the later ones |
| `Sessions.DebtRun` | core/udp_server/src/session_manager.cpp:53-61 | along any run an evicted session is disconnected or has used up one unit of its remaining passes per sweep |
| `Sessions.DisconnectedWithin` | core/udp_server/src/session_manager.cpp:42-61 | with q increments in flight at its eviction a session is disconnected within q further sweeps |
| `Sessions.SurvivesIff` | core/udp_server/src/session_manager.cpp:42-50 | an active session survives a run if and only if at its j-th test it had been credited at least j-1 times, for every j: it is evicted at the first j with m_j <= j-2 |
| `Sweeps.SweepVisitsAll` | core/udp_server/src/session_manager.cpp:42-50 | in every sweep, whatever the workers do meanwhile, each endpoint in the table at its start is visited and tested exactly once, and no other |
| `Sweeps.ActiveAccount` | core/udp_server/src/session_manager.cpp:42-50 | while a session stays active its credit is what it was plus increments minus visits, and visits are the sweeps started, less the one whose turn for it is still to come |
| `Sweeps.EvictedAtFirst` | core/udp_server/src/session_manager.cpp:42-50 | with m_j the heartbeats and data datagrams of a session before the j-th sweep of a run whose sweeps they do not fall into: it is active at the end if and only if credit + m_j >= j - 1 for all j, so it is evicted at exactly the first j with m_j <= j - 2 |
| `Sweeps.WholeSweep` | core/udp_server/src/session_manager.cpp:41-61 | one undisturbed sweep, session by session: active at credit -1 means evicted and disconnected, any other loses one credit and stays; those evicted before are disconnected at -2 and lose one credit otherwise |
| `SessionManager.SessionManager.OnSyn` | core/udp_server/src/session_manager.cpp:87-95 | in-place SYN handler: the new session's number, endpoint, credit and place in the pending table; equal to the machine's step |
| `SessionManager.SessionManager.OnAck` | core/udp_server/src/session_manager.cpp:99-119 | in-place ACK handler: what becomes of both tables, and whether the endpoint was pending; equal to the machine's step |
| `SessionManager.SessionManager.OnAlive` | core/udp_server/src/session_manager.cpp:121-153 | lookup then increment: the credit of the session found rises by one and is above -2; equal to the machine's two steps |
| `Receives.OversizedFails` | core/udp_server/src/socket.hpp:22-49 | of the packets that can be built, exactly those of more than 508 body bytes complete the receive they meet with an error |
| `Receives.PostedCount` | core/udp_server/src/session_manager.cpp:77-155 | in every run receives still posted plus turns cut short, error completions included, is constant |
| `Receives.CutShortIff` | core/udp_server/src/session_manager.cpp:77-139 | a turn is cut short if and only if its receive failed or brought fewer bytes than a header, its ACK's endpoint is not pending, or its heartbeat's or data's endpoint is not active |
| `Receives.KeptIff` | core/udp_server/src/session_manager.cpp:77-155 | a run keeps all its receives if and only if none of those things happens in it |
| `Receives.AliveTurn` | core/udp_server/src/session_manager.cpp:121-153 | a heartbeat or data turn of an active endpoint raises its session's credit by one and changes no table; of any other endpoint it changes nothing |
| `Receives.OtherTurns` | core/udp_server/src/session_manager.cpp:87-120 | SYN and ACK turns are those events; failed, short and other turns change no table |
| `Receives.DeafIff` | core/udp_server/src/session_manager.cpp:77-155 | a datagram can still be received if and only if fewer turns have been cut short, error completions included, than receives were posted |
| `Receives.DeafForever` | core/udp_server/src/session_manager.cpp:71-78 | once no receive is posted, none is handled in any continuation |
| `Receives.StrangersDeafen` | core/udp_server/src/session_manager.cpp:121-127 | as many heartbeats from an unknown endpoint as there are posted receives leave none, and change nothing else |
| `Receives.ClaimsCost` | core/udp_server/src/session_manager.cpp:121-153 | in every run, an endpoint without a session that does not acknowledge anew loses a receive with each heartbeat or data datagram, so at most as many of them are received as receives are posted |
| `Deliveries.DeliveriesBounded` | core/udp_server/src/session_manager.cpp:147-152 | the packet pool is left undefined by the 65th delivered datagram at the latest, in every run of loop, reaper and other pool users and for all system answers |
| `Deliveries.OneClientDelivers` | core/udp_server/src/session_manager.cpp:87-153 | one client that shakes hands and sends n data datagrams has all n delivered, so the bound is reached |
| `Deliveries.OneClientHeard` | core/udp_server/src/session_manager.cpp:87-155 | with a single receive posted, a client that shakes hands and sends n heartbeats or data datagrams gets its credit raised n times and leaves the receive posted |
| `Receives.TurnsKeep` | core/udp_server/src/session_manager.cpp:70-160 | every run of the receive loop and the reaper keeps the invariant of tables and credits |
| `SessionManager.SessionManager.OnDatagram` | core/udp_server/src/session_manager.cpp:74-156 | one turn of the receive loop, in terms of tables, credits and receives: heartbeat and data from an active endpoint raise its credit by one and leave the tables; a receive is lost exactly on error, fewer than 4 bytes, an ACK not pending, or a heartbeat or data not active; the packet handler is called exactly for data from an active endpoint |
| `SessionManager.SessionManager.VisitAndTest` | core/udp_server/src/session_manager.cpp:43-49 | body of the first sweep loop: one credit less, and from below zero the session moves from the table to the vector; equal to the machine's two steps |
| `SessionManager.SessionManager.ReapOne` | core/udp_server/src/session_manager.cpp:54-60 | body of the second sweep loop: one credit less, and at -3 the session leaves the vector; equal to the machine's step |
| `SessionManager.SessionManager.Sweep` | core/udp_server/src/session_manager.cpp:41-61 | both loops end, for any key order: every session of the table is visited and tested exactly once, leaves the table and is disconnected if and only if its credit was -1, and loses one credit otherwise; those evicted before are disconnected if and only if theirs was -2 |
| `Packets.ShortRoundTrip` | core/udp_server/src/packet.cpp:43-44 | a signed 16-bit field written as two bytes reads back unchanged |
| `Packets.ShortLayout` | core/udp_server/src/packet.cpp:43-44 | the low byte of a field comes first |
| `Packets.ClassifyIff` | core/udp_server/src/session_manager.cpp:78-132 | for each kind of datagram, if and only if conditions on the number of bytes and the two fields |
| `Packets.Packet.FromFields` | core/udp_server/src/packet.cpp:23-30 | the data block starts with the image of size, type and body |
| `Packets.Packet.Parse` | core/udp_server/src/packet.cpp:40-47 | size, type and body of the received bytes are in the new data block |
| `Packets.PacketRoundTrip` | core/udp_server/src/session_manager.cpp:84-132 | every packet with 0 <= size <= 508 passes the length test, parses back to the same fields and body, and reaches the data branch unless it is one of the three control packets |
| `Packets.SendAndReceive` | core/udp_server/src/packet.cpp:23-47 | a packet built, sent, received behind leftover bytes and parsed has the same size, type and body, and it is parsed if and only if it is no control packet |
| `Packets.FitsIff` | core/udp_server/src/socket.hpp:22-49 | a packet that can be built fits the receive buffer if and only if its size is between 0 and 508 |
| `Packets.DataIsWhole` | core/udp_server/src/session_manager.cpp:132 | whatever arrives, the data branch sees a size of 0 to 508 that is exactly the bytes received, and no control packet |
| `Memory.LoadStore` | core/memory_pool/include/object_pool.hpp:114-120 | a stored little-endian number is the one loaded |
| `Memory.LoadStoreApart` | core/memory_pool/include/segregated_storage.hpp:84-87 | a store elsewhere is not seen |

## Left out

- Windows sockets, completion ports, socket constructors and endpoint text parsing: foreign calls; a datagram is its length, its buffer and its source.
- Real time and `Sleep`: a sweep is a step whenever it comes.
- The TCP side (`Client`, `ClientManager`, `IoContext`, `Buffer`): I/O plumbing with easy claims only.
- `Pool::ReleaseMemory` (unwritten), destruction and reference counts of `ObjectPool`, `Construct` and `Destroy`.
- What follows the first `Malloc` on a pool purged after growth: its head is then whatever the word at address null holds (`Pool.MallocAfterPurge`).
- `SingletonPool`, `FastPoolAllocator`, `null_mutex`, the handler setters and their mask: thin wrappers.
- Detached handler threads and the lifetime of the read buffer they capture: calling a handler is part of the step that starts it.
- Two ACKs of one endpoint racing inside the erase: the ACK handler is one step, so `SessionManager.OnAck` requires that the reaper is not inside its locked phase.
- Overlap of a table lookup with a table update: each locked section of the sessions is one step, although the lock by itself grants that only between writers.
- The memory of a disconnected session: the record is kept in the model instead of being freed, so a late increment only changes its credit.
- Weak memory: all accesses are sequentially consistent.
- 32-bit overflow of `reader_` and 16-bit overflow of the credit: both are unbounded here.
- Waiting itself: a spin loop of `Lock` or `ReadLock` is any number of rounds of its atomic accesses; that it ends is stated as the bound on reader steps, not as termination of a loop.
- `ThreadPool` futures and results: a task is a value and running it an event.
- Process and thread start-up of `SessionManager::Run`, and stopping it.
- Benchmarks, tests and project files.
- Pool.Pool.Malloc: the first chunk count and its doubling are exact, but the system allocator is assumed never to answer a block outside the 47-bit address space.
- ObjectPools.ObjectPools.Malloc: entries of the array are register records rather than `Pool` objects, so aliasing of pool objects is not captured; what the program does after writing through null or past the array is not modelled, beyond the step itself.
- ObjectPools.ObjectPools.Preallocate: ends with `Faulted` at the first malloc that cannot be done, since the program has no defined behaviour from there on; the scratch array and the pool objects lie outside the modelled memory, so only whether the system grants them matters.
- Receives.PostedCount: a turn of the loop is one step between the reaper's accesses; a wait that times out takes no receive and is no turn.
- Deliveries.DeliveriesBounded: the packets the loop itself builds to answer a SYN count among the other operations on the packet pool.
- ObjectPool.TagFitsIff: the two largest values of `RequestedSize`, for which `RequestedSize + 2` wraps and the tag lies outside its chunk, are excluded from all other results on `ObjectPool`.
- Appenders.StepKeeps: memory has one word per chunk, so user bytes and tags do not occur there; block headers and `PurgeMemory` do not either.
- Packets.Packet.FromFields: a size above 65000 leaves the data block as the pool gave it, as in the code, and nothing is said about it; the constructor without body bytes is not modelled.
- Packets.Packet.Parse: a received size outside the buffer is excluded by the length test of the data branch (`Packets.DataIsWhole`), the only caller.
