# The OpenTelemetry C wrapper, verified

The parts of the wrapper that carry state across threads, calls or restarts, each as a state
machine whose steps are the atomic actions or critical sections of the source, plus a class whose
methods are those actions and are proved to take exactly those steps. A step that cannot be taken
leaves the state alone, so a theorem over an arbitrary sequence of steps is a theorem over every
interleaving. Code that only computes (the YAML walker, the resolver) is a specification function
with the source's loops proved against it.

| file | what it covers |
|---|---|
| `DropCounting.dfy` | the span and log processors' drop counting and status readers |
| `SharedMutex.dfy` | the writer-preferring shared mutex |
| `Bits.dfy`, `HandleMap.dfy` | shard masking; the sharded handle map and its high-water mark |
| `DbgMem.dfy` | what each call of the debug allocator does: record table, headers, double-free rejection |
| `DbgThreads.dfy` | the sections of those calls interleaved |
| `HandleLifetime.dfy` | one handle map over its generations: calls, teardown, identifiers, the ledger |
| `TracerLifetime.dfy` | the tracer count and the two handle maps together |
| `MeterRegistry.dfy`, `MeterViews.dfy` | instruments and their index; views and their replay on restart |
| `YamlTree.dfy`, `YamlResolve.dfy` | path lookup, path printing, duplicate scan, name resolution |
| `Restart.dfy` | starting, restarting and destroying a pipeline with file exporters |
| `Text.dfy`, `Collections.dfy` | decimals, folding, splitting; witnesses from sets and maps |

`DbgMem.dfy` is the exception to the first paragraph: its runs are sequences of whole calls, and
`DbgThreads.dfy` has the interleavings.

Three kinds of theorem go with each machine: what every step keeps, what every run shows, and what an
operation brings about. The last are stated without the functions that describe the steps: what a
call does when nobody else is around, what it returns or leaves behind whatever the others do, and
counts taken from the run itself.

What the environment decides is a parameter of the step: the scheduler, which allocations and
insertions fail, the addresses libc returns and what it leaves in a released header, whether a file
opens, what a worker exports, spurious compare-exchange failures, the order in which an unordered
map yields its entries. Atomics are sequentially consistent, and the plain global map pointers are
read anew at each use.

What the environment promises is small:

- A shut-down SDK exporter writes nothing, and a released pipeline's exporters are shut down.
- libc returns fresh addresses outside the record table. For whole calls of the debug allocator,
  what it leaves in a released header is anything but a header that claims the block was never
  tracked; under threads it may leave anything.
- Under threads, nobody passes a live block to the debug allocator that another call is working on,
  and the header of a live block is overwritten only so that its magic is destroyed.
- A tracer is destroyed only after its own calls have returned. Spans and span contexts may outlive
  the maps; their ends and destroys, and creates of span contexts, wait for nobody.
- Neither of the two 64-bit drop counters wraps.

## What the proofs showed

- `max_queue_size` 0 behaves as 1, because of the guard `prod > cons` (src/processor.cpp:255). The
  overshoot bound is stated for that effective capacity and is tight. The configuration admits only
  64 to 65536.
- A queued writer's wait is bounded if the rwlock hands the exclusive lock out in arrival order; the
  bound counts diverted readers queued ahead as well as readers in flight. `std::shared_mutex` does
  not promise any order, and without one there are runs in which a diverted reader takes the
  exclusive lock any number of times first, so the claim of include/util.h:114-118 does not follow
  from the code alone.
- The pointer test that an end, a destroy or a span context create makes before it takes a shard
  lock does not protect it from the last tracer's teardown. A run is free of uses of a deleted map
  exactly when no call is under way between the delete and the clearing of the pointer
  (src/tracer.cpp:348-349), and a run of one tracer and one leftover span context violates that.
- A span context create that takes its identifier between the save and the delete of the teardown
  (src/tracer.cpp:346-348) gets one that the next generation issues again. Span context identifiers
  are distinct exactly in the runs where no such late identifier is followed by another one in a
  later generation; otherwise a structure can find, and destroy, the handle of another. Span
  identifiers never repeat, because only tracers' own calls take them.
- An end or destroy that finds no map, and is then overtaken by a new one, looks into the new map
  without its shard lock (src/span.cpp:1515-1523). A run is free of that exactly when no such call is
  under way when there is a map again. For spans the lookup finds nothing, and for span contexts too
  as long as no identifier was issued twice, but the read itself is not ordered.
- Handles are conserved whatever races with the sweep. A span context published behind the sweep is
  not lost either: the destructor of the map deletes it.
- While a tracked realloc is between libc and its record update, the address the block left may be
  served again, and two used records then hold one base; whenever no call is pending, none do.
- With calls one after another, a second free is refused exactly while the header still reads as a
  wrapper header or a record holds the base. Once libc has overwritten the header and the record has
  been reused, the pointer passes for a foreign one and reaches libc.
- Under threads there are two more ways. The header is read twice, and an overwrite between the two
  readings makes the release report the block but accept it (src/dbg_malloc.cpp:365-373). And while
  a realloc is between libc and its record update, the record still names the address the block has
  left: if libc left the header there as it was, a second free of that address passes both readings
  and takes the record away from the moved block. Otherwise, unless the header claims an untracked
  block or the address was served again, the second reading rejects.
- Printing and looking up a YAML path undo each other on a whole tree exactly when the duplicate
  scan accepts it, no key contains a slash, and the root has no child with the empty key (its path
  "/" denotes the root). The scan lets keys with slashes pass; such a node, and every node below it,
  is never found by its printed path.
- For the signal bases the code passes, the probed name state and the resolver disagree exactly when
  the path cut to the probe's buffer and the whole path do not both denote a node or both not. Names
  up to 4079 characters below "/signals/traces" always agree; every longer one without '/' has
  documents on which the two disagree. A name with '%' is refused by the resolver; the callers of the probe refuse
  it before (src/util.cpp:2030, 2099).
- A start that fails before the shutdown leaves every file's old contents in place, but the file may
  have been created, or extended by the exporters that were opened and then abandoned, since their
  workers already run.

## Model

| member | source | states |
|---|---|---|
| `DropCounting.OvershootBound` | src/processor.cpp:245-261 | In every interleaving of T producer calls, each a load, a load and an increment, with any exports: produced − consumed ≤ max_queue_size + T − 1 (with 0 acting as 1); produced + dropped is the number of completed non-null calls; consumed is what was exported, failed or is being exported |
| `DropCounting.OvershootReached` | src/processor.cpp:245-261 | The bound is attained for every queue size and every T, so no smaller one holds |
| `DropCounting.DropIsExact` | src/processor.cpp:252-258 | With arbitrary steps of other calls and the exporter between its actions, a call counts a drop exactly when the produced value it loaded exceeds the consumed value it loaded later by the capacity, and otherwise raises produced, never both; a drop means the queue was at capacity when the call began |
| `DropCounting.ExportsAreBooked` | src/processor.cpp:88-104 | Over every run: consumed rises by every record handed to the exporter, the exported records are exactly those of the batches whose export succeeded, the failed ones those of the others, and each finished call adds one to produced or to dropped |
| `DropCounting.ReportedDepth` | src/processor.cpp:197-210 | A depth read whose two loads straddle other steps is the difference of what they saw, or 0 where that is negative; it never wraps, is no more than the true depth at either load, and stays below the overshoot bound |
| `DropCounting.StepKeepsInv` | src/processor.cpp:245-261 | The inductive invariant behind the bound: for every level b from consumed + capacity to produced, the calls in flight that loaded less than b, plus produced − b, leave one call out |
| `DropCounting.CountKeepsOvershoot` | src/processor.cpp:255-258 | The increment-or-drop action keeps that quantified invariant |
| `DropCounting.RunKeepsInv` | src/processor.cpp:245-261 | It holds in every reachable state |
| `DropCounting.InstanceNeverDangles` | src/processor.cpp:166-182 | What the status readers see is a processor whose last event is its construction, never a destroyed one |
| `DropCounting.InstanceIsNewest` | src/processor.cpp:166-182 | After any sequence of constructions and destructions the status readers see the processor of the last construction in the sequence while it lives, and none afterwards |
| `DropCounting.NoInstanceBefore` | src/processor.cpp:166-182 | Before any construction there is none |
| `DropCounting.CountingProcessor.OnEndLoadProduced` | src/processor.cpp:252 | First load of OnEnd, tied to the protocol step |
| `DropCounting.CountingProcessor.OnEndLoadConsumed` | src/processor.cpp:253 | Second load of OnEnd |
| `DropCounting.CountingProcessor.OnEndCount` | src/processor.cpp:255-258 | Drop or count, whole new state |
| `DropCounting.CountingProcessor.ExportAnnounce` | src/processor.cpp:90 | Export raises consumed by the batch before it forwards it |
| `DropCounting.CountingProcessor.ExportResult` | src/processor.cpp:94-101 | Export books the batch as exported or failed |
| `SharedMutex.Exclusion` | include/util.h:122-159 | In every interleaving a thread holding the lock exclusively, writer or diverted reader, is alone, and writers_pending_ is the number of threads between fetch_add and fetch_sub |
| `SharedMutex.LockReturnsWithLock` | include/util.h:124-149 | Whatever the others do, a call of lock() or lock_shared() that is over had the lock in its mode when it returned: alone and counted as a writer, or together with other readers |
| `SharedMutex.HeldUntilUnlock` | include/util.h:130-154 | Whatever the others do, the holder keeps the lock, alone or shared, until its own unlock |
| `SharedMutex.LoneWriter` | include/util.h:124-134 | lock() and unlock() by a lone thread: registered, queued, holding the lock with the counter up by one, released, and back to the state it began in |
| `SharedMutex.LoneReader` | include/util.h:136-154 | lock_shared() and unlock_shared() likewise when no writer is registered |
| `SharedMutex.DivertedReader` | include/util.h:145-148 | A reader that meets a registered writer queues for the exclusive lock, holds it, gives it back and checks again |
| `SharedMutex.DeadlockFree` | include/util.h:122-159 | Whenever some thread is inside an operation or a section, some such thread can take its next action |
| `SharedMutex.ReadersShare` | include/util.h:136-144 | Any number of readers can hold the lock at once |
| `SharedMutex.ReadersPastCheckShrink` | include/util.h:114-118 | While a writer is registered the set of threads past the check or reading only shrinks, and the shared grants are exactly paid for by threads that had already passed the check |
| `SharedMutex.BypassBoundedWithFifo` | include/util.h:114-118 | If the rwlock serves exclusive waiters in arrival order, a queued writer is overtaken by at most the waiters ahead and the readers past the check, fewer grants than threads |
| `SharedMutex.BypassUnboundedWithoutFifo` | include/util.h:136-149 | Without that order a diverted reader can take the exclusive lock any number of times ahead of a queued writer: the comment's claim does not follow from the code alone |
| `SharedMutex.ContendedReachable` | include/util.h:136-149 | The state this starts from is reachable |
| `SharedMutex.StepKeepsInv` | include/util.h:124-154 | Counter, readers, writer and queue agree with where the threads stand, over every step |
| `SharedMutex.ExecKeepsInv` | include/util.h:122-159 | The same over every run |
| `SharedMutex.OtelSharedMutex.LockRegister` | include/util.h:126 | fetch_add of lock() |
| `SharedMutex.OtelSharedMutex.LockRequest` | include/util.h:127 | mutex_.lock() is called, by lock() or by the diverted path |
| `SharedMutex.OtelSharedMutex.LockGranted` | include/util.h:127 | The rwlock admits an exclusive waiter; at the head of the queue this is also a step of the FIFO lock |
| `SharedMutex.OtelSharedMutex.UnlockMutex` | include/util.h:132 | mutex_.unlock(), of unlock() or of the diverted path |
| `SharedMutex.OtelSharedMutex.UnlockUnregister` | include/util.h:133 | fetch_sub of unlock() |
| `SharedMutex.OtelSharedMutex.LockSharedEnter` | include/util.h:136-138 | Entry to the loop of lock_shared() |
| `SharedMutex.OtelSharedMutex.LockSharedCheck` | include/util.h:139 | The check of writers_pending_ and the two ways on |
| `SharedMutex.OtelSharedMutex.LockSharedGranted` | include/util.h:140 | The fast path is granted |
| `SharedMutex.OtelSharedMutex.UnlockShared` | include/util.h:151-154 | unlock_shared() |
| `Bits.AndBit` | include/util.h:376 | The bitwise and used below is the one on bits: a result bit is set exactly when both are |
| `Bits.MaskTest` | include/util.h:365 | n & (n − 1) == 0 accepts exactly the powers of two |
| `Bits.MaskIsMod` | include/util.h:374-377 | key & (n − 1), with a negative key converted to unsigned, is the Euclidean remainder of the key |
| `HandleMap.ShardIndex` | include/util.h:374-377 | The shard index is key mod n and in range, for every signed key |
| `HandleMap.ShardsAreOneMap` | include/util.h:327-385 | In every reachable state a key sits only in its own shard, looking there sees exactly the flat map, and the shard sizes add up to its size |
| `HandleMap.RefinesFlat` | include/util.h:72-95 | Every insertion, erasure and sweep of a shard does to the flat map what the operation means there |
| `HandleMap.FlatSize` | include/util.h:424-439 | The sum over shards is the size of the flat map |
| `HandleMap.TotalSizeBounds` | include/util.h:424-439 | A total_map_size, from its beginning to where it can return, under interference shard by shard: its sum is the size of the flat map at its beginning, within what was added and removed meanwhile |
| `HandleMap.SweepLeavesOnlyNewcomers` | include/util.h:530-546 | When a for_each_locked under interference can return, only entries inserted during it remain |
| `HandleMap.SizeAlone` | include/util.h:424-439 | By itself total_map_size goes through every shard, ends with the size of the flat map and changes nothing |
| `HandleMap.SweepAlone` | include/util.h:530-546 | By itself for_each_locked goes through every shard and leaves all of them empty |
| `HandleMap.EmplaceAlone` | include/util.h:55-93 | An insertion of an absent key puts it into its shard and raises the mark to the size of that shard if it is larger |
| `HandleMap.PeakIsHighWater` | include/util.h:62-66 | With spurious compare-exchange failures and inserts racing on different shards, the mark is, from any settled state on, exactly the largest size any shard has had whenever no insert is under way, and never above it |
| `HandleMap.StartSettled` | include/util.h:340-356 | A new map is such a settled state |
| `HandleMap.PeakNeverFalls` | include/util.h:518-522 | The mark never goes down |
| `HandleMap.OtelHandle.constructor` | include/util.h:363-369 | An accepted shard count gives that many empty shards |
| `HandleMap.OtelHandle.Create` | include/util.h:363-369 | A shard count is rejected exactly when it is 0 or not a power of two |
| `HandleMap.OtelHandle.EmplaceHandle` | include/util.h:72-93 | Inserts exactly when the key is absent and nothing throws; whole new state |
| `HandleMap.OtelHandle.Find` | include/util.h:280-285 | Looks up in one shard what the flat map holds |
| `HandleMap.OtelHandle.EraseHandle` | src/span.cpp:1525-1526 | Erases the key from its shard |
| `HandleMap.OtelHandle.PeakLoad` | include/util.h:64 | Load of the mark |
| `HandleMap.OtelHandle.PeakExchange` | include/util.h:65 | compare_exchange_weak with the reloaded mark |
| `HandleMap.OtelHandle.TotalMapSize` | include/util.h:424-439 | Undisturbed, the loop returns the size of the flat map |
| `HandleMap.OtelHandle.ForEachLocked` | include/util.h:530-546 | Undisturbed, the callback sees each entry of the flat map exactly once with its value, and nothing is left |
| `HandleMap.OtelHandle.BeginWalk` | include/util.h:424-431 | total_map_size or for_each_locked begins |
| `HandleMap.OtelHandle.WalkShard` | include/util.h:533-540 | One turn of either walk under one shard mutex: the size is added, or the callback sees each entry of the shard once with its value and the shard is cleared |
| `HandleMap.OtelHandle.EndWalk` | include/util.h:438 | The walk returns its sum |
| `DbgThreads.AccountsHold` | src/dbg_malloc.cpp:142-160 | Over every interleaving of the sections of any number of malloc, realloc and free calls, with moving, in-place and failing realloc and overwritten headers: libc is given only live blocks; at every moment size is the sum over used records, which number allocs minus frees; each used record has a live tracked block of its own, whose header points back unless overwritten; whenever no call is pending the records hold distinct bases |
| `DbgThreads.RecordedSizesAsAsked` | src/dbg_malloc.cpp:142-160 | Over every interleaving: whenever no call is pending, the size in a used record is the size last asked for of the block it names |
| `DbgThreads.MallocSections` | src/dbg_malloc.cpp:562-572 | With nobody in between, the sections of a malloc do what the whole call does, in any reachable state |
| `DbgThreads.FreeSections` | src/dbg_malloc.cpp:719-784 | The same for the check and the libc call of a free |
| `DbgThreads.ReallocSections` | src/dbg_malloc.cpp:638-694 | The same for the check, the libc call and the record update of a realloc |
| `DbgThreads.LiveBlocksFound` | src/dbg_malloc.cpp:330-405 | A live tracked block no call works on is never refused while its header is intact, and the check finds its own record |
| `DbgThreads.RecordFollowsMove` | src/dbg_malloc.cpp:232-256 | The section after libc realloc always finds the record of the moved block: no reallocation is lost |
| `DbgThreads.BaseHeldTwice` | src/dbg_malloc.cpp:672-692 | While a reallocation is pending the address it left may be served again, and then two used records hold one base |
| `DbgThreads.SecondCallsRefused` | src/dbg_malloc.cpp:330-405 | In any run, a second free or realloc of a released block that the first reading and the record search refuse, or the second reading rejects, changes nothing |
| `DbgThreads.ReleaseRejectsExactly` | src/dbg_malloc.cpp:362-395 | Whatever the address, in any reachable state, the release rejects exactly when the header at the reading under the mutex is a wrapper header of a tracked block and the address is neither one a pending realloc has just left nor that of a live block of its own record |
| `DbgThreads.ReallocRejectsExactly` | src/dbg_malloc.cpp:432-471 | The check before a realloc rejects every released address but one a pending realloc has just left |
| `DbgThreads.SecondFreeHarms` | src/dbg_malloc.cpp:719-784 | A second free or realloc gives libc a dead address exactly when those checks let it pass |
| `DbgThreads.SecondFreeInWindow` | src/dbg_malloc.cpp:672-692 | A run in which a realloc has moved its block and not updated the record, and a second free of the old address passes both readings, takes the record from the live block and corrupts |
| `DbgThreads.BaseHeldTwiceReached` | src/dbg_malloc.cpp:672-692 | A run in which two used records hold one base |
| `DbgThreads.StepKeeps` | src/dbg_malloc.cpp:562-784 | Every section and every libc call keeps the agreement of records, blocks, headers and pending calls |
| `DbgThreads.RunKeeps` | src/dbg_malloc.cpp:562-784 | The same over every run |
| `DbgThreads.JudgeUsable` | src/dbg_malloc.cpp:330-405 | How the check judges any pointer a caller may pass, in every reachable state |
| `DbgMem.RunKeepsAccounts` | src/dbg_malloc.cpp:142-160 | Over every run of whole malloc, realloc and free calls, one after another, with moving, in-place and failing realloc, overwritten headers and repeated frees: libc is given only live blocks, size is the sum over used records, used records number allocs minus frees, hold distinct live bases, and intact headers point at their own record |
| `DbgMem.RecordedSizeIsLastAsked` | src/dbg_malloc.cpp:151-155 | Over every run the size in a used record is the one last asked for of its block, by malloc or by realloc |
| `DbgMem.MallocRegisters` | src/dbg_malloc.cpp:261-290 | A malloc, or a realloc of null, writes block and size into one free record and no other exactly when there is a free one, and otherwise leaves the block untracked; counts, size and header accordingly |
| `DbgMem.ReallocFollows` | src/dbg_malloc.cpp:232-256 | A realloc of a live tracked block with an intact header: its record holds the new address and the size asked for, no other record changes, the old base is dead when the block moved, and the header points at that record; an untracked block stays untracked |
| `DbgMem.ForeignPasses` | src/dbg_malloc.cpp:652-665 | A block without a header of the wrapper and without a record goes to libc as it came, and the tracker is left alone |
| `DbgMem.EmptyCallsChangeNothing` | src/dbg_malloc.cpp:564-569 | A size that overflows with the header, a libc that has no memory, and a free of null change nothing |
| `DbgMem.DoubleFreeRefusedExactly` | src/dbg_malloc.cpp:330-405 | A released tracked block is refused, with nothing changed, exactly when its header still is a wrapper header or some record holds its base; otherwise it reaches libc as a foreign pointer |
| `DbgMem.LiveBlocksServed` | src/dbg_malloc.cpp:719-784 | A live tracked block with an intact header is never refused: free releases that block, marks its own record and no other unused, and takes its size out of the account; one with a destroyed header is refused and stays live; an untracked block is released; a failing realloc changes nothing |
| `DbgMem.ReusedRecordLosesTrack` | src/dbg_malloc.cpp:503-539 | The condition on the record is needed: once its record is reused, a block whose header libc overwrote can be freed twice |
| `DbgMem.SlotSearchExact` | src/dbg_malloc.cpp:263-299 | The two-phase search ends within one round and returns an index below count exactly when a free record exists, whatever the cursor, and that record is unused |
| `DbgMem.SlotIsNext` | src/dbg_malloc.cpp:263-283 | Records never used are taken first, in order; after that the free record nearest to the cursor going round the table, and the cursor moves past it |
| `DbgMem.ProbeExact` | src/dbg_malloc.cpp:271-283 | The same for the reuse phase |
| `DbgMem.TableRecordExact` | src/dbg_malloc.cpp:107-115 | A pointer passes the range test, computed unsigned, exactly when it is the address of a record |
| `DbgMem.JudgeFits` | src/dbg_malloc.cpp:330-405 | How a pointer a run may pass is classified: what passes names a live block and its own record |
| `DbgMem.StepKeepsInv` | src/dbg_malloc.cpp:562-784 | Every whole call keeps the accounts and the header of every block |
| `DbgMem.ExecKeepsInv` | src/dbg_malloc.cpp:562-784 | The same over every run |
| `DbgMem.Tracker.TakeSlot` | src/dbg_malloc.cpp:263-283 | The slot search loop returns the slot and cursors of the specification |
| `DbgMem.Tracker.FillRecord` | src/dbg_malloc.cpp:142-160 | Fills the record, adds the size, points the header at it |
| `DbgMem.Tracker.MallocBlock` | src/dbg_malloc.cpp:562-572 | malloc with its overflow guard and registration, whole new state |
| `DbgMem.Tracker.RegisterBlock` | src/dbg_malloc.cpp:261-290 | The section that registers a new block: slot, record and header, or a self-referencing header when the table is full |
| `DbgMem.Tracker.IsStale` | src/dbg_malloc.cpp:503-539 | Whether an assigned record holds the base |
| `DbgMem.Tracker.Classify` | src/dbg_malloc.cpp:330-405 | The checks of free and realloc classify as specified |
| `DbgMem.Tracker.FreeBlock` | src/dbg_malloc.cpp:719-784 | free: refused, foreign, untracked or tracked; whole new state |
| `DbgMem.Tracker.ReallocBlock` | src/dbg_malloc.cpp:638-694 | realloc of null, too large, refused, failing, in place or moving: whole new state and the returned pointer |
| `DbgMem.Tracker.ReallocPresent` | src/dbg_malloc.cpp:652-692 | The branches for a non-null pointer |
| `DbgMem.Tracker.LibcReallocs` | src/dbg_malloc.cpp:678-688 | libc moves the block or resizes it in place |
| `DbgMem.Tracker.FollowMove` | src/dbg_malloc.cpp:232-256 | The record follows the moved block and the size is corrected |
| `HandleLifetime.OpKeepsInv` | src/tracer.cpp:300-375 | Every step of a call and of the teardown keeps the ledger of every handle and the tickets of every call |
| `HandleLifetime.StepRecorded` | src/span.cpp:385-424 | What each step writes about each handle, by cause: an end takes out, ends and deletes the handle its identifier leads to, a destroy takes out and deletes it, a sweep takes out every handle of its shard and ends it if it is a span, a look nothing; a handle is in the map from its create until one of these |
| `HandleLifetime.LockProtects` | include/util.h:530-540 | While a call holds a shard lock, neither the sweep nor another call changes an entry of that shard, and the call keeps the lock |
| `HandleLifetime.ExclusiveStep` | src/span.cpp:402-421 | No step gives a shard lock to two calls |
| `HandleLifetime.CreateAlone` | src/span.cpp:2281-2286 | A create by itself publishes one entry under the next identifier and hands out its structure |
| `HandleLifetime.UseAlone` | src/span.cpp:402-424 | An end or destroy by itself: the structure is gone, the entry its identifier leads to is gone and no other, the handle is deleted once, and ended once by an end and not by a destroy; a look changes nothing |
| `HandleLifetime.UseWithoutMap` | src/span.cpp:393-397 | Without a map an end or destroy only gives back its structure |
| `HandleLifetime.DisposeKeeps` | src/span.cpp:1521-1532 | The lookup, delete and erase under the shard lock, a missing handle included |
| `HandleLifetime.PublishKeeps` | src/tracer.cpp:592-634 | The end of a start, with a failed handle or a throwing insert |
| `HandleLifetime.TakeIdKeeps` | src/span.cpp:1643 | The identifier of a new structure |
| `HandleLifetime.SweepKeeps` | include/util.h:530-546 | The sweep of one shard |
| `HandleLifetime.DeleteKeeps` | include/util.h:562-577 | The delete of the map, whose destructor deletes what is left |
| `HandleLifetime.SafeStep` | src/span.cpp:392-401 | As long as no call is under way while the pointer dangles, no step leaves a call that would use a missing or deleted map |
| `HandleLifetime.DangerFaults` | src/span.cpp:2220-2227 | A call under way while the pointer dangles uses the deleted map as soon as it goes on |
| `HandleLifetime.RisingStep` | src/tracer.cpp:346 | Identifiers rise across generations unless one is taken after the numbering was saved |
| `HandleLifetime.NumberingStep` | src/tracer.cpp:346 | An identifier is issued a second time exactly when one is taken while the saved numbering is behind, after a delete that followed a late identifier |
| `HandleLifetime.SweptStep` | include/util.h:530-546 | Without creates under way the teardown sweeps every handle and the delete drops none |
| `HandleLifetime.GoneForGood` | src/span.cpp:1521-1532 | A handle that left the map never comes back and is deleted once |
| `HandleLifetime.UnlockedFindsNothing` | src/span.cpp:1510-1523 | The lookup without the shard lock, of a call that saw no map but runs when there is one, finds nothing while identifiers are distinct |
| `HandleLifetime.OvertakenRaces` | src/span.cpp:1510-1523 | Only a call that saw no map, resumed when there is one, uses the map without the shard lock |
| `HandleLifetime.NoCollision` | src/tracer.cpp:627-634 | A registration never meets its identifier in the map while identifiers are distinct |
| `HandleLifetime.SharedHandles.Init` | src/tracer.cpp:175-189 | Allocates a missing map on the saved identifier base, keeps an existing one |
| `HandleLifetime.SharedHandles.EnterCall` | src/span.cpp:392-401 | The unlocked test of the pointer by an end, a destroy or a lookup, and the two ways on |
| `HandleLifetime.SharedHandles.EnterCreate` | src/span.cpp:2281-2282 | The unlocked test of the pointer by a create |
| `HandleLifetime.SharedHandles.TakeIdentifier` | src/span.cpp:2286 | Takes the next identifier |
| `HandleLifetime.SharedHandles.LockShard` | src/span.cpp:2227 | The shard mutex is granted |
| `HandleLifetime.SharedHandles.DisposeHandle` | src/span.cpp:1521-1532 | Ends when asked to, deletes and erases the handle if there is one |
| `HandleLifetime.SharedHandles.FinishUse` | src/span.cpp:402-421 | The work under the shard lock |
| `HandleLifetime.SharedHandles.FinishSkipped` | src/span.cpp:393-397 | The path without a lock |
| `HandleLifetime.SharedHandles.FinishCreate` | src/tracer.cpp:592-634 | The registration with its two failures |
| `HandleLifetime.SharedHandles.InsertHandle` | include/util.h:72-93 | The insertion under a new identifier |
| `HandleLifetime.SharedHandles.Visit` | include/util.h:537-539 | Each handle is ended and deleted exactly once, in any order |
| `HandleLifetime.SharedHandles.StartTeardown` | src/tracer.cpp:343-344 | The teardown of one map begins |
| `HandleLifetime.SharedHandles.SweepOne` | include/util.h:533-540 | The sweep of one shard, whole new state |
| `HandleLifetime.SharedHandles.SaveNumbering` | src/tracer.cpp:346 | The identifier base is saved |
| `HandleLifetime.SharedHandles.DeleteTheMap` | include/util.h:562-577 | The map is deleted with what is left in it |
| `HandleLifetime.SharedHandles.ClearThePointer` | src/tracer.cpp:349 | The pointer is cleared |
| `TracerLifetime.MapsLiveWithTracers` | src/tracer.cpp:260-275 | Under every interleaving, with every failure: the count is the registered tracers, a tracer whose register succeeded has both maps until its own unregister, the calls of tracers are safe, and without tracers or teardown there are no maps |
| `TracerLifetime.TeardownOnlyAtZero` | src/tracer.cpp:300-375 | A teardown begins exactly when the count goes from one to zero, lasts while it is zero, and is the only time a map stops being usable |
| `TracerLifetime.FaultFreeExactly` | src/span.cpp:2218-2227 | A run never uses a missing or deleted map, wherever any of its calls goes on, exactly when no call on a map is under way between the delete of the map and the clearing of the pointer |
| `TracerLifetime.LeftoverDestroyFaults` | src/span.cpp:2218-2227 | The schedule on which the destroy of a leftover span context, having tested the pointer, locks a shard of the deleted map |
| `TracerLifetime.IdentifiersRepeatExactly` | src/tracer.cpp:164-192 | No span identifier is issued twice over all generations; span context identifiers are distinct exactly in the runs that take none in a generation after one in which one was taken between the save and the delete of its teardown |
| `TracerLifetime.RaceFreeExactly` | src/span.cpp:1510-1523 | A run uses no map without its shard lock, wherever any of its calls goes on, exactly when no end or destroy that saw no map is still under way when there is one again |
| `TracerLifetime.OvertakenReachable` | src/span.cpp:1510-1523 | A run in which that happens |
| `TracerLifetime.LateStructureFindsForeignHandle` | src/span.cpp:2281-2286 | A run that issues a span context identifier twice, and in which the structure that took it late, its own handle deleted, finds the handle of the later one |
| `TracerLifetime.LateStructureErasesForeignHandle` | src/span.cpp:1521-1532 | A run in which the destroy of the late structure deletes that handle, while the later structure is still in use |
| `TracerLifetime.CollisionReachable` | include/util.h:72-93 | A run in which a registration meets its identifier in the map |
| `TracerLifetime.LeftoverNeverResolves` | src/span.cpp:1510-1523 | A structure whose handle was deleted never finds a handle again, and one that finds a handle finds its own; for span contexts as long as no identifier was issued twice |
| `TracerLifetime.PublishNeverCollides` | src/tracer.cpp:627-634 | The duplicate branch of a registration is never taken, and a lookup without the lock finds nothing; for span contexts as long as no identifier was issued twice |
| `TracerLifetime.HandlesConserved` | src/tracer.cpp:352-371 | With ends, destroys and creates racing against the sweep shard by shard: inserted = erased + swept + dropped + in the map; each handle is deleted and ended at most once; every span handle a teardown finds is swept, and every swept one was ended |
| `TracerLifetime.EndedExactlyOnce` | src/span.cpp:416 | Over every run: a handle is in its map from its one create until one end, destroy, sweep or delete; one taken out by an end was ended exactly once, one taken out by a destroy never, one swept once if it is a span |
| `TracerLifetime.ShardLocksProtect` | src/span.cpp:402-421 | In every reachable state no two calls hold one shard lock, and no step of another changes an entry of a locked shard, but for the delete of the map and a call that saw no map |
| `TracerLifetime.RegistrationExactly` | src/tracer.cpp:175-192 | A registration counts the tracer in whatever happens, and succeeds exactly when both maps are there or can be made; a new map is empty and goes on with the saved numbering; an unregister changes only the count, and starts the teardown at zero |
| `TracerLifetime.TeardownComesToAnEnd` | src/tracer.cpp:342-371 | Every step of a teardown brings it nearer to its end, span contexts first, unless a call holds the lock of the next shard |
| `TracerLifetime.StepKeepsInv` | src/tracer.cpp:260-375 | Every step keeps the count, the owners of calls and both maps |
| `TracerLifetime.RunKeepsInv` | src/tracer.cpp:260-375 | The same over every run |
| `TracerLifetime.TracerCount.RegisterTracer` | src/tracer.cpp:260-275 | otel_tracer_register as one critical section |
| `TracerLifetime.TracerCount.UnregisterTracer` | src/tracer.cpp:300-311 | The decision of otel_tracer_unregister |
| `TracerLifetime.TracerCount.Advance` | src/tracer.cpp:342-371 | The next step of the teardown of one map |
| `TracerLifetime.TracerCount.CloseStep` | src/tracer.cpp:342-371 | The teardown, span contexts first, step by step |
| `MeterRegistry.KeyInjective` | src/meter.cpp:156-174 | Two keys are equal exactly when the folded names and the types are, slashes in names included |
| `MeterRegistry.OneInstrumentPerNameAndType` | src/meter.cpp:714-844 | For any racing calls and failures, whenever no creation is in its exclusive section the IDs in the map are exactly 0..id−1, and at no time do two instruments share folded name and type |
| `MeterRegistry.SameIdExactlyForSamePair` | src/meter.cpp:714-844 | Any two successful calls of a run got the same ID exactly when their names fold alike and their types are equal |
| `MeterRegistry.CallAnswersItsArguments` | src/meter.cpp:710-844 | Whatever the others do meanwhile, a call that begins with a name and a type either fails and returns nothing, or returns the ID of an instrument with that folded name and that type |
| `MeterRegistry.CreateAlone` | src/meter.cpp:710-844 | By itself, with nothing failing, a create of a new pair adds exactly that instrument under the next ID, indexes it and returns that ID |
| `MeterRegistry.FindAlone` | src/meter.cpp:714-720 | A create of a pair that exists returns its ID and changes nothing |
| `MeterRegistry.CallsComeToAnEnd` | src/meter.cpp:714-844 | Each step of a call brings it nearer to its end, no other thread sets it back, and a failing step ends it without its locks |
| `MeterRegistry.SomeCallGoesOn` | src/meter.cpp:714-844 | In every reachable state with a call under way some call can go on: the locks never make a deadlock |
| `MeterRegistry.IndexAgreesWithScan` | src/meter.cpp:197-209 | Lookup by key returns i exactly when map entry i matches in a linear case-insensitive scan, and fails exactly when none does |
| `MeterRegistry.FailedCreationsLeaveNoTrace` | src/meter.cpp:803-838 | Over any run the next ID grows by the number of creations that succeed; creations that fail, at the insertion, the callback or the index, leave map, index and ID as they were; no instrument is removed or changed |
| `MeterRegistry.StepSettles` | src/meter.cpp:803-844 | Only a creation that succeeds changes the map without its unfinished entry, the index or the ID |
| `MeterRegistry.StepKeepsInv` | src/meter.cpp:714-844 | Every section and every failure keeps map, index, ID, locks and results in agreement |
| `MeterRegistry.ExecKeepsInv` | src/meter.cpp:714-844 | The same over every run |
| `MeterRegistry.OtelMeter.InstrumentKey` | src/meter.cpp:156-174 | The character loop builds the folded name, a slash and the decimal type |
| `MeterRegistry.OtelMeter.GetInstrument` | src/meter.cpp:505-526 | The lookup under the shared lock |
| `MeterRegistry.OtelMeter.CreateBegin` | src/meter.cpp:683-712 | A call enters with its key |
| `MeterRegistry.OtelMeter.CreateReject` | src/meter.cpp:722-739 | A call gives up on a missing key or an invalid descriptor |
| `MeterRegistry.OtelMeter.CreateProbe` | src/meter.cpp:714-720 | First probe |
| `MeterRegistry.OtelMeter.CreateAcquire` | src/meter.cpp:742 | The creation mutex |
| `MeterRegistry.OtelMeter.CreateRecheck` | src/meter.cpp:744-753 | Second probe under the creation mutex |
| `MeterRegistry.OtelMeter.CreateMake` | src/meter.cpp:755-799 | The SDK instrument and the exclusive map lock |
| `MeterRegistry.OtelMeter.CreateInsert` | src/meter.cpp:803-811 | The insertion, throwing or meeting a duplicate |
| `MeterRegistry.OtelMeter.CreateHook` | src/meter.cpp:812-821 | The callback registration, with the entry taken out when it fails |
| `MeterRegistry.OtelMeter.CreateRegister` | src/meter.cpp:823-844 | The index entry, with the map entry taken out when it throws; otherwise the returned ID |
| `MeterViews.ProviderHasRecordedViews` | src/meter.cpp:1302-1336 | After any interleaving of add_view calls and of starts, with every failure, whenever no add_view is in its exclusive section the installed provider has exactly the recorded views, each once, with different folded names and IDs 0..id−1 |
| `MeterViews.SameIdExactlyForSameName` | src/meter.cpp:397-481 | Any two successful add_view calls got the same ID exactly when their names fold alike |
| `MeterViews.StartLeavesProvider` | src/meter.cpp:1302-1336 | A start that succeeds leaves a provider with exactly the recorded views, each once, and changes neither them nor their IDs |
| `MeterViews.StartAlone` | src/meter.cpp:1206-1336 | By itself a start can always go through, whatever is recorded, and changes nothing but the provider |
| `MeterViews.AddAnswersItsView` | src/meter.cpp:345-481 | Whatever the others do meanwhile, an add_view either fails and returns nothing, or returns the ID of a recorded view with the folded name of its own |
| `MeterViews.AddAlone` | src/meter.cpp:397-481 | By itself, with nothing failing, an add_view of a new name records that view under the next ID, registers it and returns the ID |
| `MeterViews.FindAlone` | src/meter.cpp:397-403 | An add_view of a recorded name returns what the scan finds and changes nothing |
| `MeterViews.CallsComeToAnEnd` | src/meter.cpp:397-481 | Each step of an add_view or a start brings it nearer to its end, no other thread sets it back, and a failing step ends it without its locks |
| `MeterViews.SomeCallGoesOn` | src/meter.cpp:397-481 | In every reachable state with a call under way some call can go on |
| `MeterViews.StepSettles` | src/meter.cpp:438-481 | Only an add_view that succeeds changes the recorded views, and only it and an install change the provider |
| `MeterViews.StepKeepsCaller` | src/meter.cpp:1310-1312 | A start has given its provider exactly the views it has been through |
| `MeterViews.StepKeepsInv` | src/meter.cpp:397-481 | Every section of add_view and of a start keeps records, provider and locks in agreement |
| `MeterViews.OtelMeterViews.GetViewId` | src/meter.cpp:111-131 | The scan, in any order, finds a view with that folded name or proves there is none |
| `MeterViews.OtelMeterViews.AddBegin` | src/meter.cpp:345-360 | A call enters |
| `MeterViews.OtelMeterViews.AddProbe` | src/meter.cpp:397-403 | First scan under the shared lock |
| `MeterViews.OtelMeterViews.AddAcquire` | src/meter.cpp:406 | The creation mutex |
| `MeterViews.OtelMeterViews.AddRecheck` | src/meter.cpp:408-417 | Second scan under the creation mutex |
| `MeterViews.OtelMeterViews.AddLock` | src/meter.cpp:425-438 | The provider is needed; the exclusive view lock |
| `MeterViews.OtelMeterViews.AddRecord` | src/meter.cpp:447-468 | The record, failing or meeting a duplicate |
| `MeterViews.OtelMeterViews.AddEnroll` | src/meter.cpp:470-481 | The registration with the provider, with the record taken out when it fails; otherwise the returned ID |
| `MeterViews.OtelMeterViews.BeginStart` | src/meter.cpp:1206 | A start takes the creation mutex |
| `MeterViews.OtelMeterViews.BuildProvider` | src/meter.cpp:1294-1308 | The new provider is built and the view lock taken shared |
| `MeterViews.OtelMeterViews.ReplayView` | src/meter.cpp:1310-1312 | One recorded view is registered with the new provider, or the start fails |
| `MeterViews.OtelMeterViews.InstallProvider` | src/meter.cpp:1320-1336 | The new provider replaces the old one, unless a file cannot be opened |
| `YamlTree.RoundTripExactly` | src/yaml.cpp:228-271 | On any tree, printing a path and looking it up give back every node exactly when the duplicate scan accepts the tree, no key has a slash, and the root has no empty key |
| `YamlTree.PathLookup` | src/yaml.cpp:41-88 | In any tree, a node is what its path denotes exactly when every name on the way is free of slashes and selects its node among the siblings, and it is not a root child with the empty key |
| `YamlTree.PartSelects` | src/yaml.cpp:57-84 | A path part selects the sequence element its digits count from zero, or the first child with that key |
| `YamlTree.PathNamesChild` | src/yaml.cpp:177-203 | The path of a child is its parent's, a slash, and its key or its position in decimal |
| `YamlTree.RoundTripNeedsDistinctKeys` | src/yaml.cpp:228-271 | A tree on which the round trip holds has no duplicate keys |
| `YamlTree.SlashedNeverFound` | src/yaml.cpp:177-203 | A node with a slash in its key, or below such a node, is never what its printed path denotes |
| `YamlTree.RoundTripNeedsSlashFreeKeys` | src/yaml.cpp:177-203 | A tree on which the round trip holds has no slash in a key |
| `YamlTree.WalkDepth` | src/yaml.cpp:53-87 | A walk of k parts ends k levels further down |
| `YamlTree.PathSplits` | src/yaml.cpp:177-203 | Splitting a printed path without slashes in its names gives back the names |
| `YamlTree.WalkSegments` | src/yaml.cpp:53-87 | Walking the names of an addressable node from the root ends at the node, through keys and decimal indices |
| `YamlTree.ChildBySegment` | src/yaml.cpp:57-84 | A node's own segment selects it among its siblings |
| `YamlTree.ParseIndex` | src/yaml.cpp:60-76 | The digit loop accepts exactly the decimal strings not above SIZE_MAX and returns their value |
| `YamlTree.FindChild` | src/yaml.cpp:79-83 | The first child with that key |
| `YamlTree.GetNodeByPath` | src/yaml.cpp:41-88 | The lookup loop meets the specification |
| `YamlTree.NodePath` | src/yaml.cpp:177-203 | The path loop meets the specification |
| `YamlTree.FindDuplicateKeys` | src/yaml.cpp:228-271 | The scan accepts exactly the trees whose maps have distinct keys and otherwise reports the path of a duplicated key |
| `Text.ValueOfDecimal` | src/yaml.cpp:199 | Printing an index in decimal and reading it back gives the index |
| `Text.PrefixValue` | src/yaml.cpp:69-70 | More digits never make the number smaller, so the overflow guard may reject early |
| `Text.SplitAtSlash` | src/yaml.cpp:55 | Splitting at slashes distributes over joining with a slash |
| `Text.DecimalIntInjective` | src/meter.cpp:167 | Different types print differently |
| `Text.FoldsAlike` | src/meter.cpp:156-174 | Two names fold alike exactly when they differ in nothing but the case of ASCII letters |
| `YamlResolve.ProbeAgreesWithResolver` | src/yaml.cpp:487-527 | For a set name of any length, empty included, or the substitute for an unset one: the probed state tells whether a name was set, whether the section is there and what the resolver does, exactly when the cut path and the whole path both denote a node or neither does; for a name with '%' exactly when the state is a failing one; with an empty base always |
| `YamlResolve.FirstPresentWins` | src/yaml.cpp:565-646 | The resolver takes the first candidate present, of the named entry, the fallback entry and the flat layout, fails exactly when none is, and refuses an empty base, two empty names and a '%' |
| `YamlResolve.ShortNamesAgree` | src/yaml.cpp:487-527 | The two always agree on a name that is free of '%' and fits the buffer |
| `YamlResolve.LongNamesDisagree` | src/yaml.cpp:498-507 | Every longer name free of '/' and '%' has a document with one entry below /signals/traces on which the probe reports FOUND and the resolver fails, and one on which the probe reports NOT_FOUND and the resolver succeeds |
| `YamlResolve.PercentDisagrees` | src/yaml.cpp:581-584 | Called directly with a '%' in the name of an entry, the probe reports FOUND and the resolver fails |
| `YamlResolve.BaseExists` | src/yaml.cpp:494-496 | A node at base/x implies a node at base |
| `YamlResolve.Probe` | src/yaml.cpp:487-527 | The probe meets its specification |
| `YamlResolve.ResolvePrefix` | src/yaml.cpp:565-646 | The resolver's loop returns the first candidate present; only a failed allocation makes it fail otherwise |
| `Restart.EmptiedFileStaysClean` | src/tracer.cpp:1347-1355 | Once a start has emptied a file, no record of an earlier pipeline is ever in it again, over all later exports, restarts and destroys |
| `Restart.InstalledPipelineIsFresh` | src/tracer.cpp:1347-1378 | When a start succeeds its exporters are open and working, every other exporter is shut down, and each of its regular files holds records of this pipeline only |
| `Restart.FilesHoldTheirStory` | src/exporter.cpp:455-464 | Over every run a file holds exactly what it held before, less what a truncate of it removed, and since then the batches exported through its open and working exporters, whole, in order and with their generation; nothing else changes a file |
| `Restart.ExportExtends` | src/exporter.cpp:455-464 | In every reachable state an export through an installed exporter extends its file by exactly the batch and changes no other file; one through a closed or shut down exporter changes nothing |
| `Restart.StartInstallsItsNames` | src/tracer.cpp:1337-1378 | A start that succeeds, whatever is exported meanwhile, installs exactly one exporter for each of its names, in order, open, working and of a new generation |
| `Restart.StartRuns` | src/tracer.cpp:1337-1378 | By itself and with nothing failing, a start installs the exporters of its names, shuts down those before, empties every file it names that can be emptied and leaves every other file as it was |
| `Restart.FailedStartLeavesPipeline` | src/tracer.cpp:1337-1345 | A start that fails before the shutdown leaves the installed pipeline as it was and the old contents of every file in place, and what it built can write no more |
| `Restart.FailedInstallLeavesNothing` | src/tracer.cpp:1372-1376 | A start that fails while installing leaves nothing installed and every exporter shut down |
| `Restart.FailureEndsStart` | src/tracer.cpp:1337-1345 | A failure anywhere in a start ends it; what it built can write no more, and the failure itself changes no file |
| `Restart.UnnamedFilesOnlyGrow` | src/exporter.cpp:405-422 | No run ever loses a record from a file no start names |
| `Restart.TruncatesAll` | include/exporter.h:215-226 | Undisturbed, the truncate loop empties every regular file of the new pipeline and changes nothing else |
| `Restart.TruncateLoopSeals` | include/exporter.h:215-226 | Whatever workers export in between, once the truncate loop is through no regular file of the new pipeline holds a record of an earlier one |
| `Restart.UnflushedDestroyDropsTelemetry` | src/tracer.cpp:1455-1458 | A destroy whose flush did not complete shuts the exporters down first, so the drain of the provider writes nothing |
| `Restart.DrainWritesExactlyIfFlushed` | src/tracer.cpp:1437-1461 | When a destroy releases the provider, its drain reaches the files exactly if the flush completed; afterwards nothing is installed and nothing can write |
| `Restart.StepKeepsInv` | src/tracer.cpp:1337-1378 | Who may write, what is down and what is emptied, kept by every step of start, destroy and workers |
| `Restart.ExecKeepsInv` | src/tracer.cpp:1337-1378 | The same over every run |
| `Restart.SealedRun` | src/exporter.cpp:455-464 | A file free of older records stays so while older exporters are shut down |
| `Restart.FileExporter.OpenFile` | src/exporter.cpp:405-412 | Append-mode open: creates a missing file, leaves an existing one intact |
| `Restart.FileExporter.TruncateFile` | src/exporter.cpp:415-422 | Empties a regular file, ignores the failure on a device |
| `Restart.FileExporter.ExportBatch` | src/exporter.cpp:455-464 | Writes and flushes: the records are in the file, in order, and none stays buffered |
| `Restart.FileExporter.Flush` | src/exporter.cpp:461 | The flush moves the buffer to the end of the file |
| `Restart.FileExporter.ShutdownExporter` | src/exporter.cpp:479-488 | Shut down; nothing is written |
| `Restart.Instance.BeginStart` | src/tracer.cpp:1337-1343 | A new pipeline is built with its files closed |
| `Restart.Instance.FailStart` | src/tracer.cpp:1300-1322 | The build fails and the new pipeline is released |
| `Restart.Instance.OpenNext` | include/exporter.h:183-188 | One turn of the open loop, failing the start when the file cannot be opened |
| `Restart.Instance.FilesOpen` | include/exporter.h:179-191 | The open loop, with workers exporting before each turn, succeeds exactly when every file can be opened, and stops at the first that cannot |
| `Restart.Instance.OpenTurn` | include/exporter.h:183-188 | One turn of it after what workers export |
| `Restart.Instance.OpenLoop` | include/exporter.h:183-188 | The loop itself |
| `Restart.Instance.Interfere` | src/exporter.cpp:455-464 | Any number of worker exports |
| `Restart.Instance.ShutdownNext` | src/tracer.cpp:1352-1353 | One exporter is shut down, by a start or by a destroy |
| `Restart.Instance.TruncateNext` | include/exporter.h:219-224 | One turn of the truncate loop |
| `Restart.Instance.FilesTruncate` | include/exporter.h:215-226 | The truncate loop, with workers exporting before each turn, as a run of the protocol |
| `Restart.Instance.ProceedStart` | src/tracer.cpp:1345-1355 | From opening to shutdown, from shutdown to truncation |
| `Restart.Instance.InstallPipeline` | src/tracer.cpp:1366-1378 | Swap, or reset when it throws |
| `Restart.Instance.WorkerExport` | src/exporter.cpp:455-464 | A worker thread exports through any exporter at any time |
| `Restart.Instance.BeginDestroy` | src/tracer.cpp:1437-1452 | The flush of a destroy is over, with or without success |
| `Restart.Instance.DropPipeline` | src/tracer.cpp:1460-1461 | The provider is released with its exporters |
| `Restart.Instance.Release` | src/tracer.cpp:1352-1353 | Shuts down a range of exporters and leaves the others and all files alone |

## Left out

- DropCounting.OvershootBound: requires that produced and consumed have not passed 2^64; after a wrap the guard `prod > cons` compares unrelated numbers.
- DropCounting.ReportedDepth: requires max_queue_size + T below 2^63, where the signed cast is exact.
- DropCounting.OvershootReached: requires the capacity to fit 64 bits.
- SharedMutex.BypassBoundedWithFifo: assumes a rwlock that serves exclusive waiters in arrival order; which one the platform has is not known.
- HandleMap.OtelHandle.TotalMapSize: the undisturbed loop; BeginWalk, WalkShard and EndWalk are its turns under interference, and HandleMap.TotalSizeBounds states the result.
- HandleMap.OtelHandle.ForEachLocked: the undisturbed loop; its turns under interference are the same three, and HandleMap.SweepLeavesOnlyNewcomers states the result.
- Bucket counts, memory accounting and the unlocked size queries of the handle map.
- DbgMem.RunKeepsAccounts: whole calls, one after another; DbgThreads.AccountsHold states the accounts over interleaved sections.
- DbgMem.StepKeepsInv: a step is a whole call, as above.
- DbgMem.ExecKeepsInv: runs of whole calls within one tracker lifetime, from initialization to disable; pointers that survive a re-initialization are not followed.
- DbgMem.DoubleFreeRefusedExactly: is about blocks the table tracked; releasing an untracked block twice reaches libc in the source as well.
- DbgThreads.AccountsHold: callers pass each live block to one call at a time, and a released block again only where the checks can tell; DbgThreads.SecondFreeHarms says what happens otherwise. The unlocked header test of a caller's own block and the header rewrite of an untracked one are part of the neighbouring step.
- MeterRegistry.OtelMeter.CreateReject: which descriptors and names are valid is left to the environment.
- MeterViews.OtelMeterViews.AddLock: that there is a scope name is left to the environment; the parameter checks before the first scan are not modelled.
- HandleLifetime.SharedHandles.EnterCreate: the earlier test at the top of otelc_span_context_create only returns sooner, and the test of otel_span_context_new is the one modelled.
- TracerLifetime.FaultFreeExactly: says when a deleted map is used, not what the use does; after a fault the call is gone. A pointer kept in a register across the test would widen the window.
- TracerLifetime.LeftoverNeverResolves: for span contexts says nothing of runs that issue an identifier twice, where it fails as TracerLifetime.LateStructureFindsForeignHandle shows. Ownership of the C structures is followed by ticket, not by address, and the use of one structure by two threads is the callers' affair.
- TracerLifetime.PublishNeverCollides: the same for a registration, with TracerLifetime.CollisionReachable.
- Span starts hold the shard locks of their parent and links one at a time; those lookups are the Look calls of HandleLifetime, without the SDK work between them.
- Restart.EmptiedFileStaysClean: covers the files of one instance; two instances writing to the same file are not modelled.
- Weak memory ordering: every atomic access is sequentially consistent.
- calloc, strdup, strndup and memdup of the debug allocator: malloc with the same registration and a copy.
- realloc of a foreign block to size 0, which some C libraries treat as a free.
- Failing mutex calls of the debug allocator, its statistics text and its per-record counters.
- Metric exporter tallies, the counts of export calls, the export age clock and reset of the dropped count: independent counters.
- The flush budget split of the tracer: one line of arithmetic.
- The logger: its start, restart and destroy repeat the tracer's and its severity tables are finite.
- The static-handle and thread-local builds, the runtime-context build, and calls that break the documented drain before start and destroy.
- The libfyaml branch and both parsers: a parsed tree is the input. The debug build of the duplicate scan, which goes on after the first report with the same verdict.
- Null arguments, which every function rejects or ignores first.
- snprintf lengths beyond INT_MAX in name resolution.
- SDK processors, providers, propagators and samplers; exporter, resource and view option parsing.
