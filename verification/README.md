# A verified model of pthreads

pthreads shares PHP objects between threads. This project models the parts of its C code in which
a mistake is hardest to see, and proves properties of them over every input, every interleaving
and every run. Code that updates state in place is modelled by classes, arrays and loops, each
proved to compute a function; the properties are then proved of those functions and of the step
relations built from them.

| module | what it models |
|---|---|
| `Wrappers` | optional values |
| `OrderedTable` | the ordered hash table: order of keys and slots |
| `Store`, `StoreObjects` | the shared property table, the per-connection caches, the modification counter; the same operations as methods on objects |
| `StoreCoherence` | when a cache agrees with the table, exactly; reads against a plain map |
| `StoreBorrowing` | strings shared by pointer stay alive |
| `StoreLaws` | what each operation on the table leaves, entry by entry; what a sync keeps, and how long a cached object stays |
| `Delivery` | shift, pop and chunk hand out every entry once |
| `ThreadedArrays` | conversion of nested arrays, merging of arrays and threaded arrays |
| `FullSync` | the recursive synchronization of an object graph with cycles |
| `WorkerProtocol`, `WorkerSafety`, `WorkerObjects` | threads, workers, their queues and the join handshake |
| `Registry`, `RegistryObjects` | connections, reference counts, the registry of live objects, resolve tables |
| `Handshake` | the protocol, the registry and full synchronization interleaved: what join keeps alive |
| `LinkedQueue` | the doubly linked queue |
| `AstCopy` | copying a constant expression into one block |
| `Opcodes` | relocating instructions |
| `Pool` | round-robin pools |
| `Statics` | static members shared along an inheritance chain |

## How the concurrency is modelled

A critical section under a monitor is one step. The parts of a read, write or deletion that run
after the monitor was released are separate steps (`Finish`), so other connections can run in
between; `Effective` is the cache a connection will have after its pending part. Waiting on a
condition releases the monitor; a sleeper may wake without a reason (POSIX.1-2017, System
Interfaces, pthread_cond_wait). Every run quantifies over an arbitrary sequence of steps of all
connections or threads.

## Findings

These follow the code where a reader would expect otherwise; each has a lemma.

* A value that is not kept locally (an integer, say), written by an in-sync connection over a key
  that it caches, leaves its own old entry in place: the counters are bumped together and nothing
  removes the entry (`StoreCoherence.OwnWriteGoesStale`).
* Plain-string slots are cached locally but never announced through the counter. Not only
  overwriting but also deleting, shifting, popping, chunking or merging over one leaves other
  in-sync connections with the old string (`StoreCoherence.PlainStringGoesStale`).
  `StoreCoherence.StepExact` says that these two families are the only ones, and exactly when.
* A write of a reference to a string stores a borrowed pointer but caches nothing, so nothing of
  the writer's connection holds the string (`StoreBorrowing.WrittenReferenceIsUnheld` is a run,
  `StoreBorrowing.WriteHeld` says exactly when).
* Full synchronization skips entries that were cached already
  (`FullSync.CachedEntriesAreSkipped`). An object is complete afterwards if and only if it was
  reached over uncached entries and finished tasks, or was complete before (`FullSync.SyncExact`).
* Full synchronization caches null for an object that was destroyed and counts the cache as in sync:
  `StoreCoherence.CachedNullIsRead` is a run in which the null is read,
  `StoreCoherence.FullSyncNulls` says exactly when a null is cached.
* The final synchronization of join keeps what it reaches over entries that stay while it runs. An
  entry that another thread changes meanwhile may be dropped again by a later sync, and with it the
  connection, even inside join (`Handshake.KeptUntilLetGo`, `Handshake.JoinKeepsObjects`).
* `pthreads_queue_unshift` links an item without counting it (`LinkedQueue.Queue.Unshift`).
* `Pool::resize` loops without end as soon as an index that it must free is unused, which
  shutdown-then-submit and shrink-then-grow bring about (`Pool.ResizeEnds`,
  `Pool.GapAfterShutdown`, `Pool.GapAfterGrowing`); with a negative size it never ends.
* A relocated constant operand survives exactly when its distance fits a signed 32-bit word
  (`Opcodes.CopyExact`); a block of at most 2^31 bytes guarantees that.

## Model

| member | source | states |
|---|---|---|
| StoreObjects.Connection.SyncLocalProperties | src/store.c:63-135 | sync drops exactly the entries that the table does not confirm (`StoreLaws.SyncExact` lists the ones it keeps), and nothing when the counters agree |
| StoreObjects.Connection.BumpModcount | src/store.c:218-227 | the shared counter grows by one, the own one with it if they were equal |
| StoreObjects.Connection.ReadLocked | src/store.c:410-456 | a read under the monitor answers from the cache, or restores the slot and leaves it to be cached, or fails |
| StoreObjects.Connection.FullSyncLocked | src/store.c:166-204 | full synchronization drops what is outdated, caches every missing cacheable entry of the object, and leaves the cache in sync |
| StoreObjects.Connection.WriteLocked | src/store.c:495-541 | a write stores, bumps if it replaced a cacheable slot, syncs, and leaves the value to be cached; it fails on unsupported values |
| StoreObjects.Connection.DeleteLocked | src/store.c:261-284 | a deletion removes and bumps under the monitor and leaves the own entry to be dropped |
| StoreObjects.Connection.FinishUnlocked | src/store.c:366-384 | the part after the unlock caches what is retained locally, or drops the deleted key |
| StoreObjects.Connection.Restore | src/store.c:952-1118 | what a thread obtains from a slot: the lent string itself on its owner and a copy at another address elsewhere, the object itself on its owner and elsewhere a connection of the thread that goes back to it, null for destroyed objects |
| StoreObjects.Connection.ShiftLocked | src/store.c:564-603 | the first entry leaves table and cache; null from an empty table |
| StoreObjects.Connection.PopLocked | src/store.c:661-703 | the last entry leaves table and cache; null from an empty table |
| StoreObjects.Connection.ChunkLocked | src/store.c:606-658 | a chunk is the first min(n, size) entries, with one bump for all of them |
| StoreObjects.Connection.MergeLocked | src/store.c:1168-1226 | a merge stores hard copies of the source's entries in order, with one bump if it overwrote anything cacheable |
| StoreObjects.Connection.PersistLocalProperties | src/store.c:795-820 | exactly the strings this thread lent become persistent copies |
| StoreCoherence.WriteExact | src/store.c:495-549 | a write keeps all in-sync caches right if and only if it is not one of the two staling kinds |
| StoreCoherence.DeleteExact | src/store.c:261-291 | the same for deletion: only losing a plain string cached elsewhere breaks it |
| StoreCoherence.ShiftExact | src/store.c:564-603 | the same for shift |
| StoreCoherence.PopExact | src/store.c:661-703 | the same for pop |
| StoreCoherence.ChunkExact | src/store.c:606-658 | the same for chunk, where one cacheable entry in the chunk covers all others |
| StoreCoherence.MergeExact | src/store.c:1168-1226 | the same for merge |
| StoreCoherence.OthersExact | src/store.c:137-152 | a change of some keys leaves every other in-sync connection right exactly when it is announced or loses no cached plain string |
| StoreCoherence.StepExact | src/store.c:63-135 | every kind of step keeps coherence if and only if it does not stale |
| StoreCoherence.FullSyncCoherent | src/store.c:154-216 | full synchronization keeps all in-sync caches right, destroyed objects answering null |
| StoreCoherence.FullSyncNulls | src/store.c:182-206 | it caches a null exactly for the keys it has to fill whose object is not registered; a cache without nulls stays one that agrees with the table if and only if there are none |
| StoreCoherence.CachedNullIsRead | src/store.c:189-206 | a run of five steps in which a connection fully synchronizes after an object was destroyed, is in sync with a cached null, and reads it |
| StoreCoherence.ReadPlain | src/store.c:410-468 | in a coherent state a read answers what a plain map would, or null for an object destroyed now or before |
| StoreCoherence.RunCoherent | src/store.c:410-549 | over every interleaving that avoids staling steps all caches agree with the table and every read is that of a plain shared map |
| StoreCoherence.CarefulRunCoherent | src/store.c:137-152 | the same from a condition that each caller can check before its call |
| StoreCoherence.OwnWriteGoesStale | src/store.c:527-542 | a run of five steps in which a connection reads back the value that it overwrote |
| StoreCoherence.PlainStringGoesStale | src/store.c:137-152 | a run in which a connection reads a string that another one deleted |
| StoreCoherence.MergeSlots | src/store.c:1181-1215 | what a merge leaves under every key, and its set of written keys |
| StoreCoherence.MergePlain | src/store.c:1168-1226 | the merged table stands for the plain merge of what the two tables stand for |
| StoreCoherence.StepRefinesMap | src/store.c:261-703 | each step acts on the shared table as the operation acts on a plain ordered map |
| StoreLaws.SyncExact | src/store.c:63-135 | after a sync an entry is still cached if and only if the slot refers to the cached object, or to a registered object of the same shared object, or holds the same closure or descriptor, or the same string lent by this thread |
| StoreLaws.CachedObjectStays | src/store.c:85-127 | over every run in which nobody replaces or removes a key, and the object stays registered unless it is the cached one, a connection keeps its cached object, whatever happens to other keys |
| StoreLaws.ReadsSameObject | src/store.c:410-456 | so two reads of such a key give the identical object |
| StoreLaws.SavedAs | src/store.c:823-949 | how each kind of value is stored: temporary strings are lent, permanent ones stored as text, objects by their original, and what is refused |
| StoreLaws.SavedRestores | src/store.c:823-1118 | what the same thread, and another one, restores from a stored value of each kind; a temporary string comes back itself if and only if the thread stored it |
| StoreLaws.RestoredStoresBack | src/store.c:823-1118 | a restored object carries its original: stored again, by whomever, it gives the slot that it came from |
| StoreLaws.WriteEffect | src/store.c:495-541 | slots, order, counters, and the own cache after a write; nothing changes on failure, and nothing of other connections |
| StoreLaws.DeleteEffect | src/store.c:261-291 | the same for a deletion |
| StoreLaws.TakeEffect | src/store.c:564-703 | the same for shift, pop and chunk: which keys go, what is handed out, one count if any of them is announced |
| StoreLaws.MergeEffect | src/store.c:1168-1226 | the same for a merge: lent strings arrive as text, skipped keys keep their slot |
| StoreLaws.FreeEffect | src/store.c:795-820 | when a connection goes exactly the strings its thread lent become text, and other threads' stay lent |
| StoreLaws.ReadEffect | src/store.c:410-456 | a cached entry is answered without restoring; otherwise fetching restores any slot, modifying only threaded objects, and what was restored is left to be cached |
| StoreLaws.FinishEffect | src/store.c:366-384 | objects, closures, descriptors and strings are cached after the unlock, nothing else is; a deleted key leaves the own cache |
| StoreLaws.FullSyncEffect | src/store.c:154-206 | the cache after full synchronization: the entries that stay and a restored one for every other announced slot |
| StoreLaws.ExportEffect | src/store.c:706-792 | the cache after an export: the entries that stay and a restored one for every other slot, with the counter left behind when anything was restored |
| StoreLaws.ExportPossible | src/store.c:706-792 | an export is always possible, with the counter left behind or, if it restores nothing, in place |
| StoreBorrowing.WriteHeld | src/store.c:823-949 | after a write every lent string is held by a live connection of its owner, if and only if no reference to an unheld string was written |
| StoreBorrowing.MergeHeld | src/store.c:1120-1128 | a merge keeps lent strings held and spreads no lent pointer |
| StoreBorrowing.FreeHeld | src/object.c:428-436 | before a connection goes, nothing lent by its thread is left in the table |
| StoreBorrowing.StepHeld | src/store.c:111-120 | every step keeps lent strings held, except exactly the one kind of write |
| StoreBorrowing.RunHeld | src/store.c:495-549 | in every state of every run without written references each lent string has a live holder on its owner's thread |
| StoreBorrowing.WrittenReferenceIsUnheld | src/store.c:823-830 | one write of a reference to a string, into a new object, after which the table lends a string that nobody holds |
| StoreBorrowing.HolderIsReal | src/store.c:366-384 | the holder has the string in its cache, or in hand for the unfinished operation |
| Delivery.StepSplits | src/store.c:564-703 | a taking step splits the table into what it hands out at either end and what remains |
| Delivery.RunDelivers | src/store.c:564-703 | over every run of takers: front removals in order, the rest, and back removals in reverse are the original table |
| Delivery.DeliveredOnce | src/store.c:606-658 | no key is handed out twice, or handed out and left |
| Delivery.TakersObtain | src/store.c:564-703 | the caller obtains the contents of exactly the entries taken, or null for destroyed objects |
| Delivery.StepConserves | src/store.c:261-703 | each operation accounts for its entries: taken, overwritten or deleted, and remaining are what was there and what it added |
| Delivery.RunConserves | src/store.c:261-703 | over every run of all operations, merges included: taken plus overwritten or deleted plus remaining is original plus added |
| ThreadedArrays.Heap.Write | src/store.c:495-549 | writing a nested array allocates tables that represent it, and touches no other table |
| ThreadedArrays.Heap.Merge | src/store.c:1231-1271 | merging an array leaves under each key the new value or the old one, as the overwrite setting says |
| ThreadedArrays.Heap.FromArray | classes/threaded_array.c:86-96 | the result represents the whole nested array; the recursion of write and merge ends |
| ThreadedArrays.ReadsBack | classes/threaded_array.c:86-96 | reading the result back gives the original keys, order and values at every depth |
| ThreadedArrays.ReadsWholeBack | classes/threaded_array.c:86-96 | an array all of whose leaves can be stored is read back whole: nothing is skipped |
| ThreadedArrays.FlatMergesAgree | src/store.c:1162-1275 | merging a flat array and merging an equal threaded array give the same contents and order, for both settings |
| FullSync.Synchronizer.Sync | src/store.c:154-216 | on every finite graph, cyclic or not, the call ends, restores the marks, fills exactly the caches of what it processes, and processes only what it reaches over uncached entries and finished tasks |
| FullSync.Synchronizer.SyncRoot | src/store.c:154-216 | a call from outside processes the least set of objects that holds the root and all that is due from its members, leaves every other object as it was, and in that set drops outdated and fills missing entries |
| FullSync.SyncExact | src/store.c:182-208 | processed if and only if reached; the cache of every object afterwards; complete if and only if reached or complete before |
| FullSync.SyncIsLeast | src/store.c:166-206 | the processed objects are the least set that holds the root and takes along, for each member, the objects behind entries it does not have cached and confirmed, and its finished tasks; and the effect on every object |
| FullSync.OutdatedEntriesGo | src/store.c:166-193 | for a processed object that was not in sync: outdated entries are gone unless they are cacheable and restored anew, confirmed ones stay, and the children behind outdated entries are complete; an object that was in sync loses nothing |
| FullSync.OutdatedEntryIsFollowed | src/store.c:166-193 | a graph on which every full synchronization drops an outdated entry, and goes on to the child behind it |
| FullSync.ReachedIsComplete | src/store.c:154-216 | every object at the end of a path of uncached entries, of any length, is processed and complete |
| FullSync.ProgressTwice | src/store.c:176-206 | calls in a row, and so the recursion, never undo each other |
| FullSync.WorkEnds | src/store.c:154-216 | an object whose properties and finished tasks are all handled is processed |
| FullSync.CachedEntriesAreSkipped | src/store.c:186-188 | a graph on which every full synchronization leaves the child behind a cached entry incomplete |
| WorkerObjects.WorkerData.AddTask | src/worker.c:70-86 | pushes at the end and notifies exactly when the queue was empty |
| WorkerObjects.WorkerData.DequeueTask | src/worker.c:99-109 | removes the oldest waiting task, if any |
| WorkerObjects.WorkerData.AddGarbage | src/worker.c:88-93 | the running task moves to the end of the gc queue |
| WorkerObjects.WorkerData.CollectTasks | src/worker.c:111-142 | synchronizes and collects finished tasks in order up to the first refusal, and counts them for the worker |
| WorkerObjects.WorkerData.NextTask | src/worker.c:164-194 | purges the done cache by the number collected, then takes, leaves or waits |
| WorkerSafety.StepKeeps | src/worker.c:70-194 | every step of creator and worker, and every spurious wake-up, keeps the protocol invariant |
| WorkerSafety.RunInv | src/object.c:600-645 | the invariant holds in every state of every run |
| WorkerSafety.SleeperHasNothingToDo | src/worker.c:164-190 | no lost wake-up: a worker that sleeps without a wake-up pending has an empty queue and neither flag set |
| WorkerSafety.DoneCacheLockstep | src/worker.c:88-97 | collected-but-not-purged tasks followed by the gc queue are the done cache, up to one task in the unlocked window; purged tasks were synchronized and collected |
| WorkerSafety.PurgeLockstep | src/worker.c:168-175 | a purge finds as many entries as it drops, and they are exactly the collected ones |
| WorkerSafety.NodesConserved | src/worker.c:70-142 | each stacked node is in exactly one of queue, running, gc and freed |
| WorkerSafety.FifoOrder | src/worker.c:99-142 | execution follows stacking order, collection follows execution order |
| WorkerSafety.CollectOffers | src/worker.c:111-142 | every task collected, and the one refused, was synchronized before the collector saw it; the collected ones are the oldest |
| WorkerSafety.JoinHandshake | src/object.c:495-535 | synchronization starts after the thread stopped; the thread drops its objects only after the thread object and all executed tasks were synchronized; join returns only after it exited |
| WorkerSafety.RankDecreases | src/worker.c:164-194 | inside join each worker step comes nearer to AWAIT_JOIN and nothing else moves it away |
| WorkerSafety.WorkerCanStep | src/object.c:619-634 | inside join the worker is never without a step |
| WorkerSafety.ShutdownDrains | src/object.c:518-534 | with at most 4 steps per queued task plus 5 the worker reaches AWAIT_JOIN, queue empty, nothing running |
| Registry.ConnectShape | src/object.c:234-259 | connecting a fresh destination frees its own object, counts the source's, and keeps the original chain one deep |
| Registry.StepInv | src/object.c:273-311 | every operation keeps counts, chains, registry and resolve tables accurate |
| Registry.RunAccurate | src/object.c:370-439 | in every state of every run a count is the number of live connections, and the object exists exactly while there is one |
| Registry.FreedWithLastConnection | src/object.c:416-439 | a shared object is freed in the step in which its last connection goes, and in no other |
| Registry.ConnectionKeepsAlive | src/object.c:234-311 | while a connection is not freed, the object behind it stays allocated, whatever other threads do |
| Registry.ResolveConnects | src/object.c:273-311 | resolving succeeds exactly for registered addresses and yields a live connection of the asking thread to the same object |
| Registry.ResolveExact | src/object.c:273-311 | the owner gets the address itself, a known connection is reused, both without change; exactly otherwise a new connection is made and entered |
| Registry.ResolvedTwice | src/object.c:283-297 | over every run two resolves by a thread of one shared object give the same connection, unless that began to be freed between them |
| Registry.FreeBeginExact | src/object.c:416-426 | exactly the entries that name the connection go; those that name another stay |
| RegistryObjects.Globals.ConnectNolock | src/object.c:234-259 | the fields are updated as the connect operation says |
| RegistryObjects.Globals.ObjectConnect | src/object.c:273-311 | own object, known connection, or new connection with the resolve entry made; which of the three, and that the first two change nothing, is `Registry.ResolveExact` |
| RegistryObjects.Globals.IsValid | src/globals.c:164-178 | an address is valid exactly while the connection there was not freed, and then its shared object is allocated and counts its live connections |
| RegistryObjects.Globals.Construct | src/object.c:370-381 | a new object is registered and counts one connection |
| RegistryObjects.Globals.FreeUnresolve | src/object.c:416-426 | the resolve entry is given up only if it names this connection |
| RegistryObjects.Globals.FreeLocked | src/object.c:428-436 | the shared object survives exactly if another connection remains |
| Handshake.SyncsAfterStop | src/object.c:518-528 | the creator neither synchronizes nor ends its synchronization while the thread executes |
| Handshake.StoppedChildKeeps | src/object.c:631-640 | from the moment a thread waits to exit until the creator has synchronized, none of its objects goes away, whatever other threads do and write |
| Handshake.CoveredIsFullSync | src/object.c:521-528 | a synchronization of join that is done has got to exactly the objects that the recursive full synchronization processes on the entries and finished tasks that stayed |
| Handshake.NotCoveredMeets | src/store.c:176-206 | until then there is an entry that stayed, refers to a registered connection and is not filled |
| Handshake.ReachesLeast | src/store.c:161-206 | what the synchronization of join has to reach is the least set that holds the thread object and takes along what entries to be filled and finished tasks refer to |
| Handshake.NarrowWithin | src/store.c:161-206 | what stayed through a change of the tables was there before and is there after, with nothing cached meanwhile |
| Handshake.NarrowExact | src/store.c:161-206 | an entry stayed and still has to be filled if and only if that holds before and after the change |
| Handshake.UndisturbedStays | src/object.c:518-528 | while no table changes everything stays, from the moment join begins to synchronize |
| Handshake.MetObjectLives | src/object.c:273-311 | a registered object that the synchronization fills in, whoever owns it, is alive through a connection of the creator until the creator lets that go |
| Handshake.KeptUntilLetGo | src/object.c:416-439 | a connection of the creator goes only when the creator begins to free it, which inside join happens only once no cache entry, queue node or caller refers to it |
| Handshake.SupportStays | src/object.c:521-530 | after the synchronization a set of connections that refer to each other, from the thread object on, goes on doing so inside join |
| Handshake.JoinKeepsObjects | src/object.c:495-535 | every object that full synchronization reaches from the thread object, over entries and finished tasks that stayed, is in every later state allocated, counted accurately and connected to the creator, without exception until join returns and afterwards until the creator lets go |
| Handshake.JoinReturns | src/object.c:495-535 | when join returns the thread has exited, and all those objects are alive |
| LinkedQueue.Queue.Push | src/queue.c:41-52 | links at the tail; head, tail, links and size describe the longer sequence |
| LinkedQueue.Queue.Unshift | src/queue.c:58-68 | links at the head, and leaves size alone |
| LinkedQueue.Queue.Remove | src/queue.c:74-112 | unlinks any member, or does nothing for none |
| LinkedQueue.Queue.Shift | src/queue.c:114-116 | unlinks the first member |
| LinkedQueue.Queue.Pop | src/queue.c:118-120 | unlinks the last member |
| LinkedQueue.Queue.Clean | src/queue.c:20-28 | walks every member exactly once, in order |
| LinkedQueue.RunQueue | src/queue.c:41-120 | over every run of push, shift, pop and removal of members the links are one acyclic list equal to the abstract sequence, and size is its length |
| AstCopy.TreeSize | src/copy.c:156-185 | the size computed in advance |
| AstCopy.CopyTree | src/copy.c:187-241 | the copier fills exactly the computed size and nothing outside it |
| AstCopy.CopyAst | src/copy.c:243-257 | the block holds exactly the header, counting one reference, and the copy, which decodes to the source tree |
| AstCopy.DecodesBack | src/copy.c:187-241 | following the pointers of a packed tree gives the source tree up to value copy |
| AstCopy.LeavesCopied | src/copy.c:187-241 | the leaves of the copy are the copies of the leaves, in order |
| AstCopy.CopiedIdentity | src/copy.c:187-241 | where values are copied to equal ones the copy is the same tree |
| AstCopy.NodesTile | src/copy.c:187-241 | the nodes fill the block one after the other without gap |
| AstCopy.TilesDisjoint | src/copy.c:156-241 | nodes lie inside the block and do not overlap |
| Opcodes.FixOp | src/copy.c:400-474 | one instruction, constants first and then jumps by opcode, is relocated as `MovedOp` says, whose result `Opcodes.MovedExactly` describes operand by operand |
| Opcodes.CopyOpcodes | src/copy.c:392-478 | the loop relocates every instruction and keeps the literals, so that the copy runs alike (`Opcodes.RunsAlike`) |
| Opcodes.ConstantExact | src/copy.c:412-437 | a relocated constant denotes its literal again if and only if the distance fits 32 bits, always on absolute builds |
| Opcodes.CopyExact | src/copy.c:392-478 | for whole functions: all constants survive exactly when all are in reach |
| Opcodes.JumpExact | src/copy.c:439-474 | a relocated jump denotes the same instruction |
| Opcodes.CopierKnowsJumps | src/copy.c:439-474 | the operands that the copier treats as jumps are those of the virtual machine's table, for every opcode |
| Opcodes.MovedExactly | src/copy.c:412-474 | per operand: a jump denotes the same instruction of the copy, at the same distance from its start, a relative one is unchanged, and all other operands but constants stay |
| Opcodes.BlockReaches | src/copy.c:618-632 | in the one block, literals follow instructions, stay inside, and are in reach up to 2^31 bytes |
| Opcodes.StepsAlike | src/copy.c:392-478 | an interpreter that follows addresses takes the same step on the copy |
| Opcodes.RunsAlike | src/copy.c:392-478 | and so the same run, for any number of steps and all handlers that jump only by the operands that the virtual machine's table names |
| Opcodes.CopyIsWellFormed | src/copy.c:392-478 | a copy is well formed, so it can be copied again |
| Pool.PoolObject.SubmitTask | classes/pool.c:89-186 | wraps the index, starts a worker where there is none, stacks, advances; fails after the wrap when no worker can be made |
| Pool.PoolObject.ResizeTo | classes/pool.c:54-85 | for every state, size and number of rounds: exactly whether the loop has ended by then; if so the last workers were shut down from the top, if not only those rounds were done and the size is unchanged |
| Pool.PoolObject.ShutdownAll | classes/pool.c:271-283 | every worker is shut down and `last` stays |
| Pool.SubmitKeeps | classes/pool.c:113-185 | a submission keeps worker indices contiguous and within the size |
| Pool.SubmitEffect | classes/pool.c:113-185 | the task goes to the worker at the index, existing or new, and to no other |
| Pool.ResizeEffect | classes/pool.c:67-84 | a resize drops exactly the workers from the new size up to their number, and touches no other |
| Pool.ResizeEnds | classes/pool.c:67-82 | the loop ends if and only if the new size is not negative and no index above it is unused |
| Pool.ResizeFromInvariant | classes/pool.c:54-85 | from the invariant a resize ends with at most the new number of workers, and keeps the invariant exactly unless it grows past a `last` beyond the workers |
| Pool.ShutDownExact | classes/pool.c:271-283 | shutting down keeps the invariant exactly when `last` is 0 or due to wrap |
| Pool.RunKeeps | classes/pool.c:54-186 | over every run whose calls pass that check no resize can loop without end |
| Pool.RoundRobin | classes/pool.c:113-185 | on a fresh pool the j-th submission goes to worker j mod size, and each worker has exactly the jobs dealt to it, in order |
| Pool.GapAfterShutdown | classes/pool.c:271-283 | shutdown then submit leaves a gap on which resizing to 0 never ends |
| Pool.GapAfterGrowing | classes/pool.c:67-84 | shrinking and growing leaves a gap on which shrinking again never ends |
| Statics.CopyOwn | src/prepare.c:203-214 | the descending loop gives each declared member the copyable value that the source slot holds or points at, and null exactly if there is none |
| Statics.PointAtAncestors | src/prepare.c:216-225 | the loops up the parent chain point every inherited slot at the slot of its declaring ancestor |
| Statics.PrepareTable | src/prepare.c:189-227 | the same for a class that has static members: table, copies, pointers and what is read through them |
| Statics.PrepareClassStatics | src/prepare.c:181-237 | a linked chain of any depth stays linked when a class is prepared, an unlinked class copies everything; a declared member reads as the candidate's value at once, null exactly if that was null or cannot be copied, and an inherited one as through the ancestors |
| Statics.SomeoneDeclares | src/prepare.c:216-225 | every slot is declared by some class of the chain |
| Statics.DeclaresOnce | src/prepare.c:216-225 | and by only one |
| Statics.SharedSlot | src/prepare.c:216-225 | through every class of the chain a slot is the declaring class's slot |
| Statics.ValuesAreRead | src/copy.c:48-52 | copying follows a pointer: what preparation copies is what is read through the candidate |
| Statics.DeclaredValueRead | src/prepare.c:203-225 | the value in the slot of the declaring class is read through every class below it |
| Statics.WriteStatic | src/prepare.c:216-225 | a write through any class is read through every class that has the slot, and changes no other |

## Left out

- Zend internals: hash tables, zvals, allocators, string refcounts, the cycle collector. They appear as ordered tables, values and ownership.
- Class, function, INI and constant preparation in src/prepare.c other than static slots, and init_class_statics: they depend on engine state that is not visible there.
- Iterators, isset, count, numeric-string key coercion, the next free index of a keyless write, and default property values.
- Sockets and resources beyond storing and restoring a handle; src/handlers.c, stubs, module start-up, src/ext_sockets_hacks.c.
- Exporting to a hash other than the object's own property table (src/store.c:735-751).
- Deadlock freedom: monitors and the global lock are taken in both orders, so none is claimed.
- Address reuse of freed objects, engine bailouts, collectors and destructors that call back into the worker, and waiting while the recursive mutex is held more than once.
- Timeouts and error returns of waits, and the bit operations of src/monitor.c: flags are booleans, a wait is the sleeping state of the protocol.
- The resolve table as a cache of copied functions: its keys are taken to be disjoint from those of shared objects.
- Wrap-around of the modification counter. A new connection's counter (-1) differs from every shared counter that occurs.
- The parts of pthreads_start and of the start-up of a thread before it is ready; a thread that fails to start.
- StoreCoherence.StepExact: a written object that carries an original is assumed to stand for the same shared object as that original, which the one-level chains of the registry guarantee.
- StoreBorrowing.StepHeld: what holds a string is a connection's cache or its unfinished operation; local variables of PHP code that may hold it as well are not counted. Permanent strings need no holder.
- FullSync.Synchronizer.Sync: that the shared tables do not change during the call is an assumption, since only the monitors of single objects are held; `Handshake` says what a synchronization reaches when other threads write meanwhile. The per-object monitors are not modelled there.
- ThreadedArrays.Heap.Write: caches and counters are not modelled there, since a conversion fills objects that nobody else knows yet; the tables are the state. `StoreObjects.Connection.WriteLocked` has them.
- ThreadedArrays.Heap.Merge: the same; each entry goes through a write, whose cache and counter part is `StoreObjects.Connection.WriteLocked`.
- StoreObjects.Connection.WriteLocked: a write without a key, which takes the next free index, is not modelled; arrays are converted in `ThreadedArrays.Heap.Write`.
- WorkerSafety.NodesConserved: collectors are modelled by the number of tasks they accept before the first refusal.
- Handshake.JoinKeepsObjects: the creator is taken to have one cache per shared object. What its own code may still refer to besides cache entries, queue nodes and the call of join is not counted, which only makes more frees possible.
- WorkerSafety.JoinHandshake: the final synchronization is one step there; what it reaches and keeps is stated by `Handshake.JoinKeepsObjects`.
- LinkedQueue.RunQueue: runs do not unshift, after which `size` is less than the length; no caller in the repository unshifts.
- AstCopy.CopyTree: line numbers are not modelled, since the copier does not copy them for lists and trees; values are copied by a function given as a parameter.
- Opcodes.RunsAlike: instructions that pass two has not completed, the choice of specialised handlers, and the tables of tries, live ranges and variables are not modelled; literals are copied as equal values. A handler that jumps by an operand which the virtual machine never jumps by is not considered.
- Pool.PoolObject.SubmitTask: a worker is the list of jobs stacked on it; exceptions of its constructor, `start` and `shutdown` are not modelled.
- Statics.PrepareClassStatics: a member that cannot be copied becomes null, as in the branch for PHP 8.0; freeing an earlier copy for anonymous classes is not modelled.
- Opcodes.CopierKnowsJumps: the table `Jumps` states the virtual machine's own rules, which are part of the engine and not of the repository; the jump tables of switch and match live in literals.
- Statics.CopyOwn: a pointer in the source is followed once, since no member that is pointed at is a pointer itself.
- StoreObjects.Connection.Restore: what has to be created gets an address above all lent strings, which stands for an allocator that returns unused memory; whether a connection is a known or a new one is decided in `Registry.ResolveExact`.
