# PARSIR, a model in Dafny

PARSIR is a parallel discrete-event simulator. Worker threads advance in lock step through epochs one
lookahead wide, take objects from shared ticket counters, extract each object's events from a circular
calendar queue, and, in the speculative builds, checkpoint each object's memory and roll it back when an
event arrives too late. This project models that machinery and proves what it keeps.

`dafny verify dfyconfig.toml` checks all of it.

| part | modules |
|---|---|
| the reusable barrier as a state machine over single shared accesses | Barrier |
| what a checkpoint promises of flat memory, and the backends that refine it: two granule grids, store-only page cells, chunk undo log | CheckpointMemory, Grid, DirtyGrid, DirtyGridCode, TouchedPages, StoreGrid, Chunks |
| the two backends that give back less, each refining its own specification: two-slot copy-on-write pages, full copy of used chunks | TwoSlotPages, Chunks |
| the per-object allocator with its checkpoint | Allocator |
| speculative rollback of one object: send logs, messages to itself, coasting, replay; the exact limits of replay, and inputs beyond them; the end of its epoch | Rollback, StraightRun, Speculation, Replay, ReplayLimits, SelfSends, SpeculationCode, Flush |
| the linked lists on the heap | SlotList |
| the calendar queue, its invariant, what it delivers, and its code | CalendarQueue, CalendarInvariant, CalendarDelivery, CalendarCode |
| the worker threads around it, over every interleaving; what they deliver; with the real barrier; progress under fair schedules, and the end | Engine, EngineInvariant, EngineRuns, Delivery, EngineBarrier, EngineProgress, BarrierProgress, Ending |
| the division of objects among threads and NUMA nodes | Partition |
| taking one element out of a list | Lists |
| landing pads and jump detours | LandingPads, Detours |
| the two richer simulation models | Highway, Pcs |

Modelling choices. Times are integers; in the speculative part they are multiples of `epsilon`, so that
"at most t minus epsilon" is "before t". Every shared read, write, swap and fetch-and-add is one
sequentially consistent step, and the lemmas about threads quantify over all schedules. A bitmap is an
array of bits, eight consecutive ones being a byte of the source, or, in DirtyGrid, the bytes themselves.
Where the source updates in place, the model is a class or a method on arrays with loops, proved against
a specification function, and the laws are lemmas about that function. Event handlers and random draws
are parameters, and so are the rounding of floats, with its precision (a rounded ratio is a whole number of
at most 24 bits over another whole number), and the winner of each barrier
round in module Engine, where EngineBarrier puts the barrier's own.

What the code does where one might expect otherwise, each stated by a member below: a hardware
description with exactly one NUMA node leaves the dispatch count at zero (Partition); two events with
one time can change places if different threads deferred them (EngineRuns); a rollback that recalls a
message of the object to itself raises a second rollback behind the first, which coasts over the events
in between although their messages have been cut, so that a straggler behind such a message loses the
messages of every event from its time up to it (ReplayLimits, SelfSends); an event that arrives ahead of
the object's clock, but before the time of the last rollback or of one standing or under way, is coasted
over and its messages suppressed, and a cancellation, of a queued event or of one processed behind the
rollback under way, can move that time past events whose messages are not recorded, or turn the order of
equal times round (ReplayLimits); a message to itself without delay makes an object roll back forever
(SelfSends); the page backends undo nothing in epoch 0 (StoreGrid, TwoSlotPages); when its bitmap is not
a whole number of 64-bit words, the dirty-bit grid can overwrite its own copy, and a later rollback gives
wrong bytes (DirtyGrid).

## Model

| member | source | states |
|---|---|---|
| Barrier.NobodyLeavesEarly | queue/barrier-synchronization.c:14-32 | For any number of threads and any schedule of single shared accesses: a thread that has returned from r calls knows that every thread has arrived r times, and no thread is a full round ahead |
| Barrier.ExactlyOneWinner | queue/barrier-synchronization.c:14-32 | In every round that all threads have left exactly one of them got 1, and no round ever has two |
| Barrier.NoDeadlock | queue/barrier-synchronization.c:14-32 | With every thread inside the barrier, some thread, scheduled alone, is past its spin after at most two accesses |
| Barrier.LatecomerGetsPast | queue/barrier-synchronization.c:18-21 | A thread that has not arrived in the open round is never held by the entry spin |
| CheckpointMemory.RestoreReturnsToCheckpoint | chunk_ckpt/chunk_ckpt.c:41-54 | The flat specification that the granule grids, the store-only grid and the chunk undo log refine: whatever stores and earlier rollbacks lie between, a rollback gives back the bytes of the last checkpoint |
| Grid.RestoreArea | MVM_GRID_CKPT/src/_ckpt_setup.c:27-65 | The nested 64/16/1-bit scan that skips zero words restores exactly the granules a flat pass over every bit would restore, and leaves the bitmap clear |
| CheckpointMemory.NeighbourGranule | MVM_GRID_CKPT/src/_asm_patches.S:61-180 | A store of at most MOD bytes touches its own granule, the next one only if it is unaligned, and none behind the last |
| Grid.UndoArea.BeforeStore | MVM_GRID_CKPT/src/_asm_patches.S:61-180 | After the code in front of a store every byte the store can write lies in a granule whose checkpoint bytes are saved, the last granule included |
| Grid.UndoArea.Execute | grid_ckpt/grid_ckpt.c:44-79 | Every run of stores, checkpoints and rollbacks of the undo grid refines the flat memory specification |
| DirtyGrid.DirtiedBits | MVM_GRID_CKPT_BS/src/_asm_patches.S:70-122 | The 8-bit OR of an aligned store and the 16-bit OR of an unaligned one, also across a byte boundary of the bitmap, set the bit of the store's granule, the next one's exactly if it is unaligned, and no other |
| DirtyGrid.RestoreGivesArea | MVM_GRID_CKPT_BS/src/_ckpt_setup.c:26-68 | As long as the copy is the checkpoint, a rollback gives the whole area back, for every bitmap of whole bytes |
| DirtyGrid.CopySurvives | MVM_GRID_CKPT_BS/src/_ckpt_setup.c:26-68 | The rollback keeps the copy, and with it everything the next one needs, exactly if the bitmap is a whole number of 64-bit words, or the bit behind the last granule is clear, or the first granule happens to look like the bitmap |
| DirtyGrid.RunIsFlat | grid_ckpt/grid_ckpt.c:44-79 | Every run of stores, checkpoints and rollbacks refines flat memory if the bitmap is a whole number of 64-bit words, and otherwise if no rollback follows an unaligned store in the last granule without a checkpoint or rollback between |
| DirtyGrid.SecondRollback | MVM_GRID_CKPT_BS/src/_ckpt_setup.c:26-68 | A rollback, a store at the area's beginning and a second rollback give the checkpoint back exactly if the first rollback kept the copy |
| DirtyGrid.SpareBitBites | MVM_GRID_CKPT_BS/src/_ckpt_setup.c:26-68 | The failing input for any bitmap that is not a whole number of words and whose bytes lie in the first granule, with that bit clear in the checkpoint: an unaligned store in the last granule, a rollback, a store at the beginning, and the next rollback gives wrong bytes |
| DirtyGrid.WideAreaFails | MVM_GRID_CKPT_BS/src/_asm_patches.S:43-58 | With MOD = 65536 and an area of 2 MB such a run exists from a fresh area on |
| DirtyGridCode.DirtyBuffer.BeforeStore | MVM_GRID_CKPT_BS/src/_asm_patches.S:70-122 | The code in front of a store changes nothing but the bitmap, and the bitmap by those bits |
| DirtyGridCode.DirtyBuffer.RestoreArea | MVM_GRID_CKPT_BS/src/_ckpt_setup.c:26-67 | The nested 64/16/1-bit scan comes to one flat pass over every bit that it reads, the spare bit's copy over the copy included |
| DirtyGridCode.DirtyBuffer.Execute | grid_ckpt/grid_ckpt.c:44-79 | Every run of the code is the run on area, copy and bitmap, and under the condition of DirtyGrid.RunIsFlat it refines flat memory |
| TouchedPages.TouchedList.Note | MVM_MMAP_MULTIVERSIONING/patches/patches.c:203-234 | The list of touched pages is emptied at the first note of an epoch and holds each page touched in it exactly once |
| StoreGrid.Region.CellBytes | MVM_MMAP_MULTIVERSIONING/patches/patches.c:175-201 | The bytes that share a bitmap bit are those of one cell, cut off at the page end when the cell size does not divide the page |
| StoreGrid.Region.SnapshotRange | MVM_MMAP_MULTIVERSIONING/patches/patches.c:263-369 | Before a store or memcpy that may cross pages and cells, every byte it will write is copied in this epoch, and a copied byte always holds its epoch-start value |
| StoreGrid.Region.RollbackPage | MVM_MMAP_MULTIVERSIONING/patches/patches.c:734-771 | The cells copied back give the page, and no byte of another page, its epoch-start content |
| StoreGrid.Region.RestoreObject | MVM_MMAP_MULTIVERSIONING/patches/patches.c:725-771 | A rollback returns the whole region to its bytes at the last epoch advance; in epoch 0 it does nothing |
| StoreGrid.Region.Execute | MVM_MMAP_MULTIVERSIONING/patches/patches.c:863-882 | Every run of stores, epoch advances and repeated rollbacks of the store-only grid, from any epoch on, refines flat memory with an epoch counter, in which a rollback in epoch 0 does nothing |
| StoreGrid.EpochsAreFlat | MVM_MMAP_MULTIVERSIONING/patches/patches.c:725-771 | Such a run is the flat run of its operations without the rollbacks before the first epoch advance |
| StoreGrid.RestoreReturnsToEpochStart | MVM_MMAP_MULTIVERSIONING/patches/patches.c:725-771 | Whatever stores and earlier rollbacks lie between, a rollback gives back the bytes of the last epoch advance |
| TwoSlotPages.ForwardCopyMoves | MVM_MMAP_MULTIVERSIONING/patches/patches.c:545-568 | The byte-wise forward copy moves the original source bytes whenever the destination does not start inside the source behind its first byte |
| TwoSlotPages.Region.Store | MVM_MMAP_MULTIVERSIONING/patches/patches.c:579-661 | A translated store changes the region as seen through the published slots exactly as a store to flat memory would |
| TwoSlotPages.Region.Load | MVM_MMAP_MULTIVERSIONING/patches/patches.c:579-661 | A translated load sees the last translated store |
| TwoSlotPages.Region.Memcpy | MVM_MMAP_MULTIVERSIONING/patches/patches.c:545-568 | A memcpy inside the region is the byte-wise forward copy, across pages too |
| TwoSlotPages.Region.RolledBackPage | MVM_MMAP_MULTIVERSIONING/patches/patches.c:790-848 | Among the two slots a rollback chooses the one with the epoch-start content if the page was versioned before, and leaves the page alone otherwise |
| TwoSlotPages.Region.RestoreObject | MVM_MMAP_MULTIVERSIONING/patches/patches.c:775-848 | Every byte of a page versioned in an earlier epoch gets its epoch-start value and no other byte changes; so the whole region is back exactly if no byte of an unversioned page has changed |
| TwoSlotPages.RestoreReturnsVersioned | MVM_MMAP_MULTIVERSIONING/patches/patches.c:775-848 | Whatever stores, copies and earlier rollbacks lie between, a rollback gives the bytes of the last checkpoint back on every page that was ever stored to before it |
| TwoSlotPages.Region.Execute | MVM_MMAP_MULTIVERSIONING/patches/patches.c:579-661 | Every run of stores, memcpys, checkpoints and rollbacks refines the page specification, in which a rollback gives back the versioned pages and a checkpoint versions the pages stored to |
| Allocator.TakenChunk | memory/memory.c:357-404 | A chunk handed out was not live, lies in the area, comes from the first class from the fitting one on that has a free chunk, and has room for the request exactly if the request is at most 4096 bytes; a refusal means every class from the fitting one on is exhausted |
| Allocator.LiveDisjoint | memory/memory.c:151-172 | Two live chunks, of the same class or not, share no byte |
| Allocator.ServeInv | memory/memory.c:357-428 | Every malloc and every free of a live chunk keeps the free stacks and the live chunks a partition of each class's chunks |
| Allocator.FreeUndoesMalloc | memory/memory.c:357-428 | A free of the chunk that a malloc has handed out restores the heap |
| Allocator.MallocUndoesFree | memory/memory.c:357-428 | A malloc of the class of the chunk freed last gets that chunk and restores the heap |
| Allocator.Stacks.constructor | memory/memory.c:151-172 | After set-up every chunk of every class is free, in address order |
| Allocator.Stacks.TopIsLiveCount | memory/memory.c:390-428 | Per class `top_elem` is the number of live chunks, so freeing a live chunk never underflows |
| Allocator.Stacks.Allocate | memory/memory.c:357-404 | The search for a class and the fall-through to larger ones on the stacks is the specification's answer and new heap |
| Allocator.Stacks.Release | memory/memory.c:406-428 | A free pushes the chunk back on the stack of its class; an address outside the area is the abort and changes nothing |
| Allocator.Stacks.Restore | memory/memory.c:224-234 | Copying back only the part of the stacks above the saved top restores the checkpointed heap |
| Allocator.Stacks.ReplayGetsSameAddresses | memory/memory.c:209-234 | After any requests since a checkpoint and a restore, any sequence of requests gets the same addresses as it got after the checkpoint |
| Chunks.ChunkBytes | memory/memory.c:237-265 | The chunks of the eight segments tile the area: each byte has one class and one chunk |
| Chunks.CopyMarked | memory/memory.c:268-297 | The scan that skips zero bitmap bytes copies exactly the bytes of marked chunks |
| Chunks.UndoChunks.CkptChunk | memory/memory.c:237-265 | After the save of a chunk its checkpoint bytes are in the shadow, whether or not it had been saved already |
| Chunks.UndoChunks.RestoreObject | memory/memory.c:268-297 | The undo log gives back the whole area at the checkpoint together with the free stacks, and leaves every bitmap bit clear |
| Chunks.UndoChunks.Execute | chunk_ckpt/chunk_ckpt.c:41-70 | Every run of guarded stores, mallocs, frees, checkpoints and rollbacks refines flat memory and the heap specification together |
| Chunks.FullChunks.UsageIsComplementOfFree | memory/memory.c:390-428 | In the full-copy variant a chunk's usage bit is set exactly if its address is not on the free stack |
| Chunks.FullChunks.Malloc | memory/memory.c:357-404 | A malloc marks exactly the chunk it hands out |
| Chunks.FullChunks.Free | memory/memory.c:406-428 | A free unmarks exactly the chunk that becomes free |
| Chunks.FullChunks.RestoreObject | memory/memory.c:325-353 | Every chunk in use at the checkpoint gets its bytes back and no other byte changes; the memcmp of the debug build succeeds exactly if no byte that was free at the checkpoint has changed |
| Chunks.RestoreReturnsLive | memory/memory.c:325-353 | Whatever is stored, allocated, freed or restored since the last checkpoint, a rollback gives back the heap and the bytes of every chunk in use then |
| Chunks.FullChunks.Execute | chunk_ckpt/chunk_ckpt.c:41-70 | Every run of stores, mallocs, frees, checkpoints and rollbacks of the full-copy variant refines the specification in which a rollback gives back the chunks in use at the checkpoint |
| Rollback.InsertSorted | queue/queue.c:239-269 | The insertion scan keeps a slot sorted |
| Rollback.RequeueContents | queue/queue.c:1009-1043 | Putting the processed events back loses and duplicates nothing |
| Rollback.RequeueSorted | queue/queue.c:1009-1043 | Putting the processed events back leaves a sorted slot sorted |
| Rollback.TruncateStraight | queue/queue.c:899-1006 | Cutting the send logs of a straight run at t leaves the logs of the straight run over the events before t |
| StraightRun.StraightSays | queue/queue.c:681-766 | A straight run reaches the state of handling its events one after the other, and records every message scheduled on the way, in order: those for later epochs in the speculation queue, those for this epoch, whoever gets them, in the send log |
| Speculation.NeverBackInTime | queue/queue.c:435-443 | Under every interleaving of inserts, annihilations and rollbacks, the object's messages to itself included, no extraction has a time below the object's clock, and the retractable list is always sorted |
| Speculation.RunExact | speculation/speculation.c:115-142 | In every run whose arrivals and cancellations are safe when they happen, of an object whose messages to itself lie ahead of the events that send them, state and recorded sends are always those of a straight run over the processed events and the ones still coasted over; with a rollback standing or under way, those before the coming cut are |
| Replay.RunConserves | queue/queue.c:932-1043 | No step of any run duplicates or loses an event from outside |
| Replay.OwnAsLogged | queue/queue.c:978-1006 | In every run the object holds, processed or queued, exactly the messages to itself that its send log has, each as often; so a rollback annihilates those it cuts from the log and no other |
| Replay.ReplayIsExact | stubs/stubs.c:58-72 | Once a run as in Speculation.RunExact has nothing left to do, state and sends are those of one straight run in time order over the events of the epoch and the arrivals, less the cancelled ones, and the messages to itself that this run sends: the state reached by handling them one after the other, and every message scheduled on the way for this epoch or a later one, once |
| Flush.Flushed | queue/queue.c:769-824 | The flush of an object's speculation queue puts every message into the calendar once, for its object at its time, and none is refused |
| Flush.SpeculationQueueFlush | queue/queue.c:790-806 | The loop over the speculation queue is this flush, and keeps the calendar's invariant |
| Flush.EpochHandsOn | queue/queue.c:769-824 | So when a run as in Replay.ReplayIsExact is done, the flush hands on exactly the messages for later epochs of one straight run over the epoch's events, however often the object was rolled back |
| ReplayLimits.RollbackExactIff | queue/queue.c:978-1043 | With a rollback to `target` under way and the logs before it right, for a handler that sends one message to a later epoch for each event: the epoch is completed to a straight run exactly if the rollback recalls no message of the object to itself, or no held event that it leaves lies in [target, t), with t the first one recalled |
| ReplayLimits.RollbackLosesSends | queue/queue.c:978-1043 | The same for a rollback standing or under way or both, each reaching further back or not: memory and logs become those of a straight run, and as many messages are recorded as events processed, exactly if no event that stays lies between the coming cut and the horizon of the coasting filter |
| ReplayLimits.StragglerLosesSends | queue/queue.c:706-726 | A straggler outside a rollback is safe, and leaves every processed event with its message recorded, exactly if the object has sent itself nothing since the straggler's time |
| ReplayLimits.UnsafeArrivalLosesSend | queue/queue.c:729-764 | An arrival in any state leaves every processed event with its message recorded exactly if it is safe; an event ahead of the clock and before the horizon of the coasting filter is coasted over and its message never sent |
| ReplayLimits.UnsafeCancellationLosesSends | queue/queue.c:932-975 | Cancelling an event, processed or not, in any state, leaves every processed event with its message recorded exactly if no event whose messages are not recorded comes to lie before the horizon of the coming rollbacks, those that recalled messages to itself call for included |
| ReplayLimits.SafeIsExact | queue/queue.c:729-764 | Safe is the exact condition: in every exact state, a rollback standing or under way or not, any one step followed by the rest of the epoch ends with the sends of a straight run over the processed events exactly if the step was safe, for a model whose messages to later epochs name their events |
| SelfSends.SelfSendLosesMessages | queue/queue.c:556-562 | The failing input: in the epoch from 10 to 100 an event at 20 sends its object one at 21, both tell another object, and a straggler comes in at 15; the rollback to 15 recalls the message and raises one to 21, and the epoch ends with 15 and 20 processed, no message sent and the one at 21 gone, every step up to the straggler being safe |
| SelfSends.ZeroDelayNeverEnds | queue/queue.c:556-562 | An object whose handler answers its one event with a message to itself at the same time rolls back forever: whatever steps its owner takes, one more is enabled and the event is still to be processed |
| SpeculationCode.SpeculativeObject.Receive | queue/queue.c:703-764 | The destination's part of an insertion, from another object or from itself, raises or deepens a standing rollback and inserts |
| SpeculationCode.SpeculativeObject.Annihilate | queue/queue.c:932-975 | An annihilation is one step of the model |
| SpeculationCode.SpeculativeObject.TakeRollback | queue/queue.c:437-442 | Taking a standing rollback resets the clock to the epoch's start and sets the coasting filter just below the rollback time |
| SpeculationCode.SpeculativeObject.LogRollback | queue/queue.c:978-1006 | The walk from the log's tail takes the entries sent at the target or later off the log, takes every message to the object itself out of whichever list it is in, calls for a rollback to the earliest of them, and leaves every other event |
| SpeculationCode.SpeculativeObject.RunRollback | speculation/speculation.c:115-142 | Memory, speculation queue, send log with the annihilation of the object's own messages, and events, undone in this order by loops, make one step of the model |
| SpeculationCode.SpeculativeObject.Schedule | stubs/stubs.c:58-100 | Under the coasting filter no message of an event is sent; otherwise each is refused, kept for a later epoch, or logged and, if it is for the object itself, delivered to it |
| SpeculationCode.SpeculativeObject.Complete | queue/queue.c:362-630 | The owner's loop of rollbacks, the ones they call for, and replay comes to the completed epoch of module ReplayLimits, with the events from outside all processed and the messages to itself as logged; from an exact state memory and sends are those of a straight run, and with a rollback standing or under way, for a handler as in RollbackExactIff, only from one |
| SlotList.Slot.Insert | queue/queue.c:239-269 | The scan and relinking on the heap keep the list doubly linked and insert the event behind all events with the same or an earlier time |
| SlotList.Slot.ExtractHead | queue/queue.c:592-604 | The first event leaves the slot, or null if there is none |
| SlotList.Slot.Append | queue/queue.c:634-639 | The retractable queue grows at its end and stays well linked |
| SlotList.Slot.Remove | queue/queue.c:957-971 | An event unlinked through its own links leaves a well linked list with all the others in order |
| SlotList.RestoreRetractable | queue/queue.c:1009-1043 | Moving node by node leaves the retractable queue empty and the slot with all the events re-inserted |
| SlotList.FallbackList.Append | queue/queue.c:281-295 | The fallback list grows at its end and stays well linked |
| SlotList.FallbackList.Check | queue/queue.c:331-360 | The list is split by the window's end in place: the events before it leave in their order, the others stay in theirs, and the links stay right; their insertion is CalendarCode.Queues.FallbackCheck |
| SlotList.DividedByLimit | queue/queue.c:331-360 | The two parts together are the whole list |
| CalendarQueue.InsertOrdered | queue/queue.c:304-322 | Insertion keeps a slot ordered by time and, among equal times, by insertion, if the newcomer belongs behind its equals |
| CalendarQueue.SlotsDiffer | queue/queue.c:298-299 | Two epochs less than a whole circle of slots apart have different slots |
| CalendarInvariant.PutInv | queue/queue.c:271-329 | Scheduling for a later epoch keeps every slot ordered and inside the window, the fallback lists beyond it, the extraction logs in order, and `pending_events` equal to the number held |
| CalendarInvariant.TakeInv | queue/queue.c:592-629 | An extraction keeps the same invariant |
| CalendarInvariant.AdvanceInv | queue/queue.c:137-168 | `update_timing` keeps it when the current slots are empty and every thread has passed its fallback list |
| CalendarInvariant.RefillInv | queue/queue.c:331-360 | Every turn of the refill loop of every thread, in any interleaving, keeps it |
| CalendarInvariant.PendingZero | queue/queue.c:160-167 | `pending_events` is 0 exactly if no slot and no fallback list holds an event |
| CalendarCode.Queues.UpdateTiming | queue/queue.c:137-168 | The assignments advance the calendar by one epoch and set `end` exactly if nothing is pending |
| CalendarCode.Queues.QueueInsert | queue/queue.c:271-329 | Refused with -1 below the window, deferred beyond it, otherwise inserted into the slot of its epoch; unless refused, its destination, and no other object, holds or awaits one event more, at its time |
| CalendarDelivery.PutDeliversTo | queue/queue.c:271-329 | An insertion adds its time to those that its destination has extracted, holds in its slots and awaits in the fallback lists, and changes them for no other object |
| CalendarCode.Queues.Extract | queue/queue.c:592-629 | The head of the object's current slot is returned and counted off |
| CalendarCode.Queues.FallbackCheck | queue/queue.c:331-360 | After the pass the thread's list holds its events at or beyond the window's end, in their order, each slot has got its share of the others one after the other, and nothing else has changed |
| CalendarCode.PlainInsert | queue/queue.c:304-322 | The calendar's insertion and the one proved of linked nodes agree, event by event |
| CalendarCode.PlainDivided | queue/queue.c:331-360 | So do the two parts into which the window's end divides a fallback list |
| EngineInvariant.NextInv | queue/queue.c:362-630 | Every step of every thread, scheduling, ticket, extraction, barrier, update or refill, keeps the invariant of threads, tickets and calendar together; which event a thread is handed is Delivery.HandlesLastExtracted |
| EngineRuns.ExtractedInOrder | queue/queue.c:362-630 | In every run, for any number of threads, objects, nodes and slots, every object extracts its events in the order of their times; equal times in the order of insertion, unless both were deferred by different threads |
| EngineRuns.NothingLeftBehind | queue/queue.c:137-168 | Whenever a thread runs `update_timing`, every current slot is empty and every object has been given to a thread in that epoch |
| EngineRuns.SlotTellsEpoch | queue/queue.c:285-302 | A queued event's epoch lies in the window of NUM_SLOTS epochs, equals its slot modulo NUM_SLOTS, and is the only such number in the window |
| EngineRuns.FallbackBeyondWindow | queue/queue.c:331-360 | While any thread extracts, every event in a fallback list lies at or beyond the window's end |
| EngineRuns.NobodyShares | queue/queue.c:389-403 | No object is ever with two threads, stealing included |
| EngineRuns.GivenOnce | queue/queue.c:389-403 | A thread that gets an object is the first to get it since the last `update_timing` |
| EngineRuns.NearestFirst | queue/queue.c:389-403 | A thread serves its own node first and steals from the following ones in turn: when it gets an object, all those of the nodes between have been given, and those of the same node with lower numbers |
| EngineRuns.NeverRefused | queue/queue.c:276-280 | What a handler schedules for a later epoch than its event's is never refused |
| EngineRuns.LookaheadIsEnough | queue/queue.c:276-280 | A send at least a lookahead ahead is one of these |
| EngineRuns.StopsWithNothingLeft | queue/queue.c:160-167 | When a thread stops, every event ever scheduled has been extracted and no list holds any; that threads do stop is Ending.StopsExactlyWhenEmpty |
| EngineRuns.NoDeadlock | queue/queue.c:362-630 | As long as some thread has not stopped, some thread can make a step |
| EngineRuns.RefillOrderDecides | queue/queue.c:331-360 | Two events for one object and one time that wait in the lists of different threads are delivered in the order in which the threads move them, whatever the order in which they were scheduled; this is the one case in which equals are not first in, first out |
| EngineRuns.EqualsMayOvertake | queue/queue.c:331-360 | Two events with one time that were deferred by different threads can be delivered in the opposite order of their insertion |
| Delivery.DeliveredOrHeld | queue/queue.c:271-630 | Over every run, the times scheduled for an object, read off the actions alone, are those that it has extracted, that its slots hold and that wait for it in the fallback lists, each as often |
| Delivery.AllDelivered | queue/queue.c:160-167 | When a thread stops, each object has extracted exactly the times that were scheduled for it |
| Delivery.HandlesLastExtracted | queue/queue.c:592-629 | In every reachable state the event that a thread handles is the one last extracted for its object |
| Delivery.HandledIsExtracted | queue/queue.c:592-629 | Over every run the events handled for an object, one each time a thread begins to handle one, are those extracted, in the same order: each is handled exactly once |
| Delivery.HandledAsScheduled | queue/queue.c:271-630 | So an object's events are handled in order, and when a thread stops exactly those scheduled for the object have been |
| Ending.EndsExactlyWhenEmpty | queue/queue.c:160-167 | In every reachable state `end` is set exactly if some `update_timing` of the run has found all slots and fallback lists empty |
| EngineBarrier.DepartMayLeave | queue/barrier-synchronization.c:14-32 | A thread that the barrier lets out finds every other thread inside or past this barrier: the guard of module Engine |
| EngineBarrier.WonIsElected | queue/queue.c:541-545 | The value that the barrier at the end of an epoch has returned to a thread is 1 exactly if the thread opened that round: the oracle of module Engine |
| EngineBarrier.BarrierRefinesGuard | queue/queue.c:541-554 | Every interleaving of the threads' steps with the single accesses of the real barrier is a run of module Engine, for the oracle that names the barrier's winners |
| EngineBarrier.WithRealBarrier | queue/queue.c:362-630 | So with the real barrier events are extracted in order, no object is with two threads, and a thread that stops leaves nothing behind |
| EngineProgress.GoCounts | queue/queue.c:362-630 | Every step of a thread ends the epoch, or makes a measure of the stages, fallback events, objects, current events and modes still to go smaller, or changes nothing because its thread waits in a barrier or has stopped |
| BarrierProgress.SomebodyCanGo | queue/barrier-synchronization.c:14-32 | As long as one thread has not stopped, some thread changes something within its next two turns, whatever the others spin meanwhile |
| BarrierProgress.EpochEnds | queue/queue.c:541-554 | In every endless run with the real barrier under a schedule of single accesses that is fair to the threads, once the set-up is over, the current epoch ends or all threads stop |
| BarrierProgress.EpochsPass | queue/queue.c:137-168 | So every epoch is reached unless all threads stop before |
| BarrierProgress.RoundsComplete | queue/barrier-synchronization.c:14-32 | And every call of the barrier returns: all threads leave any number of rounds unless all threads stop before |
| Ending.EndIsEmptyClose | queue/queue.c:160-167 | With the real barrier too, after any number of actions `end` is set exactly if one of them was an `update_timing` that found nothing |
| Ending.StopsExactlyWhenEmpty | queue/queue.c:160-167 | In every fair endless run with the real barrier, all threads have stopped from some action on exactly if some epoch closes with no event left |
| Ending.RunIsComplete | queue/queue.c:137-168 | And then each object has extracted exactly the times that the run has scheduled for it |
| Partition.PerThread | engine/engine.c:371-374 | The number of objects per thread, from the whole part of a float quotient and a corrector, is the least that reaches over all the objects, whatever way floats round |
| Partition.LastObjectLost | engine/engine.c:371-396 | Beyond the numbers that a float holds this fails: of 16777217 objects and one thread the last object is set up by nobody |
| Partition.Assign | engine/engine.c:371-444 | The threads take the objects in equal steps, the least that reach over all, and their ranges tile them; a thread leads to the next node exactly if its last object lies beyond the current node's share; so the node of a thread that sets up objects from `minID` > 0 on is that of the thread before plus one, or the quotient of `minID` - 1 and the ratio if that is less, and simply the quotient if no thread has more objects than a node's share; no node is out of range although both ratios are rounded, each object is set up on the node that dispatches it, and the nodes' ranges follow each other and tile the objects unless the hardware description names exactly one node |
| Partition.BeginsNext | engine/engine.c:435-441 | Rounding never matters there: the rounded quotient of an object and the rounded ratio passes a node's number exactly if the object lies at or beyond the end of that node's share |
| Partition.NodesBalanced | engine/engine.c:371-444 | If no thread has more objects than a node's share, each node before the last one used has its share of them, give or take less than one thread's (node 0 one more), and the last one no more than its share |
| Partition.NothingDispatched | queue/queue.c:389-403 | With a description of exactly one node every thread finds all nodes exhausted after two tickets, so no object is ever dispatched |
| LandingPads.BlockIsMaximal | MVM_MMAP_MULTIVERSIONING/src/_elf_parse.c:153-169 | Start and end delimit the longest block of adjacent slots around a slot |
| LandingPads.RunIsAvailable | MVM_MMAP_MULTIVERSIONING/src/_elf_parse.c:117-142 | True exactly if both slots exist, are free and are adjacent |
| LandingPads.Book | MVM_MMAP_MULTIVERSIONING/src/_elf_parse.c:171-227 | Reserves the first of the free reachable pads in the nearest block, and none exactly if there is no such pad |
| LandingPads.FinalizeDetours | MVM_MMAP_MULTIVERSIONING/src/_elf_parse.c:436-476 | All pads are pairwise disjoint, two adjacent slots wide and in reach of a signed 8-bit jump; where it stops, the instruction is too short or has no free pad in reach |
| Detours.LittleEndianRoundTrip | MVM_MMAP_MULTIVERSIONING/src/_elf_parse.c:568-592 | Decoding the written bytes gives back the number |
| Detours.Displacement32 | MVM_MMAP_MULTIVERSIONING/src/_elf_parse.c:613-628 | A four-byte displacement survives encoding exactly if it fits a signed 32-bit number |
| Detours.BuildPatch | MVM_MMAP_MULTIVERSIONING/src/_elf_parse.c:546-668 | The successive copies make the block, byte by byte of memory: the template's code up to the record's address and behind the call, the address and the call, the original bytes, the added instructions, the jump back |
| Detours.ApplyPatch | MVM_MMAP_MULTIVERSIONING/src/_elf_parse.c:693-713 | The instruction becomes a short jump and the pad a near jump, the rest of both no-operations |
| Detours.BuildPatches | MVM_MMAP_MULTIVERSIONING/src/_elf_parse.c:529-670 | After the loop every block holds all of this, with the bytes the code had before, and nothing else has changed |
| Detours.TemplateCopied | MVM_MMAP_MULTIVERSIONING/src/_elf_parse.c:567-599 | In a block that is done every byte of the preamble, outside the record's address and the call, is the template's |
| Detours.ApplyPatches | MVM_MMAP_MULTIVERSIONING/src/_elf_parse.c:673-729 | After the loop every instruction and pad is patched, every block is intact, and nothing outside instructions, pads and blocks differs from the start |
| Detours.JumpsToBlock | MVM_MMAP_MULTIVERSIONING/src/_elf_parse.c:606-629 | The decoded jumps lead from the instruction to its pad and from the pad to its block exactly if the distances fit 8 and 32 bits |
| Detours.JumpsFromBlock | MVM_MMAP_MULTIVERSIONING/src/_elf_parse.c:555-668 | The jump back leads behind the instruction, and the preamble's call to the patch function, exactly if the distances fit; the preamble passes the right record |
| Detours.DetourRuns | MVM_MMAP_MULTIVERSIONING/src/_elf_parse.c:529-729 | With the jumps in reach, control runs the template's code with the record's address and the call in it, the original bytes once and the added instructions, and arrives at the instruction's end |
| Detours.BookedPadsServe | MVM_MMAP_MULTIVERSIONING/src/_elf_parse.c:436-476 | The booked pads give the reach and the distance from each other that the detours need |
| Highway.SettleSorts | models/highway/application.c:49-81 | A sorted list followed by one more car becomes sorted |
| Highway.SettlePermutes | models/highway/application.c:49-81 | The settled list is a permutation of the original |
| Highway.LaneList.Traversal | models/highway/application.c:49-81 | The swap loop with its skip flag moves the last car in front of the cars due later |
| Highway.LaneList.Enter | models/highway/application.c:206-237 | A car that enters is counted, appended and settled |
| Highway.LaneList.Exit | models/highway/application.c:262-278 | The first car leaves; the abort is taken exactly on an empty list |
| Highway.LeavesOnTime | models/highway/application.c:262-278 | The residence times in a lane being those of its pending leaving events, the leaving event that is next finds the car due exactly then at the head |
| Highway.NoCarMissing | models/highway/application.c:206-337 | In every run that processes each object's events in order the empty-list abort is unreachable, and the load counters count the cars of the lists |
| Highway.CarsCirculate | models/highway/application.c:237-258 | The number of cars on their way to a lane never changes |
| Highway.CarsMoveOn | models/highway/application.c:199-318 | Over every run, the cars of a class that have come to a stretch at a time, and those still to come then, are those of the start and those that have entered the one neighbouring stretch before it, in their direction, with that due time |
| Highway.NextObject | models/highway/application.c:239-318 | The next stretch exists; to the left the road is one circle, of which this is the step back, and to the right each half of it is a circle of its own |
| Pcs.LowestFreeIsLowest | models/pcs/application.c:445-456 | The search finds the lowest clear bit, or none exactly if all are set |
| Pcs.CellState.Allocation | models/pcs/application.c:445-518 | The loop takes the lowest free channel into bitmap and list, or returns -1 |
| Pcs.CellState.Deallocation | models/pcs/application.c:398-431 | The walk removes the channel from list and bitmap, or reports the abort and changes nothing |
| Pcs.AllocateInv | models/pcs/application.c:151-161 | A positive counter always finds a channel, and counter, bitmap and list still agree |
| Pcs.StepInv | models/pcs/application.c:144-263 | Every event, new call, handoff, end or leave, keeps counter, bitmap, list and pending events in agreement |
| Pcs.ChannelsAgree | models/pcs/application.h:57-70 | In every run, in any order of events, a channel is busy in the bitmap exactly if it is in the list, once, and exactly if one pending event will release it; the counter counts the others |
| Pcs.NeverAborts | models/pcs/application.c:398-518 | Neither the allocation abort nor the deallocation abort is ever reached |
| Pcs.HandoffsArrive | models/pcs/application.c:123-235 | Over every run, the handoffs that have arrived at a cell and those still pending there are those that some cell has begun towards it, and each cell always has as many new calls to come as at the start |

## Left out

- Replay.ReplayIsExact: holds for runs whose arrivals and cancellations are safe when they happen, stragglers that make the object recall a message to itself not being so; ReplayLimits.SafeIsExact shows that no weaker condition on a step would do. Messages of the object to itself lie ahead of the events that send them; SelfSends.ZeroDelayNeverEnds is what happens without delay, and one sent into the past is not followed further.
- SpeculationCode.SpeculativeObject.Schedule: stubs.c:91-96 commits what is sent at time 0 to the calendar at once and does not log it; here it is a log entry, which no rollback cuts, because rollbacks go to times after 0.
- SpeculationCode.SpeculativeObject.Annihilate: queue.c:956 tells the list of an annihilated event by comparing the object's clock with its time, and unlinks it through its own links either way; only a counter and a lock depend on the answer.
- Arrivals, cancellations and messages to itself for time 0, to which `queue_extract` carries out no rollback (queue.c:444), are not steps of the speculative model.
- SpeculationCode.SpeculativeObject.RunRollback: is one step; what arrives or is cancelled between its parts has the same effect as before them.
- SlotList.FallbackList.Check: the moved nodes are collected in a list; their insertion, which the source does in the same loop, is CalendarCode.Queues.FallbackCheck on sequences.
- TwoSlotPages.Region.Execute: pages first stored to in the current epoch have no earlier version to return to, and accesses across a page boundary are not translated by the source, so stores stay inside a page.
- TwoSlotPages.Region.Store: the operand is translated; patches.c:408-430 leaves an access as it is when its operand is relative to the instruction pointer, has an index register or has no base register, although the other slot has been opened and published by then.
- DirtyGridCode.DirtyBuffer.Execute: refines flat memory under the condition of DirtyGrid.RunIsFlat; DirtyGrid.SecondRollback and DirtyGrid.SpareBitBites state what happens otherwise.
- EngineRuns.ExtractedInOrder: NUM_SLOTS is at least 2 (the source sets 2000), a set-up may schedule any time, and a handler into any later epoch than its event's.
- BarrierProgress.EpochsPass: no more events are scheduled by the set-up from some action on; handlers may schedule for ever.
- Detours.DetourRuns: the bytes of the preamble are a parameter; that a processor saves and restores its registers there is not modelled.
- The per-object stacks of the threads, AVOID_THROTTLING, and Time Warp correctness across objects; the model of speculation is about one object and every environment.
- `pending_events` of speculative builds, which the source does not conserve.
- The change of `pending_events` is one step with the list operation it accompanies; the source reads it only while every thread is between the two barriers.
- EngineInvariant.NextInv: the ticket counters are those of builds with NUMA_BALANCING; without it there is one counter for all the objects.
- The emptiness test before the slot's lock in `queue_extract` is one step with the test under the lock; only the object's holder removes events.
- A handler's send into its own epoch or an earlier one in builds without speculation.
- Page allocation failing, and the store-only backend that copies whole pages instead of cells.
- Saving and restoring the random seeds beside the memory.
- The CPU registers around a store in the assembly; only which granules are saved or marked is modelled.
- The contents written by `relocate_stolen_bytes`, which never rewrites anything because every record is marked not relative, and the five-byte direct detour, which `finalize_detours` never asks for.
- Memory protection, mapping, binding, pinning, reading the objdump text and the hardware description.
- The landing-pad booking of the other instrumentation packages, whose range test starts from the instruction's end.
- The times drawn by highway and pcs, among them the highway test that compares the right-hand load for a car that goes left; power and fading in pcs; HANDOFF_RECV, which nothing schedules.
- Flush.EpochHandsOn: for any calendar that keeps its invariant; the current slot of the calendar and the slot of the speculative object are two views, not one state.
- Partition.Assign: fewer than 2 to the 24th objects, threads and nodes, the numbers that a float holds exactly; Partition.LastObjectLost is what happens beyond.
- phold, the pcs topology, statistics and printing.
