# A verified model of the r1 shuffle server's core

r1 is a shuffle server. Clients reserve memory with tickets and send blocks. Blocks land in a buffer per
partition, are spilled asynchronously to local files or HDFS, and are read back from memory or from an
index/data file pair. This project models five connected parts of it in Dafny and proves what they keep.

* **Memory buffer and paging** (`Buffer`, `Paging`, `Reordering`, `PagingRuns`, `MemoryBuffer`): append, spill, clear, and
  the nested read loops with cursor, task filter and two-pass fallback. The loops refine one sequence specification, and
  a client that pages with its last block id receives every block exactly once. When spills and clears reorder the
  hashed flight map under the client, over whole runs, this stays so exactly under a stated condition on the new orders.
* **Memory accounting** (`Budget`, `Tickets`, `Ledger`, `LedgerLife`, `SpillSelection`): tickets, allocated/used and
  buffer sizes are separate ledgers changed in separate steps. All interleavings of require, ticket, send, evict,
  spill and flush steps are one state machine; allocation is exact in every state, every buffer's sizes are the
  lengths of the blocks it holds, and used memory covers those blocks, with equality exactly when the guard in
  `dec_used` never fires. From any state, a whole send gives back what it took.
* **Spill protocol** (`SpillMessage`, `SpillProtocol`, `SpillRuns`, `SpillTraces`, `SpillService`, `SpillFiles`):
  messages move through a parent queue, selection, a child queue, flush, and success, drop or retry. No block is lost,
  a block is dropped exactly for the reasons the code lists, every event finishes exactly once within fixed bounds,
  the pipeline never gets stuck, and the wrapping counters read as the true difference. A block counts as stored when
  its insert succeeded; `SpillFiles` runs the pipeline, the local store and the HDFS writers as one system and leads
  from there to the bytes in the files, for runs without a half-failed local append.
* **Persistent files** (`Records`, `FileFormat`, `Paths`, `LocalFile`, `IndexSemaphore`, `Hdfs...`): 40-byte index
  entries stay truthful over unboundedly many batches; on HDFS under any interleaving of writers and any partial
  failure of their appends. Over all interleavings of registrations, writers and purges, what a purge leaves behind is
  told from the events alone.
* **urpc framing** (`Wire`, `Utf8`, `Commands`, `Confinement`, `Encoding`, `FrameParser`, `Connection`,
  `FrameWriter`): stream reassembly, nested length-prefixed parsing and header lengths.

Objects that the program changes in place are classes (`MemoryBuffer`, `MemoryBudget`, `TicketManager`, `HybridStore`,
`LocalFileStore`, `SemaphoreWithIndex`, `HdfsStore`, `Cursor`, `Stream`, `Connection`); each method is tied to a function
on values, and what the program promises is proved about these functions and about all sequences of steps. `HybridStore`
and `HdfsStore` carry the run of their protocol that led to their state, so the statements about all runs hold of them.

Machine integers are bounded types and wrap explicitly where the code adds or casts (`WrapI32`, `WrapI64`, `AsU64`; the
build profiles disable overflow checks). Store outcomes, health answers, the order of a hashed map, the clock and the
bytes of a socket are parameters that the statements quantify over.

## What the code does that its texts do not say

* `MemoryStore::from` gives the ticket evictor a budget of its own, so memory of evicted tickets is never returned to the
  budget that granted it. `Ledger.StepKeepsAllocation` states the exact excess.
* `dec_used` clamps at zero. A flush that finishes before the send has moved its bytes makes used memory too large for
  good; `Ledger.EarlyFlushLeaks` gives such a run and `Ledger.LedgersAgree` says exactly when it happens.
* Flights live in a hashed map. A spill can move a batch in front of a client's cursor, and a cleared flight can take the
  cursor away: `Reordering.SpillMayHideBlock` gives an input, `Reordering.SpillExactIff` and `Reordering.ClearExactIff` the
  exact condition on the order.
* `select_storage_for_buffer` names a policy for an unhealthy local store and calls it disabled by default; no setting
  enables it. On a first attempt an unhealthy local store is chosen again even where a healthy one would not be:
  `SpillMessage.UnhealthyWarmIsKept`, and `SpillMessage.ColdSelectedIff` for all cases.
* `LocalFileStore` keeps its next offset when an append fails half-way. `LocalFile.FailureAlignment` says exactly when the
  offset is still the end of the file.
* A purge that overlaps a writer which is creating its slot leaves a cached offset that no purge finds until another
  writer of the partition starts: `HdfsPurgeRuns.OverlappingPurgeLeavesMeta`, and `HdfsPurgeRuns.LeftBehindIff` for all runs.
* A purge of an application without a client returns before it touches a lock, while an insert opens its lock before it
  looks for the client. So the locks of an application whose registration failed, and what is written or opened after its
  purge, stay until it is registered again and purged: `HdfsPurgeRuns.UnregisteredLockStays` and
  `HdfsPurgeRuns.RestartedOffsetStays` give runs, `HdfsPurgeRuns.UnregisteredOnlyGrows` and `HdfsPurgeRuns.PurgeWithoutClient`
  say it for all.
* `parse` is not confined to the frame that `check` measured: `Connections.EmptyFrameReadsOn`, and
  `Confinement.ParseConfinedIff` for all bytes.

## Model

| member | source | states |
|---|---|---|
| Bytes.I32RoundTrip | src/store/mod.rs:272-277 | decoding the big-endian two's complement bytes of any 32-bit integer returns it |
| Bytes.I64RoundTrip | src/store/mod.rs:272-277 | the same for 64-bit integers |
| Bytes.I32Bytes | src/store/mod.rs:273-274 | the four bytes are the base-256 digits of the value modulo 2^32, highest first |
| Bytes.I64Bytes | src/store/mod.rs:272-277 | the same for eight bytes |
| Buffer.AppendKeepsSized | src/store/mem/buffer.rs:334-343 | an append whose size is the sum of its block lengths keeps total = staging + flight = lengths held |
| Buffer.SpillKeepsValid | src/store/mem/buffer.rs:312-332 | a spill keeps the buffer well formed whatever order the flight map takes |
| Buffer.SpillKeepsSized | src/store/mem/buffer.rs:312-332 | a spill moves the staging size to the flight size and keeps all sizes exact |
| Buffer.ClearKeepsValid | src/store/mem/buffer.rs:116-125 | clearing a flight, present or not, keeps the buffer well formed |
| Buffer.ClearKeepsSized | src/store/mem/buffer.rs:116-125 | after clearing a present flight the sizes are exact if and only if the given size was the flight's |
| Buffer.FlatMember | src/store/mem/buffer.rs:127-226 | a reader's view holds exactly the blocks of staging and of all flights |
| Paging.VisitFound | src/store/mem/buffer.rs:149-196 | once the cursor is found, the visiting loop keeps the longest run of task-matching blocks whose running length stays below the limit |
| Paging.VisitUnfound | src/store/mem/buffer.rs:152-158 | before that it skips up to and including the first occurrence of the cursor, or everything |
| Paging.MatchingTasks | src/store/mem/buffer.rs:160-166 | a filter keeps exactly the blocks whose task attempt id, cast to unsigned, it contains, each as often as it occurs; no filter keeps everything |
| Paging.TakeBelowExact | src/store/mem/buffer.rs:159-171 | a page is a prefix of the matching blocks, each of its blocks starts below the batch length, and it ends early only once that length is reached |
| Paging.PageStretch | src/store/mem/buffer.rs:127-226 | a page is the matching part of a contiguous stretch and ends at the stretch's last block |
| Paging.PageContinues | src/store/mem/buffer.rs:127-226 | the next page continues exactly where the client stopped; it is empty only if everything was received |
| Paging.PagesFinish | src/store/mem/buffer.rs:127-226 | with no appends in between, paging ends with an empty page after all matching blocks |
| Paging.PagingInvariant | src/store/mem/buffer.rs:127-226 | over every mix of appends and page reads the client has received the matching part of a prefix |
| Paging.PagingExact | src/store/mem/buffer.rs:127-226 | every matching block exactly once and in order, over every mix of appends and pages, ending with an empty page |
| Reordering.PagesFromCursor | src/store/mem/buffer.rs:127-226 | whatever the buffer holds, reading on from a cursor appends exactly the matching blocks behind it |
| Reordering.ExactIffDelivered | src/store/mem/buffer.rs:127-226 | for any change of the buffer between two pages: reading on delivers every matching block exactly once if and only if the client already holds exactly those that stand up to its cursor |
| Reordering.CaughtIsInStep | src/store/mem/buffer.rs:127-226 | a client that has paged through appends alone is in that position |
| Reordering.ReorderInStepIff | src/store/mem/buffer.rs:142-196 | for any new order of the batches, some possibly gone: a client in that position stays in it if and only if every remaining batch with matching blocks stays on its side of the cursor's batch |
| Reordering.SpillExactIff | src/store/mem/buffer.rs:312-332 | for every spill, every order the map may take and every client that is in step: paging on is exact if and only if no batch with matching blocks changes its side of the cursor's batch |
| Reordering.ClearExactIff | src/store/mem/buffer.rs:116-125 | the same for a cleared flight; if the cursor's own batch is cleared, the read starts over and is exact if and only if no remaining batch with matching blocks had been read |
| Reordering.SpillInOrderKeepsFlat | src/store/mem/buffer.rs:312-332 | a spill whose batch comes last in the map order leaves the readers' view unchanged |
| Reordering.SpillMayHideBlock | src/store/mem/buffer.rs:312-332 | an input on which the condition fails: another map order hides a block from a client that pages |
| PagingRuns.ChangeUpIff | src/store/mem/buffer.rs:116-343 | a client in step stays in step through every append and page, and through a spill or clear exactly under that condition |
| PagingRuns.RunExactIff | src/store/mem/buffer.rs:116-343 | over every run of appends, spills, clears and pages: reading on would be exact at every moment if and only if no spill and no clear of the run moves a batch with matching blocks across the cursor |
| MemoryBuffers.Freeze | src/composed_bytes.rs:31-37 | freezing composed bytes concatenates the chunks in order |
| MemoryBuffers.MemoryBuffer.constructor | src/store/mem/buffer.rs:80-99 | a new buffer is empty |
| MemoryBuffers.MemoryBuffer.AppendBlocks | src/store/mem/buffer.rs:334-343 | the blocks are staged last, the sizes grow by the given size, and exact sizes stay exact |
| MemoryBuffers.MemoryBuffer.SpillStaging | src/store/mem/buffer.rs:312-332 | staging becomes a new flight under the next id; the returned length is that of the flight |
| MemoryBuffers.MemoryBuffer.ClearFlight | src/store/mem/buffer.rs:116-125 | that flight is gone, its size is taken off if it was there, staging is untouched |
| MemoryBuffers.MemoryBuffer.ScanBatch | src/store/mem/buffer.rs:150-196 | the nested loop with early break visits a batch as the one-block rule does |
| MemoryBuffers.MemoryBuffer.ScanFlights | src/store/mem/buffer.rs:149-171 | the same over all flights in map order |
| MemoryBuffers.MemoryBuffer.Read | src/store/mem/buffer.rs:127-202 | the read is the specified page, its length is the sum of the lengths, under a task filter every block belongs to a task of the filter, and the outer loop makes two passes exactly when the cursor is absent |
| MemoryBuffers.MemoryBuffer.Get | src/store/mem/buffer.rs:228-309 | `get` returns the specified page and its length, only blocks of the wanted tasks |
| MemoryBuffers.MemoryBuffer.GetV2 | src/store/mem/buffer.rs:127-226 | `get_v2` describes the same page field by field: one segment per block with its ids, lengths and checksum at the running sum of lengths, only of the wanted tasks, the chunks in order and the total |
| MemoryBuffers.PassResult | src/store/mem/buffer.rs:142-202 | one pass yields the page, or leaves the scan untouched when the cursor does not occur |
| SpillSelection.LargestIsHeaviest | src/store/memory.rs:134-188 | a set at least as large as everything left out weighs at least as much as any set with no more members |
| SpillSelection.GroupBySize | src/store/memory.rs:148-162 | buffers grouped by staging size, empty ones left out |
| SpillSelection.PickGroup | src/store/memory.rs:164-181 | picking inside one size group keeps the selection the best possible |
| SpillSelection.LookupSpillBuffers | src/store/memory.rs:134-188 | nothing is picked if usage is within the target; else every picked buffer is at least as large as every unpicked one, the pick reaches the required size or holds every non-empty buffer, and no set with fewer buffers reaches it |
| Budget.MemoryBudget.constructor | src/store/mem/budget.rs:21-28 | a new budget has nothing allocated or used |
| Budget.MemoryBudget.RequireAllocated | src/store/mem/budget.rs:40-57 | a request is granted exactly when it fits; a grant allocates it under a fresh id and keeps allocated + used within capacity |
| Budget.MemoryBudget.MoveAllocatedToUsed | src/store/mem/budget.rs:59-74 | the size, or what is allocated if that is less, moves; allocated + used is unchanged |
| Budget.MemoryBudget.Free | src/store/mem/budget.rs:84-94 | used falls by the size, with the clamp at zero; allocated is unchanged |
| Budget.MemoryBudget.FreeAllocated | src/store/mem/budget.rs:96-105 | allocated falls by the size, with the clamp at zero; used is unchanged |
| Budget.MemoryBudget.GrpcSend | src/grpc/service.rs:237-298 | inserts count up to the first failure, and settlement frees the whole ticket and uses what was inserted, for either sign of the difference |
| Budget.MemoryBudget.UrpcSend | src/urpc/command.rs:358-408 | all successful inserts count; settlement uses what was inserted and takes the larger of ticket and insertion off allocated |
| Budget.Settlement | src/grpc/service.rs:254-298 | gRPC gives allocated - ticket and used + inserted; uRPC takes the larger of the two off allocated and never raises the sum; the two agree if and only if inserted is at most the ticket |
| Tickets.TicketManager.constructor | src/store/mem/ticket.rs:72-87 | a new manager has no tickets |
| Tickets.TicketManager.Insert | src/store/mem/ticket.rs:127-138 | the ticket is stored and the answer says whether it replaced one |
| Tickets.TicketManager.Delete | src/store/mem/ticket.rs:95-104 | the size of the removed ticket or an error; exactly that ticket is gone |
| Tickets.TicketManager.RemoveAll | src/store/mem/ticket.rs:106-125 | the removal loop removes exactly the listed tickets and adds up their sizes |
| Tickets.TicketManager.DeleteByAppId | src/store/mem/ticket.rs:106-125 | the application's tickets in the copy that is walked are removed, and exactly what was still there is added up, whatever happened since the copy was made |
| Tickets.TicketManager.EvictRound | src/store/mem/ticket.rs:159-191 | the same for exactly the tickets whose age in seconds exceeds the timeout, so a ticket released in between is not freed twice |
| Ledger.StepKeepsAllocation | src/store/memory.rs:62-107 | in every step allocated equals live tickets plus granted-unticketed, released-unsettled and evicted-unfreed sizes, plus, with separate budgets, exactly the total evicted; capacity is respected and ids never repeat |
| Ledger.StepKeepsUsed | src/store/mem/budget.rs:59-93 | in every step used plus appended-not-moved bytes is the buffers' total plus pending decrements plus what the clamp has lost |
| Ledger.RunInvariant | src/store/mem/budget.rs:40-105 | both hold in every state of every purge-free run |
| Ledger.StepKeepsSized | src/store/mem/buffer.rs:116-125 | every step keeps each buffer's total equal to staging plus flight, both the lengths of the blocks there, and each spill message's size that of its flight |
| Ledger.ExactInsertIff | src/app.rs:597-604 | an insert carries the sum of its block lengths if and only if that sum is within the positive 32-bit range |
| Ledger.RunKeepsSized | src/store/mem/buffer.rs:312-343 | so does every purge-free interleaving of sends, spills and clears whose inserts carry the sum of their block lengths |
| Ledger.LostIffClamped | src/store/mem/budget.rs:84-94 | bytes are lost if and only if some `dec_used` found less than it was to subtract |
| Ledger.LedgersAgree | src/store/memory.rs:200-210 | in every purge-free run used plus unmoved bytes covers the buffers' totals and pending decrements, with equality if and only if the guard of `dec_used` never fires |
| Ledger.LedgersCountBlocks | src/store/memory.rs:200-210 | the same against the lengths of the blocks really held, in every purge-free run whose inserts did not wrap their 32-bit length sum |
| Ledger.OrderlyLedgersEqual | src/grpc/service.rs:254-298 | equality, with the totals and with the lengths of the blocks held, in every purge-free run in which each send's move precedes the clear of the flights holding its bytes |
| Ledger.TicketFate | src/store/mem/ticket.rs:95-191 | each ticket is taken by the send or by the evictor, never both, and freed once; later states only continue its life |
| Ledger.EarlyFlushLeaks | src/store/mem/budget.rs:84-94 | a run that ends with empty buffers, nothing pending and memory still counted as used |
| Ledger.SizeWraps | src/app.rs:597-604 | the size an insert carries: the sum of its lengths below 2^31, nearly 2^64 up to 2^32, and too small beyond |
| LedgerLife.WholeLifeGivesBack | src/grpc/service.rs:237-298 | from any state in which the request fits, require, record, release, insert, move, settle, spill, clear and free can run, and end with the memory, the ticket store and the pending work as before |
| LedgerLife.EvictionGivesBackIff | src/store/memory.rs:62-107 | from any such state an unused ticket can be evicted, and its memory comes back if and only if the evictor shares the budget or the ticket was empty |
| SpillMessage.ConfigurePersistent | src/store/hybrid.rs:111-153 | the warm and cold store of each of the six storage types, with thresholds and limits as given; all but memory-only have a persistent warm store |
| SpillMessage.SelectedStoreIsWritten | src/store/hybrid.rs:268-334 | whatever the health, sizes and retries, a selected type is LOCALFILE or HDFS and names the store that flush writes |
| SpillMessage.ColdSelectedIff | src/store/hybrid.rs:285-330 | with both stores and a healthy HDFS, HDFS is selected exactly on a retry, for a huge partition above its threshold, or above the cold threshold while the local store is healthy; an error exactly when a question has no answer |
| SpillMessage.OnlyStoreSelected | src/store/hybrid.rs:268-334 | with one store it is selected, whatever the sizes and retries, exactly when every question has an answer |
| SpillMessage.UnhealthyWarmIsKept | src/store/hybrid.rs:297-309 | on a first attempt above the cold threshold the local store is selected if and only if it is unhealthy |
| SpillMessage.AdvanceKeepsCalls | src/store/spill/mod.rs:91-162 | each step of a message keeps the count of calls tied to its phase and retry counter |
| SpillMessage.AdvanceKeepsRoute | src/store/spill/hierarchy_event_bus.rs:54-92 | a message sits on the child bus its candidate names, so dispatch never swallows it |
| SpillMessage.AdvanceFinishesOnce | src/store/hybrid.rs:177-182 | `finish_spill_event` has been called once if the message is over, else not at all |
| SpillMessage.CallBounds | src/store/spill/storage_flush_handler.rs:26-49 | at most 4 selections, 4 flush handlings, 3 writes; finished exactly once at the end |
| SpillMessage.AdvanceComesCloser | src/store/spill/storage_flush_handler.rs:26-49 | every step but those of the start strictly decreases a measure |
| SpillProtocol.StepKeepsMessages | src/store/spill/mod.rs:91-162 | every message keeps its counts and route in every step of the system |
| SpillProtocol.StepKeepsCounters | src/store/hybrid.rs:168-182 | each of the two counters equals its own started minus finished modulo 2^64 after every atomic update, although publish precedes start |
| SpillProtocol.StepKeepsQueues | src/event_bus.rs:103-193 | every queued message is in exactly one queue, once |
| SpillProtocol.StepKeepsPermits | src/event_bus.rs:103-161 | free permits plus running handlers are the limit of each bus |
| SpillProtocol.BusLimits | src/store/spill/hierarchy_event_bus.rs:35-49 | the limits are the local and the HDFS concurrency for the children and their sum for the parent |
| SpillRuns.FlushPersists | src/store/hybrid.rs:205-266 | a message that counts as written had its insert into a persistent store succeed with every block |
| SpillRuns.RunKeepsInv | src/store/hybrid.rs:205-421 | all of this, and the whereabouts of every block, in every state of every run |
| SpillRuns.RunGrows | src/store/hybrid.rs:205-266 | stored blocks stay stored |
| SpillRuns.ReaderSeesEveryBlock | src/store/hybrid.rs:205-266 | a block appended before a reader looks at memory is there, or by any later moment its insert into a persistent store has succeeded, unless its partition was purged or its event dropped |
| SpillFiles.StoredIsPerformed | src/store/hybrid.rs:246-263 | in every run of the pipeline with the local store and the HDFS writers, whatever counts as stored was in an insert that the named store performed with success |
| SpillFiles.StoredIsInFiles | src/store/localfile.rs:203-273 | such a block has an index entry pointing at its bytes in the local or HDFS files, in every run of the whole system whose local appends succeed or write nothing |
| SpillFiles.ReaderReadsEveryBlock | src/store/hybrid.rs:205-266 | so a reader of memory and then of the files gets every block, unless purged or dropped |
| SpillRuns.CountersReadExactly | src/store/hybrid.rs:423-428 | the signed reading of the counters is the exact difference while it fits 64 bits |
| SpillRuns.DrainIsBounded | src/store/spill/storage_flush_handler.rs:26-49 | message steps alone stop within a bound fixed by the state |
| SpillRuns.NeverStuck | src/event_bus.rs:103-161 | while some message is not done, some message step is possible |
| SpillRuns.StuckIsDrained | src/event_bus.rs:103-161 | when none is possible all queues are empty and both counters are zero |
| SpillRuns.EveryEventFinishes | src/store/spill/mod.rs:91-162 | from every reachable state every message is finished exactly once within the bound |
| SpillTraces.TraceHistory | src/store/spill/mod.rs:116-149 | in every run the phase of a message tells its history: while it is under way its retry counter is the number of its failed inserts, and it was given up exactly if it is being dropped or was dropped |
| SpillTraces.DroppedForAReason | src/store/spill/mod.rs:116-149 | in every run a block is dropped only if a message carrying it met a selection without an answer, a flush whose app was gone, an insert that failed with one of the five terminal errors, or a flush after three failed inserts |
| SpillTraces.GivenUpIsDropped | src/store/spill/mod.rs:91-125 | and every message that met one of these is being dropped or has all its blocks dropped |
| SpillService.FlushOutcome | src/store/spill/storage_flush_handler.rs:26-49 | an attempted flush whose insert fails goes back with one retry more unless the error is one of the five terminal ones, which drop it; a success writes every block to the candidate store; a gone app or a fourth attempt drops without an insert |
| SpillService.HybridStore.constructor | src/store/hybrid.rs:104-166 | the initial state of the protocol, with the permits of the three buses and an empty run |
| SpillService.HybridStore.Sound | src/store/hybrid.rs:168-421 | after any calls in any order the object satisfies all invariants of the protocol |
| SpillService.HybridStore.NothingIsLost | src/store/hybrid.rs:205-266 | every block handed to the object is in memory, stored, or in a dropped event, unless its partition was purged |
| SpillService.HybridStore.DroppedForAReason | src/store/spill/mod.rs:116-149 | after any calls, a dropped block was carried by a message that was given up for one of those reasons |
| SpillService.HybridStore.QuietIsDrained | src/store/spill/mod.rs:91-162 | when no message can move, every event was started and finished exactly once and both counters are zero |
| SpillService.HybridStore.GetInFlightSize | src/store/hybrid.rs:365-367 | the bytes started minus the bytes finished, modulo 2^64 |
| SpillService.HybridStore.GetSpillEventNum | src/store/hybrid.rs:361-363 | the events started minus the events finished, modulo 2^64 |
| SpillService.HybridStore.Insert | src/store/memory.rs:265-275 | the append step: the blocks are staged last in their partition, sizes grow, other partitions are untouched |
| SpillService.HybridStore.ForgetBuffer | src/store/memory.rs:304-330 | the buffer is gone |
| SpillService.HybridStore.StartSpillEvent | src/store/hybrid.rs:168-175 | the two start steps, in order: one event more, then its bytes |
| SpillService.HybridStore.FinishSpillEvent | src/store/hybrid.rs:177-182 | the two finish steps, in order: one event less, then its bytes, and the permit is free; this was the event's only finish |
| SpillService.HybridStore.Publish | src/store/hybrid.rs:369-374 | the message is appended to the parent queue |
| SpillService.HybridStore.BufferSpillImpl | src/store/hybrid.rs:393-421 | spill, publish and only then start, as steps of the protocol: staging becomes the next flight, the message carries its id, size and blocks and is last in the parent queue |
| SpillService.HybridStore.ReleaseMemoryBuffer | src/store/hybrid.rs:376-386 | the flight goes and its size with it if the buffer still holds it; all else stays |
| SpillService.HybridStore.HandleFailureWhateverError | src/store/spill/mod.rs:91-114 | drop then finish, once; the message's blocks count as dropped, its flight is released if and only if the app is still known, and the permit is free |
| SpillService.HybridStore.HandleSuccess | src/store/spill/mod.rs:151-162 | release then finish, once; every released block was stored before, its flight is gone and the permit is free |
| SpillService.HybridStore.SelectOnEvent | src/store/spill/storage_select_handler.rs:29-43 | selection writes the candidate or drops the event, as steps of the protocol |
| SpillService.HybridStore.FlushStorageForBuffer | src/store/hybrid.rs:205-266 | one write to the chosen store with any outcome |
| SpillService.HybridStore.FlushOnce | src/store/hybrid.rs:205-266 | the flush step of the protocol, for every outcome of the insert |
| SpillService.HybridStore.FlushOnEvent | src/store/spill/storage_flush_handler.rs:26-49 | success, drop or retry, as steps of the protocol; an attempted insert that fails counts one retry and is sent back exactly if the error is none of the five terminal ones; success and drop finish the event once |
| SpillService.HybridStore.ReceiveNext | src/event_bus.rs:103-110 | the oldest message is taken off the queue, unless the loop still waits with an earlier one or the queue is empty |
| SpillService.HybridStore.AcquirePermit | src/event_bus.rs:111-118 | a received message is handled if a permit is free and waits otherwise |
| SpillService.HybridStore.RunHook | src/store/spill/hierarchy_event_bus.rs:54-92 | the hook dispatches to the candidate's child bus, retries through the parent, or ends the message; nothing is handed to nobody |
| FileFormat.EntryRoundTrip | src/cli_tool.rs:26-31 | reading the 40 bytes of an index entry back returns the entry |
| FileFormat.DecodeIndexBytes | src/cli_tool.rs:22-34 | decoding a written index returns its entries, whatever follows |
| FileFormat.BatchPointsAt | src/store/mod.rs:252-290 | each entry of a batch laid out at the end of a file has its block's two lengths, checksum, block id and task id, and points at exactly its bytes |
| FileFormat.EntriesWrap | src/store/mod.rs:272-281 | wrapping the offset at every addition gives the same entries as the exact sum |
| FileFormat.LayoutConcat | src/store/mod.rs:252-290 | laying a second batch out where the first ended gives the layout of both together |
| FileFormat.IndexRecords | src/store/mod.rs:272-277 | byte by byte, the i-th 40 bytes of a batch's index hold the offset at 0, the two lengths at 8 and 12, the checksum at 16, the block id at 24 and the task id at 32 |
| FileFormat.GenerateShuffleFileFormat | src/store/mod.rs:252-290 | the loop produces those 40-byte records, the data chunks, the next offset and the total of the layout |
| FileFormat.SortIsStable | src/store/localfile.rs:469-470 | ordering by task id gives a sorted permutation that keeps each task's blocks in their old order |
| FileFormat.StableIsUnique | src/store/localfile.rs:469-470 | there is only one such arrangement, so any stable sort returns it |
| Records.DecodePrefix | src/cli_tool.rs:22-34 | a torn record file decodes to the first records |
| LocalFile.CleanRunHolds | src/store/localfile.rs:203-273 | after every sequence of inserts that succeed or leave the data file alone, each partition's files are the layout of its stored blocks |
| LocalFile.LocalFilesReadBack | src/store/localfile.rs:292-402 | the index decodes to one entry per block, each entry's read returns the block's bytes, the entries tile the data file, and the recorded offset is its length |
| LocalFile.IndexReadBack | src/store/localfile.rs:351-402 | after every such sequence `get_index` answers for a stored partition with bytes that decode to one entry per stored block, each pointing at its block in the data file, and with the data file's length |
| LocalFile.KnownPartition | src/store/localfile.rs:211-226 | a partition is known exactly when an insert of it has found a disk |
| LocalFile.UnknownReadsEmpty | src/store/localfile.rs:359-368 | until then both reads answer with nothing and the length 0 |
| LocalFile.BatchOrder | src/store/localfile.rs:460-474 | a batch is stored stably ordered by task id |
| LocalFile.StoredIsHanded | src/store/localfile.rs:460-474 | the stored blocks are as a multiset those handed in by the successful batches |
| LocalFile.SuccessIsStored | src/store/localfile.rs:203-273 | every block of a successful batch is among the blocks the files hold |
| LocalFile.SumRecorded | src/cli_tool.rs:21-34 | the recorded lengths added as `usize` |
| LocalFile.CompareChecksums | src/cli_tool.rs:45-61 | exactly the entries with another checksum are reported, and out-of-range entries stop the tool |
| LocalFile.CheckFiles | src/cli_tool.rs:15-64 | the tool reports a length mismatch exactly when the recorded lengths differ from the data, else the bad checksums |
| LocalFile.ToolAcceptsCleanFiles | src/cli_tool.rs:15-64 | the tool finds nothing wrong with files of such a sequence whose blocks carry true checksums |
| LocalFile.FailureAlignment | src/store/localfile.rs:249-270 | after a failing insert the next offset is the end of the data file if and only if no disk was found, a check refused, or no byte reached the file |
| LocalFile.LocalFileStore.constructor | src/store/localfile.rs:87-100 | an empty store |
| LocalFile.LocalFileStore.DataInsert | src/store/localfile.rs:203-273 | the whole new state for every outcome of the checks and appends |
| LocalFile.LocalFileStore.InsertUnderLock | src/store/localfile.rs:211-273 | the same for a given pair of paths |
| LocalFile.LocalFileStore.WritePair | src/store/localfile.rs:249-270 | data, then index, then the next offset; the first failure stops |
| LocalFile.LocalFileStore.Insert | src/store/localfile.rs:282-290 | an empty request changes nothing, others keep the caller's order |
| LocalFile.LocalFileStore.SpillInsert | src/store/localfile.rs:460-474 | the flattened batches, stably ordered, are inserted |
| LocalFile.LocalFileStore.Get | src/store/localfile.rs:292-349 | the requested bytes exactly when the range lies in the data file, an empty answer for an empty range or unknown partition, an error for a corrupted disk or a short read |
| LocalFile.LocalFileStore.GetIndex | src/store/localfile.rs:351-402 | the index file and the recorded data length, the empty answer and 0 for an unknown partition, an error for a corrupted disk or a missing file |
| Paths.LockKeyInjective | src/store/hdfs.rs:133-143 | no two partitions share a lock key, whatever their application ids |
| Paths.SlotInjective | src/store/hdfs.rs:177-180 | the slot name determines lock key and index |
| Paths.FilesInjective | src/store/hdfs.rs:237-238 | file names determine slot, retry count and kind |
| Paths.AppDirMatches | src/store/hdfs.rs:124-126 | an application directory is a prefix of exactly that application's lock keys, for slash-free ids |
| Paths.ShuffleDirMatches | src/store/hdfs.rs:129-131 | the slash-terminated shuffle directory separates all ids, such as 1 and 10 |
| Paths.LocalFilesInjective | src/store/localfile.rs:151-162 | no two partitions share a local file |
| Paths.HdfsPathFormat | src/store/hdfs.rs:133-143 | lock keys, slot names and file names spelled out for any ids |
| Paths.LocalPathFormat | src/store/localfile.rs:151-162 | local file names spelled out for any ids |
| IndexSemaphore.PopFindsIndex | src/semaphore_with_index.rs:44-47 | a holder of a permit never finds the deque empty |
| IndexSemaphore.StepKeepsInv | src/semaphore_with_index.rs:24-56 | each of the four steps keeps permits counted and indexes partitioned |
| IndexSemaphore.EveryRunKeepsInv | src/semaphore_with_index.rs:24-56 | so does every interleaving |
| IndexSemaphore.IndexesStayApart | src/semaphore_with_index.rs:24-56 | in every interleaving `unwrap` never panics, held indexes are distinct, and free plus held indexes are exactly 0..permits |
| IndexSemaphore.SemaphoreWithIndex.constructor | src/semaphore_with_index.rs:32-42 | all permits and indexes are free |
| IndexSemaphore.SemaphoreWithIndex.Acquire | src/semaphore_with_index.rs:44-56 | with a free permit the new holder takes the first free index, which differs from every held one; without one nothing changes and the task waits |
| IndexSemaphore.SemaphoreWithIndex.PushFront | src/semaphore_with_index.rs:24-28 | dropping pushes the index to the front |
| IndexSemaphore.SemaphoreWithIndex.ReturnPermit | src/semaphore_with_index.rs:12-16 | then the inner permit is returned |
| HdfsSeats.StepKeepsSeats | src/store/hdfs.rs:163-175 | in every step a writer's phase agrees with its place in its partition's lock |
| HdfsSeats.SeatsExclude | src/store/hdfs.rs:163-180 | no two writers ever work on the same slot |
| HdfsProtocol.NoWayOut | src/store/hdfs.rs:237-293 | from its offset on a writer can only append data, append index and record the new offset, in this order, and after a failed append only move its slot on |
| HdfsInvariant.DataAppended | src/store/hdfs.rs:296-313 | a full data append leaves the batch pending, a partial one leaves the pair sound |
| HdfsInvariant.IndexAppended | src/store/hdfs.rs:314-328 | a full index append makes the pair whole, a partial one leaves it sound |
| HdfsSteps.TouchedPairIsFresh | src/store/hdfs.rs:199-228 | a touch only ever meets a pair without data, so it never truncates any |
| HdfsSteps.StoreOffsetKeeps | src/store/hdfs.rs:282-290 | after a complete write the cached length is the data file's length |
| HdfsSteps.RotateKeeps | src/store/hdfs.rs:252-281 | after a failure the slot names a fresh pair with length zero |
| HdfsRuns.StepKeepsContent | src/store/hdfs.rs:145-294 | every step of every writer keeps all pairs sound and every idle slot exact |
| HdfsRuns.PairsOnlyGrow | src/store/hdfs.rs:145-329 | over every continuation files are only appended to, and a pair that saw a failure never changes again |
| HdfsRuns.FailedNeverAppended | src/store/hdfs.rs:252-281 | no append is ever aimed at a pair that saw a failure |
| HdfsRuns.HdfsIndexesTruthful | src/store/hdfs.rs:145-329 | under any interleaving and any partial failures, every complete entry of every index points at exactly the bytes of a block handed in for that partition |
| HdfsRuns.AcknowledgedIsReadable | src/store/hdfs.rs:282-294 | once a writer has returned successfully each of its blocks has an entry pointing at its bytes |
| HdfsNames.NamesInjective | src/store/hdfs.rs:133-143 | lock keys, slot names and file names are all injective |
| HdfsPurge.PurgeIsExact | src/store/hdfs.rs:355-409 | where every cached offset has a live lock, a purge removes exactly the locks and cached offsets of the application or shuffle, deletes exactly its files if a lock matched and deletion works, and keeps the others unchanged |
| HdfsPurgeRuns.RunKeepsSeats | src/store/hdfs.rs:145-445 | over all interleavings of registrations, writers and purges every writer's phase agrees with its place in the lock it holds, removed or not, and every cached offset has an index below the concurrency |
| HdfsPurgeRuns.RunTells | src/store/hdfs.rs:163-186 | an application has a client exactly when it was registered with no purge of the whole application since; a partition has a lock exactly when a writer of it started and no purge of it came later while the application was registered; a writer has lost its lock exactly when such a purge came after its start |
| HdfsPurgeRuns.LeftBehindIff | src/store/hdfs.rs:230-401 | in every such run an offset is cached without a lock if and only if such a purge came between some writer's start and the creation of its slot, with no start on that partition since the purge |
| HdfsPurgeRuns.PurgeWithoutClient | src/store/hdfs.rs:358-378 | after every such run a purge of an application that is not registered changes nothing |
| HdfsClients.NeverRegisteredLeavesNoFiles | src/store/hdfs.rs:182-186 | in every such run an application that was never registered has no cached offset and no file, and every insert of it that returned has failed |
| HdfsPurgeRuns.PurgeCompleteIff | src/store/hdfs.rs:355-409 | of a registered one it takes exactly the matching locks, leaves other partitions alone, and takes every matching offset if and only if no matching partition has such an overlap in the past |
| HdfsPurgeRuns.QuietRunIsOwned | src/store/hdfs.rs:355-409 | after every run whose purges, any number of them, overlap no running writer of what they take, every cached offset has a live lock, so the next purge that finds a client is exact |
| HdfsPurgeRuns.UnregisteredOnlyGrows | src/store/hdfs.rs:163-186 | until an unregistered application is registered again, none of its locks and cached offsets goes, whatever happens |
| HdfsPurgeRuns.UnregisteredLockStays | src/store/hdfs.rs:182-186 | for every partition a run of one insert without registration, which returns an error and leaves a lock that is still there after any purges |
| HdfsPurgeRuns.RestartedOffsetStays | src/store/hdfs.rs:358-378 | a run in which a left-behind offset gets a lock again by a next writer and both are still there after any further purges |
| HdfsPurgeRuns.OverlappingPurgeLeavesMeta | src/store/hdfs.rs:230-231 | for every partition and concurrency such an overlapping run exists, and its offset is still there after any further purges |
| HdfsPurge.PurgeRenders | src/store/hdfs.rs:380-401 | purging by string prefix is purging by id, for slash-free application ids |
| HdfsPurge.FilesPurged | src/store/hdfs.rs:403-406 | deleting the directory deletes exactly the purged partitions' files |
| HdfsStores.HdfsStore.constructor | src/store/hdfs.rs:103-122 | an empty, healthy store |
| HdfsStores.HdfsStore.CreateSlot | src/store/hdfs.rs:188-232 | directory, data file, index file, then the meta of length zero over two empty files; an error at any point leaves the metas as they were |
| HdfsStores.HdfsStore.WriteDataAndIndex | src/store/hdfs.rs:296-329 | data then index, each with any partial outcome, as steps of the protocol |
| HdfsStores.HdfsStore.MoveOn | src/store/hdfs.rs:252-281 | after a failed append the slot's meta has length zero and one retry more, the others are unchanged, and the new pair is empty if both touches succeed; a slot without meta is left alone |
| HdfsStores.HdfsStore.WriteBatch | src/store/hdfs.rs:237-293 | success exactly when both appends succeed, with the new length recorded; a failure leaves length zero and one retry more; out of memory marks the store unhealthy |
| HdfsStores.HdfsStore.InsertUnderLock | src/store/hdfs.rs:182-293 | success exactly when the client is known, the slot exists or is created, and both appends succeed |
| HdfsStores.HdfsStore.Proceed | src/store/hdfs.rs:163-294 | a writer at its lock waits exactly while no permit is free, and otherwise runs to its answer as one writer of the protocol |
| HdfsStores.HdfsStore.DataInsert | src/store/hdfs.rs:145-294 | an unhealthy store refuses; otherwise the call is one writer of the protocol, answered or waiting at the lock |
| HdfsStores.HdfsStore.SpillInsert | src/store/hdfs.rs:451-465 | the same for the flattened batches, stably ordered |
| HdfsStores.HdfsStore.RegisterApp | src/store/hdfs.rs:426-445 | an error without a remote configuration or when no client can be made; otherwise the application's client is known afterwards |
| HdfsStores.HdfsStore.Purge | src/store/hdfs.rs:355-409 | the string-keyed maps and files after a purge are those of the id-level purge; the returned size is the sum of the removed lengths, or an error exactly when a directory had to be deleted and could not be |
| HdfsStores.PurgeRestartsSound | src/store/hdfs.rs:355-409 | the locks that remain after a purge are sound, so inserts can go on |
| HdfsStores.NamedFilesTruthful | src/store/hdfs.rs:237-291 | read by file name: every complete entry of a named index points at its block in the data file of the same name |
| HdfsStores.NamedAcknowledged | src/store/hdfs.rs:282-294 | and once a writer was answered with success each of its blocks has an entry in some named index that points at its bytes |
| Wire.StableString | src/urpc/frame.rs:477-498 | a string that was read does not depend on the bytes after it |
| Wire.StableBytes | src/urpc/frame.rs:431-451 | nor does a byte array |
| Utf8.TextIsValid | src/urpc/frame.rs:477-498 | the UTF-8 encoding of any sequence of Unicode scalar values is accepted as a string |
| Utf8.ValidIsText | src/urpc/frame.rs:477-498 | and nothing else is: accepted bytes are the encoding of some scalar values |
| Wire.PeelString | src/urpc/frame.rs:477-498 | reading a written string returns it and stops after it |
| Wire.PeelBytes | src/urpc/frame.rs:431-451 | reading a written byte array returns it, an empty one as absent |
| Commands.ParseIsStable | src/urpc/frame.rs:380-428 | for all bytes a successful parse is unchanged by whatever follows |
| Commands.CheckIsStable | src/urpc/frame.rs:228-243 | for all bytes a complete frame stays that frame when bytes are added, and incomplete is the only failure |
| Commands.CommandByType | src/urpc/frame.rs:43-55 | type bytes 0, 3, 4, 5 and 6 pick their parsers, 14 to 16 panic, all others are refused |
| Commands.HeaderPlaces | src/urpc/frame.rs:380-392 | message length, type and body length at bytes 0, 4 and 5 |
| Commands.StringPlace | src/urpc/frame.rs:477-498 | a string that was read is the bytes behind its four-byte length |
| Commands.LocalDataPlaces | src/urpc/frame.rs:245-271 | each field of a local data request stands at its fixed distance from the request's start or the application id's end |
| Commands.LocalIndexPlaces | src/urpc/frame.rs:335-354 | the same for a local index request |
| Commands.MemoryDataPlaces | src/urpc/frame.rs:356-378 | the same for a memory data request |
| Commands.SendPlaces | src/urpc/frame.rs:273-333 | the same for a send request up to its ticket, and the timestamp ends it |
| Commands.BlockPlaces | src/urpc/frame.rs:289-317 | the same for a block |
| Encoding.SendRoundTrip | src/urpc/frame.rs:273-333 | for any partitions, blocks and skipped server records, parsing the encoding returns the command and consumes exactly its bytes |
| Encoding.RequestRoundTrip | src/urpc/frame.rs:245-378 | the same for the three other requests and the plain response |
| Encoding.InsertAllKeepsLast | src/urpc/frame.rs:321 | the map holds the ids that were sent, each with the blocks of its last partition |
| Encoding.DistinctPartitionsArrive | src/urpc/frame.rs:281-322 | with distinct ids every partition arrives with exactly its blocks and nothing else does |
| FrameParser.Cursor.constructor | src/urpc/connection.rs:28 | a cursor at the start |
| FrameParser.Cursor.ReadI32 | src/urpc/frame.rs:461-466 | value and new position, an error when nothing is left, a panic when too little is |
| FrameParser.Cursor.ReadI64 | src/urpc/frame.rs:453-459 | the same for 64 bits |
| FrameParser.Cursor.GetU8 | src/urpc/frame.rs:500-505 | the next byte or an error |
| FrameParser.Cursor.ReadBytes | src/urpc/frame.rs:431-451 | absent for a length of zero or less, an error if it does not fit |
| FrameParser.Cursor.ReadString | src/urpc/frame.rs:477-498 | empty for zero, an error for a negative or too long length or for invalid UTF-8 |
| FrameParser.Cursor.ParseLocalData | src/urpc/frame.rs:245-271 | the fields in order, or the first error |
| FrameParser.Cursor.ParseLocalIndex | src/urpc/frame.rs:335-354 | the fields in order, or the first error |
| FrameParser.Cursor.ParseMemoryData | src/urpc/frame.rs:356-378 | the fields in order, or the first error |
| FrameParser.Cursor.ParseRpcResponse | src/urpc/frame.rs:413-422 | the fields in order, or the first error |
| FrameParser.Cursor.SkipServers | src/urpc/frame.rs:299-305 | the loop consumes that many records |
| FrameParser.Cursor.ParseBlock | src/urpc/frame.rs:289-317 | one block with its skipped fields |
| FrameParser.Cursor.ParseBlocks | src/urpc/frame.rs:288-319 | the loop over the blocks of a partition |
| FrameParser.Cursor.ParsePartitions | src/urpc/frame.rs:283-322 | the loop fills the map, a later partition replacing an earlier one with the same id |
| FrameParser.Cursor.ParseSend | src/urpc/frame.rs:273-333 | the whole send command, or the first error |
| FrameParser.Cursor.ParseFrame | src/urpc/frame.rs:380-428 | header, length and type checks, then the command |
| FrameParser.Cursor.CheckFrame | src/urpc/frame.rs:228-243 | the position after the frame, or incomplete |
| Connections.NextFrameArrives | src/urpc/connection.rs:53-78 | however the bytes are cut into reads, the next frame comes out and only its bytes are consumed |
| Connections.StreamEnds | src/urpc/connection.rs:66-76 | what never becomes a frame ends the stream, cleanly only if it is empty |
| Connections.StreamIsReassembled | src/urpc/connection.rs:27-78 | for every sequence of well-formed frames and every split into reads exactly those frames come out in order, then the end |
| Connections.TruncatedStreamIsAbnormal | src/urpc/connection.rs:66-76 | a truncated last frame ends in STREAM_ABNORMAL after the whole ones |
| Connections.CleanEnd | src/urpc/connection.rs:66-76 | without one the end is clean |
| Connections.SendIsWellFormed | src/urpc/frame.rs:273-333 | every encoded send request is one well-formed frame |
| Connections.RequestIsWellFormed | src/urpc/frame.rs:245-378 | so is every other encoded request |
| Confinement.ParseConfinedIff | src/urpc/frame.rs:380-428 | for all bytes that start with a complete frame, the parser takes a command and stays within the frame if and only if the frame's own bytes, cut at the declared length, parse; and then the result is the same |
| Confinement.MessageAgrees | src/urpc/frame.rs:245-422 | for every message type and all bytes, a walk over the declared lengths and counts finds the end of the message exactly when the parser reads one, at the same place |
| Confinement.ConfinedByLengths | src/urpc/frame.rs:245-422 | so the parser stays inside its frame exactly when the lengths and counts that the fields declare fit the content length |
| Connections.EmptyFrameReadsOn | src/urpc/frame.rs:380-428 | an input outside that condition: an empty frame makes the parser take its fields from the bytes behind it |
| Connections.Connection.constructor | src/urpc/connection.rs:20-25 | an empty buffer |
| Connections.Connection.ParseOne | src/urpc/connection.rs:27-45 | a whole frame is cut off the buffer, or the buffer stays |
| Connections.Connection.ReadNext | src/urpc/connection.rs:53-78 | the loop of parsing and reading |
| FrameWriter.HeaderCoversContent | src/urpc/frame.rs:85-226 | the two header lengths add up to exactly the bytes after the header if and only if these fit a signed 32-bit length |
| FrameWriter.ResponseIsOneFrame | src/urpc/frame.rs:85-226 | so `check` takes exactly the response off any stream |
| FrameWriter.PlainResponseRoundTrip | src/urpc/frame.rs:204-223 | the plain response as written is parsed back |
| FrameWriter.ResponseTypeByte | src/urpc/frame.rs:43-55 | the fifth byte is 15 for local data, 14 for a local index, 16 for memory data and 0 for a plain response |
| FrameWriter.ReplyRoundTrip | src/urpc/frame.rs:85-226 | a client that reads any response from its header on gets the type, request id, status, message, data file length, segments and body, and stops at its last byte |
| FrameWriter.SegmentPlaces | src/urpc/frame.rs:187-196 | the 36 bytes of a segment, field by field |
| FrameWriter.SegmentsReadBack | src/urpc/frame.rs:187-201 | a reader of a memory response gets the segments back, and what follows them is the body |
| FrameWriter.SegmentsSliceBody | src/urpc/frame.rs:187-201 | a segment's offset arrives exactly when it fits 32 bits, and then slicing the body at the received segment yields that block's bytes, for any number of segments and any body |
| FrameWriter.Stream.WriteSegments | src/urpc/frame.rs:187-196 | the count and the 36-byte records, in order |
| FrameWriter.Stream.WriteChunks | src/urpc/frame.rs:198-201 | the chunks, in order |
| FrameWriter.Stream.WriteContent | src/urpc/frame.rs:105-223 | status, message, the extra fields and the body of each response |
| FrameWriter.Stream.WriteResponse | src/urpc/frame.rs:85-226 | header and content of each response, with the type byte of its kind |

## Left out

- SpillFiles.StoredIsInFiles: needs that no local append fails half-way, that block lengths are true and files stay below 2^63 bytes, and the system has no purge of files; after a half-failed local append later entries are off by what was written, as `LocalFile.FailureAlignment` says.
- Ledger.RunInvariant: the memory store's purge, which takes a buffer's total off used, is not a step of the ledgers.
- HdfsPurgeRuns.LeftBehindIff: the walk of a purge over the locks is one step here; a writer that starts between two removals of the same purge is not modelled, nor what two writers on one slot name, one with the removed lock and one with its successor, write into each other's files.
- HdfsStores.HdfsStore.Purge: the directory is deleted completely or not at all; a partly deleted directory is not modelled.
- FrameWriter.HeaderCoversContent: sizes of 2^63 bytes and more are excluded, which no memory holds.
- FrameParser.Cursor.ParseBlocks: a huge positive block count asks for a huge capacity in the code; the allocation itself is not modelled.
- Tokio tasks, sockets, gRPC and HTTP plumbing, tracing, metrics and configuration parsing: no state that the properties need.
- The local and HDFS clients: files are byte strings and an append is complete or stops after any prefix.
- Watermark ratios in floating point: a watermark spill is an arbitrary choice of buffers in the protocol, and `SpillSelection` takes the sizes as integers.
- Disk health checks and disk selection: their answers are arbitrary inputs.
- CRC computation and task bitmaps: a function parameter and a set.
- Application heartbeats, statistics and huge-partition accounting: only the existence and size answers for an application are used.
- The semaphore around all HDFS writes: the code drops its permit at once, so it restricts nothing.
- Reuse of a purged partition that still has flights under way: flight ids start again at 0 there, and the spill statements exclude it.
- Local-file purge: its prefix has no trailing slash and separates nothing.
- Sharing of one lock object between the store and its permits: the locks are values in the store's map, and a removed lock is kept with the writers that hold it.
- Overflow of buffer and budget sizes beyond 64 bits: these are exact integers here.
