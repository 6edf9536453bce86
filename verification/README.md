# bitaloslog: a verified model of its hard parts

bitaloslog is a log-structured storage engine. These modules model the parts of it that keep state across
many steps or threads, and prove what those parts promise for every input, every run and every
interleaving.

- **Page allocator of the copy-on-write B+ tree.** `PageIds`, `SpanIndex` and `Freelist` hold the freelist
  in its array and its hashmap form. `Mvcc` is the protocol of readers, writer, commit, rollback, failure and reopen
  as a state machine, with every committed transaction's pages; its main results are `ReadersAreSafe` and
  `SnapshotStays`. `PageHistory` shows that pages come back as early as they may and that none is lost.
  `Database` is the code of the database and its transactions, proved to take only steps of that machine.
- **Commit pipeline.** `CommitPipeline` interleaves any number of `Commit` calls at every atomic operation;
  `CommitProgress` shows that the publish loop gets its work done.
- **Write-ahead log.** `LogFormat` is the format with its round trip and crash results; `LogWriter` and
  `LogReader` are the code that writes and reads it; `LogFlush` is the protocol between the writer and the
  flush loop, and `LogProgress` shows that the loop gets its work done.
- **Memtable.** `SkipLevel` and `Skiplist` are the lock-free skiplist with its inserters, `SkipSearch` its
  searches and lookups, and `SkipProgress` shows that additions finish; `Reservation` is the accounting that admits writes.
- **Iterators.** `Entries` has the plain cursor over a sorted run. `MergeHeap` and `MergingIter` refine it
  over the union of the levels, `UserIter` over the live view and, for compaction, over the newest versions.
- **B+ tree and bitree.** `TreeCursor`, `NodeSplit` and `Bitree`.
- **Batches.** `BatchCodec`.

`Common` has what they share.

`dafny verify dfyconfig.toml` checks the whole project with Dafny 4.11.

## How to read the models

Code that changes state is a class with methods; each method's `ensures` ties the new state to a function
of the old one, and lemmas state what follows. A protocol between threads is a state machine: a function
gives the state after one atomic step, one lemma shows that every step keeps the invariant, and `RunKeeps`
lifts it to every finite run.

Some promises hold only under a condition. There the contract or a lemma gives the exact condition, and a
concrete input or run shows the failure outside it:

- The 64-bit word of the sync queue is one number to which a pop adds one, so the 2^32nd pop carries into the
  head: `WordAgrees`, `CarryBreaks`, `CarryStops`, `NilWaiterIsMet`. The sync guarantee holds all the same.
- The last fragment of a record is told by its length in signed 32 bits: `RoundTrip`, `HugeIsCut`.
- What is left of a batch behind a length is taken in 32 bits: `BatchRoundTrip`, `WrappedIsMissed`.
- Entry sizes of the memtable are sums in 32 bits: `CoversEveryHeight`, `WrappedIsAdmitted`.
- An inserter that kept its splices may miss a key that exists: `FindSplice`, `BlindIsMet`.
- The hashmap freelist ignores an empty list: `Reload`, `ReloadKeepsPending`, and what that means for readers
  after a failed commit, `FailKeeps`, `ReloadBreaksReaders`.
- It takes the first listed page for the smallest: `Init`, `InitLosesPage`.
- An early rollback does not give back pages that the transaction took from the free set and still holds:
  `RollbackWhole`, `RollbackLoses`.

Ordered keys are integers: only their order matters to the code modelled here. In the skiplist a key
stands for its place in the order of internal keys. File numbers, page ids, sequence numbers and the
counters of queues are unbounded unless the code's own wrap-around matters; it is written out for the
packed words of both queues, the log number, the lengths of a record's fragments, the lengths in a batch and
what is left behind them, and the memtable's sizes.

## Model

| member | source | states |
|---|---|---|
| `PageIds.MergePgids` | bitree/bdb/page.go:165-197 | fills the front of dst with the sorted union of both lists, as a multiset, and leaves the rest of dst alone |
| `PageIds.Merge` | bitree/bdb/page.go:153-163 | the sorted union of two lists, with the cases that return one of them |
| `SpanIndex.SpanMaps.AddSpan` | bitree/bdb/freelist_hmap.go:146-154 | a span enters the forward map, the backward map and the group of its size |
| `SpanIndex.SpanMaps.DelSpan` | bitree/bdb/freelist_hmap.go:156-163 | a span leaves all three maps, and an empty group goes with it |
| `SpanIndex.SpanMaps.MergeWithExistingSpan` | bitree/bdb/freelist_hmap.go:121-144 | after a page is added the three maps again describe the same disjoint, maximal spans, of the old pages and the new one |
| `SpanIndex.SpanMaps.MergeSpans` | bitree/bdb/freelist_hmap.go:115-119 | adds exactly the listed pages to the free set and keeps the index |
| `SpanIndex.SpanMaps.Take` | bitree/bdb/freelist_hmap.go:31-71 | fails exactly when n is 0 or no n consecutive free pages exist; otherwise takes such a run and nothing else |
| `SpanIndex.SpanMaps.Init` | bitree/bdb/freelist_hmap.go:165-195 | an empty list leaves the old index; otherwise the spans cover exactly the listed pages if and only if the first listed id is the smallest; if not, the smallest is lost |
| `SpanIndex.InitLosesPage` | bitree/bdb/freelist_hmap.go:165-195 | the list 5, 3 leaves page 3 out of the index |
| `SpanIndex.SpanMaps.PageList` | bitree/bdb/freelist_hmap.go:79-94 | lists the free pages in ascending order, each once |
| `SpanIndex.RunFitsInSpan` | bitree/bdb/freelist_hmap.go:31-71 | any run of free pages lies inside one span, because spans are maximal |
| `Freelist.ArrayTake` | bitree/bdb/freelist.go:114-147 | the array form takes the lowest run of n pages, or none exactly when no run exists, and keeps the list sorted |
| `Freelist.Scan` | bitree/bdb/freelist.go:200-210 | the swap-remove loop over one transaction keeps exactly the entries not allocated inside the range, page and allocating transaction still paired |
| `Freelist.SkipWithholdsNothing` | bitree/bdb/freelist.go:193-215 | in every state where scan marks were set by scans, the lastReleaseBegin skip releases the same pages as a full scan |
| `Freelist.Freelist.Allocate` | bitree/bdb/freelist.go:114-147 | both forms meet one set specification: a run of free pages, or none exactly when there is none; the page is marked with its transaction |
| `Freelist.Freelist.MergeSpans` | bitree/bdb/freelist.go:379-382 | both forms add the pages to the free set and keep their representation |
| `Freelist.Freelist.Free` | bitree/bdb/freelist.go:149-174 | the run becomes pending with the transaction noted for its allocation, freelist pages without a note with the transaction before; that this is the transaction that allocated it is `PageHistory.FreedExactly` and `PageHistory.FreeRecalls` |
| `Freelist.Freelist.Release` | bitree/bdb/freelist.go:176-186 | exactly the pages freed by transactions up to txid move from pending to free |
| `Freelist.Freelist.ReleaseRange` | bitree/bdb/freelist.go:188-218 | exactly the pages allocated and freed inside the range move from pending to free, except under transactions marked as scanned from the same begin |
| `Freelist.Freelist.Rollback` | bitree/bdb/freelist.go:220-241 | pages the transaction itself allocated become free, the others get their allocating transaction back, nothing else changes; cache stays within free and pending |
| `Freelist.Freelist.ReadIds` | bitree/bdb/freelist.go:276-279 | the free set becomes the listed ids; the hashmap form keeps its old set on an empty list |
| `Freelist.Freelist.Reindex` | bitree/bdb/freelist.go:366-377 | cache is rebuilt as free plus pending |
| `Freelist.Freelist.Reload` | bitree/bdb/freelist.go:324-346 | the exact set that is then free; it is the listed pages without the pending ones if and only if the form is the array, or some listed page is not pending, or the list and the old set are empty |
| `Freelist.ReloadKeepsPending` | bitree/bdb/freelist.go:324-346 | a hashmap freelist with page 7 pending, reloaded from the list 7, has that page free and pending |
| `Freelist.Freelist.NoSyncReload` | bitree/bdb/freelist.go:348-364 | the free set becomes the listed pages without the pending ones; the hashmap form keeps its old set when none is left |
| `Freelist.Freelist.FreePageIds` | bitree/bdb/freelist.go:281-283 | lists the free set in ascending order in both forms |
| `Mvcc.EventKeeps` | bitree/bdb/db.go:476-538 | every step of readers, writer, commit with and without a freelist on disk, early rollback, failed commit and reopen keeps the page invariant |
| `Mvcc.RunKeeps` | bitree/bdb/db.go:476-538 | so does every run |
| `Mvcc.ReadersAreSafe` | bitree/bdb/db.go:524-538 | in every run, with failed commits whose reload comes out right, no page of an open reader or of the last commit is free or given out by allocate or by the freelist write of a commit |
| `Mvcc.SnapshotStays` | bitree/bdb/db.go:476-500 | in every run, from the moment a reader opens until it leaves, its snapshot is the last commit of that moment, and no page of it is free or given out |
| `Mvcc.FreeNeverPanics` | bitree/bdb/freelist.go:149-174 | in every run a page the writer may free is neither free nor pending, so the already-freed check never fires |
| `Mvcc.AllocationIsNew` | bitree/bdb/db.go:864-889 | pages given out, from the free set or above the high-water mark, belong to no snapshot, no pending entry and no run of the writer |
| `Mvcc.RollbackKeeps` | bitree/bdb/tx.go:254-271 | an early rollback returns to a state of the invariant with the last commit untouched |
| `Mvcc.CommitKeeps` | bitree/bdb/tx.go:142-252 | a commit that frees the old freelist run, allocates a new one and publishes keeps the invariant |
| `Mvcc.CommitUnsyncedKeeps` | bitree/bdb/tx.go:165-175 | so does one that writes no freelist |
| `Mvcc.FailKeeps` | bitree/bdb/tx.go:273-286 | a commit that fails at any point, rolls back and reloads the freelist keeps the invariant if and only if the last commit has no freelist on disk, or the freelist is the array, or the last written list is empty or has a page that is not pending; otherwise the whole list is free and pending at once |
| `Mvcc.ReloadBreaksReaders` | bitree/bdb/tx.go:273-286 | a run where that fails: a reader opens, a writer replaces a page and commits, the next writer fails, and the page the reader can see is free |
| `Database.DB.constructor` | bitree/bdb/db.go:228-244 | opening with the stored free ids, or with those found by looking, gives a state from which every run is safe |
| `Database.DB.BeginTx` | bitree/bdb/db.go:476-500 | a reader joins the list with the id of the last commit; refines the begin-read step |
| `Database.DB.RemoveTx` | bitree/bdb/tx.go:288-315 | swap-remove takes exactly that reader off the list; refines the end-read step |
| `Database.DB.BeginRWTx` | bitree/bdb/db.go:502-522 | refines the begin-write step, including the release of pages |
| `Database.DB.FreePages` | bitree/bdb/db.go:524-538 | the passes below, between and above the sorted readers release exactly the pending pages whose life from allocation to free spans no open reader |
| `Database.DB.Allocate` | bitree/bdb/db.go:864-889 | refines the allocate step |
| `Database.DB.FreeRun` | bitree/bdb/freelist.go:149-174 | refines the free step, with the allocating transaction `PageHistory.FreedExactly` speaks of |
| `Database.DB.Commit` | bitree/bdb/tx.go:142-252 | refines the commit step; the pages of the new freelist run are visible to no reader |
| `Database.DB.CommitNoSync` | bitree/bdb/tx.go:165-175 | refines the commit without a freelist on disk |
| `Database.DB.RollbackTx` | bitree/bdb/tx.go:254-271 | refines the early rollback step |
| `Database.DB.FailTx` | bitree/bdb/tx.go:273-286 | refines the failed commit, before the old freelist run is freed, before the new one is allocated, or after, with either reload; the database is valid again if and only if the reload comes out right |
| `Database.MiddlePass` | bitree/bdb/db.go:534-537 | what the pass between two readers leaves is what no earlier reader and neither of the two needs to let go |
| `PageHistory.EventRecalls` | bitree/bdb/freelist.go:149-241 | every step keeps the notes of the freelist true to the history of the pages: a noted transaction is the one that last allocated the page, and a page taken from the free set since the database was opened has its note |
| `PageHistory.FreeRecalls` | bitree/bdb/freelist.go:149-174 | freeing a run keeps that; a freed freelist run is pending as exactly allocated by the last transaction, which did allocate it |
| `PageHistory.FreedExactly` | bitree/bdb/freelist.go:149-174 | in every run, a page that transaction t took from the free set and that transaction u frees, with no allocation of it in between, is pending as exactly (u, t) |
| `PageHistory.FreedIsReleased` | bitree/bdb/db.go:524-538 | in every run, such a pending page is free after the next begin-write if and only if no open reader lies between the transaction that took it and the one that freed it |
| `PageHistory.FreedIsUndone` | bitree/bdb/freelist.go:220-241 | in every run, a page from the free set that a transaction freed is free again after its rollback if and only if the same transaction took it |
| `PageHistory.RollbackWhole` | bitree/bdb/tx.go:254-271 | an early rollback loses no page if and only if the transaction holds none that it took from the free set |
| `PageHistory.RollbackLoses` | bitree/bdb/tx.go:254-271 | a run where one is lost: a writer takes the only free page and rolls back |
| `PageHistory.NothingIsLost` | bitree/bdb/tx.go:142-286 | in every run without such a rollback every page below the high-water mark is exactly one of free, pending and in a run, and a reopen has free exactly the pages no run of the last commit has |
| `PageHistory.ReopenAfterCommit` | bitree/bdb/tx.go:213-252 | a reopen right after a commit has free exactly the pages that were free or pending, or in the old freelist run, less the new freelist run |
| `CommitPipeline.UnpackPack` | commit.go:33-44 | the packed word gives back both counters modulo 2^32 |
| `CommitPipeline.QueueBounded` | commit.go:46-61 | the semaphore keeps fewer batches in the queue than it has slots |
| `CommitPipeline.NeverPanics` | commit.go:46-61 | enqueue never finds the queue full, in any interleaving |
| `CommitPipeline.TakeIsFront` | commit.go:63-83 | a dequeue that succeeds takes the front batch, applied, as the call saw it, in spite of the wrapping counters |
| `CommitPipeline.EventKeeps` | commit.go:108-214 | every atomic step of every call keeps the invariant |
| `CommitPipeline.RunKeeps` | commit.go:108-214 | so does every interleaving |
| `CommitPipeline.ReturnedIsVisible` | commit.go:108-137 | when Commit returns, its batch is in the log and in the memtable, visibleSeqNum has reached its end, and the log is synced if that was asked for |
| `CommitPipeline.VisibleStopsShort` | commit.go:174-214 | visibleSeqNum never passes the start of a batch that is not in the memtable, or not flagged as applied |
| `CommitPipeline.VisibleOnlyGrows` | commit.go:174-201 | visibleSeqNum never decreases |
| `CommitPipeline.NumbersDisjoint` | commit.go:139-172 | two batches never share a sequence number |
| `CommitPipeline.FlaggedIsStored` | commit.go:108-137 | a batch is flagged and published only when it is in the memtable, and is in the memtable, or synced, only when it is in the log with a number |
| `CommitPipeline.LogInOrder` | commit.go:139-172 | the log has the batches in the order of their sequence numbers |
| `CommitPipeline.NoneStranded` | commit.go:63-83 | while a waiting batch is unpublished, some call is still working towards it and can take its next step: the one finishing it, one that will see the front of the queue, or the owner of the front batch |
| `CommitPipeline.StepWatched` | commit.go:174-201 | whenever the front batch is applied, some call in the publish loop has not missed it, whatever loads were stale and swaps failed |
| `CommitPipeline.QuietMeansPublished` | commit.go:174-214 | with no call at work, every numbered batch is published and visibleSeqNum equals the next sequence number |
| `CommitProgress.PublishDrains` | commit.go:174-201 | from every reachable state, a call in the publish loop or on its way there that nobody disturbs comes to its wait; what it took off the queue is then published, and the front of the queue is not applied, or there is none |
| `LogFormat.ScanChunk` | internal/record/record.go:112-172 | a chunk as the writer lays it out is accepted with its kind and payload |
| `LogFormat.ChunkLayout` | internal/record/log_writer.go:644-671 | the bytes of a chunk: checksum of what follows the length, length, kind and log number, the least byte first, then the payload |
| `LogFormat.ScanIsWritten` | internal/record/record.go:112-172 | a chunk with the longer header is accepted only if its bytes are exactly what the writer of this log writes for that kind and payload |
| `LogFormat.ScanCut` | internal/record/record.go:131-166 | a chunk whose end was not written is refused, unless it passes for a chunk together with what follows |
| `LogFormat.RecordRead` | internal/record/record.go:109-201 | a record, however it was cut into fragments and padding, is read up to its first fragment marked last, what is left of it is passed over, and a truncated one ends the reading |
| `LogFormat.ShownIs` | internal/record/log_writer.go:644-663 | with the 32-bit test for the last fragment that is the whole record if and only if it is shorter than 2^31 bytes |
| `LogFormat.WriteIsTight` | internal/record/log_writer.go:593-681 | a record takes one header in each block it is in and leaves less than a header unused at the end of each block it fills |
| `LogFormat.TrailerRead` | internal/record/log_writer.go:632-642 | the trailer reads as end of file, and as an accepted error when cut |
| `LogFormat.RoundTrip` | internal/record/log_writer.go:593-681 | for every record sequence, reading what was written and closed gives each record up to its first fragment marked last, then end of file, whatever bytes follow; that is what was written if and only if every record is shorter than 2^31 bytes |
| `LogFormat.HugeIsCut` | internal/record/log_writer.go:644-663 | of a record of 2^31 bytes only the first 32757 are read back |
| `LogFormat.CrashPrefix` | internal/record/record.go:65-67 | for every truncation, the records read are a prefix of those a whole file gives, with all records written in full, and reading stops with end of file or an error recovery accepts; for records below 2^31 bytes it is a prefix of what was written |
| `LogFormat.RecycledCrash` | internal/record/record.go:109-201 | the same when bytes of an earlier log follow the cut, if none of them passes for a chunk of this log at the start of a block or together with the torn end |
| `LogReader.Reader.ReadFull` | internal/record/record.go:191-199 | loads the next block of the file into the buffer |
| `LogReader.Reader.ReadHeader` | internal/record/record.go:112-172 | checks a header in the order of the code |
| `LogReader.Reader.NextChunk` | internal/record/record.go:109-201 | the parse loop finds the chunk or the error that the parse of the whole file gives |
| `LogReader.Reader.Next` | internal/record/record.go:206-217 | moves to the next record; an earlier error is final |
| `LogReader.Reader.Read` | internal/record/record.go:299-318 | hands out the record piece by piece, losing and repeating nothing, then end of file |
| `LogReader.Replay` | plain_db.go:580-593 | the recovery loop collects exactly the records of the file and the error that ended it |
| `LogWriter.LogWriter.EmitFragment` | internal/record/log_writer.go:644-681 | puts one chunk into the block buffer, marked last by the 32-bit test, pads and queues the block when no header fits, and returns the rest |
| `LogWriter.LogWriter.SyncRecord` | internal/record/log_writer.go:593-624 | the fragments of a record, and the offset just past it |
| `LogWriter.LogWriter.QueueBlock` | internal/record/log_writer.go:672-679 | the block is filled with zeros and queued whole |
| `LogWriter.LogWriter.EmitEOFTrailer` | internal/record/log_writer.go:632-642 | appends the header of an empty chunk of the next log |
| `LogFlush.EventKeeps` | internal/record/log_writer.go:338-540 | every step of the writer, the flush loop and the timer keeps the invariant, with failing writes and syncs, also past the carry of the packed word |
| `LogFlush.RunKeeps` | internal/record/log_writer.go:338-540 | so does every interleaving |
| `LogFlush.ReleasedIsDurable` | internal/record/log_writer.go:388-496 | in every run the k-th waiter released is the k-th one pushed, and if it got no error all bytes emitted before its push are in the file, in order, and synced if the writer can sync |
| `LogFlush.MarksAreKept` | internal/record/log_writer.go:103-117 | what counts as emitted before a push is the whole stream at that moment |
| `LogFlush.ClosedIsWritten` | internal/record/log_writer.go:544-579 | in every run: when the loop has ended after Close without an error the file is the whole stream, and no waiter is left |
| `LogFlush.ErrorsStick` | internal/record/log_writer.go:429-442 | in every run, after a failed write or sync no waiter is released without an error |
| `LogFlush.NoNilWaiter` | internal/record/log_writer.go:142-165 | below 2^32 released waiters pop meets the waiter whose turn it is, never an empty slot |
| `LogFlush.PanicsWhenFull` | internal/record/log_writer.go:103-117 | in every run push panics exactly when as many waiters as there are slots are unreleased, and past 2^32 released ones when it is one fewer |
| `LogFlush.WordAgrees` | internal/record/log_writer.go:96-101 | in every run the lower half of the word counts the pops, and the upper half counts the pushes if and only if fewer than 2^32 waiters have been released |
| `LogFlush.CarryBreaks` | internal/record/log_writer.go:142-165 | in every run, with 2^32 waiters released the queue looks one longer than it is, and with no waiter left the slot pop reads next is empty |
| `LogFlush.CarryStops` | internal/record/log_writer.go:142-165 | in every run past that only the waiters whose slots were filled by then are ever released, fewer than there are slots, and the slot behind them stays empty for good |
| `LogFlush.NilWaiterIsMet` | internal/record/log_writer.go:142-165 | there is a run with 2^32 waiters, all released, in which pop then meets an empty slot |
| `LogFlush.ReleasedUnpublished` | internal/record/log_writer.go:103-117 | there is a run that releases a waiter whose slot is filled and whose push is not over |
| `LogFlush.BlockedIsTimed` | internal/record/log_writer.go:445-458 | in every run a blocked queue has its timer set, or about to be set |
| `LogFlush.NoLostWakeup` | internal/record/log_writer.go:186-234 | in every run: a sleeping flush loop has nothing pending; if waiters are queued it is about to be signalled, or syncing is blocked and the timer is set that clears that and then signals |
| `LogProgress.WaitersAreServed` | internal/record/log_writer.go:338-460 | from every reachable state without an error, with the loop awake, syncing not blocked and fewer than 2^32 waiters so far: undisturbed, with writes and syncs that succeed, the loop releases every waiter without an error |
| `LogProgress.LoopFinishes` | internal/record/log_writer.go:338-460 | likewise, once the loop has looked at the state, it also writes every byte emitted, and then sleeps, or after Close ends |
| `LogProgress.ErrorsAreIo` | internal/record/log_writer.go:142-165 | in every run below 2^32 released waiters in which no write and no sync fails, every waiter is released without an error |
| `LogProgress.NoBlockIsLost` | internal/record/log_writer.go:498-542 | in every run, until something fails, every block is the current one, queued, being written or free |
| `SkipLevel.StepKeeps` | internal/arenaskl/skl.go:145-176 | every load, store and swap of every inserting thread keeps one level ordered and its back links accounted for |
| `SkipLevel.HelpSettles` | internal/arenaskl/skl.go:150-156 | helping a lagging back link, or being overtaken while helping, leaves it right whenever the link can still be taken |
| `SkipLevel.QuietMirrors` | internal/arenaskl/skl.go:158-165 | with no thread between its two swaps, prev mirrors next |
| `SkipLevel.PathBetween` | internal/arenaskl/skl.go:385-388 | following next visits exactly the linked nodes in between, ascending |
| `Skiplist.EventKeeps` | internal/arenaskl/skl.go:114-188 | every step of every inserter keeps the levels, the towers and the kept splices consistent |
| `Skiplist.RunKeeps` | internal/arenaskl/skl.go:114-188 | so does every interleaving of additions of distinct keys |
| `Skiplist.HigherBracket` | internal/arenaskl/skl.go:285-313 | a kept splice that brackets the key vouches for the kept splices of all levels above |
| `Skiplist.LevelsAreOrdered` | internal/arenaskl/skl.go:114-188 | at every moment each level is one ascending chain from head to tail through exactly what is linked there |
| `Skiplist.LevelsAreNested` | internal/arenaskl/skl.go:132-177 | at every moment each level is part of every level below |
| `Skiplist.NothingIsLost` | internal/arenaskl/skl.go:158-165 | no step unlinks a node |
| `Skiplist.AddedIsLinked` | internal/arenaskl/skl.go:132-177 | an addition that ends has linked its node on every level of its tower |
| `Skiplist.QuietLevelMirrors` | internal/arenaskl/skl.go:114-188 | in every run, a level without a thread between its two swaps has mirrored links |
| `Skiplist.NeverStuck` | internal/arenaskl/skl.go:132-143 | each inserter can take its next step; where a splice is used it has both neighbours or neither, so the code meets no nil node and does not panic |
| `SkipProgress.AddFinishes` | internal/arenaskl/skl.go:114-188 | from every reachable state an inserter that nobody disturbs finishes its addition, wherever the others stand, with its key linked on every level of its tower |
| `SkipSearch.FindSpliceForLevel` | internal/arenaskl/skl.go:325-361 | the neighbours of a key on one level |
| `SkipSearch.FindSplice` | internal/arenaskl/skl.go:285-323 | leaves splices around the key on every level, and finds a key that is in the list if and only if not the kept splice of the lowest level is still tight and ends at it |
| `SkipSearch.AddAgain` | internal/arenaskl/skl.go:114-117 | so an inserter used before reports a key that exists exactly under that condition, in every reachable list |
| `SkipSearch.AddFresh` | internal/arenaskl/skl.go:109-112 | a new inserter always reports it |
| `SkipSearch.BlindIsMet` | internal/arenaskl/skl.go:285-323 | for any two keys there is a run, adding the greater and then the smaller, after which the inserter will not find the greater one |
| `SkipSearch.SeekForBaseSplice` | internal/arenaskl/skl.go:215-238 | the first node at or above the key on the lowest level and one before it, the very one before when prev mirrors next |
| `SkipSearch.LookupIsRight` | internal/arenaskl/skl.go:215-238 | a lookup interleaved with any steps of any inserters can always go on, finds a key that was linked when it began, finds only linked keys, and passes no key linked when it began |
| `Reservation.CoversEveryHeight` | mem_table.go:27-29 | the 32-bit sums reserve, and ask for, the node as it is written at every height if and only if the entry is below 4 GiB |
| `Reservation.WrappedIsNot` | internal/arenaskl/node.go:71-86 | an entry of 4 GiB reserves nothing and takes nearly 4 GiB |
| `Reservation.WrappedSlipsThrough` | internal/arenaskl/node.go:71-86 | an entry over 4 GiB whose reservation covers what is asked for, 270 bytes, and neither is its size |
| `Reservation.MemTable.constructor` | mem_table.go:44-59 | a new table has the given size, with head and tail in its arena |
| `Reservation.MemTable.AvailBytes` | mem_table.go:146-152 | with no writer under way the reservation falls back to what is used; what admitted writers may still need stays reserved |
| `Reservation.MemTable.Prepare` | mem_table.go:170-178 | admits a batch exactly when its size fits beside what is reserved, whatever its entries; if they all fit the accounting stays sound |
| `Reservation.MemTable.PrepareBySize` | mem_table.go:180-188 | the same for a given 32-bit size |
| `Reservation.MemTable.Alloc` | internal/arenaskl/arena.go:56-71 | moves the counter and gives an aligned offset exactly when the end with the overflow is in the buffer |
| `Reservation.MemTable.Add` | internal/arenaskl/node.go:46-86 | if all entries admitted so far are below 4 GiB, an admitted entry is never refused, at any height and after any steps of other writers, and its node, as it is written, is aligned, inside the buffer and overlaps no other; in every state it says when the node is placed and when newNode panics |
| `Reservation.MemTable.WriterUnref` | mem_table.go:77-84 | true exactly for the last writer of a table that is no longer mutable |
| `Reservation.WrappedIsAdmitted` | internal/arenaskl/node.go:71-86 | an entry over 4 GiB is admitted to 270 free bytes, and its node does not end in the buffer |
| `Entries.LessIsTotal` | internal/base/internal.go:107-118 | the order of internal keys is total, equal only for equal keys: by user key, and for the same user key the greater sequence number first |
| `Entries.BelowSplits` | internal/base/internal.go:107-118 | the count of smaller user keys is where a sorted run splits |
| `MergeHeap.TopIsAhead` | merging_iter.go:410-422 | in a heap no item is ahead of the top |
| `MergeHeap.Heap.Down` | merging_iter.go:461-479 | sifting down restores the heap from its place on and permutes the items |
| `MergeHeap.Heap.Up` | merging_iter.go:450-459 | sifting up restores the heap |
| `MergeHeap.Heap.FixTop` | merging_iter.go:435-439 | after the top changed the heap is in order again |
| `MergeHeap.Heap.Pop` | merging_iter.go:441-448 | exactly the top leaves |
| `MergeHeap.Heap.Init` | merging_iter.go:428-433 | any list becomes a heap of the same items |
| `MergingIter.MergingIter.Position` | merging_iter.go:224-303 | First, Last, SeekGE and SeekLT give the smallest entry of all levels, the greatest, the smallest with a user key not below the one sought, the greatest with one below it, or none exactly when no level has such an entry; they move like the cursor over the sorted union |
| `MergingIter.MergingIter.Next` | merging_iter.go:305-321 | gives the smallest entry of all levels after the current one, also after a change of direction and at either end; moves like the cursor |
| `MergingIter.MergingIter.Prev` | merging_iter.go:323-343 | the same backwards |
| `MergingIter.MergingIter.TurnForward` | merging_iter.go:104-139 | turning round leaves the iterator one entry on |
| `MergingIter.MergingIter.TurnBackward` | merging_iter.go:141-176 | turning round leaves the iterator one entry back |
| `MergingIter.MergingIter.Refresh` | merging_iter.go:178-214 | the heap again holds one item for each level that stands at an entry |
| `MergingIter.MergingIter.InitHeap` | merging_iter.go:73-102 | the heap is built from the levels that stand at an entry |
| `MergingIter.TopForward` | merging_iter.go:193-199 | the top is the entry of the union the cursor stands at |
| `UserIter.Iterator.NextUserKey` | iterator.go:144-164 | goes to the first version of the next user key, also by the shortcut for sequence number zero |
| `UserIter.Iterator.FindNextEntry` | iterator.go:113-142 | stops at the first entry that is the newest version of its key and not a deletion |
| `UserIter.Iterator.PrevUserKey` | iterator.go:211-229 | goes back over all versions of a user key |
| `UserIter.Iterator.FindPrevEntry` | iterator.go:166-209 | stops at the last live entry at or before, having read all its versions |
| `UserIter.Iterator.First` | iterator.go:370-384 | stands at the smallest user key whose version with the highest trailer is a set, with its value, or is exhausted exactly when there is none |
| `UserIter.Iterator.Last` | iterator.go:386-400 | stands at the greatest such user key |
| `UserIter.Iterator.Next` | iterator.go:406-456 | goes to the smallest such user key above the current one, from every position state; the error branch is never taken |
| `UserIter.Iterator.Prev` | iterator.go:462-502 | goes to the greatest such user key below the current one, from every position state |
| `UserIter.Iterator.SeekGE` | iterator.go:235-273 | goes to the smallest such user key not below k, also when the inner seek is skipped |
| `UserIter.Iterator.SeekLT` | iterator.go:331-368 | goes to the greatest such user key below k, also when the inner seek is skipped |
| `UserIter.Iterator.StaysGE` | iterator.go:248-262 | when the shortcut applies the iterator already stands where the seek would end |
| `UserIter.Iterator.StaysLT` | iterator.go:343-357 | the same backwards |
| `UserIter.Iterator.ShowsView` | iterator.go:504-514 | key, value and validity are those of the live entry the cursor stands at |
| `UserIter.LiveSorted` | iterator.go:113-142 | the live view has each user key once, ascending |
| `UserIter.LiveIsShown` | iterator.go:113-142 | the live view has an entry if and only if no version of its user key has a greater trailer and it is a set |
| `UserIter.PlaceLands` | iterator.go:113-229 | a place of the view with exactly the wanted user keys on its far side shows the nearest of those that exist, or nothing if none does |
| `UserIter.CompactionIter.First` | compaction_iter.go:50-58 | starts the list of newest versions |
| `UserIter.CompactionIter.Next` | compaction_iter.go:60-134 | yields that list one by one and then ends |
| `UserIter.NewestIsHighest` | compaction_iter.go:60-134 | the list has exactly the version with the highest trailer of each user key |
| `UserIter.NewestAscends` | compaction_iter.go:60-134 | in ascending user key order |
| `TreeCursor.Find` | bitree/bdb/cursor.go:223-276 | the binary search ends at the first key not below k, and a probe met k exactly if that key is k |
| `TreeCursor.FindChild` | bitree/bdb/cursor.go:223-257 | picks the child whose range holds the key: its separator is not above it, the next one is |
| `TreeCursor.Cursor.First` | bitree/bdb/cursor.go:32-48 | stands at the first key of the tree, with all others later, over empty leaves |
| `TreeCursor.Cursor.Next` | bitree/bdb/cursor.go:65-72 | goes on to the next key |
| `TreeCursor.Cursor.Enumerate` | bitree/bdb/cursor.go:32-72 | First and then Next until the end give exactly the keys of the tree, in order |
| `TreeCursor.Cursor.Advance` | bitree/bdb/cursor.go:177-201 | steps through the leaves in order, skips empty ones and ends |
| `TreeCursor.Cursor.Search` | bitree/bdb/cursor.go:203-276 | the keys of a tree below k, and from k on, lie on the two sides of the place reached |
| `TreeCursor.Cursor.Seek` | bitree/bdb/cursor.go:98-111 | lands on the smallest key not below k, with all greater ones later |
| `TreeCursor.KeysAscend` | bitree/bdb/cursor.go:177-201 | a well-formed tree has its keys in order, so First and Next visit them ascending |
| `NodeSplit.SizeLessThan` | bitree/bdb/node.go:59-69 | true exactly below the limit, although it stops early |
| `NodeSplit.SizeIsSum` | bitree/bdb/node.go:50-57 | the size of a node is 16 bytes, 16 for each inode, and its keys and values |
| `NodeSplit.ThresholdIs` | bitree/bdb/node.go:247-253 | the threshold is the fill factor of the page size rounded down, with a tenth below a tenth and the whole page above one |
| `NodeSplit.SplitIndex` | bitree/bdb/node.go:272-288 | at least two inodes go and more than two stay; what goes fits the threshold or is just two, and one more would not have fitted unless too few would stay |
| `NodeSplit.SplitTwo` | bitree/bdb/node.go:242-270 | splits exactly when the node has more than four inodes and is not under the page size; the first part fits the threshold or is two inodes, and one inode more would not have fitted, or would have left only two |
| `NodeSplit.Split` | bitree/bdb/node.go:224-240 | the pieces concatenate to the node; every piece but the last fits the threshold or has two inodes, and could not have held the next inode too, unless too few would have been left; the last is under the page size or has at most four |
| `Bitree.Bitree.Get` | bitree/bitree.go:120-145 | finds everything flushed and not compacted away; whatever it finds was flushed with that value |
| `Bitree.Bitree.Set` | bitree/flusher.go:32-44 | a flushed key is found from then on |
| `Bitree.Bitree.MakeRoomForWrite` | bitree/bitree.go:222-241 | rotation puts both boundaries, with a file number above all others: the keys above the last one go to the new table, all others where they went, and nothing that Get finds changes; a crash before leaves the boundaries as they were |
| `Bitree.Bitree.NewSuperTable` | bitree/manifest.go:143-151 | no file number is used twice, also after a crash |
| `Bitree.Bitree.CompactTo` | bitree/bitree.go:355-392 | keeps a boundary if and only if its key is not below k or no boundary reaches k; the number it writes first is below the file numbers of exactly those it keeps; Get finds the same for every x not below k |
| `Bitree.Bitree.CompactCrashOpen` | bitree/bitree.go:355-392 | a crash between the two writes of CompactTo and the next open give the boundaries CompactTo would have left, and the same finds for every x not below k |
| `Bitree.Bitree.Open` | bitree/bitree.go:243-345 | keeps exactly the boundaries whose table is not compacted away and whose file exists, or starts with a first table; nothing uncompacted is lost |
| `Bitree.Bitree.OpenAgain` | bitree/bitree.go:243-345 | a crash while files are deleted, after boundaries are deleted or after the first table is made, and the next open, give what the first open would have given |
| `Bitree.Bitree.FreeSuperTable` | bitree/bitree.go:208-220 | freeing a table the metadata has given up never loses reachable data |
| `Bitree.CompactedRoutes` | bitree/bitree.go:355-392 | for every x not below k the table x is routed to is the same after CompactTo(k) |
| `Bitree.CompactedDrops` | bitree/bitree.go:361-385 | what CompactTo computes drops exactly the boundaries below k, and the file number tells their tables from the others |
| `Bitree.CrashedCompaction` | bitree/bitree.go:383-389 | a crash between the two writes of CompactTo and a reopen leave the boundary map CompactTo would have left |
| `BatchCodec.PutVarint` | batch.go:115-124 | writes a length seven bits at a time |
| `BatchCodec.VarintIs` | batch.go:115-124 | the bytes are the digits of the length to the base 128, the least first, with the high bit on all but the last, and none needless |
| `BatchCodec.LengthIs` | batch.go:322-343 | what the decoder makes of any bytes: the digits up to the first byte without the high bit, or five bytes with the fifth not masked, in 32 bits; past the end it panics |
| `BatchCodec.RecordLayout` | batch.go:100-170 | the bytes of an operation: its kind as numbered in the format, the length of its key, the key, and for a set the same of its value |
| `BatchCodec.LengthRead` | batch.go:322-343 | every 32-bit length is read back by the unrolled decoder |
| `BatchCodec.NextRead` | batch.go:345-381 | an operation is read back from the front of what was written if and only if neither length is misread in 32 bits |
| `BatchCodec.MakeRecord` | batch.go:100-170 | lays out kind, lengths in 32 bits, key and value |
| `BatchCodec.Batch.Add` | batch.go:172-207 | appends an operation; log data is not counted |
| `BatchCodec.Batch.Repr` | batch.go:213-219 | the header holds the count in 32 bits, the rest the operations |
| `BatchCodec.Read` | batch.go:221-231 | refuses what is shorter than a header, and otherwise reads to the end or to the panic at a length that goes past it |
| `BatchCodec.BatchRoundTrip` | batch.go:213-231 | for every operation sequence the reader yields the same operations if and only if each string is below 2^32 bytes and no longer than the bytes behind its length modulo 2^32, and it does not panic then; so it does for every batch below 4 GiB |
| `BatchCodec.WrappedIsMissed` | batch.go:345-348 | of a batch with a key of 10 bytes and a value of 2^32 - 6 nothing is read back |
| `BatchCodec.Apply` | mem_table.go:106-136 | numbers the operations, and succeeds exactly when the first number is not too low, the count agrees and no length goes past the end |
| `BatchCodec.NumberedInOrder` | mem_table.go:114-134 | consecutive numbers from the start for everything but log data, as many as counted |
| `BatchCodec.NumberedAt` | mem_table.go:114-134 | each operation but log data gets the start plus the number of such operations before it |
| `BatchCodec.CountedIs` | batch.go:172-207 | the count is the number of operations that are not log data |

## Left out

- `CommitPipeline.TakeIsFront`: assumes that between loading the queue word and swapping it a call is not overtaken by 2^32 enqueues, since the word repeats then.
- `CommitPipeline.EventKeeps`: models the queue mode with successful writes and applies; an error after a batch is queued, and publishing without the queue, are not modelled.
- `Mvcc.ReadersAreSafe`: a meta page whose write failed counts as not written; the walk that finds the pages in use when no freelist is on disk is given by its result.
- `PageHistory.NothingIsLost`: says nothing of pages that were lost before the database was opened.
- `LogProgress.LoopFinishes`, `CommitProgress.PublishDrains` and `SkipProgress.AddFinishes`: of a thread left to itself; that a scheduler lets each thread go on is not modelled.
- `Mvcc.RunKeeps`: transaction ids stay below the all-ones id the code uses for "no reader".
- `Freelist.Freelist.ReleaseRange`: the page ids handed on for freeing super tables are the result of the call; that `freePages` keeps only those of its last pass is left as it is and nothing is claimed about it.
- `LogFormat.RoundTrip`: the checksum is any function of the bytes; that it detects corruption is not claimed, and `RecycledCrash` says what it needs of it.
- `LogReader.Reader.Read`: the check for a stale record reader and the recovery mode, which no caller turns on, are not modelled.
- `LogFlush.RunKeeps`: a write appends some bytes or fails; blocks a failed flush drops are not given back to the writer, as in the code.
- `Skiplist.RunKeeps`: the inserters add pairwise distinct keys; what a key that exists meets is `FindSplice`, and a list with a key linked twice is not modelled.
- `SkipSearch.SeekForBaseSplice`: at one moment; `LookupIsRight` has the node a lookup among insertions ends at, not the one before it.
- `Reservation.MemTable.Add`: the two atomic operations of alloc are one step; in between, only an entry over 4 GiB of another writer could make a difference.
- `MergingIter.MergingIter.Next`: no bounds, prefixes or errors; the levels have no internal key in common.
- `UserIter.Iterator.SeekGE`: no bounds, prefixes or errors; a version with the sequence number 0 is the last of its user key, and the inner iterator is a plain cursor, as `MergingIter` shows of itself.
- `UserIter.CompactionIter.Next`: entries of the three kinds a memtable holds; other kinds end the iteration with an error in the code.
- `TreeCursor.Cursor.First`: trees are values and pages their nodes; the moves backwards, `Delete` and nested buckets are not modelled.
- `NodeSplit.Split`: only which inodes go where; parents and children are not modelled.
- `Bitree.Bitree.Open`: super tables are maps that survive a crash as flushed; their own file format and rebuild are not modelled.
- `Bitree.Bitree.MakeRoomForWrite`: keys are flushed in ascending order below the greatest key, each flush with at least one key, as the sequential database does.
- Cache sizes, file formats of array and super tables, the plain database as a whole, log recycling, metadata fields other than the two used here, memory mapping and file systems: I/O, foreign code or easy members.
- Rebalancing, spilling and page layout of the B+ tree: pointer surgery that adds no new law to the ones above.
