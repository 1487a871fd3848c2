# Persimmon, verified

Persimmon makes an in-memory state machine crash-consistent. A foreground process appends commands to
a circular log in persistent memory; a background process executes them against persistent memory under
an undo log; after a crash, recovery rolls the memory back (or keeps it, if a commit record is durable)
and the commands behind the tail are replayed. This project models that protocol in Dafny, with a crash
possible between any two persist steps, and proves that every durably committed command takes effect
exactly once. Below the protocol it verifies the loops and data structures the protocol rests on, as
classes and methods that update their state in place.

## How the model is built

*Persistent memory* (`Protocol.dfy`, `Ring.dfy`). Every persistent object has a volatile view, which
loads see, and a durable view, which a crash leaves. At any moment any subset of the bytes of memory or
of the command log, any undo-log entries, the head, the tail and the table files may become durable; a
drain makes everything durable whose line was flushed since its last store. An undo-log entry fills one
cache line and its stores persist in order: block, then address. The streaming stores that clear the log
have no such order: until the drain, the zeros of whole entries and of half entries (the saved block, or
the address with the commit tail) may persist in any order, within the limit named below.
`MemoryModel.dfy` states how strong this adversary is: all those mixtures do occur in runs, and nothing
but a flush and a drain after the last store makes anything durable for certain.

*The protocol* (`Protocol.dfy`) is a state machine: record, application write, mmap, table rows, the
flushes of a commit, commit record, tail update, rename, clear, scan, rollback, unlink. The application
is an arbitrary deterministic function from a command and the visible memory to writes and mmaps
(`Application.dfy`); `Fold` is its reference semantics. `ProtocolInvariant.dfy` states the invariant,
`PersistSteps.dfy`, `BatchSteps.dfy`, `CommitSteps.dfy` and `RecoverSteps.dfy` show that every step
keeps it, and `Durability.dfy` draws the conclusions. The number of commands in a batch is not bounded
in the machine, so it covers the batching options of `src/bg.cc` as well as the default of one.
`Recovery.dfy` shows where recovery's own steps lead from what any crash leaves. `Runs.dfy` and
`Batches.dfy` build concrete runs: the undo-log records, commits and clears that actually happen.

*The command log* (`Ring.dfy`, `RingInvariant.dfy`) describes entries by virtual positions that grow for
ever and proves that the offsets the code computes with modulo the buffer size name them correctly.
`WholeSystem.dfy` composes both machines: the background reads its commands out of the log's bytes,
everything crashes together, and the end-to-end theorems are about the bytes left in persistent memory.

*The code* (`UndoLog.dfy`, `PsmLog.dfy`, `Ranges.dfy`, `Regions.dfy`, `LoggedAddrs.dfy`,
`StreamingMemset.dfy`, `LogBytes.dfy`, `FileNames.dfy`) is imperative. Class `Background` holds the fields of the
background process; each of its persist operations takes one step of the machine, after which any part
of persistent memory may be evicted, so its class invariant says that the fields are the loads' view of
a state that a run of the protocol reaches. The theorems about runs therefore hold at every point of
every method. Class `Producer` does the same for the foreground and the log. `Dedup.dfy` says what the
log of a batch is with and without deduplication, and that both roll back alike; `Background.Execute`
produces that log.

*Limits*. Four promises hold only under a condition. Each has an exact condition, or a theorem about all
states in which it fails, and a concrete run for an undo log of any size:

- In the commit branch, recovery clears the undo log before the recovered tail is durable. A second crash
  in that window (`TailLost`) leaves the batch in memory with the tail before it, so that the batch runs
  twice; outside the window the recovered tail is right (`ExactlyOnce`). `Limits.dfy` reaches the window
  from every committed batch.
- The scan stops at the first null entry and clear only zeroes what the scan counted. After any crash
  recovery itself still ends in the right state, but that state has the invariant again if and only if no
  entry survived past the first null one (`RecoveryEnds`). A surviving commit record is taken for that of
  a later batch (`StaleEntries.dfy`), and a surviving block is rolled back over committed memory
  (`StaleBlocks.dfy`). A run may therefore go on only after a crash that left no such entry
  (`CleanCrash`); the last crash of a run is arbitrary.
- A write that straddles committed and fresh memory is logged with its fresh block, which the committed
  table does not manage. If the batch commits, nothing happens; if it crashes before, recovery's assertion
  fails. Recovery gets to its end if and only if it accepts the log or its table manages every scanned
  entry (`RecoveryEnds`). That is so after every run without such writes (`NeverAborts`), and not so after
  the record of any such write (`MixedWriteAborts`).
- The zeros of undo_log_clear are ordered by nothing but the drain at their end. The log of a committed
  batch is cleared safely if the zero of entry 0 persists first, and that of a rolled back batch if no
  saved block is zeroed while its entry is still live; runs of the protocol allow every order within that.
  `ClearOrder.dfy` states, for any set of zeros that may have persisted, exactly when memory is still right
  after a crash, and shows a committed command lost otherwise.

## Model

| member | source | states |
|---|---|---|
| `Durability.ExactlyOnce` | src/bg.cc:83-101 | For every run with any number of clean crashes and a further crash anywhere, clean or not: outside the tail window recovered memory is the fold of the commands before the recovered tail, and replaying from it gives the fold of all commands; inside the window memory is the fold up to the batch's tail and the recovered tail is the smaller one before it. Nothing behind the published tail is replayed. |
| `Durability.BatchAtomic` | src/undo/undo_log.h:316-353 | At every crash point recovery yields exactly the memory before the current batch, with the tail before it, or after it, with the tail after it; in the tail window the memory is the one after the batch and the tail the one before it. |
| `Durability.TableDecides` | src/undo/mem_region/mem_region.cc:234-290 | In normal operation recovery would load the complete new table once the commit record is durable and the table without the batch's new memory before; during recovery, the table that this recovery loads. It covers exactly the memory that the recovered commands manage - those before the tail when recovery rolls forward, those before the batch when it rolls back. No new-table file exists when a batch starts. |
| `Durability.TableStays` | src/undo/undo_log.h:316-330 | No step of recovery, no early persistence and no further crash changes the table that the crash decided. |
| `Durability.Keeps` | src/undo/undo_log.h:175-354 | Every step of the protocol, of persistence and of the crash keeps the invariant. |
| `Durability.EveryPoint` | src/undo/flush.h:12-19 | The durable state is recoverable at every point of every run. |
| `Durability.RecoveredView` | src/undo/undo_log.h:312-354 | The memory and table that recovery arrives at show the fold of the commands included in them. |
| `Durability.AlwaysSafe` | src/undo/undo_log.h:312-354 | In every state that satisfies the invariant, the durable part alone determines the recovered memory, and tails are ordered. |
| `PersistSteps.KeepsEvict` | src/undo/flush.h:12-19 | Persisting any subset of bytes, entries and the tail line early breaks nothing; in the clear of a committed log, provided the zero of entry 0 is the first zero to persist. |
| `PersistSteps.KeepsEvictHalf` | src/undo/undo_log.h:125-133 | The same for the half lines of the clear's streaming stores, in any order within the stated limit. |
| `MemoryModel.EveryMixture` | src/undo/flush.h:12-19 | Outside the clear of a committed log, any mixture of old and new bytes, entries and tail may be what is durable next: the theorems are up against every one of them. |
| `MemoryModel.EveryLogMixture` | src/undo/flush.h:12-19 | The same for the bytes of the command log. |
| `MemoryModel.EveryFilePrefix` | src/undo/mem_region/mem_region.cc:234-259 | The table files may become durable as a whole, or the new table up to any row. |
| `MemoryModel.CrashForgets` | src/fg.cc:98-109 | Two systems with the same durable bytes and files go on from the same state after a crash. |
| `MemoryModel.EveryClearOrder` | src/undo/undo_log.h:125-133 | In a clear, every set of zeroed heads and blocks within the stated limit is what some run leaves. |
| `MemoryModel.NeedsFlush` | src/undo/flush.h:12-19 | Over any run, a byte whose line is not flushed does not become durable unless it is evicted, however often the code drains. |
| `MemoryModel.StoreCancels` | src/undo/flush.h:12-19 | A flush issued before a store does not cover it: the next drain leaves the old byte durable. |
| `MemoryModel.EntryStoreCancels` | src/undo/flush.h:12-19 | The same for an entry of the undo log. |
| `MemoryModel.LogNeedsFlush` | src/internal.h:50-55 | The same two facts for the bytes of the command log, for every step of the producer. |
| `BatchSteps.EntrySaves` | src/undo/undo_log.h:210-216 | Storing the address of a copied block turns it into an entry whose bytes undo the block, for the first entry of each byte. |
| `BatchSteps.KeepsDrainRecord` | src/undo/undo_log.h:217-230 | The drain makes all entries of the record call durable, in whatever order they persisted before. |
| `BatchSteps.KeepsWriteLogged` | src/undo/instrument.cc:82-91 | A write whose blocks are all logged keeps both memory views undoable. |
| `BatchSteps.KeepsWriteSkipped` | src/undo/undo_log.h:361-451 | A write that skips undo_log_record, because its blocks have durable entries, keeps both memory views undoable. |
| `BatchSteps.BlocksManagedIff` | src/undo/undo_log.h:338-339 | For every write to managed memory, in one region or across several: the committed table manages all its blocks, as the assertion of the rollback loop demands, iff no byte of the write is fresh. |
| `BatchSteps.BlockManaged` | src/undo/undo_log.h:182-198 | Every block of a write to memory that is not fresh lies in the committed table. |
| `CommitSteps.FlushedDurable` | src/undo/undo_log.h:252-269 | Once every line of a logged block or fresh byte is flushed, the drain makes durable memory show the whole batch. |
| `CommitSteps.KeepsStoreCommit` | src/undo/undo_log.h:271-274 | Storing the commit record behind durable data leaves either outcome recoverable. |
| `CommitSteps.KeepsClearCommitted` | src/undo/undo_log.h:285-298 | Every store of the clear keeps the committed state recoverable, whichever of the zeros stored so far have persisted after that of entry 0. |
| `CommitSteps.KeepsEndClear` | src/undo/undo_log.h:131-132 | The drain at the end of the clear makes every zero durable, and the next batch can start. |
| `RecoverSteps.ScanOpen` | src/undo/undo_log.h:152-166 | From a log null beyond its length, the scan of any partly persisted log finds a prefix of the entries that includes all durable ones and no commit record. |
| `RecoverSteps.KeepsUndo` | src/undo/undo_log.h:332-346 | One turn of the rollback loop keeps the state recoverable, so a crash anywhere in it can start over. |
| `RecoverSteps.UndoneShows` | src/undo/undo_log.h:332-347 | When the loop is done, memory shows the state of the last commit. |
| `UndoEntries.RollbackByte` | src/undo/undo_log.h:332-346 | Rollback leaves unsaved bytes alone and gives each saved byte the value in the first entry for it, for any entries, repeated or not. |
| `UndoEntries.RollbackRestarts` | src/undo/undo_log.h:332-347 | Rolling back again from any mixture of persisted bytes of an interrupted rollback gives the same memory. |
| `UndoEntries.RollbackRestores` | src/undo/undo_log.h:191-229 | A byte has its old value after rollback if it is unsaved and unchanged, or its first entry holds the old value. |
| `UndoEntries.DedupRollsBackSame` | src/undo/undo_log.h:199-203 | The deduplicated log rolls any memory back to the same state as the full log. |
| `UndoEntries.DedupIs` | src/undo/undo_log.h:199-203 | Deduplication leaves exactly the first entry for each block that has one and is not known yet, each once and in order. |
| `UndoEntries.FirstsRollBackSame` | src/undo/undo_log.h:332-346 | Two logs that save the same blocks with the same first entries roll every memory back to the same state. |
| `UndoEntries.SkipKeepsFirsts` | src/undo/undo_log.h:199-203 | A write that leaves out any blocks the log already has gives the log the same first entries as one that leaves out none. |
| `Dedup.BatchDedup` | src/undo/undo_log.h:195-229 | Over all the writes and mmaps of a batch, the entries appended with deduplication are the deduplicated form of those appended without. |
| `Dedup.BatchRollsBackSame` | src/undo/undo_log.h:195-229 | Hence both logs of a batch roll whatever memory it leaves back to the same state. |
| `UndoEntries.Scan` | src/undo/undo_log.h:156-165 | The recovered length is the index of the first null entry. |
| `Bytes.BlockOnOneLine` | src/undo/undo_log.h:253-254 | A logged block does not straddle a cache line. |
| `Bytes.SameLineIff` | src/undo/flush.h:12-13 | Two addresses share a line iff they lie in the same 64 aligned bytes. |
| `Application.ReplaySplits` | src/fg.cc:133-134 | Replaying a suffix on top of a prefix is replaying the whole history. |
| `WholeSystem.EndToEnd` | src/fg.cc:142-162 | At every crash point outside the tail window, the bytes in persistent memory suffice: recovery gives the fold up to the recovered tail, the replay loop reads exactly the rest out of the log, and together they give the fold of every durably committed command. |
| `WholeSystem.Fifo` | src/internal.h:66-88 | For every interleaving, consume returns no entry iff everything published is consumed, and otherwise exactly the next committed command and its following offset; its assertions never fail. |
| `WholeSystem.NothingLost` | src/fg.cc:222-245 | The durably committed commands only ever grow, over any continuation with crashes, and published heads are durable. |
| `WholeSystem.KeepsAll` | src/internal.h:50-62 | Every step of either process and every crash of both keeps the composed invariant. |
| `WholeSystem.LogReplays` | src/fg.cc:153-162 | From any tail in the live part of an intact log, the replay loop executes exactly the entries up to the head, in order. |
| `WholeSystem.CrashRingInv` | src/fg.cc:105-108 | Restarting the log from the durable head and tail keeps all entries between them intact. |
| `Recovery.RecoveryEnds` | src/undo/undo_log.h:312-354 | After any run and any crash, clean or not: recovery's own steps lead to a state that shows the recovered view, with table and tail durable and published and with exactly the scanned entries cleared, if the log is accepted or the table manages every scanned entry; otherwise no run of them gets to an end. Outside the tail window that state has the invariant iff no entry survived past the first null one. |
| `Recovery.NeverReady` | src/undo/undo_log.h:332-339 | With a scanned entry outside the loaded table, no run of recovery's steps gets to its end. |
| `Recovery.RestartInv` | src/undo/undo_log.h:152-166 | After any crash outside the tail window, what recovery starts from has the invariant once stale entries are disregarded. |
| `Managed.NeverAborts` | src/undo/undo_log.h:338-339 | After any run in which no write straddles committed and fresh memory, with any number of crashes, the assertion holds for every scanned entry. |
| `Managed.KeepsManaged` | src/undo/undo_log.h:182-198 | Every step other than starting to record such a write keeps all logged blocks in the committed table. |
| `MixedWrites.MixedWriteAborts` | src/undo/undo_log.h:182-189 | In every reachable state in front of a write that straddles committed and fresh memory, a crash after its undo_log_record leaves an entry on which recovery aborts. |
| `MixedWrites.StraddlerAborts` | src/undo/undo_log.h:338-339 | A concrete run, an mmap and a write across the boundary, after which this happens. |
| `ClearOrder.CommittedClearIff` | src/undo/undo_log.h:125-133 | A crash in the clear of a committed log, whatever zeros have persisted: memory shows the batch iff no head has persisted, or that of entry 0 has, or the entries before the first zeroed one save nothing that the batch changed; the record is accepted iff no head has persisted, which decides the tail. |
| `ClearOrder.UndoneClearIff` | src/undo/undo_log.h:347-349 | A crash in the clear after a rollback, whatever zeros have persisted: memory shows the last commit iff every block that was zeroed under a live entry was the first to save only zeros. |
| `ClearOrder.CounterLosesCommand` | src/undo/undo_log.h:294-297 | A concrete run to a clear in which, if the record's zero persists first, a committed command is lost although its tail is durable and published. |
| `ClearOrder.CounterLosesBlock` | src/undo/undo_log.h:347-349 | A concrete run to a clear in which, if a saved block is zeroed before its address, a crash zeroes committed memory. |
| `Limits.TailWindowReachable` | src/undo/undo_log.h:316-327 | From every state with a fresh commit record, a crash, a recovery and a second crash lose the batch's tail. |
| `Limits.CounterRunsTwice` | src/bg.cc:125-136 | A concrete run with two crashes, for an undo log of any size, in which the only committed command is executed twice. |
| `StaleEntries.StaleRecordAccepts` | src/undo/undo_log.h:157-165 | Whenever the entries of a batch reach a stale commit record, a crash after the write is recovered as if the batch had committed, with the tail of the stale record. |
| `StaleEntries.StaleEntryCorrupts` | src/undo/undo_log.h:332-346 | Whenever they reach a stale entry for another block, a crash rolls that block back to the stale contents. |
| `StaleEntries.CounterCountsWrong` | src/undo/undo_log.h:316-327 | A concrete run, for a log of any size: a clear cut short, a recovery, and a crash in the next command make recovery keep and replay the same command. |
| `StaleBlocks.CommittedBlockLost` | src/undo/undo_log.h:217-219 | A concrete run: an entry that persisted before its predecessors survives recovery and two whole batches, and then rolls a committed block back. |
| `StaleBlocks.BatchLeads` | src/bg.cc:83-101 | A batch of one write runs through in the code's order, from any state at rest, and leaves memory, tails and every entry behind its commit record as stated. |
| `Ring.Align` | src/internal.h:13-15 | The next multiple of the cache line size. |
| `Ring.RoomIsFreeSpace` | src/fg.cc:194-199 | The spin condition measures exactly the free space between virtual head and tail. |
| `Ring.ReserveFeasible` | src/fg.cc:179-199 | Some tail lets an aligned length through iff it is not the case that SIZE - len < head <= len. |
| `Ring.HalfAlwaysFits` | src/fg.cc:187-199 | Up to half the log always fits once the ring is drained. |
| `Ring.MoreThanHalfMaySpin` | src/fg.cc:187-199 | The bound is tight: one line more can spin for ever. |
| `Ring.TextEntry` | include/libpsm/psm.h:64 | What the log asks of entries can be met: a line of text is one iff it does not start with NUL and is shorter than the log. |
| `RingInvariant.ConsumeFinds` | src/internal.h:66-88 | Consume at an entry's offset returns exactly that entry and the offset after it, through at most one skip; tail > head holds at every padding marker. |
| `RingInvariant.KeepsRing` | src/fg.cc:178-245 | Every producer step and every eviction keeps all entries between the known tail and the end of the log intact, and those up to the stored head durable. |
| `RingInvariant.AppendAll` | src/fg.cc:194-212 | Reserving behind a known tail overwrites no live entry or marker and keeps the log shorter than a lap. |
| `RingInvariant.KeepsDrainBuf` | src/fg.cc:233-242 | Draining the flushed span makes every pending entry durable. |
| `RingInvariant.OffsetNamesPosition` | src/internal.h:66-72 | In the live part of the log different positions have different offsets. |
| `PsmLog.Producer.Reserve` | src/fg.cc:194-200 | The spin loop ends with room iff the known tail or one of the loaded ones leaves enough. |
| `PsmLog.Producer.Append` | src/fg.cc:184-213 | Offset arithmetic, marker and entry are those of appending to the queue; the log stays valid. |
| `PsmLog.Producer.FlushSpan` | src/fg.cc:233-240 | The circular flush loop terminates and covers every line of every pending entry and marker. |
| `PsmLog.Producer.Commit` | src/fg.cc:222-245 | Afterwards everything appended, and the head behind it, is durable and published; with push_only because every pushed line is already flushed. |
| `PsmLog.Producer.Push` | src/fg.cc:216-220 | Succeeds iff the known tail or one of the loaded ones leaves enough room; then appends the entry, and otherwise nothing; everything pending stays flushed. |
| `PsmLog.Producer.UpdateHead` | src/internal.h:50-55 | The stored, durable and published heads move in this order, one per step, and end equal: at every step the published head names a durable one. |
| `PsmLog.Producer.StoreHead` | src/internal.h:51-52 | Stores the new head in the log; the published head stays the old one. |
| `PsmLog.Producer.PublishHead` | src/internal.h:54 | Publishes the stored head, which the drain has made durable. |
| `PsmLog.AppendKeepsFlushed` | src/fg.cc:204-219 | Appending cancels no earlier flush of a pending entry's line. |
| `PsmLog.AppendOffsets` | src/fg.cc:185-212 | Offsets computed modulo the size are those of the virtual positions. |
| `PsmLog.SpanCovers` | src/fg.cc:233-240 | The lines of the circular span include those of all pending entries and markers. |
| `PsmLog.ReplayLog` | src/fg.cc:153-162 | The replay loop returns exactly the entries between tail and head. |
| `UndoLog.Background.Record` | src/undo/undo_log.h:175-231 | Fresh writes are not logged; otherwise exactly the blocks the write touches (minus those in the table) are appended with their contents and drained; returns whether the threshold is exceeded. |
| `UndoLog.Background.Write` | src/undo/undo_log.h:361-451 | With or without the inlined check that skips record_write, the write leaves the same memory, log and flag: the blocks that are neither fresh nor in the table are logged. |
| `UndoLog.Background.CanSkip` | src/undo/undo_log.h:361-451 | The check lets a write skip record_write only if its blocks are logged and the call would append nothing. |
| `UndoLog.Background.RecordWrite` | src/undo/instrument.cc:82-91 | The should_commit flag is sticky and is set whenever the log is over the threshold. |
| `UndoLog.Background.Map` | src/undo/instrument.cc:376-389 | A new region is appended, its bytes are fresh, and the table is marked as modified. |
| `UndoLog.Background.Execute` | src/bg.cc:58-62 | Performs the writes and mmaps of a command in order. With or without deduplication the log ends up with the first entries of the full log for these actions, also when the address table is full; while the table has room, the entries appended are exactly those of the deduplicated (or full) log. |
| `UndoLog.Background.FlushLogged` | src/undo/undo_log.h:256-258 | The line of every logged block is flushed. |
| `UndoLog.Background.FlushRange` | src/undo/undo_log.h:259-268 | Every line that meets a fresh range is flushed. |
| `UndoLog.Background.PersistTable` | src/undo/mem_region/mem_region.cc:234-259 | Before data is flushed, the durable table files hold the complete table: new_table.dat if the table was modified, table.dat otherwise. |
| `UndoLog.Background.CommitBatch` | src/undo/instrument.cc:124-137 | Ends with a durable commit record for the tail, reached by a run of the protocol. |
| `UndoLog.Background.UpdateTail` | src/internal.h:57-62 | The stored, durable and published tails move in this order, one per step, and end equal to the consumer's tail. |
| `UndoLog.Background.Clear` | src/undo/undo_log.h:125-133 | Zeroes the entries in program order and drains them, with any order of persistence within the stated limit, and leaves exactly those entries cleared, an empty address table and an empty fresh set. |
| `UndoLog.Background.CleanUp` | src/undo/instrument.cc:140-150 | Installs the new table, clears the log and starts the next batch at the tail. |
| `UndoLog.Background.ConsumeOne` | src/bg.cc:83-101 | One batch in the code's order advances tail, published tail and durable tail by one command, leaves memory showing exactly the commands before it, an empty log and both flags reset. |
| `UndoLog.Background.ScanEntries` | src/undo/undo_log.h:156-165 | The scan loop computes `Scan`. |
| `UndoLog.Background.RollBack` | src/undo/undo_log.h:329-349 | The rollback branch gets to its end iff the table manages every entry, and then is in a consistent state at the durable tail with its entries cleared. |
| `UndoLog.Background.RecoverAll` | src/undo/instrument.cc:521-526 | After any crash outside the tail window, clean or not, recovery gets to its end iff its assertions hold; then memory shows exactly the commands before the recovered tail, which is durable and published, and the scanned entries are cleared; the class invariant holds again iff no entry survived past the first null one. |
| `UndoLog.FirstStart` | src/undo/undo_log.h:166-168 | A first start is a state on which the process can be built. |
| `UndoLog.AfterCrash` | src/fg.cc:98-109 | What any crash outside the tail window leaves, stale entries included, is a state from which RecoverAll starts, with the recovered tail of the crash. |
| `UndoLog.SkippedLogsNothing` | src/undo/undo_log.h:361-451 | A write that the inlined check skips would have added no entry to the log. |
| `LoggedAddrs.Table.Insert` | src/undo/undo_log.h:91-122 | Returns false exactly for stored addresses, stores every other one while a slot is free, and leaves a full table alone. |
| `LoggedAddrs.Table.Clear` | src/undo/undo_log.h:128-130 | The table denotes the empty set. |
| `LoggedAddrs.EmptyMeansAbsent` | src/undo/undo_log.h:107-109 | An empty slot on the probe sequence proves that the address is nowhere in the table. |
| `LoggedAddrs.AllMissed` | src/undo/undo_log.h:104-121 | If all probes miss, the table is full and does not hold the address. |
| `LoggedAddrs.StoreFindable` | src/undo/undo_log.h:107-109 | Storing at the first empty slot keeps every stored address findable. |
| `LoggedAddrs.ProbeWraps` | src/undo/undo_log.h:106-114 | 64-bit wrap-around of the probe index does not change the slot. |
| `Probe.ProbesEverySlot` | src/undo/undo_log.h:99-116 | For every 64-bit address the LOGGED_ADDR_HASH_SIZE + 13 probes visit every slot. |
| `Probe.PerturbVanishes` | src/undo/undo_log.h:104-115 | perturb is zero after twelve shifts. |
| `Probe.GeoDivides` | src/undo/undo_log.h:114 | A power of two that divides 1 + 5 + ... + 5^(d-1) divides d. |
| `Probe.FullPeriod` | src/undo/undo_log.h:114 | i -> 5i + 1 modulo 16384 is a single cycle through all slots. |
| `FastPath.SkipsIff` | src/undo/undo_log.h:361-451 | The xor/shift/mask check skips exactly when the write stays in one block and the block's first slot holds it. |
| `FastPath.SlotOffset` | src/undo/undo_log.h:407-424 | The shifted and masked address is eight times the first slot of its block. |
| `Ranges.RangeSet.Insert` | src/undo/mem_region/ranges.h:27-54 | The result is sorted, strictly separated and denotes the union. |
| `Ranges.RangeSet.FindPoint` | src/undo/mem_region/ranges.h:56-63 | True iff the point is in the set. |
| `Ranges.RangeSet.Find` | src/undo/mem_region/ranges.h:65-77 | True iff every point of the query is in the set. |
| `Ranges.RangeSet.Remove` | src/undo/mem_region/ranges.h:79-111 | Exactly the points outside the removed range of those ranges that contain its first or last point remain. |
| `Ranges.CoalesceAll` | src/undo/mem_region/ranges.h:42-53 | The coalescing loop keeps the points and separates the ranges. |
| `Ranges.CoveredByOne` | src/undo/mem_region/ranges.h:65-77 | A nonempty query is covered iff one range of a separated vector includes it. |
| `Ranges.RemoveIsDifferenceIff` | src/undo/mem_region/ranges.h:89-107 | remove is set difference iff no nonempty range is disjoint from the removed one. |
| `Ranges.RemoveForgets` | src/undo/mem_region/ranges.h:89-107 | The input on which it is not: removing one of two ranges forgets the other. |
| `Regions.Manager.DoesManage` | src/undo/mem_region/mem_region.cc:87 | True for every covered address. |
| `Regions.Manager.FindOverlap` | src/undo/mem_region/mem_region.cc:89-98 | The first overlapping region, or -1 iff there is none; for nonempty ranges that is iff no region has a byte of it. |
| `Regions.Manager.Replace` | src/undo/mem_region/mem_region.cc:146-185 | Appends the region; regions stay pairwise apart and managed. |
| `Regions.Manager.Remove` | src/undo/mem_region/mem_region.cc:187-232 | Success iff one region has all bytes of the range, not managed iff none has any; on success the region is replaced by exactly the pieces before and behind the range, and coverage is the old one minus the range; otherwise the regions are unchanged. |
| `Regions.Manager.Recover` | src/undo/mem_region/mem_region.cc:32-71 | Rebuilds exactly the regions of the table file. |
| `Regions.SwapOutRest` | src/undo/mem_region/mem_region.cc:195-196 | Moving the last region into the removed one's place removes exactly its coverage. |
| `Regions.IncludesIff` | src/undo/mem_region/common.h:28-34 | does_include of a nonempty region holds iff all its bytes are in the other region. |
| `Regions.OverlapsIff` | src/undo/mem_region/common.h:36-38 | does_overlap_with of nonempty regions holds iff they share a byte. |
| `StreamingMemset.Memset` | src/undo/memset_nt_avx.cc:184-248 | Sets exactly the stated bytes to the low byte of `c` and leaves every other one alone; the recorded stores write exactly these bytes, every streaming one is aligned, and whole aligned lines use streaming stores of half a line only. |
| `LogBytes.ClearLog` | src/undo/undo_log.h:125-126 | The memset of undo_log_clear, on the bytes of the log, zeroes exactly the lines of the first entries and nothing else, by aligned streaming stores of half a line that write every one of these bytes; on entries that is `Cleared`. |
| `LogBytes.EntryIff` | src/undo/undo_log.h:32-38 | The bytes of a line and the entry in it determine each other. |
| `StreamingMemset.Small` | src/undo/memset_nt_avx.cc:117-178 | Overlapping stores set exactly the range, or one byte if its length is zero; together they write each of these bytes. |
| `StreamingMemset.ExactIff` | src/undo/memset_nt_avx.cc:187-198 | The call sets exactly its range, whatever memory holds, iff the length is positive or the destination is line-aligned. |
| `FileNames.NameDecodes` | src/undo/mem_region/common.h:40-52 | Names decode to the base and id they were made from. |
| `FileNames.NamesDiffer` | src/undo/mem_region/common.h:40-52 | Names are equal iff base and id are. |
| `FileNames.NameFits` | src/undo/mem_region/common.h:10-11 | Every name fits in the buffer with its terminator. |
| `FileNames.Name` | src/undo/mem_region/common.h:44-47 | Every name starts with mem_. |
| `FileNames.WriteHex` | src/undo/mem_region/common.h:55-71 | Writes exactly the hexadecimal digits and leaves the rest of the buffer alone. |
| `FileNames.MakeFileName` | src/undo/mem_region/common.h:40-52 | The buffer holds the name, which starts with mem_, and a terminating NUL. |

## Left out

Hypotheses under which the theorems hold:

- A run continues only after a crash that left no undo-log entry past the first null one; otherwise the promise is false (`StaleEntries.CounterCountsWrong`, `StaleBlocks.CommittedBlockLost`).
- A crash in the window between recovery's clear and its tail update ends the run; there the promise is false (`Limits.CounterRunsTwice`).
- While the log of a committed batch is cleared, the zero of entry 0 is the first to persist, and after a rollback no saved block is zeroed while its entry is still live; otherwise the promise is false (`ClearOrder.CounterLosesCommand`, `ClearOrder.CounterLosesBlock`), with the exact condition in `ClearOrder.CommittedClearIff` and `ClearOrder.UndoneClearIff`.
- The application is deterministic in the command and the visible memory, including the addresses that mmap returns; it writes to managed memory only; regions are block-aligned and not at address zero.
- The undo log never fills: there is room for the entries of the commands of a batch and the commit record.
- Log entries do not start with NUL (`include/libpsm/psm.h:64`) and the consume function returns the pushed length whatever bytes follow the entry.
- System calls succeed, random file ids do not collide, and fresh region sizes fit in 32 bits; the early return after a failed munmap is not modelled.

Not in the model:

- munmap in end-to-end runs: `ranges::remove` forgets fresh ranges it does not touch, so only the exact effect of each structure is proved (`Ranges.RemoveIsDifferenceIff`, `Ranges.RemoveForgets`, `Regions.Manager.Remove`).
- DynamoRIO instruction rewriting, register handling and memory queries; only "record happens before the write" and the arithmetic of the inlined check are modelled.
- Skipping of stack writes, a heuristic about the application.
- Checkpointing, setjmp, fork, pipes and core pinning, and with them the no-persist and checkpoint modes of the background loop.
- The system call wrappers and string routines in src/undo/my_libc.
- Scatter-gather entries, whose producer is not in the repository, benchmarks, timing and logging.
- Re-inserting scanned entries into the address table in undo_log_init; both branches of recovery clear the table before it is used.
- Tails in the protocol machine and in the commit record are numbers of commands; `RingInvariant.OffsetNamesPosition` ties them to the offsets that the code stores.
- Eviction of bytes is coarser in the model than in hardware: bytes of one line may become durable independently, which allows more crashes than cache lines do.
- Integers are unbounded except where the code relies on wrap-around, masks or 64-bit width (probe index, inlined check, file names); ranges and regions do not wrap around the address space.
- PsmLog.Producer.Reserve: takes the tails its loads return as a parameter and ends when they do, because whether the spin loop ever ends depends on the consumer; `Ring.ReserveFeasible` says when it can.
- PsmLog.Producer.Push: appends nothing if the loads end without room, where the source would go on spinning.
- UndoLog.Background.RecoverAll: starts from a crash outside the tail window; recovery after a crash inside it is in `Recovery.RecoveryEnds` only.
- UndoLog.Background.ConsumeOne: one command per batch, the compiled default; larger batches are covered by the protocol machine only.
- UndoLog.Background.UndoEntry: does_manage is the machine's `Covered` on the recovered table; that the manager's own test is true for every covered address is `Regions.Manager.DoesManage`, which the class does not call.
- UndoLog.Background.Take: after each step any memory, log entries and the tail may be evicted; early writeback of the table files is part of the machine's runs (SyncDisk, SyncFile) but does not happen between the class's own steps.
- Regions.Manager.Replace: the assertion that nothing overlaps is a precondition, as it is a fatal error in the source.
