# Verified model of the desktop chat client's stateful cores

A Dafny model of the parts of the chat client that keep state, with proofs of what they are for.
`dafny verify dfyconfig.toml` checks everything.

**Block store** (`Codec`, `Directory`, `BlockTable`, `ChainWrite`, `StoreSpec`, `Vault`, `Reopen`,
`Conservation`, `CrashRuns`, `TornChains`, `LostHeads`, `PendingWrites`, `KilledRuns`, `UnsyncedWrites`,
`RecycledIds`, `Scan`, `LocalStorage`). The disk is a table of blocks, each never written or holding a
type, tag, next link and data. A crash is a power failure: it keeps everything before the last sync,
cuts the later writes at any point, and keeps any subset of those. A killed process, or a write that
throws, leaves its writes in the cache instead; `KilledRuns` (on `LostHeads` and `PendingWrites`) shows
exactly when the next power failure is then safe, and `UnsyncedWrites` what is without durable mode;
`TornChains` follows a chain through blocks that may have been lost. `StoreSpec` says what
each operation does to disk, free stack and indexes; `Vault` proves the invariant and the refinement to a
plain map of records and named roots; `Reopen`, `CrashRuns` and `Conservation` prove what survives
closing, crashing and recycling. `LocalStorage` is the object itself, with fields updated in place,
every method proved against those functions; a sealed block opens only at the number it was sealed for.

**Clients of the store.** `MessageCache` keeps replaceable snapshots under roots of a `LocalStorage`
object; `OpenStores` is its list of eight open stores. `MessageHistoryCache` merges live messages into
fetched pages. `AuthStorage` is the commit protocol of the saved login; its writes may fail, its
removals may fail unnoticed, its index may fail to open or to be read once, and a crash may fall between any two of them.

**Sending.** `SendQueue` is the single-flight queue with its upload tasks; `UploadCancellation` the
race between cancel and commit, over all interleavings of the sections that hold the mutex.

**The message list.** `MessageOrder` (on `StableSort`) restores batches and sorts by time;
`MessageList` and `MessagingModel` refresh, extend and delete rows of three parallel lists in place,
emitting the notifications a mirror replays.

**Voice recorder.** `VoiceRecorder` is a machine with a stack of waiting calls: wherever a signal is
emitted, observers may call any public method, to any depth, before the waiting call goes on. Over every
run it says what is announced and why; from every quiet state, what each call leads to by itself.

Where the code does not meet a promise in general, the condition is part of the result: growth by two
blocks (`CrashSafeExactly`), removal of a rooted record (`CrashAtomicExactly`), writing after an unsynced
reopening (`KilledRunSafeExactly`), unsynced writes of several blocks (`RecordAtomicExactly`), widths of
the directory fields (`DirectoryRoundTrip`), a root without its record (`HalfRemovedMisleadsExactly`),
identities that differ (`LiveMessagesKeptExactly`), an active name that is missed
(`FailedSaveSparesExactly`), and observers that start or cancel at the wrong moment
(`NestedStartDropsSession`, `LateCancelBreaksIdle`). The comment in
src/core/storage/message_cache.hpp:19 promises batches in insertion order; they come in the order of
their ids, which is another one as soon as an id is used again (`ListedLastExactly`,
`RemovedIdListedEarly`).

## Model

| member | source | states |
|---|---|---|
| CrashRuns.CrashSafeExactly | src/core/storage/local_storage.cpp:629-672 | in durable mode, every crash inside an operation (any cut of its writes, any subset of those since the last sync) leaves a file the scan accepts, and with root names and counts in their widths one that opens, if and only if each record it writes adds at most one block past the end of the file |
| ChainWrite.GrowthByTwoLeavesHole | src/core/storage/local_storage.cpp:644-653 | a chain that grows the file by two or more blocks is written highest block first, and a crash that keeps only that write leaves an unwritten hole below it that no reopening accepts |
| CrashRuns.CrashThenReopen | src/core/storage/local_storage.cpp:751-788 | after a crash inside insert, update, remove, setRoot or removeRoot the file opens, and opens to all records and roots as before or as after the operation, or, for the removal of a rooted record, without the record but with its root |
| CrashRuns.CrashAtomicExactly | src/core/storage/local_storage.cpp:774-825 | an operation is atomic, every crash opening to the old or the new records and roots, if and only if it does not remove a record that a root names |
| CrashRuns.HalfRemovedOpens | src/core/storage/local_storage.cpp:784-824 | a crash between the two parts of such a removal does happen, opens, and leaves the root without its record |
| CrashRuns.HistoryIsSafe | src/core/storage/local_storage.cpp:502-592 | over every run of operations, power failures inside operations and reopenings the store stays exact, and each event does to the map of records and roots only what it may |
| CrashRuns.HappeningPossible | src/core/storage/local_storage.cpp:502-592 | from every exact store each such event has an outcome |
| CrashRuns.RecordSurvives | src/core/storage/local_storage.cpp:502-555 | a record that no operation in the run updates or removes keeps its tag and bytes through every power failure and reopening |
| CrashRuns.CompletedSurvives | src/core/storage/local_storage.cpp:644-671 | in durable mode a completed operation leaves nothing unsynced: every power failure after it leaves exactly the blocks it wrote |
| KilledRuns.KilledRunSafeExactly | src/core/storage/local_storage.cpp:502-555 | an operation killed at any point, a reopening on what the cache shows, the next operation, and whether a sync comes between them: every power failure during the next operation leaves each record as one of its versions, if and only if no head was pending at the kill, or nothing is written past it before the next sync and, where its loss brings back the old head, the chain of that head reads as a version of the record whichever new writes are lost and has lost no block to a new head or to the cut at the end of the file |
| KilledRuns.SparedRunLosesNothing | src/core/storage/local_storage.cpp:502-555 | for that it is enough that the next writes before a sync go neither to the old chain of the pending head nor past the end it marks, and that the cut leaves the old chain whole |
| KilledRuns.UncutRunLosesNothing | src/core/storage/local_storage.cpp:502-555 | for any operation killed at any point, syncing first is enough where the scan cuts nothing off |
| KilledRuns.SyncedRunReopens | src/core/storage/local_storage.cpp:502-592 | when the reopened store is synced before it is written and the run loses nothing by the condition above, the file opens after every power failure, and only to the records and roots from before or after the killed operation or the next one, or to those with a rooted record half removed |
| KilledRuns.UnsyncedReopenLosesFile | src/core/storage/local_storage.cpp:751-772 | in every store without free blocks and with a chain that does not end the file: shrinking that record to one block, being killed before the sync, reopening and inserting lets a power failure leave a file the scan rejects |
| KilledRuns.CutLosesFile | src/core/storage/local_storage.cpp:537-548 | when the chain ends the file the reopening cuts it off, and a power failure that keeps the cut but not the shrinking write leaves a file the scan rejects, whatever was to come next |
| KilledRuns.SyncMatters | src/core/storage/local_storage.cpp:502-555 | there is a run of the first kind, safe exactly if the reopened store is synced before it is written |
| KilledRuns.SyncNotEnough | src/core/storage/local_storage.cpp:537-548 | there is one of the second kind, which no later sync makes safe |
| KilledRuns.KilledIsCrash | src/core/storage/local_storage.cpp:629-672 | as the cache shows it, a killed operation leaves what a crash inside it can leave |
| PendingWrites.KilledQuiet | src/core/storage/local_storage.cpp:629-672 | at any point of any durable operation, while the last write is not that of an unsynced head, whatever of the pending writes is lost the file has the same records in the same blocks |
| PendingWrites.KilledLoud | src/core/storage/local_storage.cpp:629-672 | while it is, everything before that head is synced and holds the record as before the operation |
| LostHeads.LateSafeExactly | src/core/storage/local_storage.cpp:502-555 | the same condition for one lost head alone: over a file reopened with it, cut, and written up to a sync, it is exact for every image |
| LostHeads.OverwrittenNotSound | src/core/storage/local_storage.cpp:528-533 | a head written into a chain that another head still links makes the scan reject the file |
| TornChains.TornMends | src/core/storage/local_storage.cpp:521-534 | a head whose chain reads as accepted bytes whichever unsynced continuations are lost has them in every file a power failure leaves, all other records unchanged |
| TornChains.TornFails | src/core/storage/local_storage.cpp:521-534 | if its chain does not, one choice of lost writes leaves a file that the scan rejects or that holds other bytes |
| UnsyncedWrites.RecordAtomicExactly | src/core/storage/local_storage.cpp:629-672 | without durable mode a record write is atomic, every crash before the next sync leaving a file that scans with exactly the old or the new records, if and only if the new head is followed to the whole new or old bytes whichever of the further blocks hold what was there before |
| UnsyncedWrites.OneBlockReads | src/core/storage/local_storage.cpp:629-672 | that holds for a record of one block, and fails whenever the second block held no continuation before |
| UnsyncedWrites.WriteAtomicExactly | src/core/storage/local_storage.cpp:629-672 | the write is atomic with each record in its own blocks if and only if the record takes one block or all its further blocks hold what is written already |
| UnsyncedWrites.InsertAtomicExactly | src/core/storage/local_storage.cpp:674-692 | both conditions for inserts, the one on records and the one on records in their own blocks |
| UnsyncedWrites.UpdateAtomicExactly | src/core/storage/local_storage.cpp:751-772 | both for updates |
| UnsyncedWrites.OperationsKeepCleanTags | src/core/storage/local_storage.cpp:644-653 | no operation gives a continuation a tag, which the condition on own blocks asks of the file |
| RecycledIds.SavesSpareExactly | src/core/storage/message_cache.cpp:140-164 | a save under a new root changes what another root shows if and only if that root has lost its record and the allocator hands out its id next |
| RecycledIds.HalfRemovedMisleadsExactly | src/core/storage/local_storage.cpp:811-824 | after a crash inside the removal of a rooted record and a reopening, the next save under a new root shows under the stale root too if and only if no block below the removed record is free |
| RecycledIds.MisleadingRun | src/core/storage/local_storage.cpp:811-824 | such a run exists, from an empty file |
| RecycledIds.NextIsLowest | src/core/storage/local_storage.cpp:550-554 | a store that was just opened allocates the lowest block no record uses |
| RecycledIds.ListedLastExactly | src/core/storage/local_storage.cpp:170-184 | a new record is listed last under its tag if and only if its id is above all others of the tag |
| RecycledIds.FullStoreListsLast | src/core/storage/local_storage.cpp:492-500 | it is while nothing is free |
| RecycledIds.RemovedIdListedEarly | src/core/storage/local_storage.cpp:804-809 | after the removal of a record of one block the next record takes its id and is listed before all later ones |
| RecycledIds.GivenUpTakenBack | src/core/storage/local_storage.cpp:762-772 | the blocks an update gives up, and those an unrooted record gives up with its head, are handed out again from the last backwards |
| Vault.ExecInv | src/core/storage/local_storage.cpp:674-825 | every operation keeps the whole invariant: blocks 1..n are the heads, one acyclic chain each, and a duplicate-free free stack; head and tag indexes agree with the blocks; one directory record holds exactly the roots |
| Vault.ExecRefines | src/core/storage/local_storage.cpp:125-225 | each operation on blocks, chains, free stack and directory is exactly one step of a plain map from ids to (tag, bytes) with named roots, an insert using an id not in use |
| Vault.RunRefines | src/core/storage/local_storage.cpp:125-225 | every run of the store is a run of that plain map |
| Vault.UntouchedRecordStays | src/core/storage/local_storage.cpp:137-151 | get after any run returns the last bytes stored under the id, whatever is done to other ids, recycled blocks included |
| Vault.RootsStayLive | src/core/storage/local_storage.cpp:197-225 | after every run without a crash each root names an existing record |
| StoreSpec.InsertKeeps | src/core/storage/local_storage.cpp:674-692 | an insert takes its blocks from the free stack and the end of the file, adds one record and leaves all others |
| StoreSpec.UpdateKeeps | src/core/storage/local_storage.cpp:732-772 | an update keeps the head block and tag, replaces the bytes, returns exactly the old continuations to the free stack and leaves all other records |
| StoreSpec.UnlinkKeeps | src/core/storage/local_storage.cpp:774-809 | the first part of a removal frees head and chain, drops the tag entry and leaves all other records |
| Conservation.BlocksConserved | src/core/storage/local_storage.cpp:233-243 | the block count is the number of free blocks plus the sum of chunks(length) over all records, the directory included |
| Conservation.ChainLength | src/core/storage/local_storage.cpp:705-711 | a chain with its head is never longer than the file, so the loop guards of getLocked and oldContinuations never fire |
| Reopen.ReopenAgrees | src/core/storage/local_storage.cpp:502-592 | scan and loadDirectory on the file of any store rebuild the same heads, tags, links and roots; the free set is the old one without the run of free blocks at the end of the file, which is cut off |
| Scan.FindHeads | src/core/storage/local_storage.cpp:521-534 | on an arbitrary readable block table the scan terminates and accepts exactly when every head owns a chain in range, of continuation blocks only, sharing no block with itself or another |
| Scan.FollowChain | src/core/storage/local_storage.cpp:528-533 | the inner loop fails exactly when the head has no such chain of its own |
| Scan.TrimEnd | src/core/storage/local_storage.cpp:537-545 | the cut at the end of the file is above the last block in use |
| Scan.StackFree | src/core/storage/local_storage.cpp:550-554 | the free stack holds exactly the complement of the heads and chains, the lowest block on top |
| BlockTable.LayoutUnique | src/core/storage/local_storage.cpp:521-534 | a block table has at most one assignment of chains to heads |
| BlockTable.PiecesFlatten | src/core/storage/local_storage.cpp:636-653 | cutting the data into blocks and joining the blocks gives the data back |
| BlockTable.PiecesCount | src/core/storage/local_storage.cpp:624-627 | the number of pieces is chunks(length), at least one for empty data |
| BlockTable.ChunksFormula | src/core/storage/local_storage.cpp:624-627 | the source formula, the rounded-up quotient and at least 1, is that number |
| ChainWrite.ChainCommits | src/core/storage/local_storage.cpp:629-672 | continuations last to first and then the head, written to unused blocks, put exactly this record in place and keep every other |
| ChainWrite.ChainCrash | src/core/storage/local_storage.cpp:629-672 | a crash while a chain is written leaves this record fully old or fully new and every other record alone |
| ChainWrite.FreeCommits | src/core/storage/local_storage.cpp:784-788 | overwriting a head with a free block removes exactly that record |
| Codec.LittleEndianReads | src/core/storage/local_storage.cpp:274-304 | reading what w32 or w64 wrote gives the value modulo the field width |
| Codec.LittleEndianWrites | src/core/storage/local_storage.cpp:274-304 | writing what r32 or r64 read gives the bytes back |
| Codec.PutLittleEndian | src/core/storage/local_storage.cpp:274-286 | the byte loop of w32 and w64 writes the digits of the value, lowest first, dropping what does not fit |
| Codec.GetLittleEndian | src/core/storage/local_storage.cpp:288-304 | the byte loop of r32 and r64 reads the number those digits stand for |
| Codec.LittleEndianDigit | src/core/storage/local_storage.cpp:274-286 | byte i of the field is digit i of the value to base 256 |
| Codec.BlockRoundTrip | src/core/storage/local_storage.cpp:454-490 | a block decodes to itself if and only if type, tag, next and length keep to their fields and the data fits |
| Codec.DecodedFields | src/core/storage/local_storage.cpp:473-490 | a plaintext is accepted only with a type up to 2 and a used length up to the capacity, and then its fields are in range |
| Codec.DecodedBlockEncodes | src/core/storage/local_storage.cpp:454-490 | what was decoded encodes to the same header and data bytes |
| Directory.DirectoryRoundTrip | src/core/storage/local_storage.cpp:557-622 | the directory record decodes to the roots it was written from if and only if every name length and the count fit in 32 bits and every id in 64 |
| Directory.DecodedFits | src/core/storage/local_storage.cpp:575-591 | whatever a directory record decodes to keeps to these widths |
| Directory.EncodedExactly | src/core/storage/local_storage.cpp:594-615 | byte for byte: the 32-bit count, and then for each root, in ascending order of the names, the 32-bit length of the name, the name and the 64-bit id |
| Directory.Write | src/core/storage/local_storage.cpp:594-615 | the loop over the sorted map writes that directory text |
| Directory.Read | src/core/storage/local_storage.cpp:568-591 | the length-checked parse reads it, or fails where a length check fails |
| LocalStorage.LocalStorage.Open | src/core/storage/local_storage.cpp:502-592 | opening succeeds exactly when the scan and the directory do, and a file that carries given records and roots opens to exactly those |
| LocalStorage.LocalStorage.ScanFile | src/core/storage/local_storage.cpp:502-555 | accepts exactly the files in which heads own disjoint chains, and rebuilds the indexes and the free stack from them |
| LocalStorage.LocalStorage.LoadDirectory | src/core/storage/local_storage.cpp:557-592 | takes the roots from the directory record with the lowest id, fails when it does not parse |
| LocalStorage.LocalStorage.WriteBlock | src/core/storage/local_storage.cpp:454-471 | the block of that number, and no other, becomes the one written; the file grows if needed |
| LocalStorage.LocalStorage.ReadBlock | src/core/storage/local_storage.cpp:473-490 | returns the block last written there, and fails on a hole, a moved or a malformed block |
| LocalStorage.LocalStorage.AllocIds | src/core/storage/local_storage.cpp:492-500 | takes the free stack from its top and then numbers past the end of the file |
| LocalStorage.LocalStorage.WriteChain | src/core/storage/local_storage.cpp:629-672 | issues exactly the writes and syncs of the chain, in order |
| LocalStorage.LocalStorage.GetLocked | src/core/storage/local_storage.cpp:694-730 | returns the record whole; no guard, type or read failure can occur on a store that keeps its invariant |
| LocalStorage.LocalStorage.OldContinuations | src/core/storage/local_storage.cpp:732-749 | returns exactly the chain of the record |
| LocalStorage.LocalStorage.Insert | src/core/storage/local_storage.cpp:125-135 | adds one record under an id that was not in use, and refuses the reserved tag |
| LocalStorage.LocalStorage.Update | src/core/storage/local_storage.cpp:143-151 | replaces the bytes of an existing record and keeps its tag, false for any other id and for the directory |
| LocalStorage.LocalStorage.Remove | src/core/storage/local_storage.cpp:153-162 | takes the record and every root that names it, false for any other id and for the directory |
| LocalStorage.LocalStorage.SetRoot | src/core/storage/local_storage.cpp:197-205 | sets one root to an existing record, refuses any other id |
| LocalStorage.LocalStorage.RemoveRoot | src/core/storage/local_storage.cpp:217-225 | takes that root only |
| LocalStorage.LocalStorage.Get | src/core/storage/local_storage.cpp:137-141 | the bytes of a record, none for an unused id; the encoded roots under the id of the directory |
| LocalStorage.LocalStorage.Ids | src/core/storage/local_storage.cpp:170-184 | the ids of the records with one tag, ascending, never the directory |
| LocalStorage.LocalStorage.RecordCount | src/core/storage/local_storage.cpp:227-231 | the number of records, the directory not counted |
| MessageCache.RunShowsLastSaved | src/core/storage/message_cache.cpp:125-228 | over every run from an empty store each page and the pending slot show exactly the last value saved there since the last clear |
| MessageCache.SavedReadsBack | src/core/storage/message_cache.cpp:140-164 | a save is read back under its root, changes what no other root shows and no record of another tag |
| MessageCache.RootOfInjective | src/core/storage/message_cache.cpp:66-69 | decimal page names differ from each other and from the pending name |
| MessageCache.DecimalNumber | src/core/storage/message_cache.cpp:66-69 | the page name is the decimal number of the page, without leading zeros |
| MessageCache.UnrootedInsert | src/core/storage/message_cache.cpp:75-96 | a plain save, and a snapshot save cut off before its root is set, shows nowhere and keeps what is shown |
| MessageCache.ClearedEmpties | src/core/storage/message_cache.cpp:207-228 | clear leaves no snapshot and every record of another tag; stopped part way it leaves each snapshot whole or gone |
| MessageCache.MessageCache.SaveSnapshot | src/core/storage/message_cache.cpp:140-164 | inserts and roots, or updates, is read back and leaves nothing unsynced; false without change when the root has lost its record |
| MessageCache.MessageCache.ClearAll | src/core/storage/message_cache.cpp:207-228 | removes every message record with its roots, and leaves nothing unsynced |
| MessageCache.MessageCache.ReadPage | src/core/storage/message_cache.cpp:166-173 | none for a page below 1, else what the root of the page shows |
| MessageCache.MessageCache.Read | src/core/storage/message_cache.cpp:98-123 | all batches, in the order of their ids |
| OpenStores.UsedIsRecent | src/core/storage/message_cache.cpp:46-64 | moving the used path to the front, and dropping the ninth, turns the eight most recently used distinct paths into the eight most recently used distinct paths |
| OpenStores.RecentOrdered | src/core/storage/message_cache.cpp:42-44 | the list runs strictly backwards in the last use of its paths |
| OpenStores.RecentDistinct | src/core/storage/message_cache.cpp:42-44 | it names every used path once |
| OpenStores.OpenStores.OpenStore | src/core/storage/message_cache.cpp:46-64 | at most eight entries with distinct paths, each store opened for its own path, the used one in front; on runs without a vanished file the eight most recent |
| OpenStores.OpenStores.CloseAll | src/core/storage/message_cache.cpp:230-234 | empties the list |
| AuthStorage.SaveIsAtomic | src/core/storage/auth_storage.cpp:153-180 | a save that completes is read back; cut off between any two file commits, with any of its removals failing, it leaves the old session or the new one |
| AuthStorage.FailedSaveChangesNothing | src/core/storage/auth_storage.cpp:164-171 | a save that reports failure leaves the session that is read as it was, unless it missed that its account is the active one |
| AuthStorage.FailedSaveSparesExactly | src/core/storage/auth_storage.cpp:153-171 | failing saves spare the session that is read if and only if they do not miss that their own account is the active one: an index that fails to open or to be read once, and then to be written, costs the active snapshot |
| AuthStorage.MigrationIsAtomic | src/core/storage/auth_storage.cpp:194-204 | moving a fixed-name snapshot to its account name, cut off anywhere, leaves the same session |
| AuthStorage.UpdateIsAtomic | src/core/storage/auth_storage.cpp:254-266 | an update, cut off anywhere, leaves the session as it was or as modified |
| AuthStorage.ClearImage | src/core/storage/auth_storage.cpp:232-246 | a clear cut off anywhere has changed nothing or put the logout marker in place; it gives up only when it sees an index that is not a name |
| AuthStorage.LoggedOutStays | src/core/storage/auth_storage.cpp:182-252 | once the logout marker is committed no read returns a session until a save succeeds, whatever snapshots and fixed-name files are left, over runs of reads, updates, clears, failing saves and crashes |
| AuthStorage.NameIdentifiesAccount | src/core/storage/auth_storage.cpp:37-47 | accounts with different user names or ids have different snapshot names, and without either there is none |
| AuthStorage.ReadExactly | src/core/storage/auth_storage.cpp:182-206 | the session that is read is the one of the active snapshot, if the name is its account, or without an index the one of the first fixed-name file there is |
| AuthStorage.SaveLeaves | src/core/storage/auth_storage.cpp:153-180 | the files after a save: its snapshot, its name in the index, no snapshot of the name it saw before and no fixed-name ones, but for removals that failed, and everything else as it was |
| AuthStorage.SameAccountKeepsIndex | src/core/storage/auth_storage.cpp:167-171 | a save that sees its own name does not write the index |
| AuthStorage.ClearLeaves | src/core/storage/auth_storage.cpp:232-246 | the files after a clear: the marker, no snapshot of the name it saw and no fixed-name ones, but for removals that failed |
| AuthStorage.AuthStorage.Save | src/core/storage/auth_storage.cpp:153-180 | for given answers of the files: true exactly when the session has an identity and the writes it needs go through, and then it is read back; false leaves the index, and the session unless the active name was missed |
| AuthStorage.AuthStorage.Read | src/core/storage/auth_storage.cpp:182-206 | for given answers of the files: the session whenever the index and the stores open and, for a fixed-name file, the migration is written, none otherwise; what it returns is then the active snapshot, and what a later read returns never changes |
| AuthStorage.AuthStorage.Clear | src/core/storage/auth_storage.cpp:232-252 | true exactly when the index it saw is no garbage and the marker is written, and then no session is left to read; false changes nothing |
| AuthStorage.AuthStorage.Update | src/core/storage/auth_storage.cpp:254-266 | for given answers: with a session to read and a callback that accepts it, true exactly when the save goes through, and then the modified session is read; false leaves the old one unless the active name was missed |
| MessageHistoryCache.LiveMessagesKeptExactly | src/features/chat/data/repository/message_history_cache.hpp:23-82 | over every run of saves of given live messages and pages, with writes failing or cut off, no live message is lost while no page stands for it, if and only if sameMessage is transitive from the live messages |
| MessageHistoryCache.RunShowsExactly | src/features/chat/data/repository/message_history_cache.hpp:23-76 | then the first page shows a live message exactly when its own history of saves and pages puts it there |
| MessageHistoryCache.RunShowsLastResponse | src/features/chat/data/repository/message_history_cache.hpp:23-58 | over every run each page shows the last response stored for it: pages after the first exactly that, the first its messages first and in place, the merged ones after them and counted in the total, and at least one page when anything is shown |
| MessageHistoryCache.RunShowsNoResponse | src/features/chat/data/repository/message_history_cache.hpp:97-112 | a page for which none was stored is empty, but for the pending messages on the first |
| MessageHistoryCache.MergeExactly | src/features/chat/data/repository/message_history_cache.hpp:28-36 | for arbitrary identities a pending message is added exactly when neither the page nor an added one before it is the same; what is added keeps its order |
| MessageHistoryCache.PendingAfterPage | src/features/chat/data/repository/message_history_cache.hpp:44-58 | after a page is saved exactly the pending messages that it does not carry are left, in order; all of them when the second write failed |
| MessageHistoryCache.PendingAfterMessage | src/features/chat/data/repository/message_history_cache.hpp:60-76 | a live message takes the place of the first that is the same, or the last place |
| MessageHistoryCache.LiveMessageKept | src/features/chat/data/repository/message_history_cache.hpp:44-76 | none is lost when, as the repository builds them, each live message has one identity under both names, or none; pages may bring anything |
| MessageHistoryCache.StepTraced | src/features/chat/data/repository/message_history_cache.hpp:44-76 | where sameMessage is transitive from the live messages (Consistent), a page saved as page 1 that carries the message shows it from that page, also between its two writes; any acknowledged message leaves the pending list |
| MessageHistoryCache.MergeAddsNoDuplicate | src/features/chat/data/repository/message_history_cache.hpp:28-36 | a merged message is the same as none before it, for arbitrary identities |
| MessageHistoryCache.MergeCarries | src/features/chat/data/repository/message_history_cache.hpp:28-36 | where sameMessage is transitive from the live messages (Consistent), the merged list carries exactly what the page or the pending list carries |
| MessageHistoryCache.SavedMessageShown | src/features/chat/data/repository/message_history_cache.hpp:60-76 | until a page stands for it any saved message is shown as last saved |
| MessageHistoryCache.InconsistentLoses | src/features/chat/data/repository/message_history_cache.hpp:28-36 | whenever a and b are the same, and b and c, but not a and c, a run loses a: saving b replaces it, and c, saved or on a page, replaces b |
| MessageHistoryCache.UnidentifiedMessageLost | src/features/chat/data/repository/message_history_cache.hpp:78-82 | whatever message has both names can be lost so: once one with only its id is saved before it, and one with only its messageId, saved or on a page, follows, the first is lost |
| MessageHistoryCache.IdentifiedConsistent | src/features/chat/data/repository/message_history_cache.hpp:78-82 | live messages with one identity are transitive with whatever pages bring |
| MessageHistoryCache.MessageHistoryCache.Read | src/features/chat/data/repository/message_history_cache.hpp:23-42 | the page, with pending messages merged into page 1 and counted in its total |
| MessageHistoryCache.MessageHistoryCache.SavePage | src/features/chat/data/repository/message_history_cache.hpp:44-58 | for given outcomes of the writes: true exactly when the page has a number from 1, it is written and, if it carries a pending message, the rest of them is too |
| MessageHistoryCache.MessageHistoryCache.SaveMessage | src/features/chat/data/repository/message_history_cache.hpp:60-76 | replaces the first match or appends and returns true when the write goes through, and otherwise changes nothing |
| SendQueue.RunIsSafe | src/features/chat/data/repository/message_repository_impl.cpp:291-368 | over every run from the empty queue: one entry in flight at most, starts in enqueue order, every promise pending or finished exactly once, m_uploadTasks exactly the uploads queued or in flight, and no startable work left without a wake-up |
| SendQueue.StepKeeps | src/features/chat/data/repository/message_repository_impl.cpp:307-368 | each event keeps this |
| SendQueue.CanceledNeverStarts | src/features/chat/data/repository/message_repository_impl.cpp:312-319 | in every run, an entry whose token was canceled before or while it is in the queue never starts |
| SendQueue.QueuedStartsUnlessCanceled | src/features/chat/data/repository/message_repository_impl.cpp:307-368 | in every run, an entry that was queued is still queued, has started, or had its token canceled by an event |
| SendQueue.TurnExactly | src/features/chat/data/repository/message_repository_impl.cpp:307-343 | whenever nothing is in flight, or no longer, each event drops exactly the canceled entries in front and finishes their promises, and if connected starts the first entry that is not canceled: it is in flight, or its promise finishes when the start throws |
| SendQueue.BusyExactly | src/features/chat/data/repository/message_repository_impl.cpp:307-311 | while an entry is in flight no event starts or drops anything |
| SendQueue.CanceledExactly | src/features/chat/data/repository/message_repository_impl.cpp:312-319 | a token counts as canceled exactly when an event canceled it |
| SendQueue.SendQueue.NextProcess | src/features/chat/data/repository/message_repository_impl.cpp:307-343 | drops canceled heads with their tasks and promises, starts at most one entry, and asks to be called again after a start that threw |
| SendQueue.SendQueue.SendFile | src/features/chat/data/repository/message_repository_impl.cpp:370-407 | queues nothing exactly when canceled beforehand or already under way |
| SendQueue.SendQueue.OnFinished | src/features/chat/data/repository/message_repository_impl.cpp:345-366 | finishes the promise and drops the upload of the entry in flight and gives the next its turn |
| UploadCancellation.CancelExcludesSend | src/features/chat/data/repository/message_repository_impl.cpp:455-492 | under every interleaving cancel and commit never both win, cancel wins at most once, after a true result no message is ever sent, and a winning commit lets no canceler run |
| UploadCancellation.FirstDecides | src/features/chat/domain/repository/upload_cancellation.hpp:41-74 | under every interleaving the first cancel or commit decides: after a first cancel nothing is handed on, after a first commit no cancel wins and every upload that commits is handed on, in order |
| UploadCancellation.FutureFates | src/features/chat/domain/repository/upload_cancellation.hpp:20-56 | a future is tracked exactly if some call tracked it, and is finished or canceled by whichever comes first, its operation or a canceler |
| UploadCancellation.CancelReachesAll | src/features/chat/domain/repository/upload_cancellation.hpp:20-56 | a winning cancel stops every tracked future that had not finished, those tracked later included |
| UploadCancellation.OutstandingCancelerSettles | src/features/chat/domain/repository/upload_cancellation.hpp:52-54 | every outstanding canceler can run and settles its future |
| UploadCancellation.ReachableInv | src/features/chat/domain/repository/upload_cancellation.hpp:20-74 | the invariant behind these, for every run |
| UploadCancellation.UploadCancellation.CancelLocked | src/features/chat/domain/repository/upload_cancellation.hpp:41-51 | wins exactly when neither canceled nor committed and takes every canceler along |
| UploadCancellation.UploadCancellation.TryCommitLocked | src/features/chat/domain/repository/upload_cancellation.hpp:65-74 | wins exactly when not canceled, and drops the cancelers |
| MessageList.ReconciledIsByOccurrence | src/features/chat/presentation/viewmodel/messaging_vm.cpp:869-901 | duplicate ids included, the k-th incoming row with an id takes over from the k-th old row with it and keeps its local path when the media did not change |
| MessageList.ReconciledShape | src/features/chat/presentation/viewmodel/messaging_vm.cpp:869-910 | the refreshed list has the incoming ids, dates and sections in the incoming order |
| MessageList.ReconciledContent | src/features/chat/presentation/viewmodel/messaging_vm.cpp:889-898 | a refreshed row is the incoming one in id, recipient, timestamp, text and media; it takes the local path of the old row that stands for it exactly when it brings none and the media are the same |
| MessageList.KeptExactly | src/features/chat/presentation/viewmodel/messaging_vm.cpp:828-842 | the rows kept are those whose numbers are not named, each once and in order |
| MessageList.DescendingOnceSorts | src/features/chat/presentation/viewmodel/messaging_vm.cpp:830-831 | the row numbers to delete, each once, from the last |
| MessagingModel.MessagingModel.Refresh | src/features/chat/presentation/viewmodel/messaging_vm.cpp:869-910 | the insert, move, update and remove loop ends with exactly the reconciled rows, and a mirror that replays its notifications does too |
| MessagingModel.MessagingModel.Delete | src/features/chat/presentation/viewmodel/messaging_vm.cpp:828-842 | removes exactly the valid rows named, repeated and out-of-range numbers included, and keeps the order of the rest |
| MessagingModel.MessagingModel.Prepend | src/features/chat/presentation/viewmodel/messaging_vm.cpp:714-721 | puts the older rows in front, aligned, with one notification, none for an empty page |
| MessagingModel.MessagingModel.Append | src/features/chat/presentation/viewmodel/messaging_vm.cpp:778-788 | adds one row at the end, aligned |
| MessagingModel.MessagingModel.UpdateContent | src/features/chat/presentation/viewmodel/messaging_vm.cpp:261-272 | the first row with that id and recipient takes the new content, and nothing else changes |
| MessagingModel.ContentUpdated | src/features/chat/presentation/viewmodel/messaging_vm.cpp:261-272 | row by row: the first with this id and recipient changes in its content, and no other changes |
| MessagingModel.MessagingModel.ApplyFetched | src/features/chat/presentation/viewmodel/messaging_vm.cpp:844-924 | a stale request changes nothing; a refresh of the shown conversation reconciles in place; any other response resets the list; dates and sections are those of the incoming messages |
| MessageOrder.Reorder | src/features/chat/data/dto/message_payload_dto.hpp:353-375 | taking the groups in any order gives the one list in which every batched position holds the message of its rank in its sorted group |
| MessageOrder.PlacesKept | src/features/chat/data/dto/message_payload_dto.hpp:353-375 | a message outside a batch keeps its position, and every position keeps its group |
| MessageOrder.GroupsSorted | src/features/chat/data/dto/message_payload_dto.hpp:362-373 | within its own positions each (sender, batch) group is stably sorted by attachment index |
| MessageOrder.ReorderedIsPermutation | src/features/chat/data/dto/message_payload_dto.hpp:353-375 | nothing is lost or doubled |
| MessageOrder.ReorderIdempotent | src/features/chat/data/dto/message_payload_dto.hpp:353-375 | reordering again changes nothing |
| MessageOrder.ReorderedExactly | src/features/chat/data/dto/message_payload_dto.hpp:353-375 | position by position: a message without batch or index stays, an attachment gives way to one of its sender and batch only, and between those the index never falls |
| MessageOrder.ComparatorIsKeyOrder | src/features/chat/domain/usecase/message_usecase.cpp:75-90 | the comparator orders by epoch with all invalid timestamps sharing one place after the last, so it is a strict weak order |
| MessageOrder.Execute | src/features/chat/domain/usecase/message_usecase.cpp:66-91 | marking own messages and sorting gives the display list |
| MessageOrder.ShownInTimeOrder | src/features/chat/domain/usecase/message_usecase.cpp:72-91 | valid timestamps ascend, invalid ones come last, equal and invalid ones keep their order, and nothing is lost |
| MessageOrder.ShownExactly | src/features/chat/domain/usecase/message_usecase.cpp:66-91 | what is shown is the fetched messages, each once, unchanged but for the mark, which tells whether the sender without dashes is the user; valid times never fall and invalid ones come last |
| MessageOrder.StripExactly | src/features/chat/domain/usecase/message_usecase.cpp:67-69 | removing the dashes goes piece by piece and leaves other text alone |
| MessageOrder.BatchShownInOrder | src/features/chat/domain/usecase/message_usecase.cpp:72-91 | end to end, attachments whose timestamps do not run against their index are shown in index order |
| StableSort.SortIsStable | src/features/chat/domain/usecase/message_usecase.cpp:72-91 | the sort is sorted, keeps equal keys in order and is a permutation |
| StableSort.StableSortUnique | src/features/chat/data/dto/message_payload_dto.hpp:368-370 | there is one stable sorting of a list, so nothing depends on how the library sorts |
| VoiceRecorder.RunIsSafe | src/core/media/voice_recorder.cpp:63-331 | with observers calling back from any signal and stale timers, permission answers and encoder results in any order: ready at most once per start and never for a start or session that was canceled or failed; a session is destroyed only by its completion, which is on the way while it is stopping; no call uses a session that is gone; Idle means no session. Observers must not start from the first signals of a start or cancel from the signal that ends a session |
| VoiceRecorder.GivenUpExactly | src/core/media/voice_recorder.cpp:242-278 | over such runs a start or session is given up exactly when a label cancels or fails it: a cancel, a stop before there is a session, a refused permission, a missing device or failed setup, a source that does not start or stops with an error |
| VoiceRecorder.GivenUpNeverReady | src/core/media/voice_recorder.cpp:242-303 | and is then never announced as ready |
| VoiceRecorder.ReadyBecause | src/core/media/voice_recorder.cpp:225-331 | over such runs whatever is announced was stopped by a call of stop, and its final encoding then succeeded |
| VoiceRecorder.SessionStep | src/core/media/voice_recorder.cpp:121-167 | a session begins exactly when the permission is there and the device is, and ends exactly with its final encoding or where there is none |
| VoiceRecorder.ModeStep | src/core/media/voice_recorder.cpp:63-331 | the state diagram: which label moves the recorder along which arrow |
| VoiceRecorder.StepKeeps | src/core/media/voice_recorder.cpp:63-331 | every single step keeps the invariant behind this |
| VoiceRecorder.StoppingEnds | src/core/media/voice_recorder.cpp:279-331 | a stopping session can always end by itself: what is pending leads to Idle, and announces the session as ready unless it was given up |
| VoiceRecorder.StopAnnounces | src/core/media/voice_recorder.cpp:225-240 | stopping a recording, paused or not, goes on by itself to Idle and announces it |
| VoiceRecorder.CancelEnds | src/core/media/voice_recorder.cpp:242-259 | canceling, and stopping before there is a session, goes on by itself to Idle and announces nothing |
| VoiceRecorder.StartRecords | src/core/media/voice_recorder.cpp:63-187 | a start that meets no obstacle goes on by itself to Recording with a new session |
| VoiceRecorder.StartAsks | src/core/media/voice_recorder.cpp:92-117 | where the permission is not known a start goes on by itself to asking |
| VoiceRecorder.AnswerDecides | src/core/media/voice_recorder.cpp:105-116 | the answer leads to Recording or to Idle |
| VoiceRecorder.PauseAndResume | src/core/media/voice_recorder.cpp:194-223 | pausing leads to Paused and resuming to Recording, and nothing else changes |
| VoiceRecorder.EncodingDecides | src/core/media/voice_recorder.cpp:152-167 | the final encoding leads to Idle, and announces the session exactly when it succeeded and was not given up |
| VoiceRecorder.StaleIgnored | src/core/media/voice_recorder.cpp:106-109 | a timer or an answer of an earlier request is ignored |
| VoiceRecorder.UndisturbedIsReady | src/core/media/voice_recorder.cpp:63-331 | from Idle, a start that meets no obstacle and is then stopped, paused or not, is announced as ready |
| VoiceRecorder.NestedStartDropsSession | src/core/media/voice_recorder.cpp:69-76 | wherever an observer starts from the first signals of a start, the outer start can go on to destroy the recording the inner one began |
| VoiceRecorder.LateCancelBreaksIdle | src/core/media/voice_recorder.cpp:317-319 | wherever an observer cancels between the end of a session and the change to Idle, the recorder can end Idle with a session |
| VoiceRecorder.VoiceRecorder.Continue | src/core/media/voice_recorder.cpp:63-331 | the rest of a waiting call, on the fields, is one step of the machine |
| VoiceRecorder.VoiceRecorder.BeginRecording | src/core/media/voice_recorder.cpp:121-187 | a session under the current request, or failure where device or setup fails |
| VoiceRecorder.VoiceRecorder.Cancel | src/core/media/voice_recorder.cpp:242-259 | discards and stops, schedules the end when stopping, or withdraws the request when there is no session |
| VoiceRecorder.VoiceRecorder.Start | src/core/media/voice_recorder.cpp:63-76 | does nothing unless Idle, and otherwise begins a start that keeps the invariant |
| VoiceRecorder.VoiceRecorder.OnEncoded | src/core/media/voice_recorder.cpp:152-167 | completes a session once its final encoding ends, saved only if it was not discarded |

## Left out

- CrashRuns.CrashThenReopen: covers crashes inside operations that add at most one block past the end of the file in each record they write; for all others CrashSafeExactly shows that a crash can leave a file that does not open.
- CrashRuns.HistoryIsSafe: the same restriction, durable mode, and root names and counts within 32 bits, beyond which DirectoryRoundTrip shows that the directory is not read back; a reopening is taken to find on disk everything that it shows; what a kill before it can change is KilledRunSafeExactly.
- KilledRuns.KilledRunSafeExactly: one killed operation and the one after it, each record for itself; the cut at the end of the file is taken to be on disk at once.
- KilledRuns.SyncedRunReopens: whole vaults only where the store is synced first; without that sync KilledRunSafeExactly speaks of each record for itself.
- UnsyncedWrites.RecordAtomicExactly: the first record written after a sync; several writes between two syncs, like the record and the directory of a first saveSnapshot in a store that is not durable, are not followed further.
- UnsyncedWrites.WriteAtomicExactly: the same restriction, and a file whose continuations have no tag.
- VoiceRecorder.RunIsSafe: needs observers that do not start from the first signals of a start and do not cancel between the end of a session and Idle; for every state in which they could, NestedStartDropsSession and LateCancelBreaksIdle show what goes wrong.
- AuthStorage.AuthStorage.Update: false promises the old session only when the save did not miss its own active name; FailedSaveSparesExactly shows the loss otherwise.
- AuthStorage.AuthStorage.Save: the same restriction on what false promises.
- LocalStorage.LocalStorage.Insert: asks for room below 2^64 blocks instead of modelling the exception for an overflowing file offset; so do Update, Remove, SetRoot, RemoveRoot and the saves of MessageCache.
- Encryption, key derivation, nonces, header and password checks, setPath: a sealed block is an ideal box bound to its number.
- AuthStorage: in one call the stores that a read opens open all or none; a look at the index, each kind of write and each removal have outcomes of their own.
- File locks, permissions, short reads and writes: a block write is atomic, a torn trailing block is not part of the file, and the cut at the end of the file during the scan takes effect at once.
- What a store object does after a write of its own threw: its clients drop it and reopen, as in KilledRuns.
- Reader and writer locks of the store and the mutexes of its clients: calls run one after the other.
- forEach, blockSize and maxInline, which only walk over Ids and Get.
- Which conversation file a call uses: conversation ids, secrets and hashed file names; one conversation is modelled. A file that is not there reads as an empty store.
- The contents of a store while its entry is dropped from the open list: closing and reopening is ReopenAgrees, and the list is modelled with store numbers.
- JSON text and string encodings: messages and sessions are values, and a snapshot either holds one or is unreadable; an account name differs from the index and fixed names.
- Batch and time order take the parsed timestamp; std::stable_sort is a function with the properties proved in StableSort.
- sendFiles after its first two guards: file checks, image compression, transfer and the optimistic message; only tryCommit and the hand-over remain, in UploadCancellation.
- Destroying the repository with an entry in flight.
- Futures, signals and the event loop: futures are ended by events, signals are places where observers run, queued calls are pending steps; no observer runs a nested event loop.
- Which of canceled, errorChanged and errorOccurred the recorder sends, previews and durations: only the places where they are sent.
- Roles, date formatting, paging counters and loading flags in the view model; dates and sections come from given functions.
- XMPP, calls, camera, audio encoding, HTTP, certificates, platform windows, QML and start-up.
