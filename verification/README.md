# Verified model of the LCloud server core

LCloud keeps JSON documents in SQLite and backs them up to Telegram. This project models the parts
of the server in which several pieces of state have to agree, and proves that they do.

**The operation log and its three readers.** A document row (data, version, soft-delete flag, owner
uid) and an append-only log are written in the same transaction by a dozen separately written
routes. `OperationLog` is the interpreter that a restore runs over the log; it is the reference for
everything else. `JsonRoutes` holds the write routes as methods that edit rows field by field, and
proves that rows and settings always equal the replay of the log, in every run. `Access` and
`RowEffects` say of the routes' answers, of rows and of settings who gets in and what each write does.
`Backup` is the protocol that cuts the log into segments behind a cursor, uploads and marks them, with
a crash possible at every point. `BackupWorker` is the loop that drives it. `Restore` is the loop that
deduplicates, sorts and replays; `BackupRecords` is what the records of both tell. `RoundTrip`,
`SettingsRestored`, `VersionNumbers` and `RestoreAgain` put all of it together: which part of the source
a restore reproduces, in what state settings and version numbers come back, and what a second restore
does. `ResumedTarget` lets the restored database go on as a source of its own.

**The read side.** `Query` is field paths, comparison, filter, sort and pages, and `QueryFilters` what
they mean for the values. `KeyReads` is the reads by publishable key, which are not cached. `TtlCache`
is the ordered map with byte and namespace accounting, expiry and eviction; `LruOrder` proves that its
order is the order of last use, and `CacheContents` what is filed, hit and invalidated. `CacheKeys`
proves that keys cannot collide and that deleting by prefix hits one collection. `CachedReads` runs
reads, writes, expiry and eviction together and proves what a client is answered; `StalePages` says
when a cached list or query is stale, and `ReadsInFlight` takes reads and writes apart at their awaits,
so that they interleave. `EventStream` is the change feed over the log, and `StreamContents` what a
client is sent of it.

**Rates, versions and bytes.** `TokenBucket` is the per-key limiter and the bucket shared by
sleeping waiters. `Files` is the version chain that re-uploading a name builds, with the loop that
walks it, and the quota counter; `FileRules` is who may upload and delete and what either does.

`Witnesses` (and `Files`, for its own) holds a run from the empty state for each documented promise that
the code does not keep.

Each object that the server updates in place is a class whose methods are proved equal to a
function of the old state; the results are lemmas about those functions over all inputs or all runs.

## Assumptions

- Operation ids strictly increase in commit order and are never reused; ids of one database may have
  gaps, because all databases share the sequence (a write takes a `gap` for that).
- One backup worker; a restore reads the messages of one source database into a target that is
  empty or holds an earlier restore of the same source.
- JSON encoding, gzip and SHA-256 are injective, so a segment is its contents. The hash of a query that
  is read does not collide with that of another query asked before (`CachedReads.NoCollision`, which
  for documents and lists is proved and not assumed).
- Numbers in JSON, tokens and clock readings are real numbers. The clocks do not run backwards.
- A request is one atomic step, except in `ReadsInFlight`, where a cached read is three steps (look up,
  compute, file) and an invalidating write is two (commit, invalidate). The encoded size of a value,
  Python's `str` of a value, the clock and the outcome of an upload are inputs.
- A random file name is one that no row has (`Files.NamesAreNew`, used only where stated).

## Where the code and its documentation differ

The code is what is modelled. For each promise that fails there is the exact condition under which it
holds, and a run on which it does not.

- The README says that normal API writes invalidate the cache. Publishable-key writes do not, and the
  invalidation of an owner's write does not reach a read that computed its answer before and files it
  after. A cached read is fresh if nothing affected it since it was computed; what did is a key write, a
  write that has yet to invalidate, or one that committed and invalidated while the read was in flight
  (`CachedReads.CacheIsTransparent` for whole steps, `ReadsInFlight.HitIsFreshUnlessAffected`). A stale
  answer is at most one TTL and one flight old.
  - A cached document is fresh if and only if nothing has written to it since it was computed
    (`CachedReads.DocumentIsFreshIffUnwritten`, `ReadsInFlight.FreshIffUnwrittenSinceComputed`). Runs:
    `Witnesses.KeyWriteLeavesStaleRead`, `Witnesses.OwnerWriteCanLeaveStaleRead`.
  - A cached list or query is stale for good once a document that it shows was written to
    (`StalePages.WriteOnPageStales`). It is fresh if and only if none was and the same documents are still
    to be shown, out of as many (`StalePages.PageIsFreshIffUnwritten`); what a write to a document outside
    the page does depends on where that document falls. If the page is the whole list, nothing lies
    outside: it is fresh if and only if none of its documents was written to and every live document is
    on it (`StalePages.CompleteListIsFreshIff`). Run: `Witnesses.KeyWriteLeavesStalePage`.
- The restore guides promise the old state. Data, deleted flags, owners, collections and the log come
  back exactly; a version number comes back exactly if and only if no operation on the document was
  carried by two kept segments (`VersionNumbers.VersionsMatchIffCarriedOnce`, run:
  `Witnesses.OverlapRaisesVersion`). Rules and validators are taken from the first segment's metadata
  and can be ahead of the restored operations while a rules operation is still pending
  (`SettingsRestored.RestoredSettings`, run: `Witnesses.SettingsCanRunAhead`); with nothing pending
  they are the source's.
- `storage_quota.py` says that the counter is the total of live files. A superseded version stays
  charged until the counter is recomputed: in every run the counter is the live total and the bytes
  superseded since the last recomputation (`Files.CounterIsLiveAndSince`). So it is the live total if and
  only if every action that superseded some of the user's bytes was followed by a recomputation
  (`Files.RecomputeForgets`, run: `Files.CounterKeepsSuperseded`).
- The versions endpoint promises every version, newest first. It takes one step forward, so the
  answer is the whole line if and only if the requested row has at most one newer version
  (`Files.CompleteIffNearlyNewest`, run: `Files.NewestCanBeMissing`).
- `lag_operations` is a difference of ids, not a count of operations: it is 0 exactly when nothing is
  pending, and it is the number pending if and only if their ids follow the cursor without a gap
  (`Backup.LagBoundsPending`, run: `Witnesses.LagCanExceedCount`).

## Model

| member | source | states |
|---|---|---|
| OperationLog.VersionCountsOperations | lcloud/userbot/db_restore.py:377-436 | after any replay a version is the old version plus the number of operations on the document, and a row exists exactly if it did before or was operated on |
| OperationLog.RepetitionsAreHarmless | lcloud/userbot/db_restore.py:358-436 | operations repeated next to each other replay without error and leave data, deleted flag and owner as one copy does |
| OperationLog.RerunChangesNothing | lcloud/userbot/db_restore.py:377-436 | replaying a log over the documents it produced raises no error and changes no content |
| OperationLog.ReplayCatchesUp | lcloud/userbot/db_restore.py:377-436 | replaying a log over the documents of any prefix of it gives the content of the whole log |
| OperationLog.SortedSquashesToLog | lcloud/userbot/db_restore.py:197-206 | any list sorted by id that holds the operations of a log, each any number of times, is that log with adjacent repetitions |
| JsonRoutes.AdmittedOperationFits | lcloud/api/json_db.py:1660-1708 | what a route logs names a known collection and a document, carries data where the interpreter needs it, and finds its row where the interpreter would raise |
| JsonRoutes.AccessByRule | lcloud/api/json_db.py:564-593 | the access check, rule by rule, with and without a document |
| Access.WriteAccess | lcloud/api/json_db.py:564-604 | whatever the read rule: the owner's writes are never denied; under the owner rule everybody else's are, and change nothing; under the public rule nobody's; under the authenticated rule exactly those of callers who are neither signed in nor app users of the project and database |
| Access.MembersWriteTheirOwn | lcloud/api/json_db.py:584-593 | under the document-owner rule an app user's write to an existing row succeeds only if the row carries its uid, and is not denied on its own rows and new ones |
| Access.OrderOfRefusals | lcloud/api/json_db.py:767-823 | a later refusal means that the earlier checks have passed: access, validator, row, access to the row, in each route's own order |
| Access.ValidatorHolds | lcloud/api/json_db.py:410-466 | what a public route writes keeps every limit of the validator, data that does is never refused by it, and the owner's routes do not ask it |
| Access.FirstFailedCheck | lcloud/api/json_db.py:410-466 | the check reported is the first that fails |
| Access.ReadAccess | lcloud/api/json_db.py:564-604 | reads of the owner's and by-id routes follow the read rule in the same way, whatever the write rule |
| JsonRoutes.AdmittedWriteReplays | lcloud/userbot/db_restore.py:377-436 | the interpreter accepts every operation that any route family logs, and the database is consistent again |
| JsonRoutes.SubLogStartsWithCreate | lcloud/api/json_db.py:1960-2008 | in a consistent database the first operation on every document is a create |
| JsonRoutes.StepKeepsConsistent | lcloud/api/json_db.py:642-655 | every request (document write of any family, batch, rules, validator, new collection) keeps rows and settings equal to the replay of the log |
| JsonRoutes.EveryRunIsConsistent | lcloud/api/json_db.py:642-655 | log and rows agree after every request of every run from an empty database |
| RowEffects.WrittenRow | lcloud/api/json_db.py:767-1081 | after a served write the row is deleted exactly if it was a delete; a create or set leaves the request's data, a patch its fields over the old ones, a delete the old data; owner kept or the app user's, version one higher, time of the request; all other rows as they were |
| RowEffects.WhichRows | lcloud/api/json_db.py:606-640 | a create needs that no row is live, a patch or delete that one is |
| RowEffects.LoggedEntry | lcloud/api/json_db.py:642-655 | the one entry logged names the document and what was done, with the data of the request and the row's owner |
| RowEffects.BatchWrites | lcloud/api/json_db.py:1798-1880 | every write of a batch does the same to its row |
| RowEffects.DeletedIsGone | lcloud/api/json_db.py:2045-2067 | after a delete the document is not found and on no list and no query result |
| RowEffects.WrittenIsShown | lcloud/api/json_db.py:1934-1957 | after any other write it is found with what was written, and listed |
| RowEffects.ListingIsLive | lcloud/api/json_db.py:1626-1642 | a listing holds exactly the live documents of its collection |
| RowEffects.LastOperationDecides | lcloud/userbot/db_restore.py:377-436 | after a replay a row is what the last operation on it makes of it, in data, deleted flag, owner and version |
| RowEffects.ReplayFailsExactly | lcloud/userbot/db_restore.py:325-436 | the interpreter refuses an operation exactly for want of a document id, of data or of a row, or because it is unknown |
| RowEffects.SettingsStored | lcloud/api/json_db.py:1485-1589 | a rules request stores its read rule as read and its write rule as write, a validator request the validator, and nothing else changes |
| RowEffects.CollectionStarts | lcloud/api/json_db.py:1302-1352 | a new collection is its owner's alone and has no validator |
| RowEffects.LastRulesDecide | lcloud/userbot/db_restore.py:339-345 | the last rules operation of a collection decides both its rules |
| RowEffects.LastValidatorDecides | lcloud/userbot/db_restore.py:339-345 | and the last validator operation its validator |
| JsonRoutes.JsonDb.AddOperation | lcloud/api/json_db.py:642-655 | appends one entry under a new higher id and touches nothing else |
| JsonRoutes.JsonDb.CreateDocument | lcloud/api/json_db.py:767-823 | create in the three families: refuses or commits exactly the admitted operation as the interpreter would apply it, reviving a deleted row with its version and owner |
| JsonRoutes.JsonDb.SetDocument | lcloud/api/json_db.py:948-1003 | set in the three families: creates or overwrites, logs create or set accordingly, keeps an existing owner |
| JsonRoutes.JsonDb.PatchDocument | lcloud/api/json_db.py:1006-1050 | patch in the three families: shallow merge on a live row, validated on the merged data, logging only the patch |
| JsonRoutes.JsonDb.DeleteDocument | lcloud/api/json_db.py:1053-1081 | delete in the three families: soft-deletes a live row and counts a version |
| JsonRoutes.JsonDb.WriteInBatch | lcloud/api/json_db.py:1798-1880 | one write of a batch has the effect of the owner's single route |
| JsonRoutes.JsonDb.BatchDocuments | lcloud/api/json_db.py:1782-1898 | a batch changes nothing, rows and log included, or has the effect of its writes one after the other, several writes to one id included; it fails at the first refused write |
| JsonRoutes.JsonDb.SetRules | lcloud/api/json_db.py:1485-1513 | stores the two rules and logs them, and nothing else changes |
| JsonRoutes.JsonDb.SetValidator | lcloud/api/json_db.py:1537-1589 | stores or clears the validator and logs it, and nothing else changes |
| JsonRoutes.JsonDb.CreateCollection | lcloud/api/json_db.py:1302-1352 | refuses a taken name, otherwise adds a collection with default settings and logs it |
| Backup.CutIsAligned | lcloud/userbot/db_backup.py:249-343 | a freshly built segment is the slice of the log that starts right behind the cursor and carries the settings after the whole log |
| Backup.EveryRunKeepsInv | lcloud/userbot/db_backup.py:82-112 | in every run of requests, builds, uploads, marks and crashes: the cursor is the id of a logged operation, the marks tile the log up to it, every message is a slice of the log that starts at or before it |
| Backup.CursorNeverGoesBack | lcloud/userbot/db_backup.py:370-408 | no step moves the cursor back, and marking never meets an existing (database, first, last) |
| Backup.MarksTileTheLog | lcloud/userbot/db_backup.py:370-408 | an operation is at or below the cursor exactly if it lies in a mark, marks are disjoint and in order, and whatever is at or below the cursor was uploaded |
| BackupRecords.RecordIsTrue | lcloud/userbot/db_backup.py:370-408 | every record names a message of the chat that carries, in order, as many operations of the log as it counts, from its first to its last |
| Backup.UploadsCoverPrefix | lcloud/userbot/db_backup.py:345-368 | the uploaded operations are exactly a prefix of the log that reaches at least to the cursor, however many uploads were repeated |
| Backup.LagBoundsPending | lcloud/userbot/db_backup.py:160-203 | the reported lag is 0 exactly if nothing is pending, never below the number pending, and equal to it if and only if the pending ids follow the cursor without a gap |
| Witnesses.LagCanExceedCount | lcloud/userbot/db_backup.py:192-200 | a run that ends with one operation pending and a reported lag of five |
| BackupWorker.SelectedAre | lcloud/userbot/db_backup.py:226-246 | the selection holds distinct databases with pending operations, and all of them if they fit into the limit |
| BackupWorker.SelectedOldestFirst | lcloud/userbot/db_backup.py:226-246 | at most `limit` databases are selected, in the order of their oldest pending operations, and none that is left out has an older one |
| BackupRecords.OldestIsLowest | lcloud/userbot/db_backup.py:226-246 | the oldest pending operation, by which databases are ordered, is the one with the lowest id above the cursor |
| BackupRecords.TurnExactly | lcloud/userbot/db_backup.py:93-111 | what a turn changes under each outcome of its upload: nothing; one message; or a message, its record, and the cursor at its last operation |
| BackupWorker.TurnFollowsProtocol | lcloud/userbot/db_backup.py:93-111 | a turn of the loop, delivered, failed or crashed, keeps everything the protocol keeps |
| BackupWorker.TurnClears | lcloud/userbot/db_backup.py:249-343 | a delivered turn takes exactly a batch off the backlog, or all of it if it is smaller |
| BackupWorker.RoundsDrain | lcloud/userbot/db_backup.py:82-112 | with no new writes and at most `limit` databases pending, k successful rounds take exactly k batches off every backlog |
| BackupWorker.RoundDoesWork | lcloud/userbot/db_backup.py:82-112 | however many databases are pending, a successful round does one turn's work for each of the oldest `limit` |
| BackupWorker.EveryBacklogDrains | lcloud/userbot/db_backup.py:82-112 | so after as many rounds as all backlogs together need turns, nothing is pending anywhere |
| BackupWorker.Worker.BuildSegment | lcloud/userbot/db_backup.py:249-343 | the appending loop builds exactly the segment the protocol cuts |
| BackupWorker.Worker.MarkUploaded | lcloud/userbot/db_backup.py:370-408 | records the segment and moves the cursor, for this database only; a range that is recorded already is refused and changes nothing |
| BackupWorker.Worker.TakeTurn | lcloud/userbot/db_backup.py:93-111 | build, upload and mark for one database under a given outcome of the upload; the mark is never refused |
| BackupWorker.Worker.BackupOnce | lcloud/userbot/db_backup.py:82-112 | the loop takes the selected databases' turns in order, stops at the first failure, counts the delivered ones, and leaves every database in a state that satisfies the protocol's invariant |
| Restore.DedupeSegments | lcloud/userbot/db_restore.py:146-160 | keeps one message per (owner, first, last), the one with the highest id, in range order |
| Restore.DedupeIgnoresArrival | lcloud/userbot/db_restore.py:146-160 | the survivors depend only on which messages arrived, not on order or repetition |
| Restore.DedupeIsIdempotent | lcloud/userbot/db_restore.py:146-160 | deduplicating again changes nothing |
| BackupRecords.SurvivorsAreNewest | lcloud/userbot/db_restore.py:146-160 | of every range the newest message survives and only one, in the order of first and then last operation |
| Restore.TargetDb.EnsureCollection | lcloud/userbot/db_restore.py:294-322 | creates the collection or overwrites its settings with the carried ones |
| Restore.TargetDb.ReplayRow | lcloud/userbot/db_restore.py:325-374 | applies one operation and logs it under its own id, accepts a row already logged, refuses a different one |
| Restore.TargetDb.ReplayDocumentRow | lcloud/userbot/db_restore.py:377-436 | edits one row as the interpreter does, or reports its error and changes nothing |
| Restore.TargetDb.ReplayOperations | lcloud/userbot/db_restore.py:235-249 | the replay loop, looking each collection up once, up to its first error |
| Restore.TargetDb.RecordAll | lcloud/userbot/db_restore.py:260-263 | records each range once, in order |
| Restore.TargetDb.Transact | lcloud/userbot/db_restore.py:206-291 | replay, record and advance the cursor; an error or a dry run leaves the target as it was |
| Restore.TargetDb.RestoreSegments | lcloud/userbot/db_restore.py:187-291 | the whole restore: its new state, its errors and the counts and ids it reports |
| BackupRecords.ReportIsTrue | lcloud/userbot/db_restore.py:204-291 | the report counts segments and operations and names the lowest and highest id replayed |
| BackupRecords.ConflictExactly | lcloud/userbot/db_restore.py:358-374 | a conflict is reported exactly if the id is logged for another kind of operation or another document |
| BackupRecords.LoggedAsItIs | lcloud/userbot/db_restore.py:358-374 | a new id is logged with the operation's own fields and no other row changes |
| BackupRecords.CursorNeverFalls | lcloud/userbot/db_restore.py:264-283 | a restore never moves the cursor back, and leaves it at or above everything restored |
| BackupRecords.RestoredRecordIsTrue | lcloud/userbot/db_restore.py:448-480 | every new record has its message's id, range and count |
| RoundTrip.DedupeLosesNothing | lcloud/userbot/db_restore.py:146-160 | an operation is carried by a survivor exactly if it was uploaded |
| RoundTrip.SortedSquashesToCovered | lcloud/userbot/db_restore.py:197-206 | the sorted carried operations are the covered prefix of the source's log, with repetitions |
| RoundTrip.CarriedReplays | lcloud/userbot/db_restore.py:325-436 | the carried operations replay without error to the content of the covered prefix |
| RoundTrip.LoopMirrors | lcloud/userbot/db_restore.py:235-249 | the loop raises none of its errors, and the target holds under names what the interpreter makes under ids |
| RoundTrip.RestoreReproducesSource | lcloud/userbot/db_restore.py:187-291 | from every reachable state of source and backup, with any crashes behind it and messages in any order, restoring into an empty target succeeds and gives the documents (data, deleted flag, owner), the collections, the log and the cursor of the source after exactly the covered prefix |
| RoundTrip.DrainedRestoreIsComplete | lcloud/userbot/db_restore.py:187-291 | with nothing pending the target holds the content of the source as it is now |
| RoundTrip.CollectionsReplayed | lcloud/userbot/db_restore.py:294-322 | after the loop the target has exactly the collections that the covered operations are about, and those it had |
| SettingsRestored.RestoredSettings | lcloud/userbot/db_restore.py:294-322 | for every collection that the covered operations mention, restored rules (and, separately, validator) equal the source's after them if and only if they set them or the first carried metadata still had the defaults |
| SettingsRestored.DrainedRestoreKeepsSettings | lcloud/userbot/db_restore.py:294-374 | with nothing pending the target has all of the source's collections and no others, each with its rules and validator |
| Witnesses.SettingsCanRunAhead | lcloud/userbot/db_backup.py:293-318 | a run in which the only uploaded operation creates a collection and the restore already makes it public |
| VersionNumbers.RestoredVersions | lcloud/userbot/db_restore.py:399-435 | a restored version is the number of carried copies of operations on the document, while the source's is the number of operations |
| VersionNumbers.VersionsMatchIffCarriedOnce | lcloud/userbot/db_restore.py:399-435 | a restored version is never below the source's and equals it if and only if no two kept segments carry the same operation on the document |
| Witnesses.OverlapRaisesVersion | lcloud/userbot/db_backup.py:96-109 | a run with a crash between upload and mark after which a restored version is above the source's |
| VersionNumbers.RepeatedRestoreVersions | lcloud/userbot/db_restore.py:399-435 | a second restore adds every carried copy once more, so versions only grow |
| RestoreAgain.RestoreAgainCatchesUp | lcloud/userbot/db_restore.py:206-291 | restoring a later state of the backup over an earlier restore succeeds and gives the later state, with nothing pending its settings too |
| RestoreAgain.RestoresAlongRunConverge | lcloud/userbot/db_restore.py:206-291 | restoring what was uploaded at two moments of one backup run, one after the other, gives the first and then the second moment, whatever writes, crashes and repeated uploads lie between |
| RestoreAgain.RestoreTwiceChangesNothing | lcloud/userbot/db_restore.py:206-291 | restoring the same messages again changes no content, setting, log row, segment record or cursor |
| ResumedTarget.RestoredRowsMatchLog | lcloud/userbot/db_restore.py:325-436 | the restored log, on the target's own collection ids, replays to the restored rows, versions aside |
| ResumedTarget.StepGrows | lcloud/api/json_db.py:642-655 | and it goes on doing so with every request that the target then serves |
| ResumedTarget.RestoredTargetGoesOn | lcloud/userbot/db_backup.py:82-112 | in every run of a restored target as a source: nothing is pending at first, the cursor never goes back, what is sent starts behind the cursor and meets no recorded range (overlapping restored ones included), new records are disjoint from all others, and a new operation is at or below the cursor exactly if it lies in one, and then it was uploaded |
| ResumedTarget.UpdatedTargetGoesOn | lcloud/userbot/db_backup.py:82-112 | the same after a later backup was restored over an earlier restore |
| ResumedTarget.SomeTargetResumes | lcloud/userbot/db_restore.py:187-291 | there is such a target for every restore |
| RoundTrip.RestoredMarks | lcloud/userbot/db_restore.py:448-480 | the segment records of a first restore are exactly the kept segments, in order |
| TtlCache.EvictsShortestPrefix | lcloud/cache.py:243-248 | eviction removes the shortest least-recently-used prefix after which both limits hold or the cache is empty |
| TtlCache.SetRestoresLimits | lcloud/cache.py:135-164 | after a set both limits hold or the cache is empty |
| LruOrder.RemovalIsDrop | lcloud/cache.py:250-259 | removing a key keeps exactly the other entries in their order, as the deletions among the uses of a cache do |
| LruOrder.EntriesAreInOrder | lcloud/cache.py:114-164 | whatever is done with a cache, its entries stand in the order of their last use |
| LruOrder.EvictedBeforeKept | lcloud/cache.py:243-248 | an entry that a set evicts was last used before every entry that stays |
| TtlCache.GetKeepsOnlyOld | lcloud/cache.py:114-133 | a get leaves only entries that were there |
| TtlCache.SetKeepsOnlyOld | lcloud/cache.py:135-164 | a set leaves only the new entry and old entries under other keys |
| TtlCache.Cache.AccountAdd | lcloud/cache.py:261-264 | adds one entry to the totals of its namespace and of the cache |
| TtlCache.Cache.AccountRemove | lcloud/cache.py:266-273 | subtracts one entry; the clamps at 0 never bite on an entry that was counted |
| TtlCache.Cache.Remove | lcloud/cache.py:250-259 | drops the entry under the key, keeps all totals exact, reports whether there was one |
| TtlCache.Cache.Get | lcloud/cache.py:114-133 | returns the value exactly if it is present and not expired, moves it to the end, drops it if expired |
| TtlCache.Cache.Set | lcloud/cache.py:135-164 | replaces the entry at the end of the order with its expiry, size and namespace, then evicts; does nothing when disabled or with a TTL that is not positive |
| TtlCache.Cache.Evict | lcloud/cache.py:243-248 | the loop ends, and with exactly the entries the specification leaves |
| TtlCache.Cache.DeletePrefix | lcloud/cache.py:171-177 | removes exactly the entries whose key starts with the prefix and counts them |
| TtlCache.Cache.CleanupExpired | lcloud/cache.py:231-241 | removes exactly the expired entries and counts them |
| CacheContents.HitExactly | lcloud/cache.py:114-133 | a get answers exactly the value of a stored entry of the key whose time has not run out |
| CacheContents.SetThenGet | lcloud/cache.py:114-164 | what was set is answered until its time runs out and not after |
| CacheContents.NothingEvictedNeedlessly | lcloud/cache.py:243-248 | a set after which everything fits evicts nothing |
| CacheContents.NamespaceIs | lcloud/cache.py:276-277 | the namespace is the one asked for, or what stands before the key's first colon, or the default |
| CacheKeys.DecimalIsInjective | lcloud/cache.py:355-364 | different ids have different decimal notations |
| CacheKeys.KeysAreInjective | lcloud/cache.py:355-364 | two keys are the same string only if they are the same document, list or query of the same collection, colons in document ids included |
| CacheKeys.PrefixIsExact | lcloud/cache.py:405-415 | a key starts with the prefix of a collection exactly if it is of that kind and that collection, so 1 never hits 12 |
| CacheContents.ListKeyText | lcloud/cache.py:355-364 | the text of a list's key; those of documents and queries are stated beside it, and decimal notation is that of the number |
| Query.GetField | lcloud/api/json_db.py:338-344 | the walk along a dotted path gives the nested value, or null where a step is missing |
| Query.KeyLeIsOrder | lcloud/api/json_db.py:1743-1751 | sort values are totally preordered, missing ones last |
| Query.FilterAgreesWithSort | lcloud/api/json_db.py:347-373 | on two numbers or two strings exactly one of <, == and > passes, <= and >= are their unions, and <= is the order results are sorted by |
| Query.UnorderedNeverPasses | lcloud/api/json_db.py:360-373 | a value that Python cannot order against the operand (another kind, a missing one, lists that differ first in such elements) passes none of the four order filters on either side, and nothing is raised |
| QueryFilters.EqualityIs | lcloud/api/json_db.py:347-351 | what passes `==` on text, numbers, truth values and null, and that `!=` is its opposite |
| QueryFilters.EqualAndNotEqualSplit | lcloud/api/json_db.py:347-351 | on one snapshot `==` and `!=` split the rows: each is in exactly one result, rows without the field on the `!=` side, and the totals add up |
| QueryFilters.TextFilters | lcloud/api/json_db.py:352-359 | a text passes `contains` exactly if the operand's text stands in it, and `startsWith` exactly if it begins with it |
| QueryFilters.ListFilters | lcloud/api/json_db.py:352-359 | a list passes `contains` exactly if some element equals the operand; nothing else passes either filter |
| QueryFilters.OrderFilters | lcloud/api/json_db.py:360-373 | the order filters are the order of numbers, and of texts by their first difference |
| QueryFilters.ListOrderIs | lcloud/api/json_db.py:360-373 | lists compare at their first difference, or else by length |
| QueryFilters.MatchesAll | lcloud/api/json_db.py:1737-1741 | a row matches exactly if it passes every filter |
| QueryFilters.FieldPaths | lcloud/api/json_db.py:338-344 | a name without dots is the field or null, and `a.b` is `b` in the object at `a` |
| QueryFilters.SortFailsExactly | lcloud/api/json_db.py:1743-1751 | a sort is refused exactly if two matching rows have present values that are not both numbers and not both texts |
| QueryFilters.ListingIsNewestFirst | lcloud/api/json_db.py:1636-1642 | along a listing the time of the last update never rises |
| QueryFilters.TiesAreNewestRowFirst | lcloud/api/json_db.py:1636-1642 | rows of one time stand in falling primary-key order |
| KeyReads.KeyReadRoute | lcloud/api/json_db.py:722-946 | the three reads by publishable key: the collection, then for a document the row and the access to it, for lists and queries the access and the page over the rows shown |
| KeyReads.ListingIsOwn | lcloud/api/json_db.py:739-757 | under the document-owner rule the listing of an app user is exactly the live documents with its uid, otherwise it is all live ones |
| KeyReads.PagesAreOwn | lcloud/api/json_db.py:826-889 | so nothing on its lists and query results is somebody else's |
| Query.QueryDocuments | lcloud/api/json_db.py:1737-1769 | the filter loop, sort and slice compute the specified page, with the match count as total |
| Query.PagesTile | lcloud/api/json_db.py:1737-1769 | pages at offsets 0, L, 2L, ... together are the ordered matches, none lost or repeated, and every page reports their number |
| Query.ResultIsOrdered | lcloud/api/json_db.py:1743-1751 | sort values go up (or down) along the result, missing fields last ascending and first descending |
| Query.TiesKeepOrder | lcloud/api/json_db.py:1743-1751 | rows with equal sort values keep the updated-at and id order in both directions |
| CachedReads.StepIsLocal | lcloud/api/json_db.py:1660-1708 | a request changes nothing about documents and collections it does not name |
| CachedReads.SurvivorIsUnaffected | lcloud/cache.py:405-415 | an entry that the invalidation after a write leaves in place answers a read that the write did not affect |
| CachedReads.DocumentsAndListsNeverCollide | lcloud/cache.py:355-360 | in no run does a document or list share its key with another read |
| CachedReads.QueriesCollideByDigest | lcloud/cache.py:363-364 | a query shares its key exactly with the other queries of its collection that have its digest |
| CachedReads.HitIsFreshUnlessTouched | lcloud/api/json_db.py:1613-1771 | a hit was filed by a read of the same key, only publishable-key writes can have touched it since, and if none did it is what the uncached route answers |
| CachedReads.CacheIsTransparent | lcloud/api/json_db.py:1613-1771 | in every run a cached get, list or query that no publishable-key write touched answers what the uncached route answers now, whatever expires or is evicted |
| CachedReads.DocumentIsFreshIffUnwritten | lcloud/api/json_db.py:948-1081 | a cached document, filed one TTL before it expires, is fresh if and only if no request has changed it since; the requests that did were publishable-key writes |
| Witnesses.KeyWriteLeavesStaleRead | lcloud/api/json_db.py:1006-1050 | a run (read, patch through a publishable key, read) whose second read answers the old document |
| Witnesses.KeyWriteLeavesStalePage | lcloud/api/json_db.py:1006-1050 | the same run for a list and for a query, whose second answer is the old page |
| StalePages.WriteOnPageStales | lcloud/api/json_db.py:1613-1771 | once a single write has changed a document that a list or query showed, no later answer is that page again |
| StalePages.PageIsFreshIffUnwritten | lcloud/api/json_db.py:1613-1771 | a cached list or query, filed one TTL before it expires, is fresh if and only if none of the documents on it was written to since and the same ones are to be shown now, out of as many; the requests that wrote to them were publishable-key writes |
| StalePages.CompleteListIsFreshIff | lcloud/api/json_db.py:1613-1653 | a cached list that shows all is fresh if and only if no document on it was written to since and every live document is on it |
| CachedReads.AnswersAreRecent | lcloud/api/json_db.py:767-1081 | whatever is written, each answer is one the uncached route gives now or gave at most one TTL ago |
| ReadsInFlight.WholeStepIsActions | lcloud/api/json_db.py:1934-1957 | every whole step is a sequence of the smaller ones with nothing in between |
| ReadsInFlight.HitsAreRecent | lcloud/cache.py:114-164 | however reads and writes interleave, a hit answers what the uncached route gave no longer ago than the TTL and the time its read was in flight |
| ReadsInFlight.WritersOfHit | lcloud/cache.py:405-415 | a write that affected a cached read after it was computed is a publishable-key write, has yet to invalidate, or committed and invalidated while the read was in flight |
| ReadsInFlight.HitIsFreshUnlessAffected | lcloud/api/json_db.py:1613-1771 | a hit that nothing affected since it was computed is fresh, and only those three kinds of writes can have |
| ReadsInFlight.FreshIffUnwrittenSinceComputed | lcloud/api/json_db.py:1934-1957 | a cached document is fresh if and only if no request, batches included, has written to it since its answer was computed |
| Witnesses.OwnerWriteCanLeaveStaleRead | lcloud/api/json_db.py:2011-2042 | a run in which an owner's patch commits and invalidates while a read is in flight, after which the cache answers the old document |
| CachedReads.CachedRead | lcloud/api/json_db.py:1934-1957 | a cache lookup and, on a miss, the filed answer, on the cache object |
| CachedReads.ReadRoute | lcloud/api/json_db.py:2258-2277 | a whole read route: collection and access are checked against the database as it is, whatever the cache holds, then the cached read, then the error for a missing document |
| CachedReads.InvalidateJsonDocument | lcloud/cache.py:412-415 | drops the document's entry and every list and query of its collection |
| CacheContents.MissIsFiled | lcloud/api/json_db.py:1934-1957 | a miss files the computed answer, a document for the document time and lists and queries for the query time |
| CacheContents.DocumentInvalidationExactly | lcloud/cache.py:412-415 | what is left is exactly the entries that are neither the document's nor a list or query of its collection |
| CacheContents.CollectionInvalidationExactly | lcloud/cache.py:405-409 | what is left is exactly the entries of other collections |
| CacheContents.InvalidatesExactly | lcloud/api/json_db.py:1660-1708 | which requests invalidate what |
| CacheContents.ListExactly | lcloud/api/json_db.py:1613-1653 | a list is the listing from the offset on, as many as the limit allows, and its whole length |
| EventStream.ExactlyOnce | lcloud/api/json_db.py:658-703 | under any interleaving of appends and polls with one read rule, the events sent are exactly the visible operations with since < id <= last id, ascending and each once |
| StreamContents.AppUserIsSentItsOwn | lcloud/api/json_db.py:671-684 | under the document-owner rule an app user is sent exactly the collection's operations in (since, last id] that carry its uid |
| StreamContents.OthersAreSentAll | lcloud/api/json_db.py:671-684 | under every other rule, and without an app user, it is all of the collection's operations in that window |
| StreamContents.OneTurn | lcloud/api/json_db.py:671-684 | one turn sends the first hundred of the operations above the last id that are for the client, or all, and the last id becomes that of the last one |
| StreamContents.FramesExactly | lcloud/api/json_db.py:686-701 | a turn's frames are its operations one by one, or a keep-alive if there are none and the stream goes on |
| EventStream.StreamsAgree | lcloud/api/json_db.py:658-703 | two streams opened at the same id that polled differently have sent one a prefix of the other |
| EventStream.ResumeContinues | lcloud/api/json_db.py:666-703 | resuming from the last id continues the same sequence |
| EventStream.NeverRepeats | lcloud/api/json_db.py:658-703 | even if the read rule changes between polls, ids only go up |
| EventStream.PollsCatchUp | lcloud/api/json_db.py:680-684 | n polls of a quiet log send the first 100 n owed operations, or all of them |
| EventStream.RunsGrow | lcloud/api/json_db.py:642-655 | polls at successive moments of any run of the write routes see what these results assume |
| EventStream.Stream.Turn | lcloud/api/json_db.py:667-701 | one turn of the generator: access check, frames sent one by one or a keep-alive, last id moved, whether to go on; what the client has seen moves as one poll |
| TokenBucket.StaysBounded | lcloud/utils/rate_limit.py:25-35 | the balance stays between 0 and the capacity in every run |
| TokenBucket.SpentIsCovered | lcloud/utils/rate_limit.py:25-35 | what was accepted since a call plus what is left is covered by one full bucket and the refill since |
| TokenBucket.WindowBound | lcloud/utils/rate_limit.py:25-35 | the cost accepted between any two calls of any run is at most capacity plus rate times the time between |
| TokenBucket.RefillComposes | lcloud/utils/rate_limit.py:28-30 | refilling at two moments is refilling once over the whole time |
| TokenBucket.DeniedCallsAreInvisible | lcloud/utils/rate_limit.py:25-35 | leaving any denied calls out of a run changes no later decision |
| TokenBucket.NewBucketIsFull | lcloud/utils/rate_limit.py:28 | a key seen for the first time behaves like a bucket that was full since any earlier time |
| TokenBucket.KeysAreIndependent | lcloud/utils/rate_limit.py:25-35 | in any run over many keys a key's bucket is where its own calls alone take it |
| TokenBucket.RateLimiter.TryAcquire | lcloud/utils/rate_limit.py:25-35 | a key seen for the first time has the whole capacity; otherwise the refilled balance decides; a refusal refills and spends nothing; other keys are untouched; buckets and answers are those of all calls so far |
| TokenBucket.LimiterWindow | lcloud/utils/rate_limit.py:25-35 | of the limiter itself: whatever it has answered for whatever keys, the cost granted one key between two of its calls is at most capacity plus rate times time |
| TokenBucket.RateLimiter.Reset | lcloud/utils/rate_limit.py:37-39 | forgets every key |
| TokenBucket.SleepIsExact | lcloud/workers/rate_limiter.py:59-64 | with no grant in between, a refused waiter succeeds exactly from the end of its computed sleep |
| TokenBucket.OnlyAGrantDelaysAWaiter | lcloud/workers/rate_limiter.py:50-64 | however other waiters interleave, if none is granted anything a waiter succeeds on waking |
| TokenBucket.AsyncTokenBucket.Turn | lcloud/workers/rate_limiter.py:51-63 | the part of the loop under the lock: refill, then take or compute the sleep |
| TokenBucket.AsyncTokenBucket.Acquire | lcloud/workers/rate_limiter.py:44-64 | refuses amounts that are not positive or above the capacity; a caller left alone is granted at its first or second turn |
| TokenBucket.AsyncTokenBucket.AcquireAmong | lcloud/workers/rate_limiter.py:44-64 | among any other callers the loop is granted at the first of its turns that the shared balance covers, refused at all before, and every turn of everybody is one attempt on one bucket |
| Files.EveryRunKeepsLineage | lcloud/api/v2_files.py:443-483 | in every run a link points to an earlier, deleted row of the same cloud and name, and no row is replaced twice |
| Files.EveryRunKeepsOneLive | lcloud/api/v2_files.py:446-465 | in every run a user has at most one live row per cloud and name |
| Files.StorageKeyIsUnambiguous | lcloud/api/storage_public.py:502-515 | so a storage-key upload never finds two rows to supersede |
| Files.SessionAmbiguity | lcloud/api/v2_files.py:446-456 | a session upload finds more than one exactly if two live rows of that cloud and name exist |
| Files.EveryRunConserves | lcloud/auth/storage_quota.py:63-88 | without recomputation the counter is exactly the bytes of the user's rows that no delete released, live and superseded |
| Files.EveryRunStaysInQuota | lcloud/auth/storage_quota.py:46-60 | with recomputation too, the counter stays between the live bytes and those bytes, and between 0 and the quota |
| Files.CounterIsLiveAndSince | lcloud/auth/storage_quota.py:63-108 | in every run, recomputations included, the counter is the live bytes and the bytes superseded since the last recomputation |
| Files.RecomputeForgets | lcloud/auth/storage_quota.py:91-108 | in every run recomputing subtracts exactly the bytes superseded since the last time, and the counter is the live total if and only if every action that superseded some was followed by a recomputation |
| Files.SinceTheStart | lcloud/auth/storage_quota.py:91-108 | while nothing was recomputed, those are all the superseded bytes |
| Files.CounterKeepsSuperseded | lcloud/auth/storage_quota.py:1-16 | a run of three uploads of one name after which the counter is 60 and the live total 30; a recomputation makes both 30, with 30 bytes still superseded |
| Files.BackIsChain | lcloud/api/versions.py:66-80 | the walk back has strictly falling ids, each row replacing the next, and ends at a row that replaces nothing |
| Files.VersionsAreAChain | lcloud/api/versions.py:66-90 | the same of the whole answer, which holds the requested row |
| Files.HistoryIsAClass | lcloud/api/versions.py:66-90 | the walk back from the newest version is exactly the rows that lead to that version |
| Files.CompleteIffNearlyNewest | lcloud/api/versions.py:82-90 | the answer is the whole line if and only if the requested row has at most one newer version |
| Files.NewestCanBeMissing | lcloud/api/versions.py:82-90 | a run of three uploads of one name after which asking for the oldest leaves out the newest |
| Files.FileService.AssertCanStore | lcloud/auth/storage_quota.py:46-60 | refuses exactly if the user is missing or the sum exceeds the quota, with the figures it reports |
| FileRules.WhoMayUpload | lcloud/api/v2_files.py:106-117 | uploads go to a cloud that exists, by its owner or in a session an admin, and only within the quota |
| FileRules.PriorExactly | lcloud/api/v2_files.py:446-456 | the rows an upload may replace are the live ones of that cloud and name, for a storage key the user's own |
| FileRules.WhatUploadDoes | lcloud/api/v2_files.py:443-485 | a new live row of the uploader; the row it links to is the one of that name that it may replace, and is deleted; nothing else changes but the uploader's counter |
| FileRules.RefusedOnSight | lcloud/api/v2_files.py:120-149 | which files are refused for their size or signature |
| FileRules.WhoMayDelete | lcloud/api/v2_files.py:556-571 | live rows only: in a session by the owner or an admin, with a storage key by the owner in the key's cloud; everybody else is told that there is none |
| FileRules.WhatDeleteDoes | lcloud/api/v2_files.py:573-608 | the row is deleted, its owner's counter falls by its size, and nothing else changes |
| Files.FileService.IncrementUsed | lcloud/auth/storage_quota.py:63-88 | moves one user's counter by the delta |
| Files.FileService.UploadFile | lcloud/api/v2_files.py:260-485 | refusals in order (cloud, size, signature, quota), then the message, then supersede, insert with the link, charge; a refusal changes no row and no counter, and one for two live rows of the name leaves its message behind |
| Files.FileService.DeleteFile | lcloud/api/v2_files.py:556-608 | deletes a live row the caller may delete and releases its bytes to its owner, if it has one |
| Files.FileService.RecomputeUsed | lcloud/auth/storage_quota.py:91-108 | stores and returns the sum of the user's live rows |
| FileRules.LiveTotal | lcloud/auth/storage_quota.py:91-108 | a row counts in the live total with its size exactly if it is live and the user's |
| Files.FileService.ListVersions | lcloud/api/versions.py:50-92 | the walk ends and returns the specified answer, or 404 to anyone but the owner and admins |

## Left out

- Deleting a collection: its cascade removes log rows, logs nothing and frees ids, so nothing here is
  claimed across it.
- Restoring several source databases at once, or into a target with writes of its own: collections
  merge by name there and the cursor can jump past local operations. So nothing is claimed of restoring
  what a resumed target uploaded together with what its source did.
- Lists and queries that show a part of the documents: `StalePages.PageIsFreshIffUnwritten` leaves open
  whether a write to a document outside the page moves others into or out of it.
- Choosing the target's default database (or creating it) and checking that the target user exists;
  malformed operations without collection metadata or payload objects.
- The backup switch, the Telegram login checks before a round, and the timer between rounds.
- Backup segments addressed to different chats; checksums, captions and the download loop; the HTTP,
  SQLAlchemy, Telethon and file-system layers.
- Timestamps as values: `updated_at` only orders listings, `created_at` and `deleted_at` are flags.
- Requests of one database running concurrently: each is one step, as under SQLite's single writer, but
  for the steps of `ReadsInFlight`. There too a list's count and rows are read at one moment, and the
  deletions of one invalidation are one step.
  Uploads and deletes of files are whole steps too, so a crash between the row and the counter is
  not modelled.
- Name and id syntax checks, generated document ids, and resolving databases, projects and
  publishable keys to a collection.
- Cache statistics, `configure`, `clear`, `delete_namespace` and the cached storage-key, user and
  file-listing entries, which no theorem here needs; other users of the cache appear as removals.
- Sorting by a field that holds lists, objects or mixed kinds: Python raises, and the model answers
  an error for mixed kinds only where it orders by numbers or strings.
- Fairness between databases when one upload keeps failing: the loop stops at the exception.
- `call_with_floodwait_retry`.
- V1 and ingest file writes appear only as ownerless inserts and unbilled deletes; quota results ask
  that such a delete hits an ownerless row.
- Floating-point rounding.
- EventStream.Stream.Turn: the one-second pause between polls is not modelled.
- Files.FileService.UploadFile: how a signature is verified and how compression arrives at the size are
  not modelled; both are inputs.
- TokenBucket.AsyncTokenBucket.Acquire: speaks of a caller that nobody interferes with;
  TokenBucket.AsyncTokenBucket.AcquireAmong speaks of any other callers.
- BackupWorker.RoundsDrain: speaks of rounds in which every upload is delivered; nothing is claimed
  about how often that happens. So does BackupWorker.EveryBacklogDrains.
