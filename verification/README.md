# File sync server: a verified model

A Dafny 4.11 model of the state machines inside a file synchronisation server,
with proofs of what they promise. `dafny verify dfyconfig.toml` checks all of it.

The server keeps file metadata per account, pushes uploads to the account's
other connected devices, and on reconnection sends each device what it missed
since its `last_sync` watermark. Around that core sit a small relational store
of watcher groups, watchers and conditions, two caches, a message consumer,
version history, login sessions, request metrics, connection records, a
configuration sync and a path value object.

| file | models |
|---|---|
| `Basics.dfy` | options, enumerations and runs, shared by the others |
| `SubscriberKeys.dfy` | `account:device` keys and the two recipient tests |
| `InitialSync.dfy` | gathering, batching and sending at subscription |
| `Delivery.dfy` | the whole update protocol: uploads and subscriptions step by step, interleaved |
| `DeliveryLosses.dfy` | which steps lose a record, that lost is lost for good, a run into each loss |
| `Notifications.dfy` | subscriber tables and broadcasts |
| `ChannelCapacity.dfy` | one bounded channel between an initial sync and the broadcasts |
| `WatcherStore.dfy`, `WatcherInvariants.dfy` | groups, watchers, conditions, the watcher upsert; what all runs keep |
| `FileCache.dfy` | the file service with its data cache, against a service without one |
| `TtlCache.dfy` | the cache with time to live, against the history of calls |
| `Versions.dfy` | history query, restore |
| `Consumer.dfy` | dedupe, retry, dead letters, under an adversarial broker |
| `AuthSessions.dfy` | login sessions, against the history of requests |
| `Metrics.dfy` | counters under any interleaving, percentile |
| `Connections.dfy` | connection records, against the history of events |
| `ConfigSync.dfy` | configuration sync accounting |
| `PathNormalisation.dfy` | path validation and normalisation |

Code that updates fields or works in loops is a class or a method here, each
proved against a function on values; the run-level results are lemmas about
those functions. Clock readings, storage failures, broken channels, hash-map
iteration order and the folder helpers are parameters, quantified over.

## Where the code falls short of what one would expect

Each is stated with the exact condition under which the expectation holds.

- No update is lost (`NoLostUpdate`: received, queued in the device's channel,
  still to be broadcast, or at or above the watermark) as long as clients do not
  ask with a `since_ts` above their own watermark; a device does not lose its
  channel, nor an upload fail half-way, while its initial sync runs or an upload
  stamped before its watermark is on its way to it; and no receiver goes away
  during an initial sync, or with a record queued that is below the watermark,
  which the code moves before the client has received anything.
  `StepLosesIff` says for any state exactly which steps lose a record,
  `LostForGood` that it stays lost, and for each condition there is a run from
  the empty server that breaks only it and loses a record (`SinceAheadLoses`,
  `UnsubscribeDuringSyncLoses`, `DisconnectBeforeBroadcastLoses`,
  `FailedWriteLoses`, `DisconnectWithQueueLoses`).
- An initial sync with more eligible files than free channel slots never ends,
  because the response stream is handed out only afterwards (`InitialSyncExact`).
  With broadcasts going into the same channel it can still end exactly if both
  fit (`SyncEndsIff`), and as long as it has a file left to send it and a
  broadcast can come to wait for each other for ever, with the subscriber table
  locked (`DeadlockReachableIff`, `DeadlockForEver`).
- A broadcast waits, with the subscriber table locked, exactly if a selected
  channel is full (`BroadcastFileUpdate`, `BroadcastWatcherUpdate`).
- Recipient tests are right exactly for colon-free hashes (`FileTestExact`,
  `WatcherTestExact`).
- `create_watcher_with_conditions` accepts dead groups and groups of other
  accounts, which breaks referential integrity (`CreatedValidIff`). It keeps one
  watcher per folder exactly if none matches at that moment (`CreatedUniqueIff`,
  `StepUniqueIff`); since the upsert looks and creates in separate lock sections,
  a write on an older lookup keeps it exactly if it found a watcher or still none
  matches (`WrittenUniqueIff`, `RacingUpsertsDuplicate`), and keeps integrity
  exactly if what it found or aimed at is still there (`WrittenValidIff`,
  `OvertakenUpsertDangles`).
- The raw `store_file_data` of the file service goes past the cache
  (`RawStoreFileData`).
- The in-memory store's file id counter knows nothing of ids that callers chose, so
  a store without an id can take over another file's record (`CounterTakesOver`;
  `RecordSurvives` says when not).
- `MemoryCache::remove` tells whether an entry was still held, so unlike `get`
  its answer depends on earlier evictions (`RemoveAgreesIff`).
- `has_more` also counts versions outside the requested time range
  (`HasMoreIff`).
- A republished message is acknowledged as a duplicate, so without producer
  headers a message can reach the dead-letter exchange exactly if `max_retries`
  is at most one (`DeadLetterReachableIff`). Even then a poison message is only
  dead-lettered if no message alike came to the dedupe check before it
  (`DeadLettersExact`, `PassesIffNoneAlike`, `CollideIffAlike`); bodies without an id of their own are
  told apart by length alone (`FallbackIdsCollideIff`), so another poison body of
  the same length is acknowledged and gone (`PoisonOvershadowed`). The retry
  count wraps for exactly one header value (`CountWrapsIff`).
- A callback for a temporary device completes the pending sessions except
  those of other temporary devices (`CallbackCompletesAllIff`).
- A zero-millisecond request resets the minimum response time
  (`MinIsMinimumIff`). Concurrent requests can leave the minimum above the
  maximum (`RaceInvertsExtremes`, `StepInvertsIff`), but not where no two update
  the extremes at once (`ExclusiveOrdered`). The percentile's product can wrap,
  which never takes it out of range (`PercentileExactIff`, `PercentileInRange`).
- One normalisation pass is enough exactly if no run of slashes is longer than
  two (`PassesEnoughIff`, `NormaliseIdempotentIff`).

## Model

| member | source | states |
|---|---|---|
| `Delivery.NoLostUpdate` | src/server/service.rs:134-351 | in every orderly interleaved run, a stored record a registered device is owed was received, is queued in its channel, is still to be broadcast, or is at or above the device's watermark |
| `Delivery.CompletedSyncDelivers` | src/server/service.rs:751-816 | from a sync's last send until its watermark is written, every stored record its device is owed is in its channel or received, or its broadcast is to come and reaches the device |
| `Delivery.SafeKept` | src/server/service.rs:134-351 | every orderly step of any session, upload or other request keeps the invariant |
| `Delivery.SafeRun` | src/server/service.rs:134-351 | the invariant holds in every state an orderly run reaches |
| `Delivery.OwedExactly` | src/services/file_service.rs:219-258 | on the run itself, "owed" means: stored by an upload that was coming for the device, still the stored record, and nothing ended the obligation |
| `Delivery.ComingExactly` | src/services/file_service.rs:203-206 | on the run itself, "coming" means: stamped for a registered group by another device while the device was registered, and not gone on since |
| `Delivery.WaitingBefore` | src/services/file_service.rs:219-258 | a record starts to wait only when it is stored, its broadcast being then to come, or when a receiver goes away with it |
| `Delivery.ConcludedSafely` | src/server/notification_manager.rs:176-265 | a broadcast leaves a record waiting only for a device that is not connected and has not synced past it |
| `Delivery.BroadcastReaches` | src/server/notification_manager.rs:184-253 | a broadcast reaches every connected device the upload is for |
| `Delivery.ListingKeepsAhead` | src/storage/memory.rs:319-344 | reading the groups and listing one of them never passes over a waiting record |
| `Delivery.SendingKeepsAhead` | src/server/service.rs:217-324 | the sending loop passes over a waiting record only by sending it |
| `Delivery.SyncKeepsWatermark` | src/server/service.rs:328-347 | the write of the new watermark passes no waiting record |
| `Delivery.NothingAstray` | src/server/notification_manager.rs:190-200 | in every run, orderly or not, whatever a device was sent or received is a record that was stored, of its own account, and not its own |
| `Delivery.OnlyOffersEnter` | src/server/service.rs:289-298 | nothing goes into a channel that is not up, and nothing but by a broadcast of it or a session's turn to send it |
| `Delivery.OnlyDropsLeave` | src/server/service.rs:747-751 | what is queued leaves only with its receiver, what was received stays received |
| `Delivery.DeliverExact` | src/server/service.rs:217-324 | one turn of the sending loop: own file passed over, another sent if the channel is up, else the rest of the batch of 50 given up |
| `Delivery.GoesOnIff` | src/server/service.rs:328-347 | in every run a finished sync moves the watermark iff its device is registered and it sent something newer than the watermark, or was asked to start from later |
| `Delivery.GivenUp` | src/server/service.rs:134-351 | a session that is dropped, or ends without moving the watermark, changes nothing else |
| `DeliveryLosses.StepLosesIff` | src/server/service.rs:134-351 | in any state, a step loses a record iff it ends the record's last upload without reaching a device that has synced past it, ends a receiver that has it queued for such a device, or writes a watermark above it while it waits |
| `DeliveryLosses.LostForGood` | src/storage/memory.rs:319-344 | in every run on, a lost record is never sent and in no listing of the device, until it is uploaded anew or no longer owed |
| `DeliveryLosses.LostKept` | src/server/service.rs:134-351 | every step that neither uploads the record anew nor ends the obligation keeps it lost |
| `DeliveryLosses.EndLoses` | src/server/service.rs:328-347 | a record that waits when a sync ends and moves the watermark is lost |
| `DeliveryLosses.SinceAheadLoses` | src/server/service.rs:151-165 | for any `since_ts` above the watermark, a run from the empty server, orderly but for that request, loses a record for good |
| `DeliveryLosses.UnsubscribeDuringSyncLoses` | src/server/service.rs:776-797 | a run from the empty server, orderly but for the timer that removes the sender during a sync, loses a record for good |
| `DeliveryLosses.DisconnectBeforeBroadcastLoses` | src/services/file_service.rs:219-258 | a run orderly but for a disconnect between an upload's stamp and its broadcast, after a sync past the stamp, loses a record for good |
| `DeliveryLosses.FailedWriteLoses` | src/services/file_service.rs:231-246 | a run orderly but for a data write that fails after the record is stored loses a record for good |
| `DeliveryLosses.DisconnectWithQueueLoses` | src/server/service.rs:328-351 | a run orderly but for a disconnect after the sync, with a record still queued, loses it for good |
| `ChannelCapacity.SyncEndsIff` | src/server/service.rs:201-328 | at any moment of any run, the sync can still end iff its files, the updates broadcast into its channel so far, and one more if a broadcast stands in its way, fit the channel |
| `ChannelCapacity.DeadlockReachableIff` | src/server/notification_manager.rs:184-253 | a sync and a broadcast can still come to wait for each other iff the sync has a file left to send |
| `ChannelCapacity.DeadlockForEver` | src/server/service.rs:290-298 | once they do, no step of anyone is possible |
| `ChannelCapacity.DoomedForEver` | src/server/service.rs:747 | a sync whose channel cannot take what must go in never ends, in any run on |
| `ChannelCapacity.NothingWaits` | src/server/service.rs:747 | while files and broadcasts fit the channel together, no send waits |
| `InitialSync.InitialSyncExact` | src/server/service.rs:183-328 | with all sends succeeding the sync ends iff the eligible files fit the channel, and then sends each eligible file exactly once, with exact counts and maximum |
| `InitialSync.DeliverFiles` | src/server/service.rs:201-327 | the batch and file loops equal the file-by-file specification, with failed sends ending a batch and full channels blocking |
| `InitialSync.DeliverBatch` | src/server/service.rs:217-324 | one batch runs to its end, to its first failed send, or blocks |
| `InitialSync.DrainSendsAll` | src/server/service.rs:201-328 | enough room and no failure: all foreign files in order, sent plus skipped is the total |
| `InitialSync.DrainHangs` | src/server/service.rs:747 | too little room and no failure: the loop never ends |
| `InitialSync.DrainWithFailures` | src/server/service.rs:201-328 | whatever fails, a subsequence of foreign files is sent and the counts never exceed the files passed |
| `InitialSync.DrainExact` | src/server/service.rs:210-327 | with any sends failing, a file is sent iff it is of another device and neither its send nor one before it in its batch of 50 fails |
| `InitialSync.EligibleExact` | src/storage/memory.rs:319-344 | which records are eligible, condition by condition |
| `InitialSync.EffectiveSinceExact` | src/server/service.rs:165 | the later of the stored watermark and the time asked for, zero if none |
| `InitialSync.MaxStampIsMaximum` | src/server/service.rs:208-304 | the tracked time is the maximum of the watermark and the delivered times |
| `InitialSync.SyncService.SendInitialFileSync` | src/server/service.rs:134-351 | listing, delivery and the watermark's move (or not), nothing else changed |
| `InitialSync.SyncService.Gather` | src/server/service.rs:166-199 | each record of the account's groups at or above the bound, exactly once, in any map order |
| `InitialSync.SyncService.ListFiles` | src/storage/memory.rs:319-344 | exactly the account's files of the group at or above the bound |
| `InitialSync.SyncService.WatcherGroups` | src/storage/memory.rs:469-483 | exactly the account's groups |
| `SubscriberKeys.FileTestExact` | src/server/notification_manager.rs:184-200 | prefix and suffix tests address the right devices for all updates iff the hashes hold no colon |
| `SubscriberKeys.WatcherTestExact` | src/server/notification_manager.rs:278-300 | same boundary for the split-based test |
| `SubscriberKeys.TestsAgree` | src/server/notification_manager.rs:278-300 | on colon-free hashes both tests agree |
| `SubscriberKeys.KeyInjective` | src/server/service.rs:751 | colon-free devices are told apart by their keys |
| `SubscriberKeys.ExtraColonSplits` | src/server/notification_manager.rs:278-300 | two colons in a key make at least three parts, so no watcher broadcast selects it |
| `Notifications.NotificationManager.BroadcastFileUpdate` | src/server/notification_manager.rs:176-265 | waits iff a selected channel is full; otherwise every selected live channel gets the update once, nothing else changes, and the error comes back iff some were selected and all were dead |
| `Notifications.NotificationManager.BroadcastWatcherUpdate` | src/server/notification_manager.rs:268-320 | same for the split-based broadcasts, which never report an error |
| `Notifications.NotificationManager.RegisterWithAlias` | src/server/notification_manager.rs:100-111 | a fresh channel replaces any older one under the key |
| `Notifications.NotificationManager.Unregister` | src/server/notification_manager.rs:114-120 | removes sender and alias, tells whether there was one |
| `Notifications.SendToSelected` | src/server/notification_manager.rs:184-264 | waits iff a selected channel is full; otherwise sent is the number reached, sent plus errors the number selected |
| `Notifications.WalkSubscribers` | src/server/notification_manager.rs:190-253 | the loop deals with each subscriber once, in any order, up to the first full channel |
| `Notifications.FileSelectorExact` | src/server/notification_manager.rs:157-200 | a file broadcast selects the devices of the account, all of them or all but the source as asked |
| `Notifications.WatcherSelectorExact` | src/server/notification_manager.rs:278-300 | the same for a watcher broadcast |
| `Notifications.BroadcastReachesOthers` | src/server/notification_manager.rs:184-264 | with or without the source: a colon-free subscriber gets the update, last in its queue and under its alias, iff it is a live device of the account (other than an excluded source) |
| `Notifications.WatcherBroadcastReaches` | src/server/notification_manager.rs:268-320 | the same for a watcher broadcast, without aliases |
| `Notifications.PartlySentExact` | src/server/notification_manager.rs:190-253 | a broadcast that waits has given each subscriber the whole update or nothing |
| `Notifications.BroadcastFailsIff` | src/server/notification_manager.rs:255-264 | in terms of devices: an error iff devices it is for are subscribed and none listens; it waits iff one of those that do has 1024 updates queued |
| `WatcherStore.ComputeNextId` | src/storage/memory.rs:443-466 | one above the largest key, so unused |
| `WatcherStore.InsertedExactly` | src/storage/memory.rs:795-840 | the incoming conditions get consecutive ids in order, the others stay |
| `WatcherStore.MemoryStorage.RegisterWatcherGroup` | src/storage/memory.rs:443-466 | the group is filed under the next id |
| `WatcherStore.MemoryStorage.CreateWatcher` | src/storage/memory.rs:739-850 | watcher, conditions and the group's list are updated together |
| `WatcherStore.MemoryStorage.SaveWatcherConditions` | src/storage/memory.rs:1074-1106 | the watcher's conditions are replaced |
| `WatcherStore.MemoryStorage.InsertConditions` | src/storage/memory.rs:795-840 | the insertion loop |
| `WatcherStore.MemoryStorage.RemoveConditions` | src/storage/memory.rs:1081-1091 | the removal loop drops exactly the conditions of the given watchers |
| `WatcherStore.MemoryStorage.DeleteWatcherGroup` | src/storage/memory.rs:533-585 | not found, permission denied, or the cascade |
| `WatcherStore.MemoryStorage.FindWatcherByFolder` | src/storage/memory.rs:712-733 | some match if there is one, whichever the iteration yields |
| `WatcherStore.MemoryStorage.CreateOrGetWatcher` | src/server/app_state.rs:518-632 | rejects, creates, or refreshes a match |
| `WatcherInvariants.ValidRun` | src/storage/memory.rs:443-850 | every run of register, create, upsert, save and delete keeps referential integrity across the three maps, owners included |
| `WatcherInvariants.StepValid` | src/handlers/watcher_handler.rs:389-434 | every single request keeps it, including registration with a first watcher |
| `WatcherInvariants.FreshIdsInheritNothing` | src/storage/memory.rs:443-466 | a reused id never inherits watchers, list entries or conditions |
| `WatcherInvariants.RegisteredValidIff` | src/storage/memory.rs:443-466 | integrity is kept iff the group comes without watchers |
| `WatcherInvariants.CreatedValidIff` | src/storage/memory.rs:739-850 | integrity is kept iff the group is live and of the account |
| `WatcherInvariants.SavedValidIff` | src/storage/memory.rs:1074-1106 | integrity is kept iff the watcher is live and of the conditions' account, or nothing is saved |
| `WatcherInvariants.DeletedValid` | src/storage/memory.rs:533-585 | the cascade leaves nothing dangling |
| `WatcherInvariants.DeleteIsExact` | src/storage/memory.rs:533-585 | exactly the group, its watchers and their conditions go; all else is untouched |
| `WatcherInvariants.SaveReplaces` | src/storage/memory.rs:1056-1106 | the watcher's conditions are exactly the listed ones under fresh increasing ids, other watchers keep theirs |
| `WatcherInvariants.RefreshReplaces` | src/server/app_state.rs:549-599 | an upsert replaces with union then subtract conditions, or keeps all if none came |
| `WatcherInvariants.RefreshedExactly` | src/server/app_state.rs:549-599 | an upsert writes each union condition, then each subtract condition, under the next ids, and no group or watcher |
| `WatcherInvariants.CreatedExactly` | src/storage/memory.rs:752-793 | a creation adds the one watcher and appends its id to its group's list, nothing else |
| `WatcherInvariants.CreatedConditionsExactly` | src/storage/memory.rs:795-840 | a creation adds its union conditions, then its subtract conditions, under the next ids, and keeps all others |
| `WatcherInvariants.RegisteredExactly` | src/storage/memory.rs:443-466 | a registration adds the group as given but for its id |
| `WatcherInvariants.Perform` | src/handlers/watcher_handler.rs:389-434 | each request on the store is the step the run theorems are about, registration with a first watcher included |
| `WatcherInvariants.PerformAll` | src/storage/memory.rs:443-850 | so is any sequence of them, whatever matches the upserts happen on |
| `WatcherInvariants.ConditionIdsNeverReused` | src/storage/memory.rs:979-994 | in any run an id handed out once names the same condition or none |
| `WatcherInvariants.UniqueRun` | src/server/app_state.rs:518-632 | runs whose bare creations find no match at that moment keep one watcher per account, group and normalised folder |
| `WatcherInvariants.UpsertIdempotent` | src/server/app_state.rs:518-632 | after an upsert one watcher matches, and a second upsert adds none whatever the map order |
| `WatcherInvariants.CreatedUniqueIff` | src/storage/memory.rs:739-793 | creation keeps folders unique iff none matches yet |
| `WatcherInvariants.StepUniqueIff` | src/server/app_state.rs:518-632 | any request keeps folders unique iff it is not a creation for a folder that has a watcher |
| `WatcherInvariants.WrittenUniqueIff` | src/server/app_state.rs:535-620 | an upsert's write on an older lookup keeps folders unique iff it found a watcher or still none matches |
| `WatcherInvariants.WrittenValidIff` | src/server/app_state.rs:535-620 | it keeps integrity iff its group is still the account's, or the found watcher still lives there, or it brings no conditions |
| `WatcherInvariants.RacingUpsertsDuplicate` | src/server/app_state.rs:535-620 | two upserts of a new folder whose lookups both come before their writes leave two watchers |
| `WatcherInvariants.OvertakenUpsertDangles` | src/server/app_state.rs:535-599 | a group deletion between an upsert's lookup and its write leaves dangling conditions |
| `FileCache.FileService.PerformAll` | src/services/file_service.rs:219-679 | any run of calls with any failing writes gives the answers and the store of a service without a cache |
| `FileCache.FileService.Perform` | src/services/file_service.rs:219-679 | the same for one call, from any coherent state |
| `FileCache.FileService.Store` | src/services/file_service.rs:219-294 | writes through, also when a backing write fails, and stays coherent |
| `FileCache.FileService.CopyFileData` | src/services/file_service.rs:377-415 | copies what an uncached service would copy |
| `FileCache.FileService.RestoreVersion` | src/services/file_service.rs:417-445 | copies and refreshes the cache coherently |
| `FileCache.FileService.ReadData` | src/services/file_service.rs:466-478 | reads the backing bytes, cached or not |
| `FileCache.FileService.DeleteFile` | src/services/file_service.rs:538-609 | drops record, bytes and cached bytes, or nothing |
| `FileCache.FileService.ReadFile` | src/services/file_service.rs:639-679 | record with backing bytes, filling the cache coherently |
| `FileCache.FileService.RawStoreFileData` | src/services/file_service.rs:628-637 | the raw write keeps coherence iff the id is uncached or the bytes agree |
| `FileCache.StoreThenRead` | src/services/file_service.rs:219-261 | stored bytes are what a later read answers, until a call touches the id |
| `FileCache.StoreThenGetFile` | src/services/file_service.rs:639-679 | a stored file is read back whole, unless the id counter has come past its id |
| `FileCache.DeleteThenRead` | src/services/file_service.rs:538-609 | a deleted file is gone for both kinds of read |
| `FileCache.DeleteTwice` | src/storage/memory.rs:377-402 | and cannot be deleted again |
| `FileCache.CopyThenRead` | src/services/file_service.rs:377-445 | after a copy or restore the target reads what the source read |
| `FileCache.FailureKeeps` | src/services/file_service.rs:231-246 | a call that fails changes no bytes, and a record only if its bytes failed after it |
| `FileCache.RefusedIff` | src/services/file_service.rs:377-415 | when a file is said not to be found |
| `FileCache.RecordSurvives` | src/storage/memory.rs:252-272 | a record stays if no call touches its id and the id counter does not come past it |
| `FileCache.CounterTakesOver` | src/storage/memory.rs:255-262 | a store without an id can take over the record of a file whose id a caller chose |
| `FileCache.LastWriteWins` | src/services/file_service.rs:466-478 | stored bytes stay until a call touches the id |
| `FileCache.RestoreOntoItself` | src/services/file_service.rs:377-445 | a copy onto the same id changes nothing |
| `Versions.ApplyHistoryFilters` | src/services/version_service.rs:133-156 | the two retains, the sort and the truncation give the first k of the stable sort of the in-range versions |
| `Versions.SelectionIsNewest` | src/services/version_service.rs:133-156 | exactly the versions between the requested times are chosen, newest first, and none left out is newer than one kept |
| `Versions.LimitExact` | src/services/version_service.rs:148-155 | as many versions as asked for, 50 if nothing is said, all if not positive |
| `Versions.HistoryExact` | src/services/version_service.rs:179-190 | a history is the rows of one account, path and group, in table order |
| `Versions.HasMoreIff` | src/services/version_service.rs:179-209 | `has_more` holds iff the limit cut versions off or some are out of range |
| `Versions.SortedIsStable` | src/services/version_service.rs:145-146 | the sort is descending and keeps the order within a revision |
| `Versions.StableSortUnique` | src/services/version_service.rs:145-146 | there is only one such arrangement |
| `Versions.VersionService.GetFileHistory` | src/services/version_service.rs:160-209 | refusal of empty arguments, failed lookup, or versions, total and `has_more` |
| `Versions.VersionService.FindRevision` | src/services/version_service.rs:233-242 | a row of that account, file and revision iff there is one |
| `Versions.VersionService.RestoreFileVersion` | src/services/version_service.rs:211-280 | success appends one undeleted row with the target's hash, one above the highest revision of the path; failure leaves history alone; no byte changes |
| `Versions.VersionService.TakeAll` | src/services/version_service.rs:233-280 | over any run of restores and uploads: the bytes are what the uploads alone make them, no existing row changes, every added row was recorded by an upload or was a proper restore when added |
| `Consumer.AtMostOnce` | src/bin/rabbit_consumer.rs:298-389 | under any interleaving and redelivery each id passes dedupe once, is published once, and each delivery is acked once or held by one consumer |
| `Consumer.PublishesAndAcks` | src/bin/rabbit_consumer.rs:298-389 | publishes never outnumber distinct ids; when idle, acked means taken |
| `Consumer.RetryCountsBounded` | src/bin/rabbit_consumer.rs:314-383 | without producer headers, counts stay below max(1, max_retries), dead letters carry that value, and no count about to be written overflows |
| `Consumer.DeadLetterReachableIff` | src/bin/rabbit_consumer.rs:339-385 | over header-free runs, a dead letter is possible iff max_retries is at most one |
| `Consumer.DeadLettersExact` | src/bin/rabbit_consumer.rs:298-361 | with max_retries at most one, no headers and arriving publishes: once idle, a poison body is a dead letter iff it came to the dedupe check and no body alike came before it |
| `Consumer.PassesIffFirst` | src/bin/rabbit_consumer.rs:304-313 | in every run a message passes the dedupe check iff none with its id was checked before |
| `Consumer.PassesIffNoneAlike` | src/bin/rabbit_consumer.rs:304-313 | in terms of the bodies: a message passes iff no body checked before is alike |
| `Consumer.CollideIffAlike` | src/bin/rabbit_consumer.rs:35-44 | two bodies collide iff both have one id, or neither has one and the lengths agree, or the id of one spells the length of the other |
| `Consumer.NextAttemptExact` | src/bin/rabbit_consumer.rs:315-332 | the count a failed message goes on with, for each kind of header |
| `Consumer.DecimalReads` | src/bin/rabbit_consumer.rs:43 | lengths are printed in decimal |
| `Consumer.DeadAccountedRun` | src/bin/rabbit_consumer.rs:314-361 | at every moment of such a run, dead letters are poison messages that passed, and each of those is a dead letter or in hand |
| `Consumer.PoisonOvershadowed` | src/bin/rabbit_consumer.rs:305-313 | a run in which a poison message is acknowledged and never dead-lettered |
| `Consumer.DeadLettersMatchPublishes` | src/bin/rabbit_consumer.rs:339-361 | with max_retries at most one and arriving publishes, there is one dead letter per publish, in order |
| `Consumer.PoisonOutcome` | src/bin/rabbit_consumer.rs:314-385 | where a poison message ends, for any header |
| `Consumer.CountWrapsIff` | src/bin/rabbit_consumer.rs:315-346 | the increment wraps iff the header is the largest count; the message then goes back with count zero iff max_retries is positive |
| `Consumer.FallbackIdsCollideIff` | src/bin/rabbit_consumer.rs:35-44 | bodies without an id share one iff their lengths agree |
| `Consumer.DecimalInjective` | src/bin/rabbit_consumer.rs:35-44 | the printed length determines the length |
| `TtlCache.GetReturnsPromised` | src/storage/cache.rs:53-66 | after any run under a monotone clock a read returns the last value set and not removed whose deadline has not passed |
| `TtlCache.ReadAfterSet` | src/storage/cache.rs:17-34 | a value is read exactly until its own time to live is over, else the default one, else for ever |
| `TtlCache.ReadAfterRemoval` | src/storage/cache.rs:76-79 | after a removal or a clearing nothing is read |
| `TtlCache.EvictionsInvisible` | src/storage/cache.rs:53-93 | leaving out every read and cleanup of a run changes no later read |
| `TtlCache.StoredExactly` | src/storage/cache.rs:53-93 | what is physically held, as a property of the run |
| `TtlCache.RemoveAgreesIff` | src/storage/cache.rs:76-79 | removal's answer agrees with a read's iff no expired entry lingers |
| `TtlCache.MemoryCache.Get` | src/storage/cache.rs:53-66 | returns the promised value, evicting an expired entry |
| `TtlCache.MemoryCache.Set` | src/storage/cache.rs:69-73 | own time to live, else the default |
| `TtlCache.MemoryCache.Remove` | src/storage/cache.rs:76-79 | true iff the entry was held |
| `TtlCache.MemoryCache.Clear` | src/storage/cache.rs:102-105 | forgets every entry |
| `TtlCache.MemoryCache.CleanupExpired` | src/storage/cache.rs:82-93 | keeps the unexpired |
| `AuthSessions.SessionsFollowHistory` | src/handlers/auth_handler.rs:34-298 | in every run a session exists iff created and not swept since, is filed under its own hash, expires 24 hours after creation, and has all credentials of their source or none |
| `AuthSessions.StatusExact` | src/handlers/auth_handler.rs:142-298 | complete iff hit since creation; then the latest credentials and the whole seconds left of 24 hours; otherwise empty credentials |
| `AuthSessions.SourceUnique` | src/handlers/auth_handler.rs:34-112 | one request determines a session's credentials |
| `AuthSessions.TemporaryCallbackLeaves` | src/handlers/oauth.rs:336-371 | exactly the other temporary sessions stay pending |
| `AuthSessions.CallbackCompletesAllIff` | src/handlers/oauth.rs:300-371 | no session is left pending iff a condition on the pending hashes |
| `AuthSessions.TemporaryLeftWaiting` | src/handlers/oauth.rs:341-352 | a run after which a temporary session still waits |
| `AuthSessions.AuthHandler.UpdateSession` | src/handlers/auth_handler.rs:34-112 | fills the session or creates a filled one |
| `AuthSessions.AuthHandler.CleanExpiredSessions` | src/handlers/auth_handler.rs:118-139 | the loop removes exactly the expired sessions |
| `AuthSessions.AuthHandler.CheckAuthStatus` | src/handlers/auth_handler.rs:142-298 | the answer is about the session that survives the sweep; a missing one is created |
| `AuthSessions.AuthHandler.RegisterSession` | src/handlers/auth_handler.rs:866-901 | creates a pending session unless there is one |
| `AuthSessions.AuthHandler.OAuthCallback` | src/handlers/oauth.rs:300-371 | own session, then the loop over the pending ones |
| `Metrics.Conservation` | src/monitoring.rs:107-158 | in every interleaving total = active + successful + failed + caught between; active never negative; response time is the sum of durations |
| `Metrics.ExtremesRun` | src/monitoring.rs:136-150 | in every interleaving each extreme is zero or a recorded duration |
| `Metrics.RaceInvertsExtremes` | src/monitoring.rs:136-150 | for any two durations, a schedule from the start leaves the smaller as maximum and the larger as minimum |
| `Metrics.ExclusiveOrdered` | src/monitoring.rs:136-150 | in every interleaving in which no two requests update the extremes at once, minimum is at most maximum in every state |
| `Metrics.StepInvertsIff` | src/monitoring.rs:136-150 | exactly which access puts the minimum above the maximum, always on an outdated reading |
| `Metrics.PerformanceMonitor.RecordRequestStart` | src/monitoring.rs:107-115 | counts one more active request |
| `Metrics.PerformanceMonitor.RecordRequestComplete` | src/monitoring.rs:119-158 | counters stay what the completed requests make them |
| `Metrics.PerformanceMonitor.CalculatePercentile` | src/monitoring.rs:291-298 | lies between the recorded extremes |
| `Metrics.ExtremesOrdered` | src/monitoring.rs:136-150 | one request at a time, minimum is at most maximum |
| `Metrics.MaxIsMember` | src/monitoring.rs:136-142 | the recorded maximum bounds all recorded durations, and is one of them or zero |
| `Metrics.MinAfterExact` | src/monitoring.rs:144-150 | the minimum is that of the durations since the last zero |
| `Metrics.MinIsMinimumIff` | src/monitoring.rs:144-150 | it is the true minimum iff no duration was zero, or the last was |
| `Metrics.PercentileInRange` | src/monitoring.rs:291-298 | in range even if the product wraps |
| `Metrics.PercentileExactIff` | src/monitoring.rs:291-298 | the intended value iff the product does not wrap |
| `Connections.RecordsFollowHistory` | src/server/connection_tracker.rs:23-115 | in every run a record exists iff registered and not cleaned up since, counts the registrations since, has the times of the last registration, activity and sync, and is active iff it has no disconnect time |
| `Connections.CleanupExact` | src/server/connection_tracker.rs:173-190 | cleanup takes exactly the records down since before the cutoff, never a live one, and changes none |
| `Connections.ConnectionTracker.RegisterConnection` | src/server/connection_tracker.rs:75-95 | creates or reconnects |
| `Connections.ConnectionTracker.MarkDisconnected` | src/server/connection_tracker.rs:106-115 | notes the time, deactivates |
| `Connections.ConnectionTracker.UpdateActivity` | src/server/connection_tracker.rs:98-103 | only the activity time of a known key changes |
| `Connections.ConnectionTracker.UpdateSyncTime` | src/server/connection_tracker.rs:118-124 | only the sync time of a known key changes |
| `Connections.ConnectionTracker.GetLastDisconnectTime` | src/server/connection_tracker.rs:133-146 | the last disconnect since the last registration of a kept record |
| `Connections.ConnectionTracker.CleanupOldConnections` | src/server/connection_tracker.rs:173-190 | drops records disconnected at or before the cutoff |
| `Connections.ConnectionTracker.GetStats` | src/server/connection_tracker.rs:159-170 | inactive, got by subtraction, counts the disconnected records |
| `ConfigSync.SyncConfiguration` | src/handlers/watcher_handler.rs:757-966 | success iff no conflict; operations = updated + created + presets; at most one per group; exact counts and conflict list |
| `ConfigSync.SyncGroup` | src/handlers/watcher_handler.rs:772-927 | what one group adds to counts and conflicts |
| `ConfigSync.UpsertWatchers` | src/handlers/watcher_handler.rs:816-838 | one conflict per failed watcher |
| `ConfigSync.CountsExact` | src/handlers/watcher_handler.rs:782-850 | a full or forced sync counts every found group that was written, an incremental one none; missing groups that were written always count |
| `ConfigSync.ConflictsInExact` | src/handlers/watcher_handler.rs:782-927 | which conflicts each group adds, one per failed watcher |
| `ConfigSync.NoConflictsIff` | src/handlers/watcher_handler.rs:1004-1020 | no conflict iff everything attempted worked |
| `PathNormalisation.AcceptedIff` | src/domain/value_objects.rs:122-147 | which paths are accepted, and which error the others get |
| `PathNormalisation.NormaliseKeepsVerdict` | src/domain/value_objects.rs:115-147 | validation gives the same verdict before and after, so normalising a valid path never fails |
| `PathNormalisation.RunHalves` | src/domain/value_objects.rs:115-119 | each run of n slashes becomes ceil(n/2), wherever it stands |
| `PathNormalisation.PassShortens` | src/domain/value_objects.rs:115-119 | strictly shorter, or unchanged without a double slash |
| `PathNormalisation.PassKeepsCollapsed` | src/domain/value_objects.rs:115-119 | a pass keeps the fully collapsed path |
| `PathNormalisation.PassesReachCollapsed` | src/domain/value_objects.rs:115-119 | repeating it ends at the collapsed path |
| `PathNormalisation.PassesEnoughIff` | src/domain/value_objects.rs:115-119 | k passes suffice iff no run is longer than 2^k |
| `PathNormalisation.NormaliseIdempotentIff` | src/domain/value_objects.rs:115-119 | idempotent on exactly the paths without three slashes in a row |

## Left out

- OAuth code exchange, AWS secrets, S3, MySQL and Redis: foreign services.
- The message broker: an environment that may deliver anything ever published, to any consumer, any number of times; that it delivers at all is not claimed.
- Encryption, hashing and token generation: a notification is its plaintext record.
- The file service with a separate data store, and data races between its calls: one call is one step on a single store.
- In the delivery protocol, sending one file of an initial sync (alias lookup, sender lookup, send) is one step, and so is a broadcast to all subscribers.
- Storage read failures in the initial sync and the file service; write failures are modelled.
- In the delivery protocol a full channel is a session that makes no further step (`ChannelCapacity` has the capacity, for one channel), records are received in any order, and the deletion of a file as a notification is not modelled.
- Folder normalisation and validation: any function and any predicate.
- The group update handler, preset contents, `get_client_watcher_id`, the version methods and the batch methods of the in-memory store: stubs or field copying.
- WatcherStore.MemoryStorage.CreateOrGetWatcher: its lookup and its write are one step, and storage errors, which the in-memory store never returns, are not outcomes; `WrittenUniqueIff` and `WrittenValidIff` say what the two apart can do.
- Client group ids against server group ids in the configuration sync: storage outcomes are parameters there, only the accounting is modelled.
- MySQL version storage: an append-only table, in which a lookup by revision returns any matching row.
- Overflow of ids, revisions, counters other than the retry count and the metrics, and of dates: integers are unbounded there.
- Debug-build overflow checks: the wrapping arithmetic of a release build is modelled for the retry count and the percentile.
- Interleaving inside one login request: its lock sections are taken together, as in a run of whole requests.
- Metrics reset, alerts and endpoints; client store statistics; active-connection listings; configuration loading, start-up, HTML pages, logging: plumbing or easy.
- PathNormalisation.NormaliseKeepsVerdict: characters are code points compared one by one, with no Unicode normalisation.
- WatcherStore.ComputeNextId: does not model the 32-bit wrap of `id + 1`, since ids are unbounded here.
