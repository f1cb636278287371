# EchoCog memory graph, modelled in Dafny

This project models the core of EchoCog, a memory-graph application. Memories are records with a
type, content, tags, energy, resonance, a version and a list of connections to other memories.
The core consists of:

- the in-memory graph store (`addMemory`, `connectMemories`, `updateMemoryEnergy`,
  `removeMemory`, `getConnectedMemories`, `searchMemories`);
- the persistence-backed `MemoryManager`, a record cache in front of the `memories` table of
  src/lib/db.ts, which every core file imports and which registers the versioning hooks
  `creating` and `updating` (and no `deleting` hook);
- replication: the outgoing event queue of `SyncManager`, the receiving `SyncEventHandler`,
  the older self-filtering `SyncManager`, and the `EchoCogCore` orchestration that mutates
  locally and then enqueues an event;
- pure helpers: validation, the resonance formula and sorting, memory statistics, and the
  system-metrics calculator;
- small state containers: the context manager, the batch operations of
  `useMemoryOperations`, the `MetricsManager` cache, history and counters, and the
  experience-replay buffer.

One Dafny module stands for each source file. Shared modules hold the pieces several files use:

- `Wrappers`: Option, Result and Outcome.
- `Config`: the constants.
- `Text`: `toLowerCase`, `includes` and `trim`.
- `Types`: the records, partial updates and errors.
- `Counting`: a JavaScript Map used as an insertion-ordered counter.
- `Db`: a stand-in for the table.

Code that changes state step by step is a class. Each of its methods is specified against a
pure function of the old state (`Store.Connect`, `Manager.ConnectStep`, `SyncEvents.ApplyEvent`,
`Operations.TagAll`, and so on). The lemmas state what the source promises about those functions.

Modelling conventions:

- The current time, generated keys (`nanoid`, the table's key, `crypto.randomUUID`) and the
  instance id are parameters.
- The table is `Db.Table`, a map from id to record:
  - `add` rejects a stored key and runs `creating`;
  - `update` merges the modifications into the stored record and writes the result over it.
    Dexie compares each modified field with the stored one by `!==` (`Db.Modifies`): a list
    is always a new array, so it always counts, and an update that changes nothing else writes
    nothing. An absent key is a no-op;
  - `put` creates a new key or writes the object over the stored one;
  - a write over a stored record runs the `updating` hook on the fields that differ from the
    stored record, as Dexie 3 does (the named `Table` import at src/lib/db.ts:1 is Dexie 3's).
    A version equal to the stored one is not among them, so the hook stamps stored + 1
    (`Db.Stamped`, `Db.Rewrite`);
  - `delete` of an absent key is a no-op.
- Every thrown exception is an `Err`/`Fail` value carrying a `Types.Error`. The manager's
  lemmas hold for every cache and table, whether or not they agree; the forms that assume
  agreement (`Manager.Coherent`) are corollaries.
- The operations of a `Promise.all` array are issued in array order. Where an element throws
  while the array is being built, the writes of the elements before it are already issued
  (`Store.GraphStore.ConnectMemories`). The handlers of a replication batch run one after
  another in the model, which the source does not promise (see "## Left out").
- Energy and resonance are `real`.

## Model

| member | source | states |
|---|---|---|
| Types.TypeName | src/lib/types.ts:3 | every memory type is spelled as one of the four accepted names |
| Types.ParseType | src/lib/utils/validation.ts:4 | exactly the four names are recognised, and parsing inverts TypeName |
| Types.WholePatchReplaces | src/lib/types.ts:1-13 | merging a record's own fields into a stored record with the same id yields that record, keeping the stored optional fields the new one lacks |
| Text.LowerChar | src/lib/store.ts:124 | lower-casing maps A-Z to a-z and leaves every other character alone |
| Text.ToLowerAt | src/lib/store.ts:124 | lower-casing preserves length and works character by character |
| Text.ToLowerIdempotent | src/lib/store.ts:124-128 | lower-casing twice is lower-casing once |
| Text.IncludesSlice | src/lib/store.ts:127-128 | every substring of a string is included in it |
| Text.TrimStartSpec | src/lib/utils/validation.ts:8 | the left trim is empty exactly for whitespace-only strings and otherwise starts with a non-space |
| Text.TrimEndSpec | src/lib/utils/validation.ts:8 | the right trim is empty exactly for whitespace-only strings and keeps the first character |
| Text.TrimEmptyIffBlank | src/lib/utils/validation.ts:8 | `trim().length === 0` holds exactly for whitespace-only strings |
| Counting.TallyOfSpec | src/lib/utils/metrics.ts:45-50 | a counter built by visiting keys is well formed, holds exactly the visited keys, counts each key's occurrences, and its counts sum to the number of visits |
| Counting.BumpSpec | src/lib/utils/metrics.ts:47 | one `set(k, (get(k) or 0) + 1)` adds one to k's count and to the total and leaves every other count alone |
| DbHooks.Creating | src/lib/db.ts:14-17 | the created object has version 1 and the current time as timestamp, and nothing else changes |
| DbHooks.Updating | src/lib/db.ts:19-24 | modifications without a version get stored version + 1; modifications with one are returned unchanged; no other field is added |
| DbHooks.Deleting | src/lib/db/hooks.ts:19-22 | deletion is always allowed (the table of src/lib/db.ts registers no deleting hook, which behaves the same) |
| DbHooks.UpdatingIdempotent | src/lib/db.ts:19-24 | running the hook on its own output changes nothing more |
| Db.RewriteSpec | src/lib/db.ts:19-24 | a write over a stored record keeps every field of the written object but the version, which becomes the written one when it differs from the stored one and stored + 1 otherwise, so it always differs from the stored version |
| Db.UpdateRowsSpec | src/lib/db.ts:19-24 | an update keeps the key set and touches only its own key; it leaves the table as it was exactly when the id is absent or the modifications change nothing; otherwise the stored record takes the modified fields, and its version becomes the carried one when that differs from the stored one, otherwise stored + 1; records stay under their own ids |
| Db.PutRowsSpec | src/lib/db.ts:14-24 | a put stores the object under its id and leaves every other key alone; over a stored record the version is stamped as for an update, so an object carrying the stored version gets stored + 1 |
| Db.Table.constructor | src/lib/db.ts:5-12 | the table starts empty |
| Db.Table.Get | src/lib/db.ts:5 | get returns the stored record or nothing |
| Db.Table.Add | src/lib/db.ts:14-17 | add rejects a stored key with KeyExists and leaves the table; otherwise it stores the object through the creating hook |
| Db.Table.Update | src/lib/db.ts:19-24 | the new table is UpdateRows of the old one: when the modifications change something, the merged record is written over the stored one with its version stamped |
| Db.Table.Put | src/lib/db.ts:14-24 | the new table is PutRows of the old one |
| Db.Table.Delete | src/lib/db.ts:5 | the key is removed and nothing else changes; no hook vetoes it |
| Validation.ValidateMemorySpec | src/lib/utils/validation.ts:3-29 | a draft is valid exactly when its type is one of the four names, its content is present and not whitespace-only, and a present energy or resonance lies in [0, 1] |
| Validation.ValidateRecordSpec | src/lib/utils/validation.ts:3-29 | a complete record validates exactly when its content is not blank and its energy and resonance lie in [0, 1] |
| Validation.ValidateConnection | src/lib/utils/validation.ts:31-41 | true exactly when both ids are non-empty and different |
| Validation.ValidateTag | src/lib/utils/validation.ts:43-45 | true exactly when the tag holds a non-whitespace character |
| Search.EmptyQueryMatches | src/lib/store.ts:122-130 | the empty query matches every memory |
| Search.MatchesIgnoresQueryCase | src/lib/store.ts:124 | lower-casing the query first does not change which memories match |
| Search.ContentSliceMatches | src/lib/store.ts:127 | a memory matches any piece of its own content |
| MemoryUtils.OverlapBound | src/lib/utils/memory.ts:4 | the tag overlap never exceeds the number of tags |
| MemoryUtils.ResonanceInUnit | src/lib/utils/memory.ts:3-8 | for energy in [0, 1] the resonance lies in [0, 1] |
| MemoryUtils.ResonanceExtremes | src/lib/utils/memory.ts:3-8 | with no tag in context the resonance is 0.6 energy; with all in context it is 0.6 energy + 0.4 |
| MemoryUtils.OverlapAll | src/lib/utils/memory.ts:4 | the overlap is 0 when no tag is in context and the tag count when all are |
| MemoryUtils.Insert | src/lib/utils/memory.ts:11-15 | inserting into a sorted list keeps it sorted and adds exactly the element |
| MemoryUtils.SortBy | src/lib/utils/memory.ts:11-15 | the result is a permutation of the input in non-increasing key order |
| MemoryUtils.InsertTies | src/lib/utils/memory.ts:11-15 | the inserted element goes in front of every element with the same key, and the others of that key keep their order |
| MemoryUtils.SortByStable | src/lib/utils/memory.ts:11-15 | the sort is stable: for every key, the elements with that key appear in their input order |
| MemoryUtils.SortByResonance | src/lib/utils/memory.ts:10-16 | the result is a permutation of the input in non-increasing resonance order, and memories of equal resonance keep their input order, as the stable `Array.prototype.sort` leaves them |
| MemoryUtils.FilterByType | src/lib/utils/memory.ts:18-20 | exactly the memories of the type are kept |
| MemoryUtils.FilterByTypeConcat | src/lib/utils/memory.ts:18-20 | the filter keeps input order |
| MemoryUtils.TypesOf | src/lib/utils/memory.ts:24 | entry i is the type of memory i |
| MemoryUtils.OccurrencesOfTypes | src/lib/utils/memory.ts:23-26 | a type occurs in the type list as often as the filter by it keeps memories |
| MemoryUtils.MemoryStatsSpec | src/lib/utils/memory.ts:22-38 | the type counts sum to totalMemories, which is the input length; each count is the number of memories of that type; a type is a key exactly when some memory has it; the average is undefined exactly for empty input |
| MemoryUtils.AverageEnergyInUnit | src/lib/utils/memory.ts:28 | for energies in [0, 1] the average energy of a non-empty list lies in [0, 1] |
| MemoryUtils.EnergySumBound | src/lib/utils/memory.ts:28 | the energy sum lies between 0 and the length |
| Store.Without | src/lib/store.ts:101 | the filter keeps exactly the entries other than the id |
| Store.WithoutIdempotent | src/lib/store.ts:98-104 | filtering the id out twice is filtering it once |
| Store.Link | src/lib/store.ts:61-68 | one side of a connect keeps the key set |
| Store.Clamp | src/lib/store.ts:82 | the clamp lies in [0, 1] and is the identity there |
| Store.StripPeerStep | src/lib/store.ts:98-104 | each iteration of the removal loop strips one more visit from the listed peer |
| Store.PresentAmong | src/lib/store.ts:117-119 | exactly the stored records among the ids are returned |
| Store.SearchMemories | src/lib/store.ts:122-130 | exactly the stored memories that match the query |
| Store.AddMemorySpec | src/lib/store.ts:32-53 | the new record has no connections, energy 1.0, resonance 0.5 and version 1, other records are unchanged, and symmetry, deduplication and energies in [0, 1] are kept |
| Store.ConnectSpec | src/lib/store.ts:55-70 | with both ids stored each side lists the other, each version rises by one exactly when its entry was appended, and no other record changes |
| Store.ConnectSelf | src/lib/store.ts:55-70 | connecting a record to itself lists it once |
| Store.ConnectIdempotent | src/lib/store.ts:61-68 | connecting an already connected pair again changes nothing |
| Store.ConnectMissing | src/lib/store.ts:60 | with either id missing the map is unchanged |
| Store.ConnectListsGrow | src/lib/store.ts:61-68 | after connecting, a list holds its old entries plus the new peer and nothing else |
| Store.ConnectPreservesSymmetry | src/lib/store.ts:55-70 | connecting keeps every connection mutual and stored |
| Store.ConnectPreservesDeduplication | src/lib/store.ts:61-68 | connecting keeps every list free of repeats and leaves energies alone |
| Store.UpdateEnergySpec | src/lib/store.ts:78-91 | energy becomes clamp(energy + delta, 0, 1), the version rises by one, nothing else changes, and the graph invariants are kept |
| Store.RemoveSpec | src/lib/store.ts:93-110 | the record is deleted; each listed peer loses the id and gains one version per listing, its other fields kept; every other record is unchanged |
| Store.RemoveClearsReferences | src/lib/store.ts:93-110 | on a symmetric graph no remaining record lists the removed id, and symmetry and deduplication are kept |
| Store.PresentAmongConcat | src/lib/store.ts:117-119 | the looked-up records keep the order of the ids |
| Store.PresentAmongAllStored | src/lib/store.ts:117-119 | when every id is stored, one record per id, position by position |
| Store.ConnectedMemoriesSpec | src/lib/store.ts:112-120 | an unknown id has no connected memories; otherwise exactly the stored records among its connections, and on a symmetric graph one per connection in order |
| Store.SearchMemoriesSpec | src/lib/store.ts:122-130 | the empty query returns every stored memory, and the query's letter case does not matter |
| Store.GraphStore.constructor | src/lib/store.ts:30 | the store starts with no memories |
| Store.GraphStore.AddMemory | src/lib/store.ts:32-53 | a stored key is rejected with nothing changed; otherwise the new record is written to the table and the map and the id is returned |
| Store.ConnectWriteThrough | src/lib/store.ts:55-76 | each row takes the map's new connections and the map's version stamped over the row's; rows that held the map's records both end one version up, so a side already linked moves one version ahead of the map, which keeps its version |
| Store.UpdateEnergyWriteThrough | src/lib/store.ts:78-91 | the row takes the map's new energy and version stamped over the row's unless it holds both already, and a row that held the map's record ends equal to the map's new record |
| Store.GraphStore.ConnectMemories | src/lib/store.ts:55-76 | the map becomes Connect of the old map; with both ids stored both records' connections and versions are written through, source first; with only the target missing the source's unchanged connections and version are written to its row before the failure; with the source missing the table is unchanged |
| Store.GraphStore.UpdateMemoryEnergy | src/lib/store.ts:78-91 | the map becomes UpdateEnergy of the old map; a stored id has energy and version written through; a missing one fails on the write-back |
| Store.GraphStore.RemoveMemory | src/lib/store.ts:93-110 | the map becomes Remove of the old map, and the table loses the id |
| Manager.SearchMemories | src/lib/core/MemoryManager.ts:116-130 | exactly the stored records of the given type (any type when none is given) that match the query; with no type it is the store's search |
| Manager.UpdateRowsVersioned | src/lib/db.ts:19-24 | an update carrying a version other than the stored one is merged as it is; one carrying the stored version is merged with the version stamped to stored + 1 when it changes another field, and writes nothing otherwise |
| Manager.CreateSpec | src/lib/core/MemoryManager.ts:10-31 | creation validates exactly the non-blank contents, and the new record has version 1, no accesses, no connections and the default energy and resonance |
| Manager.LookupHit | src/lib/core/MemoryManager.ts:34-36 | a cache hit returns the cached record and touches nothing |
| Manager.LookupMiss | src/lib/core/MemoryManager.ts:38-44 | a miss returns the record as it was, and leaves table and cache with one more access, the access time and one more version |
| Manager.LookupAbsent | src/lib/core/MemoryManager.ts:38-44 | an id neither cached nor stored is not found and nothing changes |
| Manager.LookupSpec | src/lib/core/MemoryManager.ts:33-44 | for any cache and table the lookup finds the cached record, else the stored one, else nothing (then nothing changes); no row is added or dropped and no other id's row or cache entry changes |
| Manager.LookupThenOther | src/lib/core/MemoryManager.ts:51-54 | a lookup of one id does not change what a following lookup of another id finds or writes |
| Manager.LookupCoherent | src/lib/core/MemoryManager.ts:33-44 | lookups keep cache and table agreeing, keep the key set, find exactly the stored records, and touch no other record |
| Manager.ConnectRejectsInvalid | src/lib/core/MemoryManager.ts:47-49 | empty or equal ids fail with InvalidConnection before anything is read |
| Manager.ConnectAny | src/lib/core/MemoryManager.ts:46-82 | for any cache and table: MemoryNotFound exactly when a lookup of either id finds nothing; otherwise each cache entry is the found record with the peer appended and version + 1, each stored row takes those connections over what its lookup left (so a stale cached list overwrites the row) and that version stamped over the row's (one more when the lookup's access write had already reached it), no key is added or dropped and no other row changes |
| Manager.TwoVersionedWrites | src/lib/core/MemoryManager.ts:60-69 | two updates of different ids that each write a connection list and a version merge each patch into its own row, with its version stamped over the row's, and touch nothing else |
| Manager.ConnectMissing | src/lib/core/MemoryManager.ts:51-58 | corollary for an agreeing cache and table: a record missing from the table fails with MemoryNotFound |
| Manager.ConnectCached | src/lib/core/MemoryManager.ts:60-81 | corollary for an agreeing cache and table: with both records cached, each id is appended to the other's list without a duplicate check, both versions become old + 1, and cache and table agree |
| Manager.ConnectTwiceDuplicates | src/lib/core/MemoryManager.ts:60-81 | connecting the same pair twice lists each peer twice |
| Manager.ConnectMissLosesAccessStats | src/lib/core/MemoryManager.ts:51-81 | on a miss the table keeps the new access count while the cache is rewritten from the record as read before the access; the row ends two versions up and the cache one |
| Manager.UpdateEnergyAny | src/lib/core/MemoryManager.ts:84-98 | for any cache and table: MemoryNotFound with nothing changed exactly when the lookup finds nothing; otherwise the cache holds the found record with clamp(energy + delta, 0, 1) and version + 1, a stored row takes that energy and that version stamped over the row's unless it holds both already, and a cached id without a row passes with the table unchanged |
| Manager.UpdateResonanceAny | src/lib/core/MemoryManager.ts:100-114 | for any cache and table: MemoryNotFound with nothing changed exactly when the lookup finds nothing; otherwise the cache holds the found record with the resonance formula's value and version + 1, a stored row takes that resonance and that version stamped over the row's unless it holds both already, and a cached id without a row passes with the table unchanged |
| Manager.UpdateEnergySpec | src/lib/core/MemoryManager.ts:84-98 | corollary for an agreeing cache and table: a missing id fails with nothing changed; otherwise energy becomes clamp(energy + delta, 0, 1); the cache ends at version old + 1, the row at old + 1 for a cached record and old + 2 for one fetched on a miss (old + 1 when the energy is unchanged), and the cache holds the row's fields but for the access statistics and the version |
| Manager.UpdateResonanceSpec | src/lib/core/MemoryManager.ts:100-114 | corollary for an agreeing cache and table: a missing id fails with nothing changed; otherwise resonance becomes the resonance formula under the context tags, in [0, 1] for energy in [0, 1]; the cache ends at version old + 1, the row at old + 1 for a cached record and old + 2 for one fetched on a miss (old + 1 when the resonance is unchanged) |
| Manager.SearchByType | src/lib/core/MemoryManager.ts:119-121 | the typed search is the untyped search narrowed to that type |
| Manager.MemoryManager.constructor | src/lib/core/MemoryManager.ts:8 | the cache starts empty |
| Manager.MemoryManager.CreateMemory | src/lib/core/MemoryManager.ts:10-31 | an invalid draft fails with InvalidMemoryData, a stored key with KeyExists, both with nothing changed; otherwise the new record is stored and cached under the key |
| Manager.MemoryManager.UpdateAccessStats | src/lib/core/MemoryManager.ts:132-144 | cache and table become AccessStats of the old ones |
| Manager.MemoryManager.GetMemory | src/lib/core/MemoryManager.ts:33-44 | the result, cache and table are those of Lookup |
| Manager.MemoryManager.ConnectMemories | src/lib/core/MemoryManager.ts:46-82 | outcome, cache and table are those of ConnectStep |
| Manager.MemoryManager.UpdateMemoryEnergy | src/lib/core/MemoryManager.ts:84-98 | outcome, cache and table are those of UpdateEnergyStep |
| Manager.MemoryManager.UpdateMemoryResonance | src/lib/core/MemoryManager.ts:100-114 | outcome, cache and table are those of UpdateResonanceStep |
| Manager.MemoryManager.ClearCache | src/lib/core/MemoryManager.ts:146-148 | the cache is emptied and the table untouched |
| SyncEvents.HandleAddSpec | src/lib/utils/sync.ts:46-51 | the add handler never writes and fails with MemoryNotFound exactly when the record is missing |
| SyncEvents.HandleConnectSpec | src/lib/utils/sync.ts:53-74 | a missing endpoint fails with nothing written; otherwise each id is appended to the other's list with no duplicate check and both versions become old + 1 |
| SyncEvents.HandleConnectTwice | src/lib/utils/sync.ts:64-73 | delivering the same connection twice lists each peer twice |
| SyncEvents.HandleUpdateSpec | src/lib/utils/sync.ts:76-81 | the update is written exactly when the record exists and the payload's version is set and newer; the stored version then becomes the payload's |
| SyncEvents.UnversionedUpdateIgnored | src/lib/utils/sync.ts:78 | an update without a version is never applied |
| SyncEvents.HandleUpdateIdempotent | src/lib/utils/sync.ts:78-79 | a duplicate delivery of an update does nothing more |
| SyncEvents.HandleUpdateNewerWins | src/lib/utils/sync.ts:78-79 | an older update delivered after a newer one is discarded |
| SyncEvents.HandleRemoveSpec | src/lib/utils/sync.ts:83-85 | removal by key deletes only that record, leaves peers' lists alone, and is a no-op for an absent key |
| SyncEvents.RemoveOfObjectRejected | src/lib/utils/sync.ts:83-85 | a removal payload `{id}` is not a key: it is rejected with InvalidKey and nothing is deleted |
| SyncEvents.ApplyEventDispatch | src/lib/utils/sync.ts:29-44 | each event type reaches its own handler |
| SyncEvents.SyncEventHandler.constructor | src/lib/utils/sync.ts:6 | the handler keeps its instance id and table |
| SyncEvents.SyncEventHandler.ShouldProcessEventSpec | src/lib/utils/sync.ts:8-27 | the filter accepts exactly the foreign events at most 30000 ms old, so the handler's own events never pass, an event exactly 30000 ms old does and one a millisecond older does not |
| SyncEvents.SyncEventHandler.HandleAdd | src/lib/utils/sync.ts:46-51 | the outcome is that of ApplyAdd and the table is unchanged |
| SyncEvents.SyncEventHandler.HandleConnect | src/lib/utils/sync.ts:53-74 | outcome and table are those of ApplyConnect |
| SyncEvents.SyncEventHandler.HandleUpdate | src/lib/utils/sync.ts:76-81 | outcome and table are those of ApplyUpdate |
| SyncEvents.SyncEventHandler.HandleRemove | src/lib/utils/sync.ts:83-85 | outcome and table are those of ApplyRemove |
| SyncEvents.SyncEventHandler.HandleEvent | src/lib/utils/sync.ts:29-44 | outcome and table are those of ApplyEvent |
| Sync.BatchSize | src/lib/core/SyncManager.ts:89 | a batch takes at most 50 events and at most the queue length, and at least one from a non-empty queue |
| Sync.EnqueueSpec | src/lib/core/SyncManager.ts:64-70 | the queue never grows past 1000, an event is dropped exactly when the queue is full, and the queue keeps its order |
| Sync.DrainsCount | src/lib/core/SyncManager.ts:89-90 | n events are flushed in ceil(n / 50) drains |
| Sync.BatchesSpec | src/lib/core/SyncManager.ts:89-90 | successive drains take non-empty batches of at most 50 events whose concatenation is the queue |
| Sync.ApplyAllAppend | src/lib/core/SyncManager.ts:92-94 | the model's sequential handling of a concatenation handles the parts one after the other |
| Sync.ApplyBatchesFlatten | src/lib/core/SyncManager.ts:83-98 | handling the batches is handling their concatenation |
| Sync.DrainsPreserveOrder | src/lib/core/SyncManager.ts:83-98 | draining the whole queue batch by batch handles every event once, in enqueue order |
| Sync.ApplyAllOutcome | src/lib/core/SyncManager.ts:92-94 | a drain fails exactly when some event fails at its turn |
| Sync.PruneRemovesAll | src/lib/core/SyncManager.ts:106-113 | past 30001 ms the registry check removes every instance |
| Sync.PruneKeepsAllEarly | src/lib/core/SyncManager.ts:106-113 | at times up to 30000 ms it removes none |
| Sync.SyncManager.constructor | src/lib/core/SyncManager.ts:9-18 | no instances, status true, an empty queue, not processing, and a handler with this instance id |
| Sync.SyncManager.RegisterInstance | src/lib/core/SyncManager.ts:38-41 | the instance is recorded as active, then the registry check runs |
| Sync.SyncManager.UnregisterInstance | src/lib/core/SyncManager.ts:43-46 | the instance is forgotten, then the registry check runs |
| Sync.SyncManager.CheckInstances | src/lib/core/SyncManager.ts:106-113 | the registry becomes Prune of the old one |
| Sync.SyncManager.Broadcast | src/lib/core/SyncManager.ts:64-70 | the stamped event is enqueued while there is room |
| Sync.SyncManager.BroadcastMemoryCreation | src/lib/core/SyncManager.ts:48-50 | an 'add' event with payload `{id}` is enqueued |
| Sync.SyncManager.BroadcastConnection | src/lib/core/SyncManager.ts:52-54 | a 'connect' event with both ids is enqueued |
| Sync.SyncManager.BroadcastMemoryUpdate | src/lib/core/SyncManager.ts:56-58 | an 'update' event with the id and the updates is enqueued |
| Sync.SyncManager.BroadcastMemoryRemoval | src/lib/core/SyncManager.ts:60-62 | a 'remove' event with payload `{id}` is enqueued |
| Sync.SyncManager.HandleEvent | src/lib/core/SyncManager.ts:72-81 | the handler runs, the status becomes whether it succeeded, and a failure is passed on |
| Sync.SyncManager.ProcessEventQueue | src/lib/core/SyncManager.ts:83-98 | nothing happens while processing or with an empty queue; otherwise the first min(50, n) events are taken off in order and handled, in the model one after the other; the outcome is the first failure, the status that of the event handled last, and the processing flag is clear again |
| LegacySync.AddMemorySpec | src/lib/sync.ts:40-42 | a stored key is rejected with KeyExists; otherwise the record is stored with version 1 and the current time and nothing else changes |
| LegacySync.UpdateMemorySpec | src/lib/sync.ts:44-49 | the update is merged exactly when the record exists and the payload's version is set and newer |
| LegacySync.ConnectMemoriesSpec | src/lib/sync.ts:51-69 | a missing endpoint is a silent no-op; otherwise both sides get the other appended and version + 1 |
| LegacySync.RemoveMemorySpec | src/lib/sync.ts:71-73 | removal deletes the id and nothing else |
| LegacySync.RegistrySpec | src/lib/sync.ts:83-93 | an unknown instance is inactive, one just added is active, one just removed is not, and others keep their flags |
| LegacySync.LegacySyncManager.constructor | src/lib/sync.ts:12-21 | the manager starts with no instances |
| LegacySync.LegacySyncManager.Deliver | src/lib/sync.ts:17-21 | the manager's own events are dropped; foreign events are handled |
| LegacySync.LegacySyncManager.HandleEventMethod | src/lib/sync.ts:23-73 | outcome and table are those of HandleEvent |
| LegacySync.LegacySyncManager.Broadcast | src/lib/sync.ts:75-81 | the event is stamped with this instance and the time, and the table never changes |
| LegacySync.LegacySyncManager.AddInstance | src/lib/sync.ts:83-85 | the instance is recorded as active |
| LegacySync.LegacySyncManager.RemoveInstance | src/lib/sync.ts:87-89 | the instance is forgotten |
| Core.RewriteCaches | src/lib/core/EchoCogCore.ts:34-48 | after a successful energy or resonance update the record is cached, so the read-back is a hit |
| Core.BroadcastEnergyIsNewEnergy | src/lib/core/EchoCogCore.ts:34-40 | for any cache and table, a cached or stored id passes, the read-back is a cache hit, and the broadcast energy is the clamped new energy of the cached record, or of the stored one when uncached; an id in neither fails and nothing is broadcast |
| Core.BroadcastResonanceIsNewResonance | src/lib/core/EchoCogCore.ts:42-48 | the same for the resonance: the read-back is a hit holding the resonance formula's value for the cached record, or the stored one when uncached |
| Core.UpdateBroadcastsNeverApply | src/lib/core/EchoCogCore.ts:34-48 | the core's update events carry no version, so a receiving handler leaves the table as it was |
| Core.OwnConnectAppliedTwice | src/lib/core/EchoCogCore.ts:29-32 | a local connect followed by the drain of its own event lists each peer twice and bumps each version twice |
| Core.EchoCogCore.constructor | src/lib/core/EchoCogCore.ts:12-16 | an empty cache and an idle sync manager over the same table |
| Core.EchoCogCore.CreateMemory | src/lib/core/EchoCogCore.ts:19-23 | success exactly for a valid draft and a new key; then the record is stored and cached and one 'add' event is enqueued; a failure enqueues nothing |
| Core.EchoCogCore.GetMemory | src/lib/core/EchoCogCore.ts:25-27 | the manager's lookup |
| Core.EchoCogCore.ConnectMemories | src/lib/core/EchoCogCore.ts:29-32 | the manager's connect, then a 'connect' event only if it succeeded |
| Core.EchoCogCore.UpdateMemoryEnergy | src/lib/core/EchoCogCore.ts:34-40 | the manager's update, then on success an 'update' event with the energy read back; a failure enqueues nothing |
| Core.EchoCogCore.UpdateMemoryResonance | src/lib/core/EchoCogCore.ts:42-48 | the manager's update, then on success an 'update' event with the resonance read back; a failure enqueues nothing |
| Core.EchoCogCore.RegisterInstance | src/lib/core/EchoCogCore.ts:81-83 | delegated unchanged |
| Core.EchoCogCore.UnregisterInstance | src/lib/core/EchoCogCore.ts:85-87 | delegated unchanged |
| Core.EchoCogCore.ClearMemoryCache | src/lib/core/EchoCogCore.ts:90-92 | the cache is emptied |
| Context.FocusClear | src/lib/services/context.ts:34-40 | no id or the empty id clears the focus and the active memories and keeps the rest |
| Context.FocusUnknown | src/lib/services/context.ts:22-23 | an unknown id leaves the state as it was |
| Context.FocusStored | src/lib/services/context.ts:21-33 | a stored id becomes the focus, with its memory first and then exactly the stored records among its connections, in order; the rest is kept |
| Context.FocusAllConnectionsStored | src/lib/services/context.ts:24-31 | when every connection is stored, one active memory follows per connection |
| Context.StackSpec | src/lib/services/context.ts:50-62 | push appends at the top and keeps the rest; pop after push restores the stack; an empty stack stays empty |
| Context.TagsSpec | src/lib/services/context.ts:64-80 | adding a present tag or removing an absent one changes nothing; adding then removing a new tag restores the set |
| Context.ContextManager.constructor | src/lib/services/context.ts:8-14 | the initial state |
| Context.ContextManager.SetFocusedMemory | src/lib/services/context.ts:20-41 | the state becomes Focus of the old one |
| Context.ContextManager.UpdateContextualResonance | src/lib/services/context.ts:43-48 | only the resonance changes, with no clamping |
| Context.ContextManager.PushMemoryContext | src/lib/services/context.ts:50-55 | the state becomes Push of the old one |
| Context.ContextManager.PopMemoryContext | src/lib/services/context.ts:57-62 | the state becomes Pop of the old one |
| Context.ContextManager.AddContextTag | src/lib/services/context.ts:64-71 | the tag joins the set and nothing else changes |
| Context.ContextManager.RemoveContextTag | src/lib/services/context.ts:73-80 | the tag leaves the set and nothing else changes |
| Operations.DedupSpec | src/lib/hooks/useMemoryOperations.ts:39 | deduplication keeps exactly the input's elements, each once |
| Operations.DedupPrefix | src/lib/hooks/useMemoryOperations.ts:39 | first occurrences keep their places |
| Operations.DedupDistinct | src/lib/hooks/useMemoryOperations.ts:39 | a list without repeats is its own deduplication |
| Operations.TagAllSpec | src/lib/hooks/useMemoryOperations.ts:32-43 | each listed stored record holds its old tags and the new ones, once each, and gains one version per listing; keys, unlisted records and other fields are untouched |
| Operations.RemoveAllSpec | src/lib/hooks/useMemoryOperations.ts:45-49 | no listed id remains and every other key does; on a symmetric graph no remaining record lists a deleted id and symmetry is kept |
| Operations.ImportRowsKeys | src/lib/hooks/useMemoryOperations.ts:67-73 | the import writes exactly the ids of the valid records |
| Operations.ImportRowsOther | src/lib/hooks/useMemoryOperations.ts:67-73 | a key no valid record names keeps its record |
| Operations.ImportRowsPut | src/lib/hooks/useMemoryOperations.ts:67-73 | with distinct ids each valid record is created (through the creating hook) or merged over the stored one |
| Operations.ImportOwnExport | src/lib/hooks/useMemoryOperations.ts:51-74 | importing a table's own export keeps every key, bumps the version of each valid record and leaves the others |
| Operations.MemoryOperations.constructor | src/lib/hooks/useMemoryOperations.ts:8-9 | the operations act on the given store |
| Operations.MemoryOperations.CreateMemory | src/lib/hooks/useMemoryOperations.ts:11-30 | an invalid draft fails with InvalidMemoryData and nothing changes; otherwise the store's add |
| Operations.MemoryOperations.AddTags | src/lib/hooks/useMemoryOperations.ts:32-43 | the table becomes TagAll of the old one |
| Operations.MemoryOperations.DeleteMemories | src/lib/hooks/useMemoryOperations.ts:45-49 | the map becomes RemoveAll of the old one and the table loses every listed id |
| Operations.MemoryOperations.ExportMemories | src/lib/hooks/useMemoryOperations.ts:51-58 | version 1, the time, and every stored record once |
| Operations.MemoryOperations.ImportMemories | src/lib/hooks/useMemoryOperations.ts:60-74 | a version other than 1 fails with nothing changed; otherwise the table becomes ImportRows of the old one |
| Metrics.SystemLoad | src/lib/utils/metrics.ts:34-43 | the load lies in [0, 1] |
| Metrics.Recent | src/lib/utils/metrics.ts:52-57 | exactly the records changed within the last 5000 ms, never more than the input |
| Metrics.LoadThreshold | src/lib/utils/metrics.ts:59-63 | high exactly for load at least 0.8, medium exactly for load in [0.5, 0.8), low otherwise |
| Metrics.ScoreSumBound | src/lib/utils/metrics.ts:20-24 | for values in [0, 1] the score sum lies between 0 and the length |
| Metrics.AverageEnergyInUnit | src/lib/utils/metrics.ts:17-27 | for values in [0, 1] the average lies in [0, 1], and it is 0 for no records |
| Metrics.AverageOfUniform | src/lib/utils/metrics.ts:17-27 | when all records are alike the average is their own score |
| Metrics.ScoreSumUniform | src/lib/utils/metrics.ts:20-24 | the score sum of n equal records is n times the score |
| Metrics.ConnectionCountSnoc | src/lib/utils/metrics.ts:30 | one more record adds its connection count |
| Metrics.SystemLoadMonotone | src/lib/utils/metrics.ts:34-43 | one more record never lowers the load |
| Metrics.TypeDistributionSpec | src/lib/utils/metrics.ts:45-50 | the counts sum to the number of records, a type is a key exactly when some record has it, each count is that type's filter length, and the distribution is the statistics' type count |
| Metrics.RecentAll | src/lib/utils/metrics.ts:52-57 | every record counts as recent exactly when all changed within the interval |
| Metrics.LoadThresholdMonotone | src/lib/utils/metrics.ts:59-63 | the level never falls as the load rises |
| Metrics.CalculateMetricsSpec | src/lib/utils/metrics.ts:5-15 | the record count equals the distribution total, recent changes never exceed it, the load lies in [0, 1], connections are non-negative, and the time is stamped |
| MetricsManagement.CacheSetSpec | src/lib/core/MetricsManager.ts:130-138 | the cache stays well formed and within 1000 entries, holds the new entry, keeps the others, and an eviction removes exactly the earliest-inserted key |
| MetricsManagement.After | src/lib/core/MetricsManager.ts:127 | exactly the entries stamped after the cutoff, never more than the input |
| MetricsManagement.AfterAppend | src/lib/core/MetricsManager.ts:124-127 | filtering appended entries filters the parts separately |
| MetricsManagement.AfterAfter | src/lib/core/MetricsManager.ts:123-128 | filtering at one cutoff and then a later one is filtering at the later one |
| MetricsManagement.HistoryWithin | src/lib/core/MetricsManager.ts:30-33 | exactly the entries at most `duration` old |
| MetricsManagement.RecordedSpec | src/lib/core/MetricsManager.ts:123-128 | the history holds exactly the old entries within the window followed by the new one, which is last when stamped now |
| MetricsManagement.EnergyBins | src/lib/core/MetricsManager.ts:83 | one energy bin per record, in order |
| MetricsManagement.ResonanceBins | src/lib/core/MetricsManager.ts:84 | one resonance bin per record, in order |
| MetricsManagement.Accessed | src/lib/core/MetricsManager.ts:105 | exactly the records with a non-zero last access time |
| MetricsManagement.AccessHoursSpec | src/lib/core/MetricsManager.ts:104-112 | each accessed record contributes its own hour bin, in order, and the others none |
| MetricsManagement.DistributionTotals | src/lib/core/MetricsManager.ts:76-113 | both distributions count every record once, and the access patterns exactly the accessed records |
| MetricsManagement.BinRange | src/lib/core/MetricsManager.ts:83 | for values in [0, 1] the bins run from 0 to 10, one per tenth |
| MetricsManagement.MetricsManager.constructor | src/lib/core/MetricsManager.ts:9-15 | no metrics, an empty history, cache and counters |
| MetricsManagement.MetricsManager.GetHistory | src/lib/core/MetricsManager.ts:30-33 | exactly the entries at most `duration` old, and the history is not touched |
| MetricsManagement.MetricsManager.UpdateCache | src/lib/core/MetricsManager.ts:130-138 | the cache becomes CacheSet of the old one, holds the entry, and nothing else changes |
| MetricsManagement.MetricsManager.UpdateHistory | src/lib/core/MetricsManager.ts:123-128 | the history becomes Recorded of the old one and nothing else changes |
| MetricsManagement.MetricsManager.GetCurrentMetrics | src/lib/core/MetricsManager.ts:55-68 | a cached entry for the time is returned as it is; otherwise the metrics of the records are computed and cached |
| MetricsManagement.MetricsManager.UpdateMetrics | src/lib/core/MetricsManager.ts:70-74 | the current metrics are published and recorded in the history |
| MetricsManagement.MetricsManager.UpdateDistributions | src/lib/core/MetricsManager.ts:76-96 | both counters are rebuilt from the records' bins, and nothing else changes |
| MetricsManagement.MetricsManager.UpdateAccessPatterns | src/lib/core/MetricsManager.ts:98-113 | the counter is rebuilt from the accessed records' hour bins, and nothing else changes |
| MetricsManagement.MetricsManager.GetEnergyDistribution | src/lib/core/MetricsManager.ts:40-43 | the rebuilt energy counter, whose counts sum to the number of records; both distribution counters are left rebuilt and the access counter untouched |
| MetricsManagement.MetricsManager.GetResonanceDistribution | src/lib/core/MetricsManager.ts:45-48 | the rebuilt resonance counter, whose counts sum to the number of records; both distribution counters are left rebuilt and the access counter untouched |
| MetricsManagement.MetricsManager.GetAccessPatterns | src/lib/core/MetricsManager.ts:50-53 | the rebuilt access counter, whose counts sum to the number of accessed records; it is left in the field and the distribution counters are untouched |
| Replay.AddedSpec | src/swarm/learning/ExperienceReplay.ts:20-29 | with room nothing is dropped, otherwise exactly the oldest; the newest is last, and the buffer is a suffix of everything added |
| Replay.AddedBounded | src/swarm/learning/ExperienceReplay.ts:22-26 | for maxSize at least 1 the buffer never exceeds maxSize |
| Replay.AddAllKeepsNewest | src/swarm/learning/ExperienceReplay.ts:20-29 | after n additions into an empty buffer it holds the last min(n, maxSize) of them, in order |
| Replay.ExperienceReplay.constructor | src/swarm/learning/ExperienceReplay.ts:15-18 | an empty buffer with the given bound |
| Replay.ExperienceReplay.AddExperience | src/swarm/learning/ExperienceReplay.ts:20-29 | the buffer becomes Added of the old one |
| Replay.ExperienceReplay.SampleBatch | src/swarm/learning/ExperienceReplay.ts:31-45 | an empty buffer gives []; otherwise min(batchSize, size) entries, entry k taken from the k-th of distinct buffer indices |
| Replay.ExperienceReplay.GetSize | src/swarm/learning/ExperienceReplay.ts:47-49 | the buffer length |
| Replay.ExperienceReplay.Clear | src/swarm/learning/ExperienceReplay.ts:51-53 | the buffer is emptied and its size is 0 |

## Left out

- Timers and scheduling are not modelled: `setInterval`, `interval`, `debounceTime`, `retryWhen`/`delay`/`take` and `shareReplay`. A drain or a metrics update is an explicit call.
- The RxJS subjects are not modelled as streams: `getStatus`, `getState`, `getMetrics` and `getSyncStatus` return observables. The value a subject holds is a field.
- `Date.now`, `nanoid`, `crypto.randomUUID` and the table's generated key are parameters.
- Concurrency between tabs and the atomicity of `Promise.all` are not modelled. Joined operations are issued in array order, and `importMemories`' transaction is a plain loop.
- Sync.SyncManager.ProcessEventQueue: the batch is handled one event after another. The source starts every handler of the batch at once under `Promise.all`, so each handler's read (`db.memories.get`) can run before earlier handlers' writes: two connect events for one pair in one batch may then leave one appended entry and one version bump where the model gives two. `syncStatus` is set by whichever handler finishes last, and `processingQueue` is cleared at the first rejection while other handlers still run; the model does not capture these orders.
- Manager.MemoryManager.ConnectMemories: the two lookups of a `Promise.all` run one after the other. On two different ids a lookup does not change what the other finds or writes (`Manager.LookupThenOther`); finer interleavings of their reads and writes are not modelled.
- Order of `toArray` and `Object.values`: searches return sets. `Operations.MemoryOperations.ExportMemories` lists every record once, in an unspecified order.
- Payloads arrive untyped (`any`) in the source. They are modelled as the five shapes the senders build. A payload of another shape is not modelled.
- Letter case: only ASCII letters are mapped by `toLowerCase`. Unicode case mapping is not modelled.
- Floating point: energies and resonances are exact reals, so NaN, infinities and rounding are not modelled. The `avgEnergy` of empty statistics (0 / 0) is None.
- The distribution keys: `toFixed(1)` and `toString()` formatting is dropped. A bin is the tenths count `Math.floor(x * 10)` and an access bin is the whole number of hours.
- `getCurrentMetrics` keys its cache by the time as an integer rather than its decimal string.
- `MetricsManagement.MetricsManager`: the manager's methods take the records as a parameter in place of `db.memories.toArray()`.
- `getMetricsByType` (src/lib/core/MetricsManager.ts:35-38) looks up a field by a runtime name, which has no counterpart in the model.
- The metrics delegations of `EchoCogCore` are not separate members: `getMetrics`, `getMetricsHistory` and the three distribution getters. Nor is `searchMemories`, which is `Manager.SearchMemories`.
- The getters' `new Map(...)` copies need no modelling: the counters are values.
- `Replay.ExperienceReplay.SampleBatch`: each draw is an unused index chosen freely. The random repeats of `Math.random` are not modelled. A fractional `batchSize` below the buffer length yields ceil(batchSize) entries; the model takes an integer batch size. Experiences are opaque values, and the `Logger` error paths are left out.
- The `creating` hook of src/lib/db/hooks.ts:6-10 returns the object, which Dexie would take as the key of a key-less add such as MemoryManager.ts:28's. The table the core uses (src/lib/db.ts:14-17) returns nothing, so the table generates the key; the model takes that key as a parameter. src/lib/db/index.ts, the only module that registers src/lib/db/hooks.ts, is imported by no core file.
- The UI components, the React context and hooks other than `useMemoryOperations`, and the services `storage.ts`, `metrics.ts` and `monitor.ts` are not part of this model. `src/lib/db.ts` and `src/lib/db/schema.ts` are covered by `Db.Table` and `DbHooks`.

Behaviour of the source that the model keeps as written:

- The core's update broadcasts carry no version, so a receiving handler never applies them (`Core.UpdateBroadcastsNeverApply`).
- `SyncManager` drains its own events into its own handler without the instance filter. A local connect is therefore appended a second time (`Core.OwnConnectAppliedTwice`).
- A removal is broadcast as `{id}` but deleted by key. The table rejects it (`SyncEvents.RemoveOfObjectRejected`).
- `checkInstances` subtracts a boolean from the time. Past 30001 ms it removes every instance (`Sync.PruneRemovesAll`).
- Nothing keeps `MemoryManager`'s cache in step with the table: the sync handlers, the store and `useMemoryOperations` write the table directly. A cached record whose row is gone is still updated, and the update passes (`Manager.UpdateEnergyAny`); a stale cached connection list is written over the row (`Manager.ConnectAny`).
- On a cache miss, `MemoryManager`'s mutators rewrite the cache from the record as read before the access statistics were written (`Manager.ConnectMissLosesAccessStats`).
- On a cache miss, `getMemory`'s access write raises the row to the version the mutator then carries. The table stamps that one higher, so the row ends two versions up and the cache one (`Manager.ConnectMissLosesAccessStats`, `Manager.UpdateEnergySpec`).
- The store writes back its map's version. When a connect finds the pair already linked, the map keeps its version, but the table stamps the row one higher (`Store.ConnectWriteThrough`).
- `MemoryManager.connectMemories` and both sync handlers append connections without a duplicate check, while the store's connect checks (`Manager.ConnectTwiceDuplicates`, `Store.ConnectIdempotent`).
- `addTags` writes only the table. The store's map keeps the old tags.
- `if (memory.lastAccessed)` treats an access time of 0 as never accessed (`MetricsManagement.Accessed`).
- The older `SyncManager`'s subscription drops its own events, so its `broadcast` never reaches its own handlers (`LegacySync.LegacySyncManager.Broadcast`).
