# The data path of the LaunchDarkly Go server SDK

This project models how the SDK takes in flag data, stores it and tells the application what changed,
and proves what that path promises. Data comes in as full data sets or as single versioned items; an item
may be a tombstone. It ends up in an in-memory store or a persistent one, behind a cache or mirrored from
memory, and listeners hear about the flags it may have affected.

| file | models |
|---|---|
| `DataModel.dfy` | kinds, keys, versioned items, tombstones, what a list of collections means, what an item references |
| `Graph.dfy` | paths and reachability |
| `Toposort.dfy` | `internal/toposort`: the order in which items are written |
| `DependencyTracker.dfy` | the two adjacency maps and the closure over them |
| `InMemoryStore.dfy` | the versioned map, and why the order of deliveries does not matter |
| `SourceStatus.dfy` | data source status and outage tracker |
| `UpdateSink.dfy` | storing an update, following the references, announcing flags |
| `ChangeSoundness.dfy` | why the announcements are enough |
| `FlagTracker.dfy` | value change listeners and every run of the whole system |
| `StorePoller.dfy` | availability of a persistent store and polling for recovery |
| `PersistentWrapper.dfy` | the caching wrapper over a store that may fail |
| `CacheProofs.dfy` | transparency of the caches, replay of an outage |
| `Fdv2Events.dfy` | decoding stream events, turning them into updates |
| `DataSystem.dfy` | the transactional memory store, and the order of its mirror |
| `MirroredStore.dfy` | the dual store of the FDv2 data system |
| `StreamProcessor.dfy` | change sets, intents and payload transfers |
| `BigSegments.dfy` | Big Segments status and its 64-bit age |

Classes keep the fields of the originals, and loops and recursion are methods with invariants. Each such
method is tied to a function or relation on values; the lemmas about runs are about those. Ranging over a
Go map is an arbitrary choice at every step (`:|`), so everything holds for every iteration order. Each
public call is one atomic step. Answers of code outside the model are parameters: whether a call into a
store fails (`fault`, `storeError`), clock readings (`now`), what evaluating a flag gives, how a kind's
JSON is read and written (`parse`, `codec`). A failing store call leaves that store as it was.

## Where the code keeps less than one might expect

- Two collections of one kind in a full data set may change places in `Sort`, because `sort.Slice` is not
  stable. What is stored is what was given exactly if collections of one kind mean the same
  (`SortKeepsMeaningExactlyWhen`; an example is `InconsistentKindsMayChangeMeaning`).
- `Init` announces by version only. A flag is missed exactly when it sees a change hidden behind an equal
  or lower version and no visible one (`InitMissesNothingExactlyWhen`). Then a listener can stay with a
  value that is no longer the flag's (`OlderInitLeavesListenerStale`).
- The mirror of a delta keeps only the last item given for a flag. It agrees with memory exactly when that
  one is the newest (`MirrorAgreesExactlyWhen`, `OlderEventLeavesMirrorBehind`).
- `Commit` answers without an error, and repairs nothing, when the data may not be persisted or the mirror
  may not be written to.
- A transfer breaks the program exactly when it would hand over a payload and no intent is left for it
  (`BreaksExactlyWhen`, `SecondTransferBreaks`); the store is untouched by it.
- A put that cannot be read stays in the change set across a restart of the stream, and keeps it from being
  handed over until an intent or error event begins a new one (`CompletesExactlyWhen`,
  `UnreadablePutStays`). A put whose object comes before its kind cannot be read
  (`PutReadableExactlyWhen`, `ObjectBeforeKindIsStuck`).
- In infinite mode a recovery writes back what the cached lists hold. A list that is not cached counts as
  empty, so what the store held of that kind is lost unless it has been replaced meanwhile
  (`RecoveryRestoresExactlyWhen`). One refused update is enough to drop a list
  (`RefusedUpdateLosesOthers`); with no list cached the store is emptied (`RecoveryWithoutListsEmpties`).
- A source that is reported to be Initializing again after it was Valid does not become Interrupted when that
  is reported next (`InterruptedExactlyWhen`, `InitializingAgain`).
- The age of Big Segments data wraps in 64 bits (`StaleTestExactlyWhen`).

## Model

| member | source | states |
|---|---|---|
| Toposort.GetNeighbors | internal/toposort/toposort.go:105-146 | for every flag, segment or tombstone the loops find exactly the prerequisites and the string values of segment-match clauses, and nothing for an item of the wrong type |
| Toposort.DependencyWalk.AddWithDependenciesFirst | internal/toposort/toposort.go:86-102 | visiting an item, on any graph and in any order, emits it last, after whatever its visit emits; nothing that these reference is left over except what is still being visited; what was emitted stays; each emitted item is after every reference that does not lead back to it |
| Toposort.VisitEmitsReached | internal/toposort/toposort.go:86-102 | so a visit emits everything its item leads to by a path of items not visited before |
| Toposort.AddItemsInDependencyOrder | internal/toposort/toposort.go:68-84 | ends for every input; each distinct key comes out once, with its last descriptor; an item follows each reference in the collection unless that reference itself reaches the item |
| Toposort.FullyOrderedExactlyWhenAcyclic | internal/toposort/toposort.go:86-102 | whatever the iteration order, all items follow all they reference in the collection if and only if no item leads back to one that references it |
| Toposort.SortByPriority | internal/toposort/toposort.go:161-164 | an unstable sort by kind priority: some rearrangement of the same collections, in order of priority |
| Toposort.Sort | internal/toposort/toposort.go:150-165 | the result is such a rearrangement of the collections, each flag collection in dependency order and the others as given |
| Toposort.SortKeepsMeaningExactlyWhen | internal/toposort/toposort.go:148-165 | every result that sorting may have stores what the input would have stored, if and only if collections of one kind mean the same |
| Toposort.SortedWithLast | internal/toposort/toposort.go:161-164 | every full data set can be sorted, and any of its collections may end up deciding what its kind holds |
| Toposort.InconsistentKindsMayChangeMeaning | internal/toposort/toposort.go:161-164 | for some data, two versions of one item given in two collections, a legal result stores something else |
| Toposort.FlagsFollowReferences | internal/toposort/toposort.go:148-165 | with acyclic prerequisites each flag is written after all collections of segments and after its prerequisites in its own collection |
| Toposort.OtherKindsComeLast | internal/toposort/toposort.go:150-165 | collections of any further kind come after all flags and segments |
| DependencyTracking.DependencyTracker.UpdateDependenciesFrom | internal/datasource/data_model_dependencies.go:21-47 | the item's references replace its old ones and the reverse map stays the exact transpose of the forward one |
| DependencyTracking.DependencyTracker.AddAffectedItems | internal/datasource/data_model_dependencies.go:54-64 | ends on cyclic graphs and adds exactly the vertices reached over reverse edges without passing through the incoming set |
| DependencyTracking.ClosureGrows | internal/datasource/data_model_dependencies.go:54-64 | repeated calls from the empty set give exactly the union of the closures of the changed vertices |
| InMemoryStore.InMemoryDataStore.Init | internal/datastore/in_memory_data_store_impl.go:37-55 | the store holds just the data given, the last item for a key and the last collection for a kind |
| InMemoryStore.InMemoryDataStore.Upsert | internal/datastore/in_memory_data_store_impl.go:97-127 | an item is stored, and reported as stored, if and only if none of an equal or higher version is there; nothing else changes |
| InMemoryStore.InMemoryDataStore.GetAll | internal/datastore/in_memory_data_store_impl.go:79-95 | lists each item of the kind once, in any order |
| InMemoryStore.DeliveredHoldsWinner | internal/datastore/in_memory_data_store_impl.go:97-127 | after any deliveries each key holds an item of the highest version offered, or what it held if nothing newer was offered |
| InMemoryStore.DeliveryConverges | internal/datastore/in_memory_data_store_impl.go:97-127 | reordering and repeating deliveries never matters if and only if highest-version items offered for one key are equal |
| InMemoryStore.EqualVersionsEqualItems | subsystems/data_store.go:28-39 | equal versions meaning equal items is enough for that |
| InMemoryStore.OlderUpdatesNeverUndo | subsystems/ldstoretypes/data_store_types.go:23-27 | a stored item, a tombstone in particular, survives any updates that are not newer |
| SourceStatus.OutageTracker.TrackDataSourceState | internal/datasource/data_source_update_sink_impl.go:315-345 | one status change begins, extends or ends the outage and counts its error |
| SourceStatus.InterruptedOnlyAfterStart | internal/datasource/data_source_update_sink_impl.go:157-191 | in every run Interrupted is reached only after an update that took the source out of Initializing |
| SourceStatus.StateIsLatestReport | internal/datasource/data_source_update_sink_impl.go:157-191 | after every run the state is the one last reported, except that Interrupted leaves a source Initializing that was so by the latest other report or from the start |
| SourceStatus.InterruptedExactlyWhen | internal/datasource/data_source_update_sink_impl.go:166-168 | from Initializing, a run ends Interrupted if and only if that was last reported and an earlier report of Valid or Off was not followed by one of Initializing |
| SourceStatus.ReportedStateExactlyWhen | internal/datasource/data_source_update_sink_impl.go:157-191 | from Initializing, a run ends Valid or Off if and only if that was last reported |
| SourceStatus.InitializingAgain | internal/datasource/data_source_update_sink_impl.go:166-168 | a run through Valid, Initializing and Interrupted that ends Initializing |
| SourceStatus.StateSinceIsLatestChange | internal/datasource/data_source_update_sink_impl.go:174-186 | in every run StateSince is the time of the latest change of state |
| SourceStatus.LastErrorIsLatest | internal/datasource/data_source_update_sink_impl.go:178-186 | in every run LastError is the latest non-empty error, even if the state did not change |
| SourceStatus.InOutageExactlyWhen | internal/datasource/data_source_update_sink_impl.go:315-345 | with outage logging on, there is an outage after a run if and only if some update carried an error or made the state Interrupted, and none since made it Valid or Off without an error |
| SourceStatus.NothingTrackedWithoutTimeout | internal/datasource/data_source_update_sink_impl.go:316-318 | with it off no run records an outage |
| SourceStatus.OutageCountsTakenUpdates | internal/datasource/data_source_update_sink_impl.go:315-352 | with outage logging on, the counts of an outage are, for each kind of error and status code, those of the updates tracked since the one that began it, and add up to their number |
| UpdateSink.DataSourceUpdateSink.Init | internal/datasource/data_source_update_sink_impl.go:59-92 | on success the data is stored, the tracker knows its references, and exactly the flags that lead to an addition, removal or version increase are announced, once each; on a store error nothing changes but the status |
| UpdateSink.DataSourceUpdateSink.Upsert | internal/datasource/data_source_update_sink_impl.go:95-113 | an accepted item is stored and tracked and exactly the flags that lead to it are announced; a refused or failed one changes no data |
| UpdateSink.DataSourceUpdateSink.ComputeChangedItemsForFullDataSet | internal/datasource/data_source_update_sink_impl.go:269-297 | the result is the closure, over the new references, of what was added, removed or raised in version |
| UpdateSink.DataSourceUpdateSink.UpdateDependencyTrackerFromFullDataSet | internal/datasource/data_source_update_sink_impl.go:248-255 | the tracker forgets everything and holds the references of the last item given for each vertex |
| UpdateSink.MergedIsTracked | internal/datasource/data_source_update_sink_impl.go:248-255 | those are the references of the items then stored, if collections of one kind mean the same |
| UpdateSink.DataSourceUpdateSink.SendChangeEvents | internal/datasource/data_source_update_sink_impl.go:240-246 | every subscriber gets each affected flag key once, in any order, behind what is already queued |
| UpdateSink.DataSourceUpdateSink.MaybeUpdateError | internal/datasource/data_source_update_sink_impl.go:115-142 | a store error changes the status like any other update and is broadcast unless ignored; success leaves the status alone |
| UpdateSink.DataSourceUpdateSink.MaybeUpdateStatus | internal/datasource/data_source_update_sink_impl.go:157-191 | status and outage change as the run lemmas assume, and the caller learns whether the update was ignored |
| ChangeSoundness.UnchangedAfterwardsIsSame | internal/datasource/data_source_update_sink_impl.go:78-88 | if all that a flag reaches in the new data is unchanged, it reached just that in the old data |
| ChangeSoundness.AnnouncedSeesChange | internal/datasource/data_model_dependencies.go:54-64 | a flag is announced if and only if it reaches a changed vertex in the new data, dangling references included |
| ChangeSoundness.InitMissesNothingExactlyWhen | internal/datasource/data_source_update_sink_impl.go:59-92 | a flag is announced or has the same reachable vertices with the same descriptors before and after Init, if and only if it sees no silent change or also sees a visible one |
| ChangeSoundness.AdvancingVersionsAreCovered | internal/datasource/data_source_update_sink_impl.go:288-292 | that condition follows from equal versions meaning equal items and no version going down |
| ChangeSoundness.UpsertMissesNothing | internal/datasource/data_source_update_sink_impl.go:95-113 | after an upsert the same holds of every unannounced flag, with no assumption about versions |
| ChangeSoundness.InitAnnouncesExactly | internal/datasource/data_source_update_sink_impl.go:269-297 | Init announces a flag if and only if it sees, in the new data, something stored in only one of the two data sets or stored in both with a strictly higher version; what could not be read back counts as absent |
| ChangeSoundness.UnchangedIsNotAnnounced | internal/datasource/data_source_update_sink_impl.go:269-297 | a flag that sees the same before and after is not announced |
| ChangeSoundness.RepeatedInitAnnouncesNothing | internal/datasource/data_source_update_sink_impl.go:59-92 | storing what is stored already announces nothing |
| ChangeSoundness.UpsertAnnouncesExactly | internal/datasource/data_source_update_sink_impl.go:95-113 | an upsert announces exactly the flags that see the item afterwards if it is newer than what is stored, and none otherwise |
| ChangeSoundness.SegmentUpsertAnnounces | internal/toposort/toposort.go:105-146 | a newer segment announces every stored flag with a segment-match clause for it |
| ChangeSoundness.FlagUpsertAnnounces | internal/toposort/toposort.go:105-146 | a newer flag announces itself and every stored flag that has it as a prerequisite |
| FlagTracker.FlagTracker.AddFlagValueChangeListener | internal/flag_tracker_impl.go:50-64 | the new value channel is tied to a fresh, empty, subscribed flag channel |
| FlagTracker.FlagTracker.RemoveFlagValueChangeListener | internal/flag_tracker_impl.go:66-76 | the flag channel of that listener, and no other, is unsubscribed; an unknown one is ignored |
| FlagTracker.ValueChangeListener.ReceiveAll | internal/flag_tracker_impl.go:86-105 | a listener that empties its queue emits at most one change, from its old value to the current one |
| FlagTracker.NextKeepsInvariant | internal/flag_tracker_impl.go:78-105 | every step of sink, listeners or application, whatever the versions, keeps the tracker exact and the events of each listener chained |
| FlagTracker.NextKeepsUpToDate | internal/flag_tracker_impl.go:78-105 | every step keeps a listener up to date, if a full data set hides no change from its flag |
| FlagTracker.ListenersAreNeverStale | internal/flag_tracker_impl.go:78-105 | in every run whose full data sets hide no change from its flag, a subscribed listener with no event for its flag waiting holds the flag's current value, for any evaluation that depends on what the flag reaches |
| FlagTracker.EventsFormAChain | internal/flag_tracker_impl.go:100-104 | in every run the events of a listener form a chain of real changes from its first value to the one it holds |
| FlagTracker.OlderInitLeavesListenerStale | internal/datasource/data_source_update_sink_impl.go:288-292 | a run in which a flag is given anew with a lower version: it is stored, nothing is announced, and the listener keeps the old value |
| FlagTracker.TrackerIsNeverStale | internal/datasource/data_model_dependencies.go:22-52 | in every state of every run both adjacency maps are exactly the references of the items stored now |
| StorePoller.DataStoreStatusPoller.UpdateAvailability | internal/datastore/data_store_status_poller.go:47-67 | only a change of availability sends a status; an outage starts a poll task |
| StorePoller.PollerAlternates | internal/datastore/data_store_status_poller.go:47-97 | in every run statuses alternate from unavailable, one poll task lives exactly while unavailable, and a refresh is asked for on the recoveries of a poller set up for it and nowhere else |
| StorePoller.AvailableExactlyWhen | internal/datastore/data_store_status_poller.go:47-97 | after every run the store is known to be available if and only if every failure has been followed by an answered poll |
| PersistentWrapper.RoundTripExactlyWhen | internal/datastore/persistent_data_store_wrapper.go:362-404 | deserializing what was serialized gives the item back if and only if the kind's own serialization keeps its content, and its version if that is 0 |
| PersistentWrapper.PersistentDataStoreWrapper.Init | internal/datastore/persistent_data_store_wrapper.go:67-91 | string-keyed cache, store and initialized flag end up as the value model says in all three cache modes, on success and on error |
| PersistentWrapper.PersistentDataStoreWrapper.Get | internal/datastore/persistent_data_store_wrapper.go:93-126 | a cached item answers at once; a miss asks the store and caches what it says |
| PersistentWrapper.PersistentDataStoreWrapper.GetAll | internal/datastore/persistent_data_store_wrapper.go:128-162 | the same for whole collections, with an error if any item cannot be deserialized |
| PersistentWrapper.PersistentDataStoreWrapper.Upsert | internal/datastore/persistent_data_store_wrapper.go:164-223 | store, both caches and the status poller after an accepted, a refused and a failed update, in all three cache modes |
| PersistentWrapper.PersistentDataStoreWrapper.PollAvailabilityAfterOutage | internal/datastore/persistent_data_store_wrapper.go:262-294 | in infinite mode the store becomes what the cached lists hold; the poll counts as answered even if that write fails, and only then a failure is reported to the status poller |
| PersistentWrapper.UpdateSingleItem | internal/datastore/persistent_data_store_wrapper.go:406-425 | the list means the same as before with that one key set |
| PersistentWrapper.ItemKeysDiffer | internal/datastore/persistent_data_store_wrapper.go:298-304 | no two items share a cache key, for kinds whose names hold no colon and are not taken |
| PersistentWrapper.ItemAndListKeysDiffer | internal/datastore/persistent_data_store_wrapper.go:298-304 | no item shares a cache key with a list, under the same condition |
| CacheProofs.DoKeepsCoherence | internal/datastore/persistent_data_store_wrapper.go:67-223 | every operation leaves everything cached equal to what the store would answer, under any failures in expiring mode and without failures in infinite mode |
| CacheProofs.CachesAreTransparent | internal/datastore/persistent_data_store_wrapper.go:67-223 | over every run, with entries vanishing at will, each call that succeeds answers what an uncached wrapper over a healthy store would, and both stores stay equal |
| CacheProofs.AnswersAreTruthful | internal/datastore/persistent_data_store_wrapper.go:67-223 | over every run, under any failures and in every cache mode, an update is answered true if and only if nothing of an equal or higher version was in the store, which then holds that version; every error answer means the store is as before |
| CacheProofs.AnswersWithoutStore | internal/datastore/persistent_data_store_wrapper.go:93-162 | with a cache, what was answered, accepted or initialized is answered again when the store then fails |
| CacheProofs.OutageAnswers | internal/datastore/persistent_data_store_wrapper.go:206-219 | throughout an outage in infinite mode every cached answer is that of the data overwritten, in order, by what came in, and the store is left alone |
| CacheProofs.OutageAnswersLatest | internal/datastore/persistent_data_store_wrapper.go:206-219 | during an outage in infinite mode an item is answered as it came in last, by itself or in a full data set |
| CacheProofs.RecoveryReplaysOutage | internal/datastore/persistent_data_store_wrapper.go:262-293 | a recovery poll whose write succeeds leaves the store with what the cached lists held when the outage began, overwritten in order by what came in |
| CacheProofs.RecoveryRestoresExactlyWhen | internal/datastore/persistent_data_store_wrapper.go:262-293 | from caches that agree with the store, the recovered store holds what it held before the outage, overwritten in order, if and only if the list of the kind was cached or all that was stored of the kind has been replaced meanwhile |
| CacheProofs.RefusedUpdateLosesOthers | internal/datastore/persistent_data_store_wrapper.go:200-219 | an update the store refuses, then one update during an outage: recovery leaves the store with that one item of the kind |
| CacheProofs.RecoveryWithoutListsEmpties | internal/datastore/persistent_data_store_wrapper.go:267-279 | with no list cached a recovery empties the store |
| CacheProofs.OutageStart | internal/datastore/persistent_data_store_wrapper.go:267-279 | caches that agree with the store and hold both lists hold exactly what is stored, which is all these results need at the start |
| Fdv2Events.PutReadableExactlyWhen | internal/datasourcev2/streaming_data_source.go:452-492 | a put is refused if and only if an object in it comes before a known kind or cannot be parsed as that kind |
| Fdv2Events.DeserializeEvents | internal/datasourcev2/streaming_data_source.go:449-520 | decodes puts and deletes in order and passes over other events, or fails as a whole |
| Fdv2Events.DecodedHoldsLast | internal/datasourcev2/streaming_data_source.go:449-520 | a put or delete that is decoded becomes one event of its own sort with the last version, kind and key given and, for a put, the last object, parsed as the kind named before it |
| Fdv2Events.ToStorableItems | internal/fdv2proto/event_to_storable_item.go:10-59 | one flag and one segment collection, each with its updates in event order; unknown kinds are dropped |
| Fdv2Events.OfferedInOrder | internal/fdv2proto/event_to_storable_item.go:10-59 | what the updates bring to a flag or segment is what the events under its stream name offer, in order, with a tombstone for each delete |
| DataSystem.MemoryStore.ApplyDelta | internal/memorystorev2/memory_store.go:63-80 | the version-checked upserts of all items, collection by collection, and a report of each key |
| DataSystem.ReportTellsLastOffer | internal/memorystorev2/memory_store.go:57-80 | a key is in the report exactly if it was offered, and as updated exactly if its last item is newer than what was stored and all that was offered before |
| DataSystem.DeltaIsInEventOrder | internal/memorystorev2/memory_store.go:57-80 | grouping a payload by kind has the effect of applying its events in the order they came |
| DataSystem.BasisHoldsLast | internal/memorystorev2/memory_store.go:40-55 | a basis holds for each key the item of the last event about it |
| DataSystem.MemoryStore.GetAllKinds | internal/memorystorev2/memory_store.go:126-137 | loading the flattened contents gives the contents back |
| DataSystem.MirrorAgreesExactlyWhen | internal/datasystem/store.go:180-208 | upserting the sorted, deduplicated collections ends as applying the events in order does, over every store, if and only if the last item for each flag is the newest |
| DataSystem.IncreasingVersionsSuffice | internal/datasystem/store.go:191-208 | strictly increasing versions of repeated flags are enough for that |
| MirroredStore.Store.SetBasis | internal/datasystem/store.go:155-172 | memory is replaced and becomes active; the mirror is replaced too if it may be written and does not fail |
| MirroredStore.Store.ApplyDelta | internal/datasystem/store.go:180-208 | memory takes the events in order; the mirror takes the sorted upserts that do not fail |
| MirroredStore.Store.Commit | internal/datasystem/store.go:223-231 | the mirror becomes memory's contents if it may be written and does not fail |
| MirroredStore.MirrorNeverDiffers | internal/datasystem/store.go:155-208 | from a basis on, over every run whose payloads may be persisted, whose mirror writes succeed and whose deltas give the newest item of each flag last, memory and mirror hold the same data |
| MirroredStore.CommitRepairs | internal/datasystem/store.go:221-231 | after any run with any failed writes, a successful commit of data that may be persisted to a mirror that may be written makes the mirror equal to memory, and keeps it so over every later run as above |
| MirroredStore.OlderEventLeavesMirrorBehind | internal/datasystem/store.go:191-208 | a run without failures after which memory holds version 2 of a flag and the mirror version 1 |
| MirroredStore.MemoryStaysActive | internal/datasystem/store.go:68-69 | once a basis has been set reads never go back to the persistent store |
| MirroredStore.MirrorLeftAlone | internal/datasystem/store.go:174-176 | a mirror that may not be written to, or to which nothing may be persisted, is left alone by every run |
| StreamProcessing.StreamProcessor.ConsumeStream | internal/datasourcev2/streaming_data_source.go:136-296 | over every stream the stored data and selector are the completed payloads applied in order and nothing else, up to the first transfer that finds no intent in force, where it stops; each event is reported valid or interrupted as the stream says, the stream restarts once per interruption, and the client is initialized if and only if a full payload was applied |
| StreamProcessing.StreamProcessor.HandleEvent | internal/datasourcev2/streaming_data_source.go:196-289 | what one event does to change set, store, status reports, restarts and initialization |
| StreamProcessing.StreamProcessor.HandleTransfer | internal/datasourcev2/streaming_data_source.go:251-279 | a transfer applies the payload that the stream completes there, or is refused as malformed, or breaks for want of an intent and changes nothing |
| StreamProcessing.OtherEvent | internal/datasourcev2/streaming_data_source.go:196-250 | any other event completes nothing, and the change set kept stays the puts and deletes since the latest announcing intent, error event or applied transfer, with that intent in force |
| StreamProcessing.RefusedTransfer | internal/datasourcev2/streaming_data_source.go:255-267 | a transfer that is unreadable, or whose change set is, completes nothing; the change set and its intent stay in force and an interruption is reported |
| StreamProcessing.AppliedTransfer | internal/datasourcev2/streaming_data_source.go:262-279 | a transfer with a decodable change set completes exactly that payload if an intent is in force, and breaks if not |
| StreamProcessing.StoredAfterStream | internal/datasourcev2/streaming_data_source.go:261-279 | over every stream an item ends as the newest of what the latest full payload says last about it, or what was stored before if there is none, and what later changes payloads offer; on equal versions the former stays; what nothing mentions is kept |
| StreamProcessing.FullPayloadDecides | internal/datasourcev2/streaming_data_source.go:270-274 | if the last payload is a full one, each item is what its last event says, or absent, whatever was stored before |
| StreamProcessing.SelectorIsLatest | internal/datasourcev2/streaming_data_source.go:269-277 | the selector is that of the latest full or changes payload |
| StreamProcessing.InitializedExactlyWhen | internal/datasourcev2/streaming_data_source.go:270-274 | the client is initialized if and only if it was or a full payload has been completed |
| StreamProcessing.PayloadHoldsEverythingSinceStart | internal/datasourcev2/streaming_data_source.go:217-279 | a payload reaches back exactly to the latest event that begins a change set |
| StreamProcessing.PartialPayloadIsInvisible | internal/datasourcev2/streaming_data_source.go:217-282 | over every stream, whatever arrives completes no payload before a transfer does |
| StreamProcessing.PartialPayloadLeavesNoTrace | internal/datasourcev2/streaming_data_source.go:217-249 | a payload cut short by an intent or error event leaves no trace: the rest of the stream completes the same payloads as if its events had never been sent |
| StreamProcessing.CompletesExactlyWhen | internal/datasourcev2/streaming_data_source.go:251-267 | a transfer hands over its payload if and only if it can be read and in every put since the change set began each object comes after a known kind and can be parsed |
| StreamProcessing.UnreadablePutStays | internal/datasourcev2/streaming_data_source.go:217-267 | after one unreadable put no transfer hands anything over until an intent or error event |
| StreamProcessing.ObjectBeforeKindIsStuck | internal/datasourcev2/streaming_data_source.go:452-492 | a stream whose put gives its object before its kind and whose two transfers hand over nothing |
| StreamProcessing.BreaksExactlyWhen | internal/datasourcev2/streaming_data_source.go:269 | a transfer breaks the program if and only if it would hand over a payload and each earlier intent has been followed by an applied transfer or error event |
| StreamProcessing.SecondTransferBreaks | internal/datasourcev2/streaming_data_source.go:269-279 | a second transfer under one intent breaks the program |
| BigSegments.StaleTestExactlyWhen | subsystems/ldstoreimpl/big_segment_store_wrapper.go:247-250 | the wrapping arithmetic gives the exact test for every stale time if and only if the true age in nanoseconds fits 64 bits, future updates included |
| BigSegments.BigSegmentStoreWrapper.PollStoreAndUpdateStatus | subsystems/ldstoreimpl/big_segment_store_wrapper.go:213-245 | the status found is kept and sent if it is the first or differs from the last |
| BigSegments.BigSegmentStoreWrapper.GetStatus | subsystems/ldstoreimpl/big_segment_store_wrapper.go:168-179 | the answer is the last status found and also the last one sent |
| BigSegments.ChangesAlternate | subsystems/ldstoreimpl/big_segment_store_wrapper.go:227-242 | consecutive statuses sent differ and the last one sent is the last one found |

## Left out

- Networking, SSE, retries, polling tickers, TLS and file watching: plumbing over libraries.
- The evaluator: evaluation is any function of what a flag reaches. Its dependence on whether the client is initialized is not modelled.
- JSON: an event is the list of properties its reader yields; `parse` and `codec` stand for the model libraries.
- Interleavings within one public call, the singleflight group, full channels and the timer that logs an outage.
- The persistent wrapper's `IsInitialized` and `Close`, and the poller's `Close`: they guard nothing the run properties rest on.
- `WaitFor`, status providers, logging and diagnostics.
- Big Segment membership queries and their cache.
- FlagTracker.FlagTracker.AddFlagValueChangeListener: the goroutine it starts is not part of its contract; it is the separate step `StartListener` of the runs.
- PersistentWrapper.PersistentCore.Init: takes the items of all collections at once, so the order in which a store without transactions would write them is not modelled there; Toposort has that order.
- CacheProofs.CachesAreTransparent: in infinite mode it covers a store that does not fail, because after a failed update the cache is ahead of the store on purpose.
- CacheProofs.RecoveryReplaysOutage: covers flags and segments, the kinds a recovery writes back.
- PersistentWrapper.ItemKeysDiffer: a kind named "all", or with a colon in its name, could share cache keys with another; the SDK has no such kind.
