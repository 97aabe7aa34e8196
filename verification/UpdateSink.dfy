/**
 internal/datasource/data_source_update_sink_impl.go: storing what a data source delivers, keeping
 the dependency graph, and announcing every flag the update may have affected.
 */
module UpdateSink {
  import opened DataModel
  import opened Graph
  import opened Toposort
  import opened DependencyTracking
  import opened InMemoryStore
  import opened SourceStatus

  // ---------- Flag change events ----------

  // The flag keys waiting in each listener's channel; only subscribers receive further ones.
  datatype Channels = Channels(subscribers: set<nat>, queues: map<nat, seq<string>>)

  function Sent(c: Channels, keys: seq<string>): Channels {
    c.(queues := map id | id in c.queues :: if id in c.subscribers then c.queues[id] + keys else c.queues[id])
  }

  function Subscribed(c: Channels, id: nat): Channels {
    Channels(c.subscribers + {id}, c.queues[id := []])
  }

  // The listener may still read what is in its channel, but nothing more is sent to it.
  function Unsubscribed(c: Channels, id: nat): Channels {
    c.(subscribers := c.subscribers - {id})
  }

  class FlagChangeBroadcaster {
    var channels: Channels

    constructor ()
      ensures channels == Channels({}, map[])
    {
      channels := Channels({}, map[]);
    }

    method AddListener() returns (id: nat)
      modifies this
      ensures id !in old(channels.queues)
      ensures channels == Subscribed(old(channels), id)
      ensures channels.subscribers == old(channels.subscribers) + {id} && channels.queues == old(channels.queues)[id := []]
    {
      id := FreshId(channels.queues.Keys);
      channels := Channels(channels.subscribers + {id}, channels.queues[id := []]);
    }

    method RemoveListener(id: nat)
      modifies this
      ensures channels == Unsubscribed(old(channels), id)
      ensures channels.subscribers == old(channels.subscribers) - {id} && channels.queues == old(channels.queues)
    {
      channels := channels.(subscribers := channels.subscribers - {id});
    }

    method Broadcast(key: string)
      modifies this
      ensures channels == Sent(old(channels), [key])
      ensures channels.subscribers == old(channels.subscribers) && channels.queues.Keys == old(channels.queues.Keys)
      ensures forall id :: id in channels.queues ==>
                channels.queues[id] == old(channels.queues)[id] + if id in channels.subscribers then [key] else []
    {
      channels := Sent(channels, [key]);
    }
  }

  // A channel that is not in use.
  method FreshId(used: set<nat>) returns (id: nat)
    ensures id !in used
  {
    id := 0;
    var rest := used;
    while rest != {}
      invariant forall x :: x in used && x !in rest ==> x < id
      decreases rest
    {
      var x :| x in rest;
      rest := rest - {x};
      if id <= x {
        id := x + 1;
      }
    }
  }

  // ---------- What counts as a change ----------

  // Added, removed, or of a higher version than before.
  predicate IsChange(before: Option<ItemDescriptor>, after: Option<ItemDescriptor>) {
    && (before.Some? || after.Some?)
    && (before.None? || after.None? || before.value.version < after.value.version)
  }

  function ChangedVertices(before: DataMap, after: DataMap): set<Vertex> {
    set v | v in VerticesOf(before) + VerticesOf(after) && IsSdkKind(v.kind) && IsChange(Lookup(before, v), Lookup(after, v))
  }

  // The data as Init could read it back; readErrors are the kinds whose query failed.
  function ReadBack(d: DataMap, readErrors: set<Kind>): DataMap {
    map kind | kind in ALL_DATA_KINDS && kind !in readErrors :: ItemsOf(d, kind)
  }

  // Each flag that leads to a changed item is named, once, and no other.
  ghost predicate Announces(keys: seq<string>, to: AdjacencyList, changed: set<Vertex>) {
    && (forall i, j :: 0 <= i < j < |keys| ==> keys[i] != keys[j])
    && (forall k :: k in keys <==> exists c :: c in changed && Reaches(to, c, Vertex(Features, k)))
  }

  // ---------- The graph of a full data set ----------

  function ReferencesOf(m: map<Vertex, ItemDescriptor>): AdjacencyList {
    map v | v in m :: Neighbors(v.kind, m[v])
  }

  lemma {:induction false} TrackedOneMore(m: map<Vertex, ItemDescriptor>, kind: Kind, items: seq<KeyedItem>, i: nat)
    requires i < |items|
    ensures ReferencesOf(MergedItems(m, kind, items[..i + 1])) ==
            ReferencesOf(MergedItems(m, kind, items[..i]))[Vertex(kind, items[i].key) := Neighbors(kind, items[i].item)]
  {
    assert items[..i + 1][..i] == items[..i];
  }

  lemma {:induction false} MergedIsTracked(data: seq<Collection>)
    requires ConsistentKinds(data)
    ensures Tracks(ReferencesOf(Merged(data)), Load(data))
  {
    forall v
      ensures Succ(ReferencesOf(Merged(data)), v) == ReferencesIn(Load(data), v)
    {
      MergedIsLoaded(data, v);
    }
  }

  // ---------- Steps of the sink ----------

  datatype SinkState = SinkState(data: DataMap, from: AdjacencyList, to: AdjacencyList, channels: Channels)

  // The events of one step: none without listeners, else one announcement to each of them.
  ghost predicate EventsSent(s: SinkState, changed: set<Vertex>, keys: seq<string>, s': SinkState) {
    if s.channels.subscribers == {} then
      keys == [] && s'.channels == s.channels
    else
      Announces(keys, s'.to, changed) && s'.channels == Sent(s.channels, keys)
  }

  ghost predicate InitStep(s: SinkState, data: seq<Collection>, readErrors: set<Kind>, keys: seq<string>, s': SinkState) {
    && (exists sorted :: SortResult(data, sorted) && s'.data == Load(sorted))
    && s'.from == ReferencesOf(Merged(data))
    && Transposed(s'.from, s'.to)
    && EventsSent(s, ChangedVertices(ReadBack(s.data, readErrors), Load(data)), keys, s')
  }

  ghost predicate UpsertStep(s: SinkState, v: Vertex, item: ItemDescriptor, keys: seq<string>, s': SinkState) {
    if Accepts(s.data, v, item) then
      && s'.data == Put(s.data, v, item)
      && s'.from == s.from[v := Neighbors(v.kind, item)]
      && Transposed(s'.from, s'.to)
      && EventsSent(s, {v}, keys, s')
    else
      s' == s && keys == []
  }

  // ---------- The sink ----------

  class DataSourceUpdateSink {
    const store: InMemoryDataStore
    const broadcaster: FlagChangeBroadcaster
    const dependencyTracker: DependencyTracker
    const outageTracker: OutageTracker
    var currentStatus: Status
    var lastStoreUpdateFailed: bool
    var statusesSent: seq<Status>

    constructor (store: InMemoryDataStore, broadcaster: FlagChangeBroadcaster, outageTimeout: int, now: int)
      ensures Valid() && this.store == store && this.broadcaster == broadcaster
      ensures fresh(dependencyTracker) && fresh(outageTracker)
      ensures dependencyTracker.dependenciesFrom == map[]
      ensures outageTracker.outageLoggingTimeout == outageTimeout
      ensures SourceView() == SourceState(Status(Initializing, now, NO_ERROR), Outage(false, map[]))
    {
      this.store, this.broadcaster := store, broadcaster;
      dependencyTracker := new DependencyTracker();
      outageTracker := new OutageTracker(outageTimeout);
      currentStatus := Status(Initializing, now, NO_ERROR);
      lastStoreUpdateFailed, statusesSent := false, [];
    }

    ghost predicate Valid()
      reads this, dependencyTracker
    {
      dependencyTracker.Valid()
    }

    ghost function View(): SinkState
      reads this, store, broadcaster, dependencyTracker
    {
      SinkState(store.allData, dependencyTracker.dependenciesFrom, dependencyTracker.dependenciesTo, broadcaster.channels)
    }

    ghost function SourceView(): SourceState
      reads this, outageTracker
    {
      SourceState(currentStatus, outageTracker.View())
    }

    // A full data set arrives. storeError is the store's answer (None for the in-memory store), which
    // leaves its contents as they were; readErrors are the kinds whose old data could not be read.
    method Init(allData: seq<Collection>, storeError: Option<string>, readErrors: set<Kind>, now: int)
      returns (updated: bool, ghost keys: seq<string>)
      requires Valid()
      modifies this, store, broadcaster, dependencyTracker, outageTracker
      ensures Valid()
      ensures updated == storeError.None?
      ensures storeError.None? ==> InitStep(old(View()), allData, readErrors, keys, View()) && SourceView() == old(SourceView())
      ensures storeError.Some? ==>
                View() == old(View()) &&
                SourceView() == Updated(outageTracker.outageLoggingTimeout, old(SourceView()), StoreFailure(storeError.value, now))
      ensures statusesSent == old(statusesSent) + if FailureTaken(old(SourceView()), storeError, now) then [currentStatus] else []
      ensures storeError.None? ==> statusesSent == old(statusesSent)
      ensures storeError.Some? ==>
                currentStatus.lastError == ErrorInfo(StoreError, 0, storeError.value, now) && statusesSent == old(statusesSent) + [currentStatus]
      ensures lastStoreUpdateFailed == storeError.Some?
    {
      ghost var before := View();
      keys := [];
      var oldData: Option<DataMap> := None;
      if broadcaster.channels.subscribers != {} {
        var read := ReadOldData(readErrors);
        oldData := Some(read);
      }
      if storeError.None? {
        var sorted := Sort(allData);
        store.Init(sorted);
      }
      updated := MaybeUpdateError(storeError, now);
      if updated {
        UpdateDependencyTrackerFromFullDataSet(allData);
        if oldData.Some? {
          var newData := BuildDataMap(allData);
          var affected := ComputeChangedItemsForFullDataSet(oldData.value, newData);
          keys := SendChangeEvents(affected);
          ClosureAnnounced(dependencyTracker.dependenciesTo, ChangedVertices(oldData.value, newData), affected.items, keys);
        }
        assert EventsSent(before, ChangedVertices(ReadBack(before.data, readErrors), Load(allData)), keys, View());
      }
    }

    method Upsert(kind: Kind, key: string, item: ItemDescriptor, storeError: Option<string>, now: int)
      returns (didNotGetError: bool, ghost keys: seq<string>)
      requires Valid()
      modifies this, store, broadcaster, dependencyTracker, outageTracker
      ensures Valid()
      ensures didNotGetError == storeError.None?
      ensures storeError.None? ==> UpsertStep(old(View()), Vertex(kind, key), item, keys, View()) && SourceView() == old(SourceView())
      ensures storeError.Some? ==>
                View() == old(View()) &&
                SourceView() == Updated(outageTracker.outageLoggingTimeout, old(SourceView()), StoreFailure(storeError.value, now))
      ensures statusesSent == old(statusesSent) + if FailureTaken(old(SourceView()), storeError, now) then [currentStatus] else []
      ensures storeError.None? ==> statusesSent == old(statusesSent)
      ensures storeError.Some? ==>
                currentStatus.lastError == ErrorInfo(StoreError, 0, storeError.value, now) && statusesSent == old(statusesSent) + [currentStatus]
      ensures lastStoreUpdateFailed == storeError.Some?
    {
      keys := [];
      var updated := false;
      if storeError.None? {
        updated := store.Upsert(kind, key, item);
      }
      didNotGetError := MaybeUpdateError(storeError, now);
      if updated {
        dependencyTracker.UpdateDependenciesFrom(kind, key, item);
        if broadcaster.channels.subscribers != {} {
          var affectedItems := new VertexSet();
          dependencyTracker.AddAffectedItems(affectedItems, Vertex(kind, key));
          assert IsClosure(dependencyTracker.dependenciesTo, {}, {});
          ClosureGrows(dependencyTracker.dependenciesTo, {}, {}, Vertex(kind, key), affectedItems.items);
          assert {} + {Vertex(kind, key)} == {Vertex(kind, key)};
          keys := SendChangeEvents(affectedItems);
          ClosureAnnounced(dependencyTracker.dependenciesTo, {Vertex(kind, key)}, affectedItems.items, keys);
        }
      }
    }

    method ReadOldData(readErrors: set<Kind>) returns (oldData: DataMap)
      ensures oldData == ReadBack(store.allData, readErrors)
    {
      oldData := map[];
      for i := 0 to |ALL_DATA_KINDS|
        invariant oldData == map kind | kind in ALL_DATA_KINDS[..i] && kind !in readErrors :: ItemsOf(store.allData, kind)
      {
        var kind := ALL_DATA_KINDS[i];
        if kind !in readErrors {
          var items := store.GetAll(kind);
          var m := BuildItemMap(items);
          oldData := oldData[kind := m];
        }
        assert ALL_DATA_KINDS[..i + 1] == ALL_DATA_KINDS[..i] + [kind];
      }
      assert ALL_DATA_KINDS[..|ALL_DATA_KINDS|] == ALL_DATA_KINDS;
    }

    method MaybeUpdateError(err: Option<string>, now: int) returns (ok: bool)
      modifies this, outageTracker
      ensures ok == err.None? && lastStoreUpdateFailed == err.Some?
      ensures SourceView() ==
              if err.None? then old(SourceView())
              else Updated(outageTracker.outageLoggingTimeout, old(SourceView()), StoreFailure(err.value, now))
      ensures statusesSent == old(statusesSent) + if FailureTaken(old(SourceView()), err, now) then [currentStatus] else []
      ensures err.None? ==> currentStatus == old(currentStatus) && statusesSent == old(statusesSent)
      ensures err.Some? ==>
                && currentStatus.state == (if old(currentStatus.state) == Initializing then Initializing else Interrupted)
                && currentStatus.lastError == ErrorInfo(StoreError, 0, err.value, now)
                && statusesSent == old(statusesSent) + [currentStatus]
    {
      if err.None? {
        lastStoreUpdateFailed := false;
        return true;
      }
      UpdateStatus(Some(Interrupted), ErrorInfo(StoreError, 0, err.value, now), now);
      lastStoreUpdateFailed := true;
      return false;
    }

    method UpdateStatus(newState: Option<State>, newError: ErrorInfo, now: int)
      modifies this`currentStatus, this`statusesSent, outageTracker
      ensures SourceView() == Updated(outageTracker.outageLoggingTimeout, old(SourceView()), StatusUpdate(newState, newError, now))
      ensures statusesSent ==
              old(statusesSent) + if Taken(old(SourceView()), StatusUpdate(newState, newError, now)) then [currentStatus] else []
      ensures newState.None? ==> currentStatus == old(currentStatus)
      ensures newState.Some? ==>
                && currentStatus.state ==
                   (if newState == Some(Interrupted) && old(currentStatus.state) == Initializing then Initializing else newState.value)
                && currentStatus.lastError == (if newError.kind == NoError then old(currentStatus.lastError) else newError)
      ensures statusesSent ==
              old(statusesSent) +
              if currentStatus.state != old(currentStatus.state) || (newState.Some? && newError.kind != NoError) then [currentStatus] else []
    {
      if newState.None? {
        return;
      }
      var status, changed := MaybeUpdateStatus(newState.value, newError, now);
      if changed {
        statusesSent := statusesSent + [status];
      }
    }

    method MaybeUpdateStatus(state: State, newError: ErrorInfo, now: int) returns (status: Status, changed: bool)
      modifies this`currentStatus, outageTracker
      ensures SourceView() == Updated(outageTracker.outageLoggingTimeout, old(SourceView()), StatusUpdate(Some(state), newError, now))
      ensures changed == Taken(old(SourceView()), StatusUpdate(Some(state), newError, now))
      ensures changed ==> status == currentStatus
      ensures currentStatus.state == if state == Interrupted && old(currentStatus.state) == Initializing then Initializing else state
      ensures currentStatus.stateSince ==
              if currentStatus.state == old(currentStatus.state) then old(currentStatus.stateSince) else now
      ensures currentStatus.lastError == if newError.kind == NoError then old(currentStatus.lastError) else newError
    {
      var newState := state;
      var oldStatus := currentStatus;
      if newState == Interrupted && oldStatus.state == Initializing {
        newState := Initializing;
      }
      if newState == oldStatus.state && newError.kind == NoError {
        return oldStatus, false;
      }
      var stateSince := oldStatus.stateSince;
      if newState != oldStatus.state {
        stateSince := now;
      }
      var lastError := oldStatus.lastError;
      if newError.kind != NoError {
        lastError := newError;
      }
      currentStatus := Status(newState, stateSince, lastError);
      outageTracker.TrackDataSourceState(newState, newError);
      return currentStatus, true;
    }

    method UpdateDependencyTrackerFromFullDataSet(allData: seq<Collection>)
      modifies dependencyTracker
      ensures dependencyTracker.Valid() && dependencyTracker.dependenciesFrom == ReferencesOf(Merged(allData))
    {
      dependencyTracker.Reset();
      for i := 0 to |allData|
        invariant dependencyTracker.Valid()
        invariant dependencyTracker.dependenciesFrom == ReferencesOf(Merged(allData[..i]))
      {
        TrackCollection(Merged(allData[..i]), allData[i]);
        assert allData[..i + 1][..i] == allData[..i];
      }
      assert allData[..|allData|] == allData;
    }

    method TrackCollection(ghost m: map<Vertex, ItemDescriptor>, coll: Collection)
      requires dependencyTracker.Valid() && dependencyTracker.dependenciesFrom == ReferencesOf(m)
      modifies dependencyTracker
      ensures dependencyTracker.Valid()
      ensures dependencyTracker.dependenciesFrom == ReferencesOf(MergedItems(m, coll.kind, coll.items))
    {
      for i := 0 to |coll.items|
        invariant dependencyTracker.Valid()
        invariant dependencyTracker.dependenciesFrom == ReferencesOf(MergedItems(m, coll.kind, coll.items[..i]))
      {
        TrackedOneMore(m, coll.kind, coll.items, i);
        dependencyTracker.UpdateDependenciesFrom(coll.kind, coll.items[i].key, coll.items[i].item);
      }
      assert coll.items[..|coll.items|] == coll.items;
    }

    method ComputeChangedItemsForFullDataSet(oldData: DataMap, newData: DataMap) returns (affectedItems: VertexSet)
      requires dependencyTracker.Valid()
      ensures fresh(affectedItems)
      ensures IsClosure(dependencyTracker.dependenciesTo, ChangedVertices(oldData, newData), affectedItems.items)
      ensures forall v :: v in affectedItems.items <==>
                exists c: Vertex :: IsSdkKind(c.kind) && Reaches(dependencyTracker.dependenciesTo, c, v) &&
                            var before, after := Lookup(oldData, c), Lookup(newData, c);
                            || (before.None? && after.Some?)
                            || (before.Some? && after.None?)
                            || (before.Some? && after.Some? && before.value.version < after.value.version)
    {
      affectedItems := new VertexSet();
      ghost var to := dependencyTracker.dependenciesTo;
      ghost var changed: set<Vertex> := {};
      for i := 0 to |ALL_DATA_KINDS|
        invariant fresh(affectedItems)
        invariant IsClosure(to, changed, affectedItems.items)
        invariant changed == set v | v in ChangedVertices(oldData, newData) && v.kind in ALL_DATA_KINDS[..i]
      {
        var kind := ALL_DATA_KINDS[i];
        AddChangesOfKind(oldData, newData, kind, affectedItems, changed);
        changed := changed + ChangesOfKind(oldData, newData, kind);
        assert ALL_DATA_KINDS[..i + 1] == ALL_DATA_KINDS[..i] + [kind];
      }
      assert ALL_DATA_KINDS[..|ALL_DATA_KINDS|] == ALL_DATA_KINDS;
      assert changed == ChangedVertices(oldData, newData);
    }

    // One round of the outer loop of computeChangedItemsForFullDataSet.
    method AddChangesOfKind(
      oldData: DataMap, newData: DataMap, kind: Kind, affectedItems: VertexSet, ghost changed: set<Vertex>)
      requires IsSdkKind(kind) && IsClosure(dependencyTracker.dependenciesTo, changed, affectedItems.items)
      modifies affectedItems
      ensures IsClosure(
                dependencyTracker.dependenciesTo, changed + ChangesOfKind(oldData, newData, kind), affectedItems.items)
    {
      var oldItems, newItems := ItemsOf(oldData, kind), ItemsOf(newData, kind);
      var todo := oldItems.Keys + newItems.Keys;
      ghost var added: set<Vertex> := {};
      while todo != {}
        invariant todo <= oldItems.Keys + newItems.Keys
        invariant added == set v | v in ChangesOfKind(oldData, newData, kind) && v.key !in todo
        invariant IsClosure(dependencyTracker.dependenciesTo, changed + added, affectedItems.items)
        decreases todo
      {
        var key :| key in todo;
        var v := Vertex(kind, key);
        todo := todo - {key};
        var haveOld, haveNew := key in oldItems, key in newItems;
        if haveOld || haveNew {
          if !haveOld || !haveNew || oldItems[key].version < newItems[key].version {
            ghost var before := affectedItems.items;
            dependencyTracker.AddAffectedItems(affectedItems, v);
            ClosureGrows(dependencyTracker.dependenciesTo, changed + added, before, v, affectedItems.items);
            assert changed + (added + {v}) == changed + added + {v};
            added := added + {v};
          }
        }
      }
      assert added == ChangesOfKind(oldData, newData, kind);
    }

    // The map of affected items is ranged over in any order.
    method SendChangeEvents(affectedItems: VertexSet) returns (ghost keys: seq<string>)
      modifies broadcaster
      ensures broadcaster.channels == Sent(old(broadcaster.channels), keys)
      ensures forall i, j :: 0 <= i < j < |keys| ==> keys[i] != keys[j]
      ensures forall k :: k in keys <==> Vertex(Features, k) in affectedItems.items
    {
      keys := [];
      SentNothing(broadcaster.channels);
      var todo := affectedItems.items;
      while todo != {}
        invariant todo <= affectedItems.items
        invariant broadcaster.channels == Sent(old(broadcaster.channels), keys)
        invariant forall i, j :: 0 <= i < j < |keys| ==> keys[i] != keys[j]
        invariant forall k :: k in keys <==> Vertex(Features, k) in affectedItems.items - todo
        decreases todo
      {
        var item :| item in todo;
        todo := todo - {item};
        if item.kind == Features {
          broadcaster.Broadcast(item.key);
          SentTwice(old(broadcaster.channels), keys, [item.key]);
          keys := keys + [item.key];
        }
      }
    }
  }

  function StoreFailure(message: string, now: int): StatusUpdate {
    StatusUpdate(Some(Interrupted), ErrorInfo(StoreError, 0, message, now), now)
  }

  // A store error is broadcast like any other status update that is not ignored.
  predicate FailureTaken(s: SourceState, storeError: Option<string>, now: int) {
    storeError.Some? && Taken(s, StoreFailure(storeError.value, now))
  }

  function ChangesOfKind(before: DataMap, after: DataMap, kind: Kind): set<Vertex> {
    set v | v in ChangedVertices(before, after) && v.kind == kind
  }

  lemma {:induction false} SentTwice(c: Channels, keys: seq<string>, more: seq<string>)
    ensures Sent(Sent(c, keys), more) == Sent(c, keys + more)
  {
    forall id | id in c.queues && id in c.subscribers
      ensures Sent(Sent(c, keys), more).queues[id] == Sent(c, keys + more).queues[id]
    {
      assert c.queues[id] + keys + more == c.queues[id] + (keys + more);
    }
    assert Sent(Sent(c, keys), more).queues == Sent(c, keys + more).queues;
  }

  lemma {:induction false} SentNothing(c: Channels)
    ensures Sent(c, []) == c
  {
    forall id | id in c.queues && id in c.subscribers
      ensures Sent(c, []).queues[id] == c.queues[id]
    {
      assert c.queues[id] + [] == c.queues[id];
    }
    assert Sent(c, []).queues == c.queues;
  }

  lemma ClosureAnnounced(to: AdjacencyList, changed: set<Vertex>, affected: set<Vertex>, keys: seq<string>)
    requires IsClosure(to, changed, affected)
    requires forall i, j :: 0 <= i < j < |keys| ==> keys[i] != keys[j]
    requires forall k :: k in keys <==> Vertex(Features, k) in affected
    ensures Announces(keys, to, changed)
  {
  }
}
