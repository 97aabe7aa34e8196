/**
 Why the announcements of the update sink are enough: a flag that is not announced reaches exactly
 the same flags and segments, holding exactly the same items, before and after the update.
 */
module ChangeSoundness {
  import opened DataModel
  import opened Graph
  import opened DependencyTracking
  import opened InMemoryStore
  import opened Toposort
  import opened UpdateSink

  // The reference graph of stored data; a reference may lead to a vertex that is not stored.
  function GraphOf(d: DataMap): AdjacencyList {
    map v | v in VerticesOf(d) :: ReferencesIn(d, v)
  }

  ghost predicate Sees(d: DataMap, flag: string, v: Vertex) {
    Reaches(GraphOf(d), Vertex(Features, flag), v)
  }

  // Everything a flag's evaluation can depend on: what it reaches, and what is stored there.
  ghost predicate SameSubStore(d: DataMap, d': DataMap, flag: string) {
    && (forall v :: Sees(d, flag, v) <==> Sees(d', flag, v))
    && (forall v :: Sees(d, flag, v) ==> Lookup(d, v) == Lookup(d', v))
  }

  ghost function SubStore(d: DataMap, flag: string): map<Vertex, ItemDescriptor> {
    map v | v in VerticesOf(d) && Sees(d, flag, v) :: d[v.kind][v.key]
  }

  lemma GraphOfSucc(d: DataMap, v: Vertex)
    ensures Succ(GraphOf(d), v) == ReferencesIn(d, v)
  {
  }

  lemma SameSubStoreMeansEqual(d: DataMap, d': DataMap, flag: string)
    requires SameSubStore(d, d', flag)
    ensures SubStore(d, flag) == SubStore(d', flag)
  {
  }

  // ---------- Reachability under unchanged items ----------

  // If the two graphs agree wherever a reaches in g', a path of g from there is followed by g'.
  lemma {:induction false} PathFollowed(g: AdjacencyList, g': AdjacencyList, a: Vertex, p: seq<Vertex>)
    requires forall x :: Reaches(g', a, x) ==> Succ(g, x) == Succ(g', x)
    requires IsPath(g, p) && Reaches(g', a, p[0])
    ensures Reaches(g', a, p[|p| - 1])
  {
    if |p| > 1 {
      ReachesEdge(g', p[0], p[1]);
      ReachesTrans(g', a, p[0], p[1]);
      PathFollowed(g, g', a, p[1..]);
    }
  }

  lemma {:induction false} PathKept(g: AdjacencyList, g': AdjacencyList, a: Vertex, p: seq<Vertex>)
    requires forall x :: Reaches(g', a, x) ==> Succ(g, x) == Succ(g', x)
    requires IsPath(g', p) && Reaches(g', a, p[0])
    ensures Reaches(g, p[0], p[|p| - 1])
  {
    if |p| == 1 {
      ReachesSelf(g, p[0]);
    } else {
      ReachesEdge(g', p[0], p[1]);
      ReachesTrans(g', a, p[0], p[1]);
      PathKept(g, g', a, p[1..]);
      ReachesEdge(g, p[0], p[1]);
      ReachesTrans(g, p[0], p[1], p[|p| - 1]);
    }
  }

  // It is enough that everything the flag reaches afterwards is unchanged.
  lemma {:induction false} UnchangedAfterwardsIsSame(d: DataMap, d': DataMap, flag: string)
    requires forall v :: Sees(d', flag, v) ==> Lookup(d, v) == Lookup(d', v)
    ensures SameSubStore(d, d', flag)
  {
    var f, g, g' := Vertex(Features, flag), GraphOf(d), GraphOf(d');
    forall x | Reaches(g', f, x)
      ensures Succ(g, x) == Succ(g', x)
    {
      assert Sees(d', flag, x);
      GraphOfSucc(d, x);
      GraphOfSucc(d', x);
    }
    ReachesSelf(g', f);
    forall v
      ensures Sees(d, flag, v) <==> Sees(d', flag, v)
    {
      if Sees(d, flag, v) {
        var p :| Connects(g, p, f, v);
        PathFollowed(g, g', f, p);
      }
      if Sees(d', flag, v) {
        var p :| Connects(g', p, f, v);
        PathKept(g, g', f, p);
      }
    }
  }

  // References never leave flags and segments.
  lemma {:induction false} PathStaysInSdkKinds(d: DataMap, p: seq<Vertex>)
    requires IsPath(GraphOf(d), p) && IsSdkKind(p[0].kind)
    ensures IsSdkKind(p[|p| - 1].kind)
  {
    if |p| > 1 {
      GraphOfSucc(d, p[0]);
      PathStaysInSdkKinds(d, p[1..]);
    }
  }

  lemma {:induction false} SeesSdkKinds(d: DataMap, flag: string, v: Vertex)
    requires Sees(d, flag, v)
    ensures IsSdkKind(v.kind)
  {
    var p :| Connects(GraphOf(d), p, Vertex(Features, flag), v);
    PathStaysInSdkKinds(d, p);
  }

  // ---------- Announcements ----------

  lemma {:induction false} SameSuccSameReach(g: AdjacencyList, g': AdjacencyList, a: Vertex, b: Vertex)
    requires forall v :: Succ(g, v) == Succ(g', v)
    ensures Reaches(g, a, b) <==> Reaches(g', a, b)
  {
    ReachesSelf(g, a);
    ReachesSelf(g', a);
    if Reaches(g, a, b) {
      var p :| Connects(g, p, a, b);
      PathFollowed(g, g', a, p);
    }
    if Reaches(g', a, b) {
      var p :| Connects(g', p, a, b);
      PathFollowed(g', g, a, p);
    }
  }

  // A flag is announced exactly when it sees a changed vertex in the new data.
  lemma {:induction false} AnnouncedSeesChange(d: DataMap, from: AdjacencyList, to: AdjacencyList, changed: set<Vertex>, keys: seq<string>, flag: string)
    requires Tracks(from, d) && Transposed(from, to) && Announces(keys, to, changed)
    ensures flag in keys <==> exists c :: c in changed && Sees(d, flag, c)
  {
    var f := Vertex(Features, flag);
    forall c
      ensures Reaches(to, c, f) <==> Sees(d, flag, c)
    {
      TransposedReaches(from, to, f, c);
      forall v
        ensures Succ(from, v) == Succ(GraphOf(d), v)
      {
        GraphOfSucc(d, v);
      }
      SameSuccSameReach(from, GraphOf(d), f, c);
    }
    if flag in keys {
      var c :| c in changed && Reaches(to, c, f);
      assert Sees(d, flag, c);
    }
    if c :| c in changed && Sees(d, flag, c) {
      assert Reaches(to, c, f);
    }
  }

  // ---------- Init ----------

  // The item differs although Init does not count it as changed: the version is the same or lower.
  predicate SilentChange(d: DataMap, d': DataMap, v: Vertex) {
    Lookup(d, v) != Lookup(d', v) && !IsChange(Lookup(d, v), Lookup(d', v))
  }

  // Equal versions mean equal items, and no version goes down.
  ghost predicate VersionsAdvance(d: DataMap, d': DataMap) {
    forall v: Vertex :: IsSdkKind(v.kind) && Lookup(d, v).Some? && Lookup(d', v).Some? ==>
                  && Lookup(d, v).value.version <= Lookup(d', v).value.version
                  && (Lookup(d, v).value.version == Lookup(d', v).value.version ==> Lookup(d, v) == Lookup(d', v))
  }

  // If the flag would see a silent change, it also sees a change of version, an addition or a removal.
  ghost predicate SilentChangesCovered(d: DataMap, d': DataMap, flag: string) {
    (exists v :: Sees(d', flag, v) && SilentChange(d, d', v)) ==>
      exists c :: Sees(d', flag, c) && IsChange(Lookup(d, c), Lookup(d', c))
  }

  lemma {:induction false} AdvancingVersionsAreCovered(d: DataMap, d': DataMap, flag: string)
    requires VersionsAdvance(d, d')
    ensures SilentChangesCovered(d, d', flag)
  {
    forall v | Sees(d', flag, v) && SilentChange(d, d', v)
      ensures false
    {
      SeesSdkKinds(d', flag, v);
    }
  }

  // What could not be read back counts as not having been there.
  function Before(d: DataMap, readErrors: set<Kind>, v: Vertex): Option<ItemDescriptor> {
    if v.kind in readErrors then None else Lookup(d, v)
  }

  lemma ChangedVerticesMeaning(d: DataMap, readErrors: set<Kind>, d': DataMap, v: Vertex)
    requires IsSdkKind(v.kind)
    ensures v in ChangedVertices(ReadBack(d, readErrors), d') <==> IsChange(Before(d, readErrors, v), Lookup(d', v))
  {
  }

  lemma {:induction false} AnnouncedByInit(
    s: SinkState, data: seq<Collection>, readErrors: set<Kind>, keys: seq<string>, s': SinkState, flag: string)
    requires InitStep(s, data, readErrors, keys, s') && s.channels.subscribers != {} && ConsistentKinds(data)
    ensures s'.data == Load(data) && Tracks(s'.from, s'.data)
    ensures flag in keys <==>
              exists c :: Sees(s'.data, flag, c) && IsChange(Before(s.data, readErrors, c), Lookup(s'.data, c))
  {
    InitStores(s, data, readErrors, keys, s');
    var changed := ChangedVertices(ReadBack(s.data, readErrors), Load(data));
    AnnouncedSeesChange(s'.data, s'.from, s'.to, changed, keys, flag);
    forall c | Sees(s'.data, flag, c)
      ensures c in changed <==> IsChange(Before(s.data, readErrors, c), Lookup(s'.data, c))
    {
      SeesSdkKinds(s'.data, flag, c);
      ChangedVerticesMeaning(s.data, readErrors, s'.data, c);
    }
  }

  // Init announces a flag exactly when the flag sees, in the new data, something that was added, removed
  // or given a higher version.
  lemma {:induction false} InitAnnouncesExactly(
    s: SinkState, data: seq<Collection>, readErrors: set<Kind>, keys: seq<string>, s': SinkState, flag: string)
    requires InitStep(s, data, readErrors, keys, s') && s.channels.subscribers != {} && ConsistentKinds(data)
    ensures flag in keys <==>
              exists v :: Sees(Load(data), flag, v) &&
                          var before := if v.kind in readErrors then None else Lookup(s.data, v);
                          var after := Lookup(Load(data), v);
                          || (before.None? && after.Some?)
                          || (before.Some? && after.None?)
                          || (before.Some? && after.Some? && before.value.version < after.value.version)
  {
    AnnouncedByInit(s, data, readErrors, keys, s', flag);
  }

  // So a flag for which nothing has changed is not announced.
  lemma {:induction false} UnchangedIsNotAnnounced(s: SinkState, data: seq<Collection>, keys: seq<string>, s': SinkState, flag: string)
    requires InitStep(s, data, {}, keys, s') && s.channels.subscribers != {} && ConsistentKinds(data)
    requires SameSubStore(s.data, Load(data), flag)
    ensures flag !in keys
  {
    InitAnnouncesExactly(s, data, {}, keys, s', flag);
  }

  // Storing once more what is stored announces nothing.
  lemma {:induction false} RepeatedInitAnnouncesNothing(s: SinkState, data: seq<Collection>, keys: seq<string>, s': SinkState)
    requires InitStep(s, data, {}, keys, s') && ConsistentKinds(data) && Load(data) == s.data
    ensures keys == [] && s'.data == s.data
  {
    InitStores(s, data, {}, keys, s');
    if s.channels.subscribers != {} && keys != [] {
      UnchangedIsNotAnnounced(s, data, keys, s', keys[0]);
      assert false;
    }
  }

  lemma {:induction false} InitStores(s: SinkState, data: seq<Collection>, readErrors: set<Kind>, keys: seq<string>, s': SinkState)
    requires InitStep(s, data, readErrors, keys, s') && ConsistentKinds(data)
    ensures s'.data == Load(data) && Tracks(s'.from, s'.data)
  {
    var sorted :| SortResult(data, sorted) && s'.data == Load(sorted);
    SortPreservesMeaning(data, sorted);
    MergedIsTracked(data);
  }

  // Init announces a flag or leaves its sub-store as it was, exactly when silent changes are covered.
  lemma {:induction false} InitMissesNothingExactlyWhen(s: SinkState, data: seq<Collection>, keys: seq<string>, s': SinkState, flag: string)
    requires InitStep(s, data, {}, keys, s') && s.channels.subscribers != {} && ConsistentKinds(data)
    ensures flag in keys || SameSubStore(s.data, s'.data, flag) <==> SilentChangesCovered(s.data, Load(data), flag)
  {
    AnnouncedByInit(s, data, {}, keys, s', flag);
    if flag !in keys {
      UnannouncedExactlyWhen(s.data, s'.data, flag);
    }
  }

  // Where no change is visible, the sub-store is the same exactly when no change is silent.
  lemma {:induction false} UnannouncedExactlyWhen(d: DataMap, d': DataMap, flag: string)
    requires !exists c :: Sees(d', flag, c) && IsChange(Lookup(d, c), Lookup(d', c))
    ensures SameSubStore(d, d', flag) <==> SilentChangesCovered(d, d', flag)
  {
    if SilentChangesCovered(d, d', flag) {
      forall v | Sees(d', flag, v)
        ensures Lookup(d, v) == Lookup(d', v)
      {
        assert !SilentChange(d, d', v);
      }
      UnchangedAfterwardsIsSame(d, d', flag);
    }
  }

  // ---------- Upsert ----------

  lemma {:induction false} UpsertTracks(s: SinkState, v: Vertex, item: ItemDescriptor, keys: seq<string>, s': SinkState)
    requires UpsertStep(s, v, item, keys, s') && Tracks(s.from, s.data)
    ensures Tracks(s'.from, s'.data)
  {
    forall u
      ensures Succ(s'.from, u) == ReferencesIn(s'.data, u)
    {
      assert Succ(s.from, u) == ReferencesIn(s.data, u);
    }
  }

  // One upsert needs no assumption about versions: only the item it stores can differ.
  lemma {:induction false} UpsertMissesNothing(s: SinkState, v: Vertex, item: ItemDescriptor, keys: seq<string>, s': SinkState, flag: string)
    requires UpsertStep(s, v, item, keys, s') && s.channels.subscribers != {} && Tracks(s.from, s.data)
    requires flag !in keys
    ensures SameSubStore(s.data, s'.data, flag)
  {
    if Accepts(s.data, v, item) {
      UpsertTracks(s, v, item, keys, s');
      AnnouncedSeesChange(s'.data, s'.from, s'.to, {v}, keys, flag);
      assert v in {v};
      forall u | Sees(s'.data, flag, u)
        ensures Lookup(s.data, u) == Lookup(s'.data, u)
      {
        assert u != v;
      }
      UnchangedAfterwardsIsSame(s.data, s'.data, flag);
    }
  }

  // An upsert that is accepted announces exactly the flags that see the item afterwards; one that is
  // refused announces none.
  lemma {:induction false} UpsertAnnouncesExactly(s: SinkState, v: Vertex, item: ItemDescriptor, keys: seq<string>, s': SinkState, flag: string)
    requires UpsertStep(s, v, item, keys, s') && s.channels.subscribers != {} && Tracks(s.from, s.data)
    ensures flag in keys <==>
              && (Lookup(s.data, v).Some? ==> Lookup(s.data, v).value.version < item.version)
              && Sees(s'.data, flag, v)
  {
    if Accepts(s.data, v, item) {
      UpsertTracks(s, v, item, keys, s');
      AnnouncedSeesChange(s'.data, s'.from, s'.to, {v}, keys, flag);
      assert v in {v};
    }
  }

  // A newer segment announces every stored flag with a clause that matches against it.
  lemma {:induction false} SegmentUpsertAnnounces(
    s: SinkState, key: string, item: ItemDescriptor, keys: seq<string>, s': SinkState, flag: string, r: nat, c: nat, i: nat)
    requires UpsertStep(s, Vertex(Segments, key), item, keys, s') && s.channels.subscribers != {} && Tracks(s.from, s.data)
    requires key in ItemsOf(s.data, Segments) ==> ItemsOf(s.data, Segments)[key].version < item.version
    requires flag in ItemsOf(s.data, Features)
    requires var f := ItemsOf(s.data, Features)[flag].item;
             && f.Some? && f.value.Flag?
             && r < |f.value.rules| && c < |f.value.rules[r]| && f.value.rules[r][c].op == SegmentMatch
             && i < |f.value.rules[r][c].values| && f.value.rules[r][c].values[i] == StringValue(key)
    ensures flag in keys
  {
    var v, f := Vertex(Segments, key), Vertex(Features, flag);
    NeighborsExactly(Features, ItemsOf(s.data, Features)[flag], v);
    assert Lookup(s'.data, f) == Some(ItemsOf(s.data, Features)[flag]);
    GraphOfSucc(s'.data, f);
    ReachesEdge(GraphOf(s'.data), f, v);
    UpsertAnnouncesExactly(s, v, item, keys, s', flag);
  }

  // A newer flag announces itself and every stored flag that has it as a prerequisite.
  lemma {:induction false} FlagUpsertAnnounces(
    s: SinkState, key: string, item: ItemDescriptor, keys: seq<string>, s': SinkState, flag: string)
    requires UpsertStep(s, Vertex(Features, key), item, keys, s') && s.channels.subscribers != {} && Tracks(s.from, s.data)
    requires key in ItemsOf(s.data, Features) ==> ItemsOf(s.data, Features)[key].version < item.version
    requires flag == key || (flag in ItemsOf(s.data, Features) &&
                             var f := ItemsOf(s.data, Features)[flag].item;
                             f.Some? && f.value.Flag? && key in f.value.prerequisites)
    ensures flag in keys
  {
    var v, f := Vertex(Features, key), Vertex(Features, flag);
    if flag == key {
      ReachesSelf(GraphOf(s'.data), f);
    } else {
      NeighborsExactly(Features, ItemsOf(s.data, Features)[flag], v);
      assert Lookup(s'.data, f) == Some(ItemsOf(s.data, Features)[flag]);
      GraphOfSucc(s'.data, f);
      ReachesEdge(GraphOf(s'.data), f, v);
    }
    UpsertAnnouncesExactly(s, v, item, keys, s', flag);
  }
}
