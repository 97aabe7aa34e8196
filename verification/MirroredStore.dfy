/**
 internal/datasystem/store.go: the store behind the FDv2 data system. It serves reads from a
 persistent store until it has a basis of its own, and from memory from then on; what memory takes is
 mirrored to the persistent store if the data may be persisted and that store may be written to.
 */
module MirroredStore {
  import opened DataModel
  import opened Toposort
  import opened InMemoryStore
  import opened Fdv2Events
  import opened DataSystem

  datatype StoreMode = ReadOnly | ReadWrite

  datatype ActiveStore = MemoryActive | PersistentActive

  // Any data store that a payload is mirrored to; `fault` says whether the call fails.
  class PersistentDataStore {
    var data: DataMap

    method Init(allData: seq<Collection>, fault: bool) returns (err: bool)
      modifies this
      ensures err == fault && data == if fault then old(data) else Load(allData)
    {
      if !fault {
        data := BuildDataMap(allData);
      }
      return fault;
    }

    method Upsert(kind: Kind, key: string, item: ItemDescriptor, fault: bool) returns (err: bool)
      modifies this
      ensures err == fault
      ensures data == if fault then old(data) else Upserted(old(data), Vertex(kind, key), item)
    {
      if !fault {
        data := Upserted(data, Vertex(kind, key), item);
      }
      return fault;
    }
  }

  // ---------- Steps ----------

  datatype StoreState = StoreState(
    memory: DataMap, mirror: DataMap, writable: bool, persist: bool, active: ActiveStore, selector: Option<Selector>)

  // The updates whose position is not among the faults.
  function Without(us: seq<Update>, faults: set<nat>): seq<Update> {
    if us == [] then []
    else Without(us[..|us| - 1], faults) + if |us| - 1 in faults then [] else [us[|us| - 1]]
  }

  datatype StoreOp =
    | Basis(us: seq<Update>, selector: Option<Selector>, persist: bool, fault: bool)
    | Delta(us: seq<Update>, selector: Option<Selector>, persist: bool, faults: set<nat>)
    | Commit(fault: bool)

  // faults are the positions, in the order of the mirror, of the upserts that fail.
  ghost predicate StoreStep(s: StoreState, op: StoreOp, s': StoreState) {
    match op
    case Basis(us, selector, persist, fault) =>
      s' == StoreState(
              Load(Grouped(us)),
              if persist && s.writable && !fault then Load(Grouped(us)) else s.mirror,
              s.writable, persist, MemoryActive, selector)
    case Delta(us, selector, persist, faults) =>
      && s' == s.(memory := Delivered(s.memory, us), mirror := s'.mirror, persist := persist, selector := selector)
      && if persist && s.writable then
           exists sorted :: SortResult(Grouped(us), sorted) && s'.mirror == Delivered(s.mirror, Without(Flatten(sorted), faults))
         else
           s'.mirror == s.mirror
    case Commit(fault) =>
      s' == if s.persist && s.writable && !fault then s.(mirror := s.memory) else s
  }

  class Store {
    const memoryStore: MemoryStore
    var impl: PersistentDataStore?
    var mode: StoreMode
    var persist: bool
    var active: ActiveStore
    var selector: Option<Selector>

    constructor ()
      ensures fresh(memoryStore) && impl == null && memoryStore.data == map[]
      ensures View() == StoreState(map[], map[], false, false, MemoryActive, None)
    {
      memoryStore := new MemoryStore();
      impl, mode := null, ReadOnly;
      persist, active, selector := false, MemoryActive, None;
    }

    ghost function View(): StoreState
      reads this, memoryStore, impl
    {
      StoreState(
        memoryStore.data, if impl == null then map[] else impl.data,
        impl != null && mode == ReadWrite, persist, active, selector)
    }

    method WithPersistence(persistent: PersistentDataStore, mode: StoreMode)
      modifies this`impl, this`mode, this`active
      ensures impl == persistent && active == PersistentActive
      ensures View() == old(View()).(mirror := persistent.data, writable := mode == ReadWrite, active := PersistentActive)
    {
      impl, this.mode := persistent, mode;
      active := PersistentActive;
    }

    predicate ShouldPersist()
      reads this
    {
      persist && impl != null && mode == ReadWrite
    }

    method SetBasis(events: seq<Event>, selector: Option<Selector>, persist: bool, fault: bool)
      modifies this`persist, this`selector, this`active, memoryStore, impl
      ensures StoreStep(old(View()), Basis(UpdatesOf(events), selector, persist, fault), View())
      ensures memoryStore.initialized && active == MemoryActive && this.persist == persist && this.selector == selector
      ensures impl != null ==> impl.data == if persist && mode == ReadWrite && !fault then memoryStore.data else old(impl.data)
    {
      var collections := ToStorableItems(events);
      memoryStore.SetBasis(collections);
      this.persist := persist;
      this.selector := selector;
      active := MemoryActive;
      if ShouldPersist() {
        var sorted := Sort(collections);
        GroupedKindsAgree(UpdatesOf(events));
        SortPreservesMeaning(collections, sorted);
        var _ := impl.Init(sorted, fault);
      }
    }

    method ApplyDelta(events: seq<Event>, selector: Option<Selector>, persist: bool, faults: set<nat>)
      modifies this`persist, this`selector, memoryStore`data, impl
      ensures StoreStep(old(View()), Delta(UpdatesOf(events), selector, persist, faults), View())
      ensures this.persist == persist && this.selector == selector
      ensures impl != null && !(persist && mode == ReadWrite) ==> impl.data == old(impl.data)
    {
      var collections := ToStorableItems(events);
      var _ := memoryStore.ApplyDelta(collections);
      EventsUpdateSdkKinds(events);
      DeltaIsInEventOrder(old(memoryStore.data), UpdatesOf(events));
      this.persist := persist;
      this.selector := selector;
      if ShouldPersist() {
        var sorted := Sort(collections);
        UpsertAll(sorted, faults);
        assert SortResult(Grouped(UpdatesOf(events)), sorted);
      }
    }

    // The loops of ApplyDelta over the persistent store: a failed upsert is logged and passed over.
    method UpsertAll(sorted: seq<Collection>, faults: set<nat>)
      requires impl != null
      modifies impl
      ensures impl.data == Delivered(old(impl.data), Without(Flatten(sorted), faults))
    {
      var n: nat := 0;
      for i := 0 to |sorted|
        invariant n == |Flatten(sorted[..i])|
        invariant impl.data == Delivered(old(impl.data), Without(Flatten(sorted[..i]), faults))
      {
        UpsertCollection(sorted[i], n, faults, old(impl.data), Flatten(sorted[..i]));
        n := n + |sorted[i].items|;
        assert sorted[..i + 1][..i] == sorted[..i];
      }
      assert sorted[..|sorted|] == sorted;
    }

    // position is the number of upserts before this collection.
    method UpsertCollection(
      coll: Collection, position: nat, faults: set<nat>, ghost start: DataMap, ghost before: seq<Update>)
      requires position == |before|
      requires impl != null && impl.data == Delivered(start, Without(before, faults))
      modifies impl
      ensures impl.data == Delivered(start, Without(before + Listed(coll.kind, coll.items), faults))
    {
      ghost var done := before;
      assert before + Listed(coll.kind, coll.items[..0]) == before;
      for j := 0 to |coll.items|
        invariant done == before + Listed(coll.kind, coll.items[..j])
        invariant impl.data == Delivered(start, Without(done, faults))
      {
        var item := coll.items[j];
        ghost var u := Update(Vertex(coll.kind, item.key), item.item);
        OneMoreUpsert(start, done, u, faults);
        OneMoreListed(before, coll.kind, coll.items, j);
        var _ := impl.Upsert(coll.kind, item.key, item.item, position + j in faults);
        done := before + Listed(coll.kind, coll.items[..j + 1]);
      }
      assert coll.items[..|coll.items|] == coll.items;
    }

    method Commit(fault: bool) returns (err: bool)
      modifies impl
      ensures StoreStep(old(View()), StoreOp.Commit(fault), View())
      ensures err == (fault && ShouldPersist())
      ensures impl != null ==> impl.data == if persist && mode == ReadWrite && !fault then memoryStore.data else old(impl.data)
    {
      err := false;
      if ShouldPersist() {
        var allData := memoryStore.GetAllKinds();
        err := impl.Init(allData, fault);
      }
    }

    // Reads go to the active store; a store that cannot be read is not part of this method.
    method Get(kind: Kind, key: string) returns (item: ItemDescriptor)
      requires active == PersistentActive ==> impl != null
      ensures var d := if active == MemoryActive then memoryStore.data else impl.data;
              item == if kind in d && key in d[kind] then d[kind][key] else ItemDescriptor(-1, None)
    {
      if active == MemoryActive {
        item := memoryStore.Get(kind, key);
      } else {
        item := Found(impl.data, Vertex(kind, key));
      }
    }
  }

  lemma {:induction false} OneMoreUpsert(d: DataMap, us: seq<Update>, u: Update, faults: set<nat>)
    ensures Delivered(d, Without(us + [u], faults)) ==
            if |us| in faults then Delivered(d, Without(us, faults))
            else Upserted(Delivered(d, Without(us, faults)), u.v, u.item)
  {
    assert (us + [u])[..|us|] == us;
    assert Without(us, faults) + [] == Without(us, faults);
    DeliveredOneMore(d, Without(us, faults), u);
  }

  lemma GroupedKindsAgree(us: seq<Update>)
    ensures ConsistentKinds(Grouped(us))
  {
  }

  // ---------- Every run ----------

  ghost predicate IsStoreRun(states: seq<StoreState>, ops: seq<StoreOp>) {
    && |states| == |ops| + 1
    && forall i :: 0 <= i < |ops| ==> StoreStep(states[i], ops[i], states[i + 1])
  }

  // Every write of the mirror succeeds, and the last item offered for each flag is the newest.
  ghost predicate MirrorsWell(op: StoreOp) {
    match op
    case Basis(us, _, persist, fault) => persist && !fault
    case Delta(us, _, persist, faults) => persist && faults == {} && SdkUpdates(us) && LastFlagsAreNewest(us)
    case Commit(_) => true
  }

  lemma {:induction false} WithoutNone(us: seq<Update>)
    ensures Without(us, {}) == us
  {
    if us != [] {
      WithoutNone(us[..|us| - 1]);
    }
  }

  lemma {:induction false} StepKeepsMirror(s: StoreState, op: StoreOp, s': StoreState)
    requires StoreStep(s, op, s') && s.writable && MirrorsWell(op)
    requires op.Basis? || s.mirror == s.memory
    ensures s'.mirror == s'.memory && s'.writable
  {
    if op.Delta? {
      var sorted :| SortResult(Grouped(op.us), sorted) &&
                    s'.mirror == Delivered(s.mirror, Without(Flatten(sorted), op.faults));
      WithoutNone(Flatten(sorted));
      MirrorAgrees(s.mirror, op.us, sorted);
    }
  }

  // The operation writes all of memory to the mirror.
  ghost predicate WritesAll(s: StoreState, op: StoreOp) {
    match op
    case Basis(_, _, _, _) => s.writable && MirrorsWell(op)
    case Commit(fault) => s.persist && s.writable && !fault
    case Delta(_, _, _, _) => false
  }

  // Once all of memory has been written, memory and mirror agree for as long as every payload is
  // mirrored well, whatever failed before.
  lemma {:induction false} MirrorAgreesSince(states: seq<StoreState>, ops: seq<StoreOp>, b: nat, n: nat)
    requires IsStoreRun(states, ops) && b < n <= |ops| && WritesAll(states[b], ops[b])
    requires forall i :: b < i < n ==> MirrorsWell(ops[i])
    ensures states[n].mirror == states[n].memory && states[n].writable
  {
    assert StoreStep(states[n - 1], ops[n - 1], states[n]);
    if b < n - 1 {
      MirrorAgreesSince(states, ops, b, n - 1);
      StepKeepsMirror(states[n - 1], ops[n - 1], states[n]);
    }
  }

  // From a basis on, memory and mirror hold the same data after every payload.
  lemma {:induction false} MirrorNeverDiffers(states: seq<StoreState>, ops: seq<StoreOp>, b: nat, n: nat)
    requires IsStoreRun(states, ops) && b < n <= |ops| && ops[b].Basis? && states[b].writable
    requires forall i :: b <= i < n ==> MirrorsWell(ops[i])
    ensures states[n].mirror == states[n].memory
  {
    MirrorAgreesSince(states, ops, b, n);
  }

  // After a run in which any writes failed, a commit that succeeds while the data may be persisted
  // repairs the mirror for good: it agrees with memory from then on, payload after payload.
  lemma {:induction false} CommitRepairs(states: seq<StoreState>, ops: seq<StoreOp>, b: nat, n: nat)
    requires IsStoreRun(states, ops) && b < n <= |ops| && ops[b] == Commit(false)
    requires states[b].persist && states[b].writable
    requires forall i :: b < i < n ==> MirrorsWell(ops[i])
    ensures states[n].mirror == states[n].memory
  {
    MirrorAgreesSince(states, ops, b, n);
  }

  const FLAG := Vertex(Features, "f")

  function FlagUpdate(version: int): Update {
    Update(FLAG, ItemDescriptor(version, None))
  }

  lemma {:induction false} TwoItemsFor(u: Update, u': Update)
    requires u.v == u'.v && u.item.version > u'.item.version
    ensures ItemsFor([u, u'], u.v) == [u.item, u'.item]
    ensures Newest(None, [u.item, u'.item]) == Some(u.item) && Newest(None, [u'.item]) == Some(u'.item)
  {
    assert [u][..0] == [] && [u.item][..0] == [] && [u'.item][..0] == [];
    assert ItemsFor([u], u.v) == [u.item] && Newest(None, [u.item]) == Some(u.item);
    assert [u, u'][..1] == [u] && [u.item, u'.item][..1] == [u.item];
  }

  lemma {:induction false} OlderEventDelivered(d: DataMap, sorted: seq<Collection>)
    requires Lookup(d, FLAG) == None && SortResult(Grouped([FlagUpdate(2), FlagUpdate(1)]), sorted)
    ensures Lookup(Delivered(d, [FlagUpdate(2), FlagUpdate(1)]), FLAG) == Some(FlagUpdate(2).item)
    ensures Lookup(Delivered(d, Flatten(sorted)), FLAG) == Some(FlagUpdate(1).item)
  {
    var us := [FlagUpdate(2), FlagUpdate(1)];
    DeliveredPerKey(d, us, FLAG);
    DeliveredPerKey(d, Flatten(sorted), FLAG);
    MirroredItemsFor(us, sorted, FLAG);
    TwoItemsFor(FlagUpdate(2), FlagUpdate(1));
  }

  // For example, a delta gives version 2 of a flag and then version 1: memory keeps the first, and the
  // mirror, to which only the second is written, holds that one, though no write failed.
  lemma {:induction false} OlderEventLeavesMirrorBehind() returns (states: seq<StoreState>, ops: seq<StoreOp>)
    ensures IsStoreRun(states, ops) && states[0] == StoreState(map[], map[], true, false, MemoryActive, None)
    ensures ops == [Basis([], None, true, false), Delta([FlagUpdate(2), FlagUpdate(1)], None, true, {})]
    ensures Lookup(states[2].memory, FLAG) == Some(FlagUpdate(2).item)
    ensures Lookup(states[2].mirror, FLAG) == Some(FlagUpdate(1).item)
  {
    var us := [FlagUpdate(2), FlagUpdate(1)];
    var sorted := SortedWithLast(Grouped(us), 0);
    var d := Load(Grouped([]));
    BasisHoldsLast([], FLAG);
    OlderEventDelivered(d, sorted);
    WithoutNone(Flatten(sorted));
    var first := StoreState(map[], map[], true, false, MemoryActive, None);
    var second := StoreState(d, d, true, true, MemoryActive, None);
    var third := second.(memory := Delivered(d, us), mirror := Delivered(d, Flatten(sorted)));
    ops := [Basis([], None, true, false), Delta(us, None, true, {})];
    states := [first, second, third];
    assert StoreStep(first, ops[0], second) && StoreStep(second, ops[1], third);
  }

  // The payload may not be persisted; a commit then is not either.
  predicate NeverPersists(op: StoreOp) {
    op.Commit? || !op.persist
  }

  // A mirror that may not be written to, or to which nothing may be persisted, is left alone by every run.
  lemma {:induction false} MirrorLeftAlone(states: seq<StoreState>, ops: seq<StoreOp>, n: nat)
    requires IsStoreRun(states, ops) && n <= |ops|
    requires !states[0].writable || (!states[0].persist && forall op :: op in ops ==> NeverPersists(op))
    ensures states[n].mirror == states[0].mirror && states[n].writable == states[0].writable
    ensures states[0].writable ==> !states[n].persist
  {
    if n > 0 {
      MirrorLeftAlone(states, ops, n - 1);
      assert ops[n - 1] in ops;
      assert StoreStep(states[n - 1], ops[n - 1], states[n]);
    }
  }

  // Once a basis has been set, reads never go back to the persistent store.
  lemma {:induction false} MemoryStaysActive(states: seq<StoreState>, ops: seq<StoreOp>, b: nat, n: nat)
    requires IsStoreRun(states, ops) && b < n <= |ops| && ops[b].Basis?
    ensures states[n].active == MemoryActive
  {
    assert StoreStep(states[n - 1], ops[n - 1], states[n]);
    if b < n - 1 {
      MemoryStaysActive(states, ops, b, n - 1);
    }
  }
}
