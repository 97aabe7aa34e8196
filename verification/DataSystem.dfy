/**
 internal/memorystorev2/memory_store.go and internal/datasystem/store.go: a memory store that takes
 whole payloads, and the mirror of it in a persistent store that takes single items.
 */
module DataSystem {
  import opened DataModel
  import opened Toposort
  import opened InMemoryStore
  import opened Fdv2Events

  // The items of a list of collections, one after another.
  function Flatten(data: seq<Collection>): seq<Update> {
    if data == [] then []
    else Flatten(data[..|data| - 1]) + Listed(data[|data| - 1].kind, data[|data| - 1].items)
  }

  function Listed(kind: Kind, items: seq<KeyedItem>): seq<Update> {
    seq(|items|, i requires 0 <= i < |items| => Update(Vertex(kind, items[i].key), items[i].item))
  }

  lemma ListedOneMore(kind: Kind, items: seq<KeyedItem>, j: nat)
    requires j < |items|
    ensures Listed(kind, items[..j + 1]) == Listed(kind, items[..j]) + [Update(Vertex(kind, items[j].key), items[j].item)]
  {
  }

  lemma {:induction false} OneMoreListed(us: seq<Update>, kind: Kind, items: seq<KeyedItem>, j: nat)
    requires j < |items|
    ensures us + Listed(kind, items[..j + 1]) ==
            us + Listed(kind, items[..j]) + [Update(Vertex(kind, items[j].key), items[j].item)]
  {
    ListedOneMore(kind, items, j);
  }

  lemma DeliveredOneMore(d: DataMap, us: seq<Update>, u: Update)
    ensures Delivered(d, us + [u]) == Upserted(Delivered(d, us), u.v, u.item)
  {
  }

  // For each key offered, whether the update last offered for it was accepted.
  function UpdateReport(d: DataMap, us: seq<Update>): map<Kind, map<string, bool>> {
    if us == [] then map[]
    else
      var n := |us| - 1;
      Noted(UpdateReport(d, us[..n]), us[n].v, Accepts(Delivered(d, us[..n]), us[n].v, us[n].item))
  }

  function Noted(report: map<Kind, map<string, bool>>, v: Vertex, updated: bool): map<Kind, map<string, bool>> {
    report[v.kind := (if v.kind in report then report[v.kind] else map[])[v.key := updated]]
  }

  lemma {:induction false} ReportOneMore(d: DataMap, us: seq<Update>, u: Update)
    ensures UpdateReport(d, us + [u]) == Noted(UpdateReport(d, us), u.v, Accepts(Delivered(d, us), u.v, u.item))
  {
    assert (us + [u])[..|us|] == us;
  }

  // A key is reported exactly if it was offered, and as updated exactly if its last item is newer than
  // what was stored and than all that was offered before it.
  ghost predicate TellsLastOffer(
    report: map<Kind, map<string, bool>>, current: Option<ItemDescriptor>, items: seq<ItemDescriptor>, v: Vertex)
  {
    && (v.kind in report && v.key in report[v.kind] <==> items != [])
    && (items != [] ==> (report[v.kind][v.key] <==> NewerThanAll(current, items[..|items| - 1], items[|items| - 1])))
  }

  predicate NewerThanAll(current: Option<ItemDescriptor>, items: seq<ItemDescriptor>, item: ItemDescriptor) {
    && (current.Some? ==> current.value.version < item.version)
    && forall x :: x in items ==> x.version < item.version
  }

  lemma {:induction false} NewerThanNewest(current: Option<ItemDescriptor>, items: seq<ItemDescriptor>, item: ItemDescriptor)
    ensures NewerThanAll(current, items, item) <==>
              var newest := Newest(current, items); newest.Some? ==> newest.value.version < item.version
  {
    NewestIsHighest(current, items);
  }

  lemma NotedElsewhere(
    report: map<Kind, map<string, bool>>, u: Vertex, updated: bool, current: Option<ItemDescriptor>, items: seq<ItemDescriptor>, v: Vertex)
    requires TellsLastOffer(report, current, items, v) && u != v
    ensures TellsLastOffer(Noted(report, u, updated), current, items, v)
  {
  }

  lemma NotedHere(
    report: map<Kind, map<string, bool>>, updated: bool, current: Option<ItemDescriptor>, items: seq<ItemDescriptor>, item: ItemDescriptor, v: Vertex)
    requires updated == NewerThanAll(current, items, item)
    ensures TellsLastOffer(Noted(report, v, updated), current, items + [item], v)
  {
  }

  lemma {:induction false} ReportTellsLastOffer(d: DataMap, us: seq<Update>, v: Vertex)
    ensures TellsLastOffer(UpdateReport(d, us), Lookup(d, v), ItemsFor(us, v), v)
  {
    if us != [] {
      var n := |us| - 1;
      var before, updated := ItemsFor(us[..n], v), Accepts(Delivered(d, us[..n]), us[n].v, us[n].item);
      ReportTellsLastOffer(d, us[..n], v);
      if us[n].v == v {
        DeliveredPerKey(d, us[..n], v);
        NewerThanNewest(Lookup(d, v), before, us[n].item);
        NotedHere(UpdateReport(d, us[..n]), updated, Lookup(d, v), before, us[n].item, v);
      } else {
        assert ItemsFor(us, v) == before;
        NotedElsewhere(UpdateReport(d, us[..n]), us[n].v, updated, Lookup(d, v), before, v);
      }
    }
  }

  // ---------- The memory store ----------

  class MemoryStore {
    var data: DataMap
    var initialized: bool

    constructor ()
      ensures data == map[] && !initialized
    {
      data, initialized := map[], false;
    }

    method SetBasis(allData: seq<Collection>)
      modifies this
      ensures data == Load(allData) && initialized
    {
      data := BuildDataMap(allData);
      initialized := true;
    }

    method ApplyDelta(allData: seq<Collection>) returns (updatedMap: map<Kind, map<string, bool>>)
      modifies this`data
      ensures data == Delivered(old(data), Flatten(allData))
      ensures updatedMap == UpdateReport(old(data), Flatten(allData))
    {
      updatedMap := map[];
      for i := 0 to |allData|
        invariant data == Delivered(old(data), Flatten(allData[..i]))
        invariant updatedMap == UpdateReport(old(data), Flatten(allData[..i]))
      {
        updatedMap := ApplyCollection(allData[i], updatedMap, old(data), Flatten(allData[..i]));
        assert allData[..i + 1][..i] == allData[..i];
      }
      assert allData[..|allData|] == allData;
    }

    // One round of the inner loop of ApplyDelta.
    method ApplyItem(
      kind: Kind, item: KeyedItem, report: map<Kind, map<string, bool>>, ghost start: DataMap, ghost before: seq<Update>,
      ghost after: seq<Update>)
      returns (updatedMap: map<Kind, map<string, bool>>)
      requires data == Delivered(start, before) && report == UpdateReport(start, before)
      requires after == before + [Update(Vertex(kind, item.key), item.item)]
      modifies this`data
      ensures data == Delivered(start, after) && updatedMap == UpdateReport(start, after)
    {
      DeliveredOneMore(start, before, Update(Vertex(kind, item.key), item.item));
      ReportOneMore(start, before, Update(Vertex(kind, item.key), item.item));
      var updated := Upsert(kind, item.key, item.item);
      updatedMap := report;
      if kind !in updatedMap {
        updatedMap := updatedMap[kind := map[]];
      }
      updatedMap := updatedMap[kind := updatedMap[kind][item.key := updated]];
    }

    // The inner loop of ApplyDelta.
    method ApplyCollection(
      coll: Collection, report: map<Kind, map<string, bool>>, ghost start: DataMap, ghost before: seq<Update>)
      returns (updatedMap: map<Kind, map<string, bool>>)
      requires data == Delivered(start, before) && report == UpdateReport(start, before)
      modifies this`data
      ensures data == Delivered(start, before + Listed(coll.kind, coll.items))
      ensures updatedMap == UpdateReport(start, before + Listed(coll.kind, coll.items))
    {
      updatedMap := report;
      ghost var done := before;
      assert before + Listed(coll.kind, coll.items[..0]) == before;
      for j := 0 to |coll.items|
        invariant done == before + Listed(coll.kind, coll.items[..j])
        invariant data == Delivered(start, done) && updatedMap == UpdateReport(start, done)
      {
        ghost var next := before + Listed(coll.kind, coll.items[..j + 1]);
        OneMoreListed(before, coll.kind, coll.items, j);
        updatedMap := ApplyItem(coll.kind, coll.items[j], updatedMap, start, done, next);
        done := next;
      }
      assert coll.items[..|coll.items|] == coll.items;
    }

    method Upsert(kind: Kind, key: string, newItem: ItemDescriptor) returns (updated: bool)
      modifies this`data
      ensures updated == Accepts(old(data), Vertex(kind, key), newItem)
      ensures data == Upserted(old(data), Vertex(kind, key), newItem)
    {
      var shouldUpdate := true;
      updated := false;
      if kind in data {
        if key in data[kind] && data[kind][key].version >= newItem.version {
          shouldUpdate := false;
        }
      } else {
        data := data[kind := map[key := newItem]];
        shouldUpdate := false;
        updated := true;
      }
      if shouldUpdate {
        data := data[kind := data[kind][key := newItem]];
        updated := true;
      }
    }

    method Get(kind: Kind, key: string) returns (item: ItemDescriptor)
      ensures item == Found(data, Vertex(kind, key))
      ensures item == if kind in data && key in data[kind] then data[kind][key] else ItemDescriptor(-1, None)
    {
      if kind in data && key in data[kind] {
        return data[kind][key];
      }
      return NOT_FOUND;
    }

    // All kinds and items, each in any order: loading them gives the contents back.
    method GetAllKinds() returns (allData: seq<Collection>)
      ensures Load(allData) == data && DistinctKinds(allData)
    {
      allData := [];
      var todo := data.Keys;
      while todo != {}
        invariant todo <= data.Keys
        invariant Load(allData) == map k | k in data && k !in todo :: data[k]
        invariant DistinctKinds(allData) && forall c :: c in allData ==> c.kind !in todo
        decreases todo
      {
        var kind :| kind in todo;
        todo := todo - {kind};
        var itemsOut := ListItems(data[kind]);
        ghost var before := allData;
        allData := allData + [Collection(kind, itemsOut)];
        assert allData[..|before|] == before;
      }
    }
  }

  // ---------- Payloads in event order ----------

  lemma {:induction false} ItemsForConcat(us: seq<Update>, more: seq<Update>, v: Vertex)
    ensures ItemsFor(us + more, v) == ItemsFor(us, v) + ItemsFor(more, v)
  {
    if more == [] {
      assert us + more == us;
    } else {
      var n := |more| - 1;
      ItemsForConcat(us, more[..n], v);
      assert (us + more)[..|us| + n] == us + more[..n];
    }
  }

  lemma {:induction false} ItemsForListed(us: seq<Update>, kind: Kind, v: Vertex)
    ensures ItemsFor(Listed(kind, ItemsOfKind(us, kind)), v) == if v.kind == kind then ItemsFor(us, v) else []
  {
    if us != [] {
      var n := |us| - 1;
      var init, items := us[..n], ItemsOfKind(us, kind);
      ItemsForListed(init, kind, v);
      if us[n].v.kind == kind {
        var listed := Listed(kind, items);
        assert listed[..|listed| - 1] == Listed(kind, ItemsOfKind(init, kind));
      } else {
        assert items == ItemsOfKind(init, kind);
      }
    }
  }

  lemma {:induction false} FlattenTwo(c: Collection, c': Collection)
    ensures Flatten([c, c']) == Listed(c.kind, c.items) + Listed(c'.kind, c'.items)
  {
    assert [c, c'][..1] == [c];
    assert [c][..0] == [];
    assert Flatten([c]) == Listed(c.kind, c.items);
  }

  ghost predicate SdkUpdates(us: seq<Update>) {
    forall u :: u in us ==> IsSdkKind(u.v.kind)
  }

  lemma {:induction false} EventsUpdateSdkKinds(events: seq<Event>)
    ensures SdkUpdates(UpdatesOf(events))
  {
    if events != [] {
      EventsUpdateSdkKinds(events[..|events| - 1]);
    }
  }

  // Sorting events into flags and segments does not disturb the order seen by any one vertex.
  lemma {:induction false} GroupedItemsFor(us: seq<Update>, v: Vertex)
    requires SdkUpdates(us)
    ensures ItemsFor(Flatten(Grouped(us)), v) == ItemsFor(us, v)
  {
    var g := Grouped(us);
    FlattenTwo(g[0], g[1]);
    ItemsForConcat(Listed(Features, g[0].items), Listed(Segments, g[1].items), v);
    ItemsForListed(us, Features, v);
    ItemsForListed(us, Segments, v);
    if v.kind.Other? {
      NothingForOtherKinds(us, v);
    }
  }

  // Two sequences that touch the same kinds and bring each vertex to the same item have one result.
  lemma {:induction false} SameResult(d: DataMap, us: seq<Update>, us': seq<Update>)
    requires forall v :: ItemsFor(us, v) == [] <==> ItemsFor(us', v) == []
    requires forall v :: Newest(Lookup(d, v), ItemsFor(us, v)) == Newest(Lookup(d, v), ItemsFor(us', v))
    ensures Delivered(d, us) == Delivered(d, us')
  {
    forall v
      ensures Lookup(Delivered(d, us), v) == Lookup(Delivered(d, us'), v)
    {
      DeliveredPerKey(d, us, v);
      DeliveredPerKey(d, us', v);
    }
    TouchedKinds(us, us');
    TouchedKinds(us', us);
    DeliveredKinds(d, us);
    DeliveredKinds(d, us');
    LookupDetermines(Delivered(d, us), Delivered(d, us'));
  }

  lemma {:induction false} TouchedKinds(us: seq<Update>, us': seq<Update>)
    requires forall v :: ItemsFor(us, v) != [] ==> ItemsFor(us', v) != []
    ensures (set u | u in us :: u.v.kind) <= set u | u in us' :: u.v.kind
  {
    forall u | u in us
      ensures exists u' :: u' in us' && u'.v.kind == u.v.kind
    {
      ItemsForMembers(us, u.v, u.item);
      var x := ItemsFor(us', u.v)[0];
      ItemsForMembers(us', u.v, x);
      assert Update(u.v, x) in us';
    }
  }

  // Applying a delta collection by collection is applying its updates in the order of the events.
  lemma {:induction false} DeltaIsInEventOrder(d: DataMap, us: seq<Update>)
    requires SdkUpdates(us)
    ensures Delivered(d, Flatten(Grouped(us))) == Delivered(d, us)
  {
    forall v
      ensures ItemsFor(Flatten(Grouped(us)), v) == ItemsFor(us, v)
    {
      GroupedItemsFor(us, v);
    }
    SameResult(d, Flatten(Grouped(us)), us);
  }

  lemma {:induction false} LoadItemsOfKind(us: seq<Update>, v: Vertex)
    ensures v.key in LoadItems(ItemsOfKind(us, v.kind)) <==> ItemsFor(us, v) != []
    ensures ItemsFor(us, v) != [] ==>
              v.key in LoadItems(ItemsOfKind(us, v.kind)) &&
              LoadItems(ItemsOfKind(us, v.kind))[v.key] == ItemsFor(us, v)[|ItemsFor(us, v)| - 1]
  {
    if us != [] {
      var n := |us| - 1;
      var init, items := us[..n], ItemsOfKind(us, v.kind);
      LoadItemsOfKind(init, v);
      if us[n].v.kind == v.kind {
        assert items[..|items| - 1] == ItemsOfKind(init, v.kind);
      } else {
        assert items == ItemsOfKind(init, v.kind);
      }
    }
  }

  // A basis leaves each vertex with the item of the last event about it.
  lemma {:induction false} BasisHoldsLast(us: seq<Update>, v: Vertex)
    requires SdkUpdates(us)
    ensures Lookup(Load(Grouped(us)), v) ==
            if ItemsFor(us, v) == [] then None else Some(ItemsFor(us, v)[|ItemsFor(us, v)| - 1])
  {
    var g := Grouped(us);
    assert DistinctKinds(g);
    LoadByMembership(g);
    assert g[0] in g && g[1] in g;
    LoadItemsOfKind(us, v);
    if v.kind.Other? {
      NothingForOtherKinds(us, v);
    }
  }

  // ---------- The order of the mirror ----------

  // Sort puts the segments first, as they were, then the flags, each key once.
  lemma {:induction false} SortedGrouped(us: seq<Update>, sorted: seq<Collection>)
    requires SortResult(Grouped(us), sorted)
    ensures |sorted| == 2 && sorted[0] == Collection(Segments, ItemsOfKind(us, Segments))
    ensures sorted[1].kind == Features
    ensures DependencyOrdered(Features, LoadItems(ItemsOfKind(us, Features)), sorted[1].items)
  {
    var g := Grouped(us);
    var arranged :| AllArranged(g, arranged) && multiset(arranged) == multiset(sorted);
    assert Arranged(g[0], arranged[0]) && Arranged(g[1], arranged[1]);
    SortedTwo(arranged, sorted);
  }

  lemma {:induction false} SortedTwo(cs: seq<Collection>, sorted: seq<Collection>)
    requires |cs| == 2 && cs[0].kind == Features && cs[1].kind == Segments
    requires multiset(cs) == multiset(sorted) && SortedByPriority(sorted)
    ensures sorted == [cs[1], cs[0]]
  {
    assert |multiset(cs)| == 2 && |multiset(sorted)| == |sorted|;
    assert cs == [cs[0], cs[1]] && sorted == [sorted[0], sorted[1]];
    assert sorted[0] in multiset(cs) && sorted[1] in multiset(cs);
    assert cs[0] in multiset(sorted) && cs[1] in multiset(sorted);
    assert DataKindPriority(Segments) == 0 && DataKindPriority(Features) == 1;
  }

  lemma {:induction false} ItemsForDistinct(kind: Kind, items: seq<KeyedItem>, v: Vertex)
    requires DistinctKeys(items)
    ensures ItemsFor(Listed(kind, items), v) ==
            if v.kind == kind && v.key in LoadItems(items) then [LoadItems(items)[v.key]] else []
  {
    if items != [] {
      var n := |items| - 1;
      var listed := Listed(kind, items);
      assert listed[..n] == Listed(kind, items[..n]);
      ItemsForDistinct(kind, items[..n], v);
      LoadItemsKeys(items[..n]);
      assert items[n].key !in KeysOf(items[..n]);
    }
  }

  // What the mirror sees of one vertex: of a flag only the last item, of a segment all of them.
  function Mirrored(items: seq<ItemDescriptor>, kind: Kind): seq<ItemDescriptor> {
    if kind == Features && items != [] then [items[|items| - 1]] else items
  }

  lemma {:induction false} FlagsListed(us: seq<Update>, out: seq<KeyedItem>, v: Vertex)
    requires DistinctKeys(out) && LoadItems(out) == LoadItems(ItemsOfKind(us, Features))
    ensures ItemsFor(Listed(Features, out), v) == if v.kind == Features then Mirrored(ItemsFor(us, v), Features) else []
  {
    ItemsForDistinct(Features, out, v);
    if v.kind == Features {
      LoadItemsOfKind(us, v);
    }
  }

  lemma {:induction false} NothingForOtherKinds(us: seq<Update>, v: Vertex)
    requires SdkUpdates(us) && v.kind.Other?
    ensures ItemsFor(us, v) == []
  {
    if ItemsFor(us, v) != [] {
      ItemsForMembers(us, v, ItemsFor(us, v)[0]);
      assert false;
    }
  }

  lemma {:induction false} MirroredItemsFor(us: seq<Update>, sorted: seq<Collection>, v: Vertex)
    requires SdkUpdates(us) && SortResult(Grouped(us), sorted)
    ensures ItemsFor(Flatten(sorted), v) == Mirrored(ItemsFor(us, v), v.kind)
  {
    SortedGrouped(us, sorted);
    var segments, flags := sorted[0].items, sorted[1].items;
    assert sorted == [sorted[0], sorted[1]];
    FlattenTwo(sorted[0], sorted[1]);
    ItemsForConcat(Listed(Segments, segments), Listed(Features, flags), v);
    ItemsForListed(us, Segments, v);
    FlagsListed(us, flags, v);
    if v.kind.Other? {
      NothingForOtherKinds(us, v);
    }
  }

  // Of the items offered for each flag, the last one is the first of the highest version. Strictly
  // increasing versions of each repeated flag are one way to meet this.
  ghost predicate LastFlagsAreNewest(us: seq<Update>) {
    forall v: Vertex :: v.kind == Features && ItemsFor(us, v) != [] ==>
                  Newest(None, ItemsFor(us, v)) == Some(ItemsFor(us, v)[|ItemsFor(us, v)| - 1])
  }

  ghost predicate Increasing(items: seq<ItemDescriptor>) {
    forall i, j :: 0 <= i < j < |items| ==> items[i].version < items[j].version
  }

  lemma {:induction false} IncreasingEndsNewest(items: seq<ItemDescriptor>)
    requires Increasing(items) && items != []
    ensures Newest(None, items) == Some(items[|items| - 1])
  {
    if |items| > 1 {
      IncreasingEndsNewest(items[..|items| - 1]);
    }
  }

  lemma {:induction false} IncreasingVersionsSuffice(us: seq<Update>)
    requires forall v: Vertex :: v.kind == Features ==> Increasing(ItemsFor(us, v))
    ensures LastFlagsAreNewest(us)
  {
    forall v: Vertex | v.kind == Features && ItemsFor(us, v) != []
      ensures Newest(None, ItemsFor(us, v)) == Some(ItemsFor(us, v)[|ItemsFor(us, v)| - 1])
    {
      IncreasingEndsNewest(ItemsFor(us, v));
    }
  }

  // Offering the first item of the highest version alone has the effect of offering them all.
  lemma {:induction false} NewestAlone(current: Option<ItemDescriptor>, items: seq<ItemDescriptor>)
    requires items != []
    ensures Newest(None, items).Some?
    ensures Newest(current, items) == Newer(current, Newest(None, items).value)
  {
    if |items| > 1 {
      NewestAlone(current, items[..|items| - 1]);
    }
  }

  // Whatever both stores held before, the mirror ends up as the memory store does.
  ghost predicate MirrorsAlways(us: seq<Update>, sorted: seq<Collection>) {
    forall d :: Delivered(d, Flatten(sorted)) == Delivered(d, us)
  }

  // That is so exactly when the last item offered for each flag is the newest.
  lemma {:induction false} MirrorAgreesExactlyWhen(us: seq<Update>, sorted: seq<Collection>)
    requires SdkUpdates(us) && SortResult(Grouped(us), sorted)
    ensures MirrorsAlways(us, sorted) <==> LastFlagsAreNewest(us)
  {
    if LastFlagsAreNewest(us) {
      forall d
        ensures Delivered(d, Flatten(sorted)) == Delivered(d, us)
      {
        MirrorAgrees(d, us, sorted);
      }
    }
    if MirrorsAlways(us, sorted) {
      forall v: Vertex | v.kind == Features && ItemsFor(us, v) != []
        ensures Newest(None, ItemsFor(us, v)) == Some(ItemsFor(us, v)[|ItemsFor(us, v)| - 1])
      {
        MirroredFromNothing(us, sorted, v);
      }
    }
  }

  lemma {:induction false} MirroredFromNothing(us: seq<Update>, sorted: seq<Collection>, v: Vertex)
    requires SdkUpdates(us) && SortResult(Grouped(us), sorted) && v.kind == Features && ItemsFor(us, v) != []
    requires Delivered(map[], Flatten(sorted)) == Delivered(map[], us)
    ensures Newest(None, ItemsFor(us, v)) == Some(ItemsFor(us, v)[|ItemsFor(us, v)| - 1])
  {
    var d: DataMap := map[];
    var last := ItemsFor(us, v)[|ItemsFor(us, v)| - 1];
    DeliveredPerKey(d, us, v);
    DeliveredPerKey(d, Flatten(sorted), v);
    MirroredItemsFor(us, sorted, v);
    NewestAlone(None, [last]);
    assert Newest(None, [last]) == Some(last);
  }

  lemma {:induction false} MirrorAgrees(d: DataMap, us: seq<Update>, sorted: seq<Collection>)
    requires SdkUpdates(us) && SortResult(Grouped(us), sorted) && LastFlagsAreNewest(us)
    ensures Delivered(d, Flatten(sorted)) == Delivered(d, us)
  {
    forall v
      ensures ItemsFor(Flatten(sorted), v) == [] <==> ItemsFor(us, v) == []
      ensures Newest(Lookup(d, v), ItemsFor(Flatten(sorted), v)) == Newest(Lookup(d, v), ItemsFor(us, v))
    {
      MirroredItemsFor(us, sorted, v);
      var items := ItemsFor(us, v);
      if v.kind == Features && items != [] {
        NewestAlone(Lookup(d, v), items);
        NewestAlone(Lookup(d, v), [items[|items| - 1]]);
        assert Newest(None, [items[|items| - 1]]) == Some(items[|items| - 1]);
      }
    }
    SameResult(d, Flatten(sorted), us);
  }
}
