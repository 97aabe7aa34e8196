/**
 internal/datastore/in_memory_data_store_impl.go: the versioned map every other store is measured
 against, and why the order in which versioned updates arrive does not matter to it.
 */
module InMemoryStore {
  import opened DataModel

  // The update is newer than whatever is stored.
  predicate Accepts(d: DataMap, v: Vertex, item: ItemDescriptor) {
    match Lookup(d, v)
    case Some(stored) => stored.version < item.version
    case None => true
  }

  function Put(d: DataMap, v: Vertex, item: ItemDescriptor): DataMap {
    d[v.kind := ItemsOf(d, v.kind)[v.key := item]]
  }

  function Upserted(d: DataMap, v: Vertex, item: ItemDescriptor): DataMap {
    if Accepts(d, v, item) then Put(d, v, item) else d
  }

  function Found(d: DataMap, v: Vertex): ItemDescriptor {
    match Lookup(d, v)
    case Some(item) => item
    case None => NOT_FOUND
  }

  class InMemoryDataStore {
    var allData: DataMap
    var isInitialized: bool

    constructor ()
      ensures allData == map[] && !isInitialized
    {
      allData, isInitialized := map[], false;
    }

    method Init(data: seq<Collection>)
      modifies this
      ensures allData == Load(data) && isInitialized
    {
      allData := BuildDataMap(data);
      isInitialized := true;
    }

    method Get(kind: Kind, key: string) returns (item: ItemDescriptor)
      ensures item == Found(allData, Vertex(kind, key))
      ensures item == if kind in allData && key in allData[kind] then allData[kind][key] else ItemDescriptor(-1, None)
    {
      if kind in allData {
        var coll := allData[kind];
        if key in coll {
          return coll[key];
        }
      }
      return NOT_FOUND;
    }

    // The items come in any order.
    method GetAll(kind: Kind) returns (itemsOut: seq<KeyedItem>)
      ensures LoadItems(itemsOut) == ItemsOf(allData, kind) && DistinctKeys(itemsOut)
      ensures forall x :: x in itemsOut <==> kind in allData && x.key in allData[kind] && x.item == allData[kind][x.key]
    {
      itemsOut := [];
      if kind in allData {
        itemsOut := ListItems(allData[kind]);
        LoadItemsDistinct(itemsOut);
        assert forall key :: key in KeysOf(itemsOut) <==> key in allData[kind];
      }
    }

    method Upsert(kind: Kind, key: string, newItem: ItemDescriptor) returns (updated: bool)
      modifies this`allData
      ensures updated == Accepts(old(allData), Vertex(kind, key), newItem)
      ensures updated <==> !(kind in old(allData) && key in old(allData)[kind] && old(allData)[kind][key].version >= newItem.version)
      ensures updated ==> kind in allData && key in allData[kind] && allData[kind][key] == newItem
      ensures allData == Upserted(old(allData), Vertex(kind, key), newItem)
    {
      var shouldUpdate := true;
      updated := false;
      if kind in allData {
        if key in allData[kind] && allData[kind][key].version >= newItem.version {
          shouldUpdate := false;
        }
      } else {
        allData := allData[kind := map[key := newItem]];
        shouldUpdate := false;
        updated := true;
      }
      if shouldUpdate {
        allData := allData[kind := allData[kind][key := newItem]];
        updated := true;
      }
    }
  }

  // Ranging over a Go map: each entry once, in any order.
  method ListItems(items: ItemMap) returns (list: seq<KeyedItem>)
    ensures LoadItems(list) == items && DistinctKeys(list)
  {
    list := [];
    var todo := items.Keys;
    ghost var listed: ItemMap := map[];
    while todo != {}
      invariant todo <= items.Keys
      invariant listed == map k | k in items && k !in todo :: items[k]
      invariant LoadItems(list) == listed && KeysOf(list) == listed.Keys && DistinctKeys(list)
    {
      var k :| k in todo;
      todo := todo - {k};
      ListOneMore(list, k, items[k]);
      list := list + [KeyedItem(k, items[k])];
      listed := listed[k := items[k]];
    }
  }

  lemma ListOneMore(list: seq<KeyedItem>, k: string, item: ItemDescriptor)
    requires DistinctKeys(list) && k !in KeysOf(list)
    ensures LoadItems(list + [KeyedItem(k, item)]) == LoadItems(list)[k := item]
    ensures KeysOf(list + [KeyedItem(k, item)]) == KeysOf(list) + {k}
    ensures DistinctKeys(list + [KeyedItem(k, item)])
  {
  }

  // ---------- Sequences of updates ----------

  datatype Update = Update(v: Vertex, item: ItemDescriptor)

  function Delivered(d: DataMap, us: seq<Update>): DataMap {
    if us == [] then d
    else
      var last := us[|us| - 1];
      Upserted(Delivered(d, us[..|us| - 1]), last.v, last.item)
  }

  // The items that a sequence of updates offers for one vertex, in order.
  function ItemsFor(us: seq<Update>, v: Vertex): seq<ItemDescriptor> {
    if us == [] then []
    else
      var last := us[|us| - 1];
      ItemsFor(us[..|us| - 1], v) + if last.v == v then [last.item] else []
  }

  function Newer(current: Option<ItemDescriptor>, item: ItemDescriptor): Option<ItemDescriptor> {
    if current.Some? && current.value.version >= item.version then current else Some(item)
  }

  // The first of the items with the highest version, counting the current one as the very first.
  function Newest(current: Option<ItemDescriptor>, items: seq<ItemDescriptor>): Option<ItemDescriptor> {
    if items == [] then current else Newer(Newest(current, items[..|items| - 1]), items[|items| - 1])
  }

  lemma UpsertedLookup(d: DataMap, u: Vertex, item: ItemDescriptor, v: Vertex)
    ensures Lookup(Upserted(d, u, item), v) == if u == v then Newer(Lookup(d, v), item) else Lookup(d, v)
  {
  }

  // Keys do not interfere: each vertex sees only the updates addressed to it.
  lemma {:induction false} DeliveredPerKey(d: DataMap, us: seq<Update>, v: Vertex)
    ensures Lookup(Delivered(d, us), v) == Newest(Lookup(d, v), ItemsFor(us, v))
  {
    if us != [] {
      var n := |us| - 1;
      DeliveredPerKey(d, us[..n], v);
      UpsertedLookup(Delivered(d, us[..n]), us[n].v, us[n].item, v);
      if us[n].v == v {
        assert ItemsFor(us, v)[..|ItemsFor(us[..n], v)|] == ItemsFor(us[..n], v);
      } else {
        assert ItemsFor(us, v) == ItemsFor(us[..n], v);
      }
    }
  }

  lemma {:induction false} ItemsForMembers(us: seq<Update>, v: Vertex, item: ItemDescriptor)
    ensures item in ItemsFor(us, v) <==> Update(v, item) in us
  {
    if us != [] {
      var n := |us| - 1;
      ItemsForMembers(us[..n], v, item);
      assert us == us[..n] + [us[n]];
    }
  }

  lemma {:induction false} DeliveredKinds(d: DataMap, us: seq<Update>)
    ensures Delivered(d, us).Keys == d.Keys + set u | u in us :: u.v.kind
  {
    if us != [] {
      var n := |us| - 1;
      DeliveredKinds(d, us[..n]);
      assert us == us[..n] + [us[n]];
    }
  }

  // r is the first candidate of the highest version; the current item, if any, is the first candidate.
  ghost predicate IsNewest(current: Option<ItemDescriptor>, items: seq<ItemDescriptor>, r: Option<ItemDescriptor>) {
    && (r.None? <==> current.None? && items == [])
    && (r.Some? ==>
          && (r == current || r.value in items)
          && (forall x :: x in items ==> x.version <= r.value.version)
          && (current.Some? ==> current.value.version <= r.value.version)
          && (current.Some? && current.value.version == r.value.version ==> r == current))
  }

  lemma NewerIsNewest(current: Option<ItemDescriptor>, items: seq<ItemDescriptor>, r: Option<ItemDescriptor>, x: ItemDescriptor)
    requires IsNewest(current, items, r)
    ensures IsNewest(current, items + [x], Newer(r, x))
  {
  }

  lemma {:induction false} NewestIsHighest(current: Option<ItemDescriptor>, items: seq<ItemDescriptor>)
    ensures IsNewest(current, items, Newest(current, items))
  {
    if items != [] {
      var n := |items| - 1;
      NewestIsHighest(current, items[..n]);
      assert items == items[..n] + [items[n]];
      NewerIsNewest(current, items[..n], Newest(current, items[..n]), items[n]);
    }
  }

  // ---------- Convergence ----------

  ghost predicate SameUpdates(us: seq<Update>, us': seq<Update>) {
    forall u :: u in us <==> u in us'
  }

  // u is newer than what is stored for its vertex, and nothing offered is newer than u.
  ghost predicate Wins(d: DataMap, us: seq<Update>, u: Update) {
    && u in us
    && Accepts(d, u.v, u.item)
    && forall w :: w in us && w.v == u.v ==> w.item.version <= u.item.version
  }

  // Winning updates of one vertex carry the same item. This follows when equal versions of a
  // vertex always mean equal items.
  ghost predicate WinnersAgree(d: DataMap, us: seq<Update>) {
    forall u, u' :: Wins(d, us, u) && Wins(d, us, u') && u.v == u'.v ==> u.item == u'.item
  }

  lemma EqualVersionsEqualItems(d: DataMap, us: seq<Update>)
    requires forall u, u' :: u in us && u' in us && u.v == u'.v && u.item.version == u'.item.version ==> u.item == u'.item
    ensures WinnersAgree(d, us)
  {
  }

  // A delivered store holds, for each vertex, the stored item if nothing newer was offered and
  // otherwise a winning one.
  lemma {:induction false} DeliveredHoldsWinner(d: DataMap, us: seq<Update>, v: Vertex)
    ensures (forall u :: u in us && u.v == v ==> !Accepts(d, v, u.item)) ==>
              Lookup(Delivered(d, us), v) == Lookup(d, v)
    ensures (exists u :: u in us && u.v == v && Accepts(d, v, u.item)) ==>
              Lookup(Delivered(d, us), v).Some? && Wins(d, us, Update(v, Lookup(Delivered(d, us), v).value))
  {
    var items := ItemsFor(us, v);
    DeliveredPerKey(d, us, v);
    NewestIsHighest(Lookup(d, v), items);
    forall item
      ensures item in items <==> Update(v, item) in us
    {
      ItemsForMembers(us, v, item);
    }
    if u :| u in us && u.v == v && Accepts(d, v, u.item) {
      assert u == Update(v, u.item) && u.item in items;
      forall w | w in us && w.v == v
        ensures w.item in items
      {
        assert w == Update(v, w.item);
      }
    } else {
      forall item | item in items
        ensures !Accepts(d, v, item)
      {
        assert Update(v, item) in us;
      }
    }
  }

  lemma SameUpdatesSameWinners(d: DataMap, us: seq<Update>, us': seq<Update>, u: Update)
    requires SameUpdates(us, us')
    ensures Wins(d, us, u) <==> Wins(d, us', u)
  {
  }

  lemma {:induction false} DeliveriesAgreeAt(d: DataMap, us: seq<Update>, us': seq<Update>, v: Vertex)
    requires SameUpdates(us, us') && WinnersAgree(d, us)
    ensures Lookup(Delivered(d, us), v) == Lookup(Delivered(d, us'), v)
  {
    DeliveredHoldsWinner(d, us, v);
    DeliveredHoldsWinner(d, us', v);
    if exists u :: u in us && u.v == v && Accepts(d, v, u.item) {
      var u' := Update(v, Lookup(Delivered(d, us'), v).value);
      SameUpdatesSameWinners(d, us, us', u');
    }
  }

  lemma {:induction false} LookupDetermines(d: DataMap, d': DataMap)
    requires d.Keys == d'.Keys && forall v :: Lookup(d, v) == Lookup(d', v)
    ensures d == d'
  {
    forall k | k in d
      ensures d[k] == d'[k]
    {
      forall key
        ensures key in d[k] <==> key in d'[k]
        ensures key in d[k] && key in d'[k] ==> d[k][key] == d'[k][key]
      {
        assert Lookup(d, Vertex(k, key)) == Lookup(d', Vertex(k, key));
      }
    }
  }

  // Every delivery of the same updates, reordered and repeated at will, ends in the same store.
  ghost predicate Converges(d: DataMap, us: seq<Update>) {
    forall us' :: SameUpdates(us, us') ==> Delivered(d, us') == Delivered(d, us)
  }

  // The order and number of deliveries is irrelevant exactly when winning updates of one vertex
  // carry the same item.
  lemma {:induction false} DeliveryConverges(d: DataMap, us: seq<Update>)
    ensures Converges(d, us) <==> WinnersAgree(d, us)
  {
    if WinnersAgree(d, us) {
      forall us' | SameUpdates(us, us')
        ensures Delivered(d, us') == Delivered(d, us)
      {
        DeliveriesAgree(d, us, us');
      }
    }
    if Converges(d, us) {
      forall u, u' | Wins(d, us, u) && Wins(d, us, u') && u.v == u'.v
        ensures u.item == u'.item
      {
        WinnersOfConvergent(d, us, u, u');
      }
    }
  }

  lemma {:induction false} WinnersOfConvergent(d: DataMap, us: seq<Update>, u: Update, u': Update)
    requires Converges(d, us) && Wins(d, us, u) && Wins(d, us, u') && u.v == u'.v
    ensures u.item == u'.item
  {
    FirstWinnerStays(d, us, u);
    FirstWinnerStays(d, us, u');
    assert SameUpdates(us, [u] + us) && SameUpdates(us, [u'] + us);
    assert Delivered(d, [u] + us) == Delivered(d, [u'] + us);
  }

  lemma {:induction false} DeliveriesAgree(d: DataMap, us: seq<Update>, us': seq<Update>)
    requires SameUpdates(us, us') && WinnersAgree(d, us)
    ensures Delivered(d, us') == Delivered(d, us)
  {
    forall v
      ensures Lookup(Delivered(d, us), v) == Lookup(Delivered(d, us'), v)
    {
      DeliveriesAgreeAt(d, us, us', v);
    }
    DeliveredKinds(d, us);
    DeliveredKinds(d, us');
    LookupDetermines(Delivered(d, us), Delivered(d, us'));
  }

  lemma {:induction false} FirstOfHighest(current: Option<ItemDescriptor>, first: ItemDescriptor, items: seq<ItemDescriptor>)
    requires current.Some? ==> current.value.version < first.version
    requires forall x :: x in items ==> x.version <= first.version
    ensures Newest(current, [first] + items) == Some(first)
  {
    if items == [] {
      assert [first] + items == [first];
    } else {
      var n := |items| - 1;
      FirstOfHighest(current, first, items[..n]);
      assert ([first] + items)[..n + 1] == [first] + items[..n];
    }
  }

  lemma {:induction false} ItemsForPrepended(u: Update, us: seq<Update>)
    ensures ItemsFor([u] + us, u.v) == [u.item] + ItemsFor(us, u.v)
  {
    if us == [] {
      assert [u] + us == [u];
    } else {
      var n := |us| - 1;
      ItemsForPrepended(u, us[..n]);
      assert ([u] + us)[..n + 1] == [u] + us[..n];
    }
  }

  lemma {:induction false} FirstWinnerStays(d: DataMap, us: seq<Update>, u: Update)
    requires Wins(d, us, u)
    ensures Lookup(Delivered(d, [u] + us), u.v) == Some(u.item)
  {
    DeliveredPerKey(d, [u] + us, u.v);
    ItemsForPrepended(u, us);
    forall x | x in ItemsFor(us, u.v)
      ensures x.version <= u.item.version
    {
      ItemsForMembers(us, u.v, x);
    }
    FirstOfHighest(Lookup(d, u.v), u.item, ItemsFor(us, u.v));
  }

  // A stored item, tombstone or not, is never replaced by updates that are not newer.
  lemma {:induction false} OlderUpdatesNeverUndo(d: DataMap, us: seq<Update>, v: Vertex)
    requires Lookup(d, v).Some?
    requires forall u :: u in us && u.v == v ==> u.item.version <= Lookup(d, v).value.version
    ensures Lookup(Delivered(d, us), v) == Lookup(d, v)
  {
    DeliveredHoldsWinner(d, us, v);
  }
}
