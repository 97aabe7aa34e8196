/**
 internal/datastore/persistent_data_store_wrapper.go: a cache of single items and a cache of whole
 collections over a persistent store that may fail. Each `fault` parameter says whether the next call
 into that store fails; a failing call leaves the store as it was.
 */
module PersistentWrapper {
  import opened DataModel
  import opened InMemoryStore
  import opened StorePoller

  // ---------- Serialized form ----------

  // bytes is None where the store gives, or the kind makes, no bytes.
  datatype SerializedItem = SerializedItem(version: int, deleted: bool, bytes: Option<string>)

  const SERIALIZED_NOT_FOUND := SerializedItem(-1, false, None)

  // The kinds' own serialization; None stands for an error.
  datatype Codec = Codec(
    marshal: (Kind, ItemDescriptor) -> Option<string>,
    unmarshal: (Kind, string) -> Option<ItemDescriptor>)

  function Serialize(codec: Codec, kind: Kind, item: ItemDescriptor): SerializedItem {
    SerializedItem(item.version, item.item.None?, codec.marshal(kind, item))
  }

  function Deserialize(codec: Codec, kind: Kind, s: SerializedItem): Option<ItemDescriptor> {
    if s.deleted || s.bytes.None? then Some(ItemDescriptor(s.version, None))
    else
      match codec.unmarshal(kind, s.bytes.value)
      case None => None
      case Some(d) =>
        if s.version == 0 || s.version == d.version then Some(d)
        else Some(ItemDescriptor(s.version, d.item))
  }

  // Only a live item whose bytes the kind cannot read is an error. A tombstone, or an item without bytes,
  // has its stored version; a live item has the stored version too, or that of its bytes where it is 0.
  lemma DeserializeExactly(codec: Codec, kind: Kind, s: SerializedItem)
    ensures Deserialize(codec, kind, s).None? <==>
              !s.deleted && s.bytes.Some? && codec.unmarshal(kind, s.bytes.value).None?
    ensures s.deleted || s.bytes.None? ==> Deserialize(codec, kind, s) == Some(ItemDescriptor(s.version, None))
    ensures !s.deleted && s.bytes.Some? && codec.unmarshal(kind, s.bytes.value).Some? ==>
              var d, read := Deserialize(codec, kind, s).value, codec.unmarshal(kind, s.bytes.value).value;
              d.item == read.item && d.version == if s.version == 0 then read.version else s.version
  {
  }

  // The kind's serialization gives the item's content back, and for version 0 the version too.
  predicate SurvivesCodec(codec: Codec, kind: Kind, item: ItemDescriptor) {
    item.item.None? ||
    match codec.marshal(kind, item)
    case None => false
    case Some(bytes) =>
      var d := codec.unmarshal(kind, bytes);
      d.Some? && d.value.item == item.item && (item.version == 0 ==> d.value.version == 0)
  }

  // Storing and reading back gives the same item exactly when the kind's serialization does so.
  lemma RoundTripExactlyWhen(codec: Codec, kind: Kind, item: ItemDescriptor)
    ensures Deserialize(codec, kind, Serialize(codec, kind, item)) == Some(item) <==> SurvivesCodec(codec, kind, item)
  {
  }

  // ---------- The underlying store ----------

  type Contents = map<Vertex, SerializedItem>

  function SerializedAll(codec: Codec, m: map<Vertex, ItemDescriptor>): Contents {
    map v | v in m :: Serialize(codec, v.kind, m[v])
  }

  lemma {:induction false} SerializedOneMore(
    codec: Codec, m: map<Vertex, ItemDescriptor>, kind: Kind, items: seq<KeyedItem>, j: nat)
    requires j < |items|
    ensures SerializedAll(codec, MergedItems(m, kind, items[..j + 1])) ==
            SerializedAll(codec, MergedItems(m, kind, items[..j]))[Vertex(kind, items[j].key) := Serialize(codec, kind, items[j].item)]
  {
    assert items[..j + 1][..j] == items[..j];
  }

  function StoredAt(c: Contents, v: Vertex): SerializedItem {
    if v in c then c[v] else SERIALIZED_NOT_FOUND
  }

  function VerticesOfKind(c: Contents, kind: Kind): set<Vertex> {
    set v | v in c && v.kind == kind
  }

  class PersistentCore {
    var data: Contents

    // The items of the serialized collections, each under its kind and key, replace everything.
    method Init(newData: Contents, fault: bool) returns (err: bool)
      modifies this
      ensures err == fault && data == if fault then old(data) else newData
    {
      if fault {
        return true;
      }
      data := newData;
      return false;
    }

    method Get(v: Vertex, fault: bool) returns (err: bool, item: SerializedItem)
      ensures err == fault && (!err ==> item == StoredAt(data, v))
    {
      return fault, if v in data then data[v] else SERIALIZED_NOT_FOUND;
    }

    // The vertices stored for the kind, in any order; their items are read with them.
    method GetAll(kind: Kind, fault: bool) returns (err: bool, items: seq<(Vertex, SerializedItem)>)
      ensures err == fault
      ensures !err ==>
                && (forall x :: x in items ==> x.0 in data && x.0.kind == kind && x.1 == data[x.0])
                && (forall v :: v in data && v.kind == kind ==> (v, data[v]) in items)
    {
      err, items := fault, [];
      if !fault {
        var todo := VerticesOfKind(data, kind);
        while todo != {}
          invariant todo <= VerticesOfKind(data, kind)
          invariant forall x :: x in items ==> x.0 in data && x.0.kind == kind && x.1 == data[x.0]
          invariant forall v :: v in data && v.kind == kind && v !in todo ==> (v, data[v]) in items
          decreases todo
        {
          var v :| v in todo;
          todo := todo - {v};
          items := items + [(v, data[v])];
        }
      }
    }

    method Upsert(v: Vertex, item: SerializedItem, fault: bool) returns (err: bool, updated: bool)
      modifies this
      ensures err == fault && updated == (!fault && CoreAccepts(old(data), v, item.version))
      ensures data == if updated then old(data)[v := item] else old(data)
    {
      err, updated := fault, false;
      if !fault && (v !in data || data[v].version < item.version) {
        data := data[v := item];
        updated := true;
      }
    }
  }

  predicate CoreAccepts(c: Contents, v: Vertex, version: int) {
    v in c ==> c[v].version < version
  }

  // ---------- What an operation does ----------

  datatype Mode = NoCache | Expiring | Infinite

  // items and lists are the two caches; both stay empty without a cache.
  datatype WrapperState = WrapperState(
    core: Contents, items: map<Vertex, ItemDescriptor>, lists: map<Kind, ItemMap>, inited: bool)

  datatype Reply =
    | Failed
    | Stored
    | Upserted(updated: bool)
    | GotItem(item: ItemDescriptor)
    | GotAll(all: ItemMap)
    | Polled(available: bool)

  function ItemInCore(codec: Codec, core: Contents, v: Vertex): Option<ItemDescriptor> {
    Deserialize(codec, v.kind, StoredAt(core, v))
  }

  // All items of the kind, or None if one of them cannot be deserialized.
  function AllInCore(codec: Codec, core: Contents, kind: Kind): Option<ItemMap> {
    if exists v :: v in core && v.kind == kind && ItemInCore(codec, core, v).None? then None
    else Some(DecodedOfKind(codec, core, kind))
  }

  function DecodedOfKind(codec: Codec, core: Contents, kind: Kind): ItemMap
    requires forall v :: v in core && v.kind == kind ==> ItemInCore(codec, core, v).Some?
  {
    map v | v in core && v.kind == kind :: v.key := ItemInCore(codec, core, v).value
  }

  function Flushed(s: WrapperState): WrapperState {
    s.(items := map[], lists := map[])
  }

  function DoInit(codec: Codec, mode: Mode, s: WrapperState, data: seq<Collection>, fault: bool): (WrapperState, Reply) {
    var s1 := if fault then Flushed(s) else Flushed(s).(core := SerializedAll(codec, Merged(data)));
    if fault && mode != Infinite then (s1, Failed)
    else
      var s2 := if mode == NoCache then s1 else s1.(items := Merged(data), lists := Load(data));
      (s2.(inited := true), if fault then Failed else Stored)
  }

  function DoGet(codec: Codec, mode: Mode, s: WrapperState, v: Vertex, fault: bool): (WrapperState, Reply) {
    if v in s.items then (s, GotItem(s.items[v]))
    else if fault then (s, Failed)
    else
      match ItemInCore(codec, s.core, v)
      case None => (s, Failed)
      case Some(item) => (if mode == NoCache then s else s.(items := s.items[v := item]), GotItem(item))
  }

  function DoGetAll(codec: Codec, mode: Mode, s: WrapperState, kind: Kind, fault: bool): (WrapperState, Reply) {
    if kind in s.lists then (s, GotAll(s.lists[kind]))
    else if fault then (s, Failed)
    else
      match AllInCore(codec, s.core, kind)
      case None => (s, Failed)
      case Some(all) => (if mode == NoCache then s else s.(lists := s.lists[kind := all]), GotAll(all))
  }

  function ListOf(s: WrapperState, kind: Kind): ItemMap {
    if kind in s.lists then s.lists[kind] else map[]
  }

  // refault: whether the query that follows a refused update fails.
  function DoUpsert(
    codec: Codec, mode: Mode, s: WrapperState, v: Vertex, item: ItemDescriptor, fault: bool, refault: bool)
    : (WrapperState, Reply)
  {
    if fault then
      if mode != Infinite then (s, Failed)
      else
        // The cache takes the item whatever its version.
        (s.(items := s.items[v := item], lists := s.lists[v.kind := ListOf(s, v.kind)[v.key := item]]), Failed)
    else if CoreAccepts(s.core, v, item.version) then
      var s1 := s.(core := s.core[v := Serialize(codec, v.kind, item)]);
      var s2 :=
        match mode
        case NoCache => s1
        case Expiring => s1.(items := s.items[v := item], lists := s.lists - {v.kind})
        case Infinite =>
          s1.(items := s.items[v := item],
              lists := if v.kind in s.lists then s.lists[v.kind := s.lists[v.kind][v.key := item]] else s.lists);
      (s2, Upserted(true))
    else if mode == NoCache then (s, Upserted(false))
    else
      (DoGet(codec, mode, s.(items := s.items - {v}, lists := s.lists - {v.kind}), v, refault).0, Upserted(false))
  }

  // An update the store accepts is answered true and cached; in infinite mode it also goes into the
  // kind's list if there is one, in expiring mode the list is dropped.
  lemma AcceptedUpdate(
    codec: Codec, mode: Mode, s: WrapperState, v: Vertex, item: ItemDescriptor, refault: bool, s': WrapperState, reply: Reply)
    requires (s', reply) == DoUpsert(codec, mode, s, v, item, false, refault)
    requires v !in s.core || s.core[v].version < item.version
    ensures reply == Upserted(true) && s'.core == s.core[v := Serialize(codec, v.kind, item)]
    ensures s'.items == if mode == NoCache then s.items else s.items[v := item]
    ensures mode == NoCache ==> s'.lists == s.lists
    ensures mode == Expiring ==> s'.lists == s.lists - {v.kind}
    ensures mode == Infinite && v.kind !in s.lists ==> s'.lists == s.lists
    ensures mode == Infinite && v.kind in s.lists ==> s'.lists == s.lists[v.kind := s.lists[v.kind][v.key := item]]
  {
  }

  // One it refuses is answered false; what was cached of the item and its kind gives way to what the
  // store holds of the item.
  lemma RefusedUpdate(
    codec: Codec, mode: Mode, s: WrapperState, v: Vertex, item: ItemDescriptor, refault: bool, s': WrapperState, reply: Reply)
    requires (s', reply) == DoUpsert(codec, mode, s, v, item, false, refault)
    requires v in s.core && s.core[v].version >= item.version
    ensures reply == Upserted(false) && s'.core == s.core
    ensures mode == NoCache ==> s' == s
    ensures mode != NoCache ==> s'.lists == s.lists - {v.kind} && s'.items - {v} == s.items - {v}
    ensures mode != NoCache ==> (v in s'.items <==> !refault && ItemInCore(codec, s.core, v).Some?)
    ensures mode != NoCache && v in s'.items ==> Some(s'.items[v]) == ItemInCore(codec, s.core, v)
  {
  }

  // One that fails is answered with an error and changes no more than the caches, and them only in
  // infinite mode, where they take the item whatever its version.
  lemma FailedUpdate(
    codec: Codec, mode: Mode, s: WrapperState, v: Vertex, item: ItemDescriptor, refault: bool, s': WrapperState, reply: Reply)
    requires (s', reply) == DoUpsert(codec, mode, s, v, item, true, refault)
    ensures reply == Failed && s'.core == s.core
    ensures mode != Infinite ==> s' == s
    ensures mode == Infinite ==>
              && s'.items == s.items[v := item]
              && s'.lists == s.lists[v.kind := (if v.kind in s.lists then s.lists[v.kind] else map[])[v.key := item]]
  {
  }

  // The update fails, or the query that follows a refused one does.
  predicate UpsertMeetsFailure(
    codec: Codec, mode: Mode, s: WrapperState, v: Vertex, item: ItemDescriptor, fault: bool, refault: bool)
  {
    fault
    || (!CoreAccepts(s.core, v, item.version) && mode != NoCache &&
        DoGet(codec, mode, s.(items := s.items - {v}, lists := s.lists - {v.kind}), v, refault).1 == Failed)
  }

  // The cached collections of the kinds the SDK uses.
  function CachedData(lists: map<Kind, ItemMap>): map<Vertex, ItemDescriptor> {
    CachedOfKinds(lists, ALL_DATA_KINDS)
  }

  function CachedOfKinds(lists: map<Kind, ItemMap>, kinds: seq<Kind>): map<Vertex, ItemDescriptor> {
    map kind, key | kind in kinds && kind in lists && key in lists[kind] :: Vertex(kind, key) := lists[kind][key]
  }

  // One recovery poll. In infinite mode the store is overwritten from the cache, and the poll counts
  // as successful even if that write fails.
  function DoPoll(codec: Codec, mode: Mode, s: WrapperState, available: bool, fault: bool): (WrapperState, Reply) {
    if available && mode == Infinite && !fault then
      (s.(core := SerializedAll(codec, CachedData(s.lists))), Polled(true))
    else (s, Polled(available))
  }

  // ---------- Cache keys ----------

  // Kinds whose cache keys cannot be mistaken for another's.
  predicate ProperKind(kind: Kind) {
    kind.Other? ==> ':' !in kind.name && kind.name !in {"all", "features", "segments"}
  }

  function ItemKey(v: Vertex): string {
    v.kind.Name() + ":" + v.key
  }

  function AllItemsKey(kind: Kind): string {
    "all:" + kind.Name()
  }

  lemma {:induction false} SplitAtColon(a: string, k: string, b: string, l: string)
    requires ':' !in a && ':' !in b && a + ":" + k == b + ":" + l
    ensures a == b && k == l
  {
    var s := a + ":" + k;
    assert s[|a|] == ':' && s[|b|] == ':';
    assert |a| == |b|;
    assert a == s[..|a|] && b == s[..|b|];
    assert k == s[|a| + 1..] && l == s[|b| + 1..];
  }

  lemma ProperNames(kind: Kind)
    requires ProperKind(kind)
    ensures ':' !in kind.Name() && kind.Name() != "all"
    ensures forall kind' :: ProperKind(kind') && kind'.Name() == kind.Name() ==> kind' == kind
  {
  }

  lemma {:induction false} ItemKeysDiffer(v: Vertex, u: Vertex)
    requires ProperKind(v.kind) && ProperKind(u.kind) && ItemKey(v) == ItemKey(u)
    ensures v == u
  {
    ProperNames(v.kind);
    ProperNames(u.kind);
    SplitAtColon(v.kind.Name(), v.key, u.kind.Name(), u.key);
  }

  lemma {:induction false} ItemAndListKeysDiffer(v: Vertex, kind: Kind)
    requires ProperKind(v.kind)
    ensures ItemKey(v) != AllItemsKey(kind)
  {
    ProperNames(v.kind);
    if ItemKey(v) == AllItemsKey(kind) {
      assert "all:" + kind.Name() == "all" + ":" + kind.Name();
      SplitAtColon(v.kind.Name(), v.key, "all", kind.Name());
    }
  }

  lemma {:induction false} ListKeysDiffer(kind: Kind, kind': Kind)
    requires ProperKind(kind) && ProperKind(kind') && AllItemsKey(kind) == AllItemsKey(kind')
    ensures kind == kind'
  {
    ProperNames(kind);
    assert kind.Name() == AllItemsKey(kind)[4..];
    assert kind'.Name() == AllItemsKey(kind')[4..];
  }

  // ---------- The concrete cache ----------

  datatype Entry = ItemEntry(item: ItemDescriptor) | ListEntry(items: seq<KeyedItem>)

  // The cache under its string keys holds just these items and lists.
  ghost predicate Represents(cache: map<string, Entry>, items: map<Vertex, ItemDescriptor>, lists: map<Kind, ItemMap>) {
    && (forall v :: v in items ==> ProperKind(v.kind))
    && (forall kind :: kind in lists ==> ProperKind(kind))
    && (forall v: Vertex :: ProperKind(v.kind) ==> HoldsItem(cache, items, v))
    && (forall kind :: ProperKind(kind) ==> HoldsList(cache, lists, kind))
  }

  ghost predicate HoldsItem(cache: map<string, Entry>, items: map<Vertex, ItemDescriptor>, v: Vertex) {
    if v in items then ItemKey(v) in cache && cache[ItemKey(v)] == ItemEntry(items[v]) else ItemKey(v) !in cache
  }

  ghost predicate HoldsList(cache: map<string, Entry>, lists: map<Kind, ItemMap>, kind: Kind) {
    if kind in lists then
      AllItemsKey(kind) in cache && cache[AllItemsKey(kind)].ListEntry? && LoadItems(cache[AllItemsKey(kind)].items) == lists[kind]
    else
      AllItemsKey(kind) !in cache
  }

  lemma {:induction false} SetItem(cache: map<string, Entry>, items: map<Vertex, ItemDescriptor>, lists: map<Kind, ItemMap>, v: Vertex, item: ItemDescriptor)
    requires Represents(cache, items, lists) && ProperKind(v.kind)
    ensures Represents(cache[ItemKey(v) := ItemEntry(item)], items[v := item], lists)
  {
    var cache' := cache[ItemKey(v) := ItemEntry(item)];
    forall u: Vertex | ProperKind(u.kind)
      ensures HoldsItem(cache', items[v := item], u)
    {
      assert HoldsItem(cache, items, u);
      if u != v && ItemKey(u) == ItemKey(v) { ItemKeysDiffer(u, v); }
    }
    forall kind | ProperKind(kind)
      ensures HoldsList(cache', lists, kind)
    {
      assert HoldsList(cache, lists, kind);
      ItemAndListKeysDiffer(v, kind);
    }
  }

  lemma {:induction false} DropItem(cache: map<string, Entry>, items: map<Vertex, ItemDescriptor>, lists: map<Kind, ItemMap>, v: Vertex)
    requires Represents(cache, items, lists) && ProperKind(v.kind)
    ensures Represents(cache - {ItemKey(v)}, items - {v}, lists)
  {
    var cache' := cache - {ItemKey(v)};
    forall u: Vertex | ProperKind(u.kind)
      ensures HoldsItem(cache', items - {v}, u)
    {
      assert HoldsItem(cache, items, u);
      if u != v && ItemKey(u) == ItemKey(v) { ItemKeysDiffer(u, v); }
    }
    forall kind | ProperKind(kind)
      ensures HoldsList(cache', lists, kind)
    {
      assert HoldsList(cache, lists, kind);
      ItemAndListKeysDiffer(v, kind);
    }
  }

  lemma {:induction false} SetList(cache: map<string, Entry>, items: map<Vertex, ItemDescriptor>, lists: map<Kind, ItemMap>, kind: Kind, list: seq<KeyedItem>)
    requires Represents(cache, items, lists) && ProperKind(kind)
    ensures Represents(cache[AllItemsKey(kind) := ListEntry(list)], items, lists[kind := LoadItems(list)])
  {
    var cache' := cache[AllItemsKey(kind) := ListEntry(list)];
    forall u: Vertex | ProperKind(u.kind)
      ensures HoldsItem(cache', items, u)
    {
      assert HoldsItem(cache, items, u);
      ItemAndListKeysDiffer(u, kind);
    }
    forall k | ProperKind(k)
      ensures HoldsList(cache', lists[kind := LoadItems(list)], k)
    {
      assert HoldsList(cache, lists, k);
      if k != kind && AllItemsKey(k) == AllItemsKey(kind) { ListKeysDiffer(k, kind); }
    }
  }

  lemma {:induction false} DropList(cache: map<string, Entry>, items: map<Vertex, ItemDescriptor>, lists: map<Kind, ItemMap>, kind: Kind)
    requires Represents(cache, items, lists) && ProperKind(kind)
    ensures Represents(cache - {AllItemsKey(kind)}, items, lists - {kind})
  {
    var cache' := cache - {AllItemsKey(kind)};
    forall u: Vertex | ProperKind(u.kind)
      ensures HoldsItem(cache', items, u)
    {
      assert HoldsItem(cache, items, u);
      ItemAndListKeysDiffer(u, kind);
    }
    forall k | ProperKind(k)
      ensures HoldsList(cache', lists - {kind}, k)
    {
      assert HoldsList(cache, lists, k);
      if k != kind && AllItemsKey(k) == AllItemsKey(kind) { ListKeysDiffer(k, kind); }
    }
  }

  // ---------- The wrapper ----------

  method UpdateSingleItem(items: seq<KeyedItem>, key: string, newItem: ItemDescriptor) returns (ret: seq<KeyedItem>)
    ensures LoadItems(ret) == LoadItems(items)[key := newItem]
  {
    var found := false;
    ret := [];
    for i := 0 to |items|
      invariant found <==> key in LoadItems(items[..i])
      invariant LoadItems(ret) == if found then LoadItems(items[..i])[key := newItem] else LoadItems(items[..i])
    {
      LoadItemsStep(items, i);
      ghost var before := ret;
      if items[i].key == key {
        ret := ret + [KeyedItem(key, newItem)];
        found := true;
      } else {
        ret := ret + [items[i]];
      }
      assert ret[..|before|] == before;
    }
    assert items[..|items|] == items;
    if !found {
      ghost var before := ret;
      ret := ret + [KeyedItem(key, newItem)];
      assert ret[..|before|] == before;
    }
  }

  predicate ProperData(data: seq<Collection>) {
    forall c :: c in data ==> ProperKind(c.kind)
  }

  class PersistentDataStoreWrapper {
    const codec: Codec
    const cacheTTL: int
    const core: PersistentCore
    const statusPoller: DataStoreStatusPoller
    var cache: map<string, Entry>
    var inited: bool
    // What the cache holds, under kinds and keys.
    ghost var cachedItems: map<Vertex, ItemDescriptor>
    ghost var cachedLists: map<Kind, ItemMap>

    constructor (codec: Codec, core: PersistentCore, cacheTTL: int)
      ensures Valid() && this.codec == codec && this.core == core && this.cacheTTL == cacheTTL
      ensures View() == WrapperState(core.data, map[], map[], false)
      ensures fresh(statusPoller) && statusPoller.lastAvailable
      ensures statusPoller.refreshOnRecovery <==> CacheMode() != Infinite
    {
      this.codec, this.core, this.cacheTTL := codec, core, cacheTTL;
      statusPoller := new DataStoreStatusPoller(true, cacheTTL == 0 || cacheTTL > 0);
      cache, inited, cachedItems, cachedLists := map[], false, map[], map[];
    }

    predicate HasCache() {
      cacheTTL != 0
    }

    predicate HasInfiniteCache() {
      HasCache() && cacheTTL < 0
    }

    function CacheMode(): Mode {
      if cacheTTL == 0 then NoCache else if cacheTTL > 0 then Expiring else Infinite
    }

    ghost predicate Valid()
      reads this
    {
      Represents(cache, cachedItems, cachedLists) && (!HasCache() ==> cachedItems == map[] && cachedLists == map[])
    }

    ghost function View(): WrapperState
      reads this, core
    {
      WrapperState(core.data, cachedItems, cachedLists, inited)
    }

    // What the status poller knows after a call into the store: a failure is reported to it at once.
    function Noticed(s: PollerState, failed: bool): PollerState {
      if failed then Reported(statusPoller.refreshOnRecovery, s, false) else s
    }

    method ProcessError(err: bool)
      modifies statusPoller
      ensures statusPoller.View() == Noticed(old(statusPoller.View()), err)
      ensures if err then !statusPoller.lastAvailable else statusPoller.View() == old(statusPoller.View())
    {
      if err {
        statusPoller.UpdateAvailability(false);
      }
    }

    method SetCachedItem(v: Vertex, item: ItemDescriptor)
      requires Valid() && HasCache() && ProperKind(v.kind)
      modifies this`cache, this`cachedItems
      ensures Valid() && cachedItems == old(cachedItems)[v := item]
    {
      SetItem(cache, cachedItems, cachedLists, v, item);
      cache := cache[ItemKey(v) := ItemEntry(item)];
      cachedItems := cachedItems[v := item];
    }

    method SetCachedList(kind: Kind, list: seq<KeyedItem>)
      requires Valid() && HasCache() && ProperKind(kind)
      modifies this`cache, this`cachedLists
      ensures Valid() && cachedLists == old(cachedLists)[kind := LoadItems(list)]
    {
      SetList(cache, cachedItems, cachedLists, kind, list);
      cache := cache[AllItemsKey(kind) := ListEntry(list)];
      cachedLists := cachedLists[kind := LoadItems(list)];
    }

    method DropCachedItem(v: Vertex)
      requires Valid() && HasCache() && ProperKind(v.kind)
      modifies this`cache, this`cachedItems
      ensures Valid() && cachedItems == old(cachedItems) - {v}
    {
      DropItem(cache, cachedItems, cachedLists, v);
      cache := cache - {ItemKey(v)};
      cachedItems := cachedItems - {v};
    }

    method DropCachedList(kind: Kind)
      requires Valid() && HasCache() && ProperKind(kind)
      modifies this`cache, this`cachedLists
      ensures Valid() && cachedLists == old(cachedLists) - {kind}
    {
      DropList(cache, cachedItems, cachedLists, kind);
      cache := cache - {AllItemsKey(kind)};
      cachedLists := cachedLists - {kind};
    }

    method SerializeAll(data: seq<Collection>) returns (serialized: Contents)
      ensures serialized == SerializedAll(codec, Merged(data))
    {
      serialized := map[];
      for i := 0 to |data|
        invariant serialized == SerializedAll(codec, Merged(data[..i]))
      {
        serialized := SerializeCollection(data[i], serialized, Merged(data[..i]));
        assert data[..i + 1][..i] == data[..i];
      }
      assert data[..|data|] == data;
    }

    method SerializeCollection(coll: Collection, before: Contents, ghost m: map<Vertex, ItemDescriptor>)
      returns (serialized: Contents)
      requires before == SerializedAll(codec, m)
      ensures serialized == SerializedAll(codec, MergedItems(m, coll.kind, coll.items))
    {
      serialized := before;
      for j := 0 to |coll.items|
        invariant serialized == SerializedAll(codec, MergedItems(m, coll.kind, coll.items[..j]))
      {
        SerializedOneMore(codec, m, coll.kind, coll.items, j);
        serialized := serialized[Vertex(coll.kind, coll.items[j].key) := Serialize(codec, coll.kind, coll.items[j].item)];
      }
      assert coll.items[..|coll.items|] == coll.items;
    }

    method InitCore(data: seq<Collection>, fault: bool) returns (err: bool)
      modifies core, statusPoller
      ensures err == fault && core.data == if fault then old(core.data) else SerializedAll(codec, Merged(data))
      ensures statusPoller.View() == Noticed(old(statusPoller.View()), err)
    {
      var serialized := SerializeAll(data);
      err := core.Init(serialized, fault);
      ProcessError(err);
    }

    method Init(allData: seq<Collection>, fault: bool) returns (err: bool)
      requires Valid() && ProperData(allData)
      modifies this`cache, this`inited, this`cachedItems, this`cachedLists, core, statusPoller
      ensures Valid()
      ensures (View(), if err then Failed else Stored) == DoInit(codec, CacheMode(), old(View()), allData, fault)
      ensures err == fault && inited == (old(inited) || !fault || CacheMode() == Infinite)
      ensures core.data == if fault then old(core.data) else SerializedAll(codec, Merged(allData))
      ensures HasCache() && (!fault || CacheMode() == Infinite) ==> cachedItems == Merged(allData) && cachedLists == Load(allData)
      ensures HasCache() && fault && CacheMode() == Expiring ==> cachedItems == map[] && cachedLists == map[]
      ensures statusPoller.View() == Noticed(old(statusPoller.View()), fault)
      ensures err ==> !statusPoller.lastAvailable
    {
      err := InitCore(allData, fault);
      if HasCache() {
        cache, cachedItems, cachedLists := map[], map[], map[];
      }
      if err && !HasInfiniteCache() {
        return;
      }
      if HasCache() {
        CacheAll(allData);
      }
      inited := true;
    }

    method CacheAll(allData: seq<Collection>)
      requires Valid() && HasCache() && ProperData(allData) && cachedItems == map[] && cachedLists == map[]
      modifies this`cache, this`cachedItems, this`cachedLists
      ensures Valid() && cachedItems == Merged(allData) && cachedLists == Load(allData)
    {
      for i := 0 to |allData|
        invariant Valid()
        invariant cachedItems == Merged(allData[..i]) && cachedLists == Load(allData[..i])
      {
        CacheItems(allData[i].kind, allData[i].items);
        LoadStep(allData, i);
        assert allData[..i + 1][..i] == allData[..i];
      }
      assert allData[..|allData|] == allData;
    }

    method CacheItems(kind: Kind, items: seq<KeyedItem>)
      requires Valid() && HasCache() && ProperKind(kind)
      modifies this`cache, this`cachedItems, this`cachedLists
      ensures Valid()
      ensures cachedItems == MergedItems(old(cachedItems), kind, items)
      ensures cachedLists == old(cachedLists)[kind := LoadItems(items)]
    {
      SetCachedList(kind, items);
      for i := 0 to |items|
        invariant Valid()
        invariant cachedItems == MergedItems(old(cachedItems), kind, items[..i])
        invariant cachedLists == old(cachedLists)[kind := LoadItems(items)]
      {
        assert items[..i + 1][..i] == items[..i];
        SetCachedItem(Vertex(kind, items[i].key), items[i].item);
      }
      assert items[..|items|] == items;
    }

    method GetAndDeserializeItem(v: Vertex, fault: bool) returns (item: Option<ItemDescriptor>)
      ensures item == if fault then None else ItemInCore(codec, core.data, v)
    {
      var err, serializedItem := core.Get(v, fault);
      if err {
        return None;
      }
      return Deserialize(codec, v.kind, serializedItem);
    }

    method Get(kind: Kind, key: string, fault: bool) returns (item: Option<ItemDescriptor>)
      requires Valid() && ProperKind(kind)
      modifies this`cache, this`cachedItems, statusPoller
      ensures Valid()
      ensures (View(), if item.Some? then GotItem(item.value) else Failed) ==
              DoGet(codec, CacheMode(), old(View()), Vertex(kind, key), fault)
      ensures item ==
              if Vertex(kind, key) in old(cachedItems) then Some(old(cachedItems)[Vertex(kind, key)])
              else if fault then None
              else ItemInCore(codec, core.data, Vertex(kind, key))
      ensures cachedItems == if item.Some? && HasCache() then old(cachedItems)[Vertex(kind, key) := item.value] else old(cachedItems)
      ensures statusPoller.View() == Noticed(old(statusPoller.View()), item.None?)
      ensures item.None? ==> !statusPoller.lastAvailable
    {
      var v := Vertex(kind, key);
      if !HasCache() {
        item := GetAndDeserializeItem(v, fault);
        ProcessError(item.None?);
        return;
      }
      assert HoldsItem(cache, cachedItems, v);
      if ItemKey(v) in cache {
        if cache[ItemKey(v)].ItemEntry? {
          return Some(cache[ItemKey(v)].item);
        }
      }
      item := GetAndDeserializeItem(v, fault);
      ProcessError(item.None?);
      if item.Some? {
        SetCachedItem(v, item.value);
      }
    }

    method GetAllAndDeserialize(kind: Kind, fault: bool) returns (all: Option<seq<KeyedItem>>)
      ensures all.Some? <==> !fault && AllInCore(codec, core.data, kind).Some?
      ensures all.Some? ==> AllInCore(codec, core.data, kind) == Some(LoadItems(all.value))
    {
      var err, serializedItems := core.GetAll(kind, fault);
      if err {
        return None;
      }
      var ret: seq<KeyedItem> := [];
      for i := 0 to |serializedItems|
        invariant Decodes(codec, kind, serializedItems[..i], ret)
      {
        var item := Deserialize(codec, kind, serializedItems[i].1);
        if item.None? {
          assert serializedItems[i] in serializedItems;
          assert ItemInCore(codec, core.data, serializedItems[i].0).None?;
          return None;
        }
        ret := ret + [KeyedItem(serializedItems[i].0.key, item.value)];
      }
      assert serializedItems[..|serializedItems|] == serializedItems;
      DecodedList(codec, core.data, kind, serializedItems, ret);
      return Some(ret);
    }

    method GetAll(kind: Kind, fault: bool) returns (all: Option<seq<KeyedItem>>)
      requires Valid() && ProperKind(kind)
      modifies this`cache, this`cachedLists, statusPoller
      ensures Valid()
      ensures (View(), if all.Some? then GotAll(LoadItems(all.value)) else Failed) ==
              DoGetAll(codec, CacheMode(), old(View()), kind, fault)
      ensures kind in old(cachedLists) ==> all.Some? && LoadItems(all.value) == old(cachedLists)[kind]
      ensures kind !in old(cachedLists) ==>
                (all.None? <==> fault || exists v :: v in core.data && v.kind == kind && ItemInCore(codec, core.data, v).None?)
      ensures kind !in old(cachedLists) && all.Some? ==>
                forall key :: (key in LoadItems(all.value) <==> Vertex(kind, key) in core.data) &&
                              (key in LoadItems(all.value) ==>
                                 ItemInCore(codec, core.data, Vertex(kind, key)) == Some(LoadItems(all.value)[key]))
      ensures cachedLists == if all.Some? && HasCache() then old(cachedLists)[kind := LoadItems(all.value)] else old(cachedLists)
      ensures statusPoller.View() == Noticed(old(statusPoller.View()), all.None?)
      ensures all.None? ==> !statusPoller.lastAvailable
    {
      if !HasCache() {
        all := GetAllAndDeserialize(kind, fault);
        ProcessError(all.None?);
        return;
      }
      assert HoldsList(cache, cachedLists, kind);
      if AllItemsKey(kind) in cache {
        if cache[AllItemsKey(kind)].ListEntry? {
          return Some(cache[AllItemsKey(kind)].items);
        }
      }
      all := GetAllAndDeserialize(kind, fault);
      ProcessError(all.None?);
      if all.Some? {
        SetCachedList(kind, all.value);
      }
    }

    method Upsert(kind: Kind, key: string, newItem: ItemDescriptor, fault: bool, refault: bool)
      returns (updated: bool, err: bool)
      requires Valid() && ProperKind(kind)
      modifies this`cache, this`cachedItems, this`cachedLists, core, statusPoller
      ensures Valid()
      ensures (View(), if err then Failed else Upserted(updated)) ==
              DoUpsert(codec, CacheMode(), old(View()), Vertex(kind, key), newItem, fault, refault)
      ensures err == fault && (err ==> !statusPoller.lastAvailable)
      ensures updated <==>
                !err && (Vertex(kind, key) !in old(core.data) || old(core.data)[Vertex(kind, key)].version < newItem.version)
      ensures updated ==> Vertex(kind, key) in core.data && core.data[Vertex(kind, key)].version == newItem.version
      ensures forall v :: v != Vertex(kind, key) || !updated ==>
                            (v in core.data <==> v in old(core.data)) && (v in core.data ==> core.data[v] == old(core.data)[v])
      ensures statusPoller.View() ==
              Noticed(old(statusPoller.View()), UpsertMeetsFailure(codec, CacheMode(), old(View()), Vertex(kind, key), newItem, fault, refault))
    {
      var v := Vertex(kind, key);
      err, updated := core.Upsert(v, Serialize(codec, kind, newItem), fault);
      ProcessError(err);
      if err {
        if !HasInfiniteCache() {
          return;
        }
      }
      if HasCache() {
        assert HoldsList(cache, cachedLists, kind);
        if !err {
          if updated {
            SetCachedItem(v, newItem);
            if HasInfiniteCache() {
              assert HoldsList(cache, cachedLists, kind);
              if AllItemsKey(kind) in cache && cache[AllItemsKey(kind)].ListEntry? {
                var list := UpdateSingleItem(cache[AllItemsKey(kind)].items, key, newItem);
                SetCachedList(kind, list);
              }
            } else {
              DropCachedList(kind);
            }
          } else {
            DropCachedItem(v);
            DropCachedList(kind);
            var _ := Get(kind, key, refault);
          }
        } else {
          SetCachedItem(v, newItem);
          assert HoldsList(cache, cachedLists, kind);
          var cachedItemList: seq<KeyedItem> := [];
          if AllItemsKey(kind) in cache && cache[AllItemsKey(kind)].ListEntry? {
            cachedItemList := cache[AllItemsKey(kind)].items;
          }
          var list := UpdateSingleItem(cachedItemList, key, newItem);
          SetCachedList(kind, list);
        }
      }
    }

    method PollAvailabilityAfterOutage(available: bool, fault: bool) returns (answered: bool)
      requires Valid()
      modifies core, statusPoller
      ensures (View(), Polled(answered)) == DoPoll(codec, CacheMode(), old(View()), available, fault)
      ensures answered == available
      ensures statusPoller.View() == Noticed(old(statusPoller.View()), available && CacheMode() == Infinite && fault)
    {
      if !available {
        return false;
      }
      if HasInfiniteCache() {
        var allData := CachedCollections();
        var _ := InitCore(allData, fault);
      }
      return true;
    }

    method CachedCollections() returns (allData: seq<Collection>)
      requires Valid()
      ensures Merged(allData) == CachedData(cachedLists)
    {
      allData := [];
      for i := 0 to |ALL_DATA_KINDS|
        invariant Merged(allData) == CachedOfKinds(cachedLists, ALL_DATA_KINDS[..i])
      {
        var kind := ALL_DATA_KINDS[i];
        assert HoldsList(cache, cachedLists, kind);
        assert ALL_DATA_KINDS[..i + 1] == ALL_DATA_KINDS[..i] + [kind];
        if AllItemsKey(kind) in cache && cache[AllItemsKey(kind)].ListEntry? {
          var items := cache[AllItemsKey(kind)].items;
          CachedOneMore(cachedLists, ALL_DATA_KINDS[..i], allData, kind, items);
          allData := allData + [Collection(kind, items)];
        } else {
          CachedNoMore(cachedLists, ALL_DATA_KINDS[..i], kind);
        }
      }
      assert ALL_DATA_KINDS[..|ALL_DATA_KINDS|] == ALL_DATA_KINDS;
    }

    // Entries of an expiring cache may vanish at any time.
    method Expire(v: Vertex, kind: Kind)
      requires Valid() && CacheMode() == Expiring && ProperKind(v.kind) && ProperKind(kind)
      modifies this`cache, this`cachedItems, this`cachedLists
      ensures Valid() && View() == old(View()).(items := old(cachedItems) - {v}, lists := old(cachedLists) - {kind})
    {
      DropCachedItem(v);
      DropCachedList(kind);
    }
  }

  // ret holds the decoded form of each stored item, in the same order.
  ghost predicate Decodes(codec: Codec, kind: Kind, stored: seq<(Vertex, SerializedItem)>, ret: seq<KeyedItem>) {
    && |ret| == |stored|
    && forall j :: 0 <= j < |stored| ==> DecodesTo(codec, kind, stored[j], ret[j])
  }

  ghost predicate DecodesTo(codec: Codec, kind: Kind, x: (Vertex, SerializedItem), item: KeyedItem) {
    Deserialize(codec, kind, x.1) == Some(item.item) && item.key == x.0.key
  }

  lemma {:induction false} DecodedList(
    codec: Codec, core: Contents, kind: Kind, stored: seq<(Vertex, SerializedItem)>, ret: seq<KeyedItem>)
    requires forall x :: x in stored ==> x.0 in core && x.0.kind == kind && x.1 == core[x.0]
    requires forall v :: v in core && v.kind == kind ==> (v, core[v]) in stored
    requires Decodes(codec, kind, stored, ret)
    ensures AllInCore(codec, core, kind) == Some(LoadItems(ret))
  {
    forall v | v in core && v.kind == kind
      ensures exists x :: x in ret && ItemInCore(codec, core, v) == Some(x.item) && x.key == v.key
    {
      var j :| 0 <= j < |stored| && stored[j] == (v, core[v]);
      assert DecodesTo(codec, kind, stored[j], ret[j]);
    }
    forall x | x in ret
      ensures exists v :: v in core && v.kind == kind && v.key == x.key && ItemInCore(codec, core, v) == Some(x.item)
    {
      var j :| 0 <= j < |ret| && ret[j] == x;
      assert DecodesTo(codec, kind, stored[j], x) && stored[j] in stored;
    }
    LoadsAs(ret, DecodedOfKind(codec, core, kind));
  }

  lemma {:induction false} LoadsAs(items: seq<KeyedItem>, m: ItemMap)
    requires forall x :: x in items ==> x.key in m && m[x.key] == x.item
    requires forall k :: k in m ==> KeyedItem(k, m[k]) in items
    ensures LoadItems(items) == m
  {
    LoadItemsKeys(items);
    AgreesWith(items, m);
    forall k | k in m
      ensures k in LoadItems(items)
    {
      assert KeyedItem(k, m[k]) in items;
    }
  }

  lemma {:induction false} AgreesWith(items: seq<KeyedItem>, m: ItemMap)
    requires forall x :: x in items ==> x.key in m && m[x.key] == x.item
    ensures forall k :: k in LoadItems(items) ==> k in m && LoadItems(items)[k] == m[k]
  {
    if items != [] {
      AgreesWith(items[..|items| - 1], m);
    }
  }

  lemma CachedNoMore(lists: map<Kind, ItemMap>, kinds: seq<Kind>, kind: Kind)
    requires kind !in lists
    ensures CachedOfKinds(lists, kinds + [kind]) == CachedOfKinds(lists, kinds)
  {
  }

  lemma {:induction false} CachedOneMore(lists: map<Kind, ItemMap>, kinds: seq<Kind>, data: seq<Collection>, kind: Kind, items: seq<KeyedItem>)
    requires kind !in kinds && kind in lists && LoadItems(items) == lists[kind]
    requires Merged(data) == CachedOfKinds(lists, kinds)
    ensures Merged(data + [Collection(kind, items)]) == CachedOfKinds(lists, kinds + [kind])
  {
    var data' := data + [Collection(kind, items)];
    assert data'[..|data|] == data;
    forall v
      ensures v in Merged(data') <==> v in CachedOfKinds(lists, kinds + [kind])
      ensures v in Merged(data') && v in CachedOfKinds(lists, kinds + [kind]) ==>
                Merged(data')[v] == CachedOfKinds(lists, kinds + [kind])[v]
    {
      MergedItemsMeaning(Merged(data), kind, items, v);
    }
  }
}
