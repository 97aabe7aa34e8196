/**
 The vocabulary shared by every component: data kinds, keys, versioned items and tombstones
 (subsystems/ldstoretypes, internal/datakinds), and the parts of a flag or segment that decide
 what it references.
 */
module DataModel {

  datatype Option<+T> = None | Some(value: T)

  datatype Kind = Features | Segments | Other(name: string) {
    function Name(): string {
      match this
      case Features => "features"
      case Segments => "segments"
      case Other(n) => n
    }
  }

  const ALL_DATA_KINDS: seq<Kind> := [Features, Segments]

  // The kinds the SDK itself stores.
  predicate IsSdkKind(kind: Kind) {
    kind == Features || kind == Segments
  }

  datatype Value = StringValue(s: string) | OtherValue(n: int)

  datatype Operator = SegmentMatch | OtherOperator

  datatype Clause = Clause(op: Operator, values: seq<Value>)

  // `content` stands for everything else an item holds; only the evaluator reads it.
  datatype Item =
    | Flag(prerequisites: seq<string>, rules: seq<seq<Clause>>, content: int)
    | Segment(rules: seq<seq<Clause>>, content: int)
    | OtherItem(content: int)

  // A descriptor whose item is None is a tombstone.
  datatype ItemDescriptor = ItemDescriptor(version: int, item: Option<Item>)

  const NOT_FOUND := ItemDescriptor(-1, None)

  datatype KeyedItem = KeyedItem(key: string, item: ItemDescriptor)

  datatype Collection = Collection(kind: Kind, items: seq<KeyedItem>)

  datatype Vertex = Vertex(kind: Kind, key: string)

  // ---------- Contents of a store ----------

  type ItemMap = map<string, ItemDescriptor>

  type DataMap = map<Kind, ItemMap>

  function Lookup(d: DataMap, v: Vertex): Option<ItemDescriptor> {
    if v.kind in d && v.key in d[v.kind] then Some(d[v.kind][v.key]) else None
  }

  function ItemsOf(d: DataMap, kind: Kind): ItemMap {
    if kind in d then d[kind] else map[]
  }

  function VerticesOf(d: DataMap): set<Vertex> {
    set kind, key | kind in d && key in d[kind] :: Vertex(kind, key)
  }

  // What a list of keyed items means: the last item given for a key wins.
  function LoadItems(items: seq<KeyedItem>): ItemMap {
    if items == [] then map[]
    else
      var last := items[|items| - 1];
      LoadItems(items[..|items| - 1])[last.key := last.item]
  }

  // What a list of collections means: the last collection given for a kind wins.
  function Load(data: seq<Collection>): DataMap {
    if data == [] then map[]
    else
      var last := data[|data| - 1];
      Load(data[..|data| - 1])[last.kind := LoadItems(last.items)]
  }

  // No kind is given twice with different contents. Collections of distinct kinds satisfy this.
  ghost predicate ConsistentKinds(data: seq<Collection>) {
    forall c, c' :: c in data && c' in data && c.kind == c'.kind ==> LoadItems(c.items) == LoadItems(c'.items)
  }

  ghost predicate DistinctKinds(data: seq<Collection>) {
    forall i, j :: 0 <= i < j < |data| ==> data[i].kind != data[j].kind
  }

  lemma DistinctKindsAreConsistent(data: seq<Collection>)
    requires DistinctKinds(data)
    ensures ConsistentKinds(data)
  {
  }

  ghost predicate DistinctKeys(items: seq<KeyedItem>) {
    forall i, j :: 0 <= i < j < |items| ==> items[i].key != items[j].key
  }

  function KeysOf(items: seq<KeyedItem>): set<string> {
    set x | x in items :: x.key
  }

  lemma {:induction false} LoadItemsKeys(items: seq<KeyedItem>)
    ensures LoadItems(items).Keys == KeysOf(items)
  {
    if items != [] {
      var n := |items| - 1;
      LoadItemsKeys(items[..n]);
      assert items == items[..n] + [items[n]];
    }
  }

  // Each key has the item given last for it.
  lemma {:induction false} LoadItemsKeepsLast(items: seq<KeyedItem>, i: nat)
    requires i < |items| && items[i].key !in KeysOf(items[i + 1..])
    ensures items[i].key in LoadItems(items) && LoadItems(items)[items[i].key] == items[i].item
  {
    var n := |items| - 1;
    if i < n {
      assert items[i + 1..] == items[..n][i + 1..] + [items[n]];
      assert items[n] in items[i + 1..];
      LoadItemsKeepsLast(items[..n], i);
    }
  }

  lemma {:induction false} LoadItemsDistinct(items: seq<KeyedItem>)
    requires DistinctKeys(items)
    ensures LoadItems(items).Keys == KeysOf(items)
    ensures forall x :: x in items ==> x.key in LoadItems(items) && LoadItems(items)[x.key] == x.item
  {
    LoadItemsKeys(items);
    forall x | x in items
      ensures x.key in LoadItems(items) && LoadItems(items)[x.key] == x.item
    {
      var i :| 0 <= i < |items| && items[i] == x;
      LoadItemsKeepsLast(items, i);
    }
  }

  lemma {:induction false} LoadByMembership(data: seq<Collection>)
    requires ConsistentKinds(data)
    ensures Load(data).Keys == set c | c in data :: c.kind
    ensures forall c :: c in data ==> Load(data)[c.kind] == LoadItems(c.items)
  {
    if data != [] {
      var n := |data| - 1;
      assert data == data[..n] + [data[n]];
      LoadByMembership(data[..n]);
    }
  }

  lemma {:induction false} LoadItemsStep(items: seq<KeyedItem>, i: nat)
    requires i < |items|
    ensures LoadItems(items[..i + 1]) == LoadItems(items[..i])[items[i].key := items[i].item]
  {
    assert items[..i + 1][..i] == items[..i];
  }

  lemma {:induction false} LoadStep(data: seq<Collection>, i: nat)
    requires i < |data|
    ensures Load(data[..i + 1]) == Load(data[..i])[data[i].kind := LoadItems(data[i].items)]
  {
    assert data[..i + 1][..i] == data[..i];
  }

  // The loop by which a list of keyed items becomes a map.
  method BuildItemMap(items: seq<KeyedItem>) returns (m: ItemMap)
    ensures m == LoadItems(items)
  {
    m := map[];
    for i := 0 to |items|
      invariant m == LoadItems(items[..i])
    {
      LoadItemsStep(items, i);
      m := m[items[i].key := items[i].item];
    }
    assert items[..|items|] == items;
  }

  // The loop by which a list of collections becomes a map of maps.
  method BuildDataMap(data: seq<Collection>) returns (d: DataMap)
    ensures d == Load(data)
  {
    d := map[];
    for i := 0 to |data|
      invariant d == Load(data[..i])
    {
      var items := BuildItemMap(data[i].items);
      LoadStep(data, i);
      d := d[data[i].kind := items];
    }
    assert data[..|data|] == data;
  }

  // ---------- A full data set as one map ----------

  // The last item given for each vertex, over all collections.
  function Merged(data: seq<Collection>): map<Vertex, ItemDescriptor> {
    if data == [] then map[]
    else
      var last := data[|data| - 1];
      MergedItems(Merged(data[..|data| - 1]), last.kind, last.items)
  }

  function MergedItems(m: map<Vertex, ItemDescriptor>, kind: Kind, items: seq<KeyedItem>): map<Vertex, ItemDescriptor> {
    if items == [] then m
    else
      var last := items[|items| - 1];
      MergedItems(m, kind, items[..|items| - 1])[Vertex(kind, last.key) := last.item]
  }

  lemma {:induction false} MergedItemsMeaning(m: map<Vertex, ItemDescriptor>, kind: Kind, items: seq<KeyedItem>, v: Vertex)
    ensures v in MergedItems(m, kind, items) <==> v in m || (v.kind == kind && v.key in LoadItems(items))
    ensures v in MergedItems(m, kind, items) ==>
              MergedItems(m, kind, items)[v] ==
              if v.kind == kind && v.key in LoadItems(items) then LoadItems(items)[v.key] else m[v]
  {
    if items != [] {
      MergedItemsMeaning(m, kind, items[..|items| - 1], v);
    }
  }

  lemma {:induction false} MergedIsLoaded(data: seq<Collection>, v: Vertex)
    requires ConsistentKinds(data)
    ensures v in Merged(data) <==> Lookup(Load(data), v).Some?
    ensures v in Merged(data) ==> Lookup(Load(data), v) == Some(Merged(data)[v])
  {
    if data != [] {
      var n := |data| - 1;
      assert data == data[..n] + [data[n]];
      MergedIsLoaded(data[..n], v);
      MergedItemsMeaning(Merged(data[..n]), data[n].kind, data[n].items, v);
      LoadByMembership(data[..n]);
    }
  }

  // ---------- References between items ----------

  function ClauseSegments(c: Clause): set<Vertex> {
    if c.op == SegmentMatch then
      set v | v in c.values && v.StringValue? :: Vertex(Segments, v.s)
    else
      {}
  }

  function RuleSegments(clauses: seq<Clause>): set<Vertex> {
    set c, v | c in clauses && v in ClauseSegments(c) :: v
  }

  function SegmentReferences(rules: seq<seq<Clause>>): set<Vertex> {
    set r, v | r in rules && v in RuleSegments(r) :: v
  }

  // The flags and segments that an item references directly.
  function Neighbors(kind: Kind, from: ItemDescriptor): set<Vertex> {
    if from.item.None? then {}
    else if kind == Features && from.item.value.Flag? then
      (set p | p in from.item.value.prerequisites :: Vertex(Features, p)) +
      SegmentReferences(from.item.value.rules)
    else if kind == Segments && from.item.value.Segment? then
      SegmentReferences(from.item.value.rules)
    else {}
  }

  // Some clause of the rules matches against the segment.
  ghost predicate MatchesSegment(rules: seq<seq<Clause>>, key: string) {
    exists r, c, i ::
      && 0 <= r < |rules| && 0 <= c < |rules[r]| && rules[r][c].op == SegmentMatch
      && 0 <= i < |rules[r][c].values| && rules[r][c].values[i] == StringValue(key)
  }

  lemma {:induction false} ClauseSegmentsExactly(c: Clause, v: Vertex)
    ensures v in ClauseSegments(c) <==> c.op == SegmentMatch && v.kind == Segments && StringValue(v.key) in c.values
  {
    if StringValue(v.key) in c.values && v.kind == Segments {
      assert v == Vertex(Segments, StringValue(v.key).s);
    }
  }

  lemma {:induction false} MatchedSegments(rules: seq<seq<Clause>>, v: Vertex)
    ensures v in SegmentReferences(rules) <==> v.kind == Segments && MatchesSegment(rules, v.key)
  {
    if v in SegmentReferences(rules) {
      var clauses :| clauses in rules && v in RuleSegments(clauses);
      var clause :| clause in clauses && v in ClauseSegments(clause);
      ClauseSegmentsExactly(clause, v);
      var r :| 0 <= r < |rules| && rules[r] == clauses;
      var c :| 0 <= c < |rules[r]| && rules[r][c] == clause;
      var i :| 0 <= i < |clause.values| && clause.values[i] == StringValue(v.key);
      assert rules[r][c].values[i] == StringValue(v.key);
    }
    if v.kind == Segments && MatchesSegment(rules, v.key) {
      var r, c, i :|
        && 0 <= r < |rules| && 0 <= c < |rules[r]| && rules[r][c].op == SegmentMatch
        && 0 <= i < |rules[r][c].values| && rules[r][c].values[i] == StringValue(v.key);
      ClauseSegmentsExactly(rules[r][c], v);
      assert v in RuleSegments(rules[r]);
    }
  }

  lemma {:induction false} NeighborsExactly(kind: Kind, from: ItemDescriptor, v: Vertex)
    ensures v in Neighbors(kind, from) <==>
              && from.item.Some?
              && ((kind == Features && from.item.value.Flag?) || (kind == Segments && from.item.value.Segment?))
              && match v.kind
                 case Features => kind == Features && v.key in from.item.value.prerequisites
                 case Segments => MatchesSegment(from.item.value.rules, v.key)
                 case Other(_) => false
  {
    if from.item.Some? && !from.item.value.OtherItem? {
      MatchedSegments(from.item.value.rules, v);
    }
  }
}
