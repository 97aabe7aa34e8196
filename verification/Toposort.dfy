/**
 internal/toposort: the order in which items are written to a store that cannot take them all at
 once. Go's map iteration order is arbitrary, so every `:|` below stands for any order at all.
 */
module Toposort {
  import opened DataModel
  import opened Graph

  // ---------- Direct references ----------

  // The closure inside GetNeighbors: adds the segments that the clauses of one rule match against.
  method CheckClauses(found: set<Vertex>, clauses: seq<Clause>) returns (ret: set<Vertex>)
    ensures ret == found + RuleSegments(clauses)
  {
    ret := found;
    for i := 0 to |clauses|
      invariant ret == found + RuleSegments(clauses[..i])
    {
      var c := clauses[i];
      if c.op == SegmentMatch {
        ghost var before := ret;
        for j := 0 to |c.values|
          invariant ret == before + set v | v in c.values[..j] && v.StringValue? :: Vertex(Segments, v.s)
        {
          if c.values[j].StringValue? {
            ret := ret + {Vertex(Segments, c.values[j].s)};
          }
          assert c.values[..j + 1] == c.values[..j] + [c.values[j]];
        }
        assert c.values[..|c.values|] == c.values;
      }
      assert clauses[..i + 1] == clauses[..i] + [c];
      assert RuleSegments(clauses[..i + 1]) == RuleSegments(clauses[..i]) + ClauseSegments(c);
    }
    assert clauses[..|clauses|] == clauses;
  }

  method CheckRules(found: set<Vertex>, rules: seq<seq<Clause>>) returns (ret: set<Vertex>)
    ensures ret == found + SegmentReferences(rules)
  {
    ret := found;
    for i := 0 to |rules|
      invariant ret == found + SegmentReferences(rules[..i])
    {
      ret := CheckClauses(ret, rules[i]);
      assert rules[..i + 1] == rules[..i] + [rules[i]];
      assert SegmentReferences(rules[..i + 1]) == SegmentReferences(rules[..i]) + RuleSegments(rules[i]);
    }
    assert rules[..|rules|] == rules;
  }

  method GetNeighbors(kind: Kind, fromItem: ItemDescriptor) returns (ret: set<Vertex>)
    ensures ret == Neighbors(kind, fromItem)
    ensures forall key :: Vertex(Features, key) in ret <==>
              kind == Features && fromItem.item.Some? && fromItem.item.value.Flag? && key in fromItem.item.value.prerequisites
    ensures forall key :: Vertex(Segments, key) in ret <==>
              && fromItem.item.Some?
              && ((kind == Features && fromItem.item.value.Flag?) || (kind == Segments && fromItem.item.value.Segment?))
              && exists r, c, i ::
                   && 0 <= r < |fromItem.item.value.rules| && 0 <= c < |fromItem.item.value.rules[r]|
                   && fromItem.item.value.rules[r][c].op == SegmentMatch
                   && 0 <= i < |fromItem.item.value.rules[r][c].values|
                   && fromItem.item.value.rules[r][c].values[i] == StringValue(key)
    ensures forall v :: v in ret ==> v.kind == Features || v.kind == Segments
  {
    ret := {};
    match kind {
      case Features =>
        if fromItem.item.Some? && fromItem.item.value.Flag? {
          var flag := fromItem.item.value;
          for i := 0 to |flag.prerequisites|
            invariant ret == set p | p in flag.prerequisites[..i] :: Vertex(Features, p)
          {
            ret := ret + {Vertex(Features, flag.prerequisites[i])};
            assert flag.prerequisites[..i + 1] == flag.prerequisites[..i] + [flag.prerequisites[i]];
          }
          assert flag.prerequisites[..|flag.prerequisites|] == flag.prerequisites;
          ret := CheckRules(ret, flag.rules);
        }
      case Segments =>
        if fromItem.item.Some? && fromItem.item.value.Segment? {
          ret := CheckRules(ret, fromItem.item.value.rules);
        }
      case Other(_) =>
    }
    forall key
      ensures Vertex(Features, key) in ret <==> Vertex(Features, key) in Neighbors(kind, fromItem)
    {
      NeighborsExactly(kind, fromItem, Vertex(Features, key));
    }
    forall key
      ensures Vertex(Segments, key) in ret <==>
                && fromItem.item.Some?
                && ((kind == Features && fromItem.item.value.Flag?) || (kind == Segments && fromItem.item.value.Segment?))
                && MatchesSegment(fromItem.item.value.rules, key)
    {
      NeighborsExactly(kind, fromItem, Vertex(Segments, key));
    }
    forall v | v in ret
      ensures v.kind == Features || v.kind == Segments
    {
      NeighborsExactly(kind, fromItem, v);
    }
  }

  // ---------- Depth-first order within one collection ----------

  // The references that stay within one collection: its nodes are the collection's keys.
  function KeyGraph(kind: Kind, all: ItemMap): map<string, set<string>> {
    map k | k in all ::
      set v | v in Neighbors(kind, all[k]) && v.kind == kind && v.key in all :: v.key
  }

  // Every item at i comes after each item d it references, unless d itself leads back to it.
  ghost predicate Settled(g: map<string, set<string>>, out: seq<KeyedItem>, i: nat)
    requires i < |out|
  {
    forall d :: d in Succ(g, out[i].key) ==> d in KeysOf(out[..i]) || Reaches(g, d, out[i].key)
  }

  ghost predicate DependencyOrdered(kind: Kind, all: ItemMap, out: seq<KeyedItem>) {
    && DistinctKeys(out)
    && LoadItems(out) == all
    && forall i :: 0 <= i < |out| ==> Settled(KeyGraph(kind, all), out, i)
  }

  // No item of the collection leads back to an item that references it.
  ghost predicate Acyclic(kind: Kind, all: ItemMap) {
    var g := KeyGraph(kind, all);
    forall k, d :: d in Succ(g, k) ==> !Reaches(g, d, k)
  }

  // The state of a visit. grey: the items whose visit has begun but not ended, outermost first.
  ghost predicate WalkInvariant(
    kind: Kind, all: ItemMap, remaining: ItemMap, out: seq<KeyedItem>, grey: seq<string>)
  {
    && (forall k :: k in remaining ==> k in all && remaining[k] == all[k])
    && (forall x :: x in out ==> x.key in all && x.item == all[x.key])
    && (forall k :: k in all ==> k in remaining || k in KeysOf(out) || k in grey)
    && (forall k :: k in grey ==> k !in remaining && k !in KeysOf(out))
    && (forall k :: k in remaining ==> k !in KeysOf(out))
    && DistinctKeys(out)
    && AllSettled(KeyGraph(kind, all), out)
  }

  ghost predicate AllSettled(g: map<string, set<string>>, out: seq<KeyedItem>) {
    forall i :: 0 <= i < |out| ==> Settled(g, out, i)
  }

  class DependencyWalk {
    const kind: Kind
    ghost const all: ItemMap
    var remainingItems: ItemMap
    var out: seq<KeyedItem>

    constructor (kind: Kind, items: ItemMap)
      ensures this.kind == kind && all == items && remainingItems == items && out == []
      ensures Valid([])
    {
      this.kind := kind;
      all := items;
      remainingItems := items;
      out := [];
    }

    ghost predicate Valid(grey: seq<string>)
      reads this
    {
      WalkInvariant(kind, all, remainingItems, out, grey)
    }

    method AddWithDependenciesFirst(startingKey: string, ghost grey: seq<string>)
      requires startingKey in remainingItems
      requires Valid(grey) && IsPath(KeyGraph(kind, all), grey + [startingKey])
      modifies this`remainingItems, this`out
      ensures Valid(grey)
      ensures startingKey !in remainingItems && remainingItems.Keys <= old(remainingItems.Keys)
      ensures old(out) <= out && |old(out)| < |out| && out[|out| - 1].key == startingKey
      ensures NothingLeft(KeyGraph(kind, all), remainingItems.Keys, out, |old(out)|)
      decreases remainingItems.Keys
    {
      var startItem := remainingItems[startingKey];
      VisitBegins(kind, all, remainingItems, out, grey, startingKey);
      remainingItems := remainingItems - {startingKey};
      ghost var greyNow := grey + [startingKey];
      var deps := GetNeighbors(kind, startItem);
      var todo := deps;
      while todo != {}
        invariant todo <= deps
        invariant Valid(greyNow)
        invariant remainingItems.Keys <= old(remainingItems.Keys) - {startingKey}
        invariant old(out) <= out && NothingLeft(KeyGraph(kind, all), remainingItems.Keys, out, |old(out)|)
        invariant forall d :: d in deps && d !in todo && d.kind == kind ==> d.key !in remainingItems
      {
        var dep :| dep in todo;
        todo := todo - {dep};
        if dep.kind == kind {
          if dep.key in remainingItems {
            ReferenceIsEdge(kind, all, startingKey, dep);
            PathExtends(KeyGraph(kind, all), greyNow, dep.key);
            ghost var remaining0, out0 := remainingItems, out;
            AddWithDependenciesFirst(dep.key, greyNow);
            NothingLeftLater(KeyGraph(kind, all), remaining0.Keys, out0, remainingItems.Keys, out, |old(out)|);
          }
        }
      }
      VisitEnds(kind, all, remainingItems, out, grey, startingKey);
      NothingLeftAtEnd(kind, all, remainingItems, out, |old(out)|, startingKey);
      out := out + [KeyedItem(startingKey, startItem)];
    }
  }

  // What the items from position n on reference has been visited too, or is being visited.
  ghost predicate NothingLeft(g: map<string, set<string>>, remaining: set<string>, out: seq<KeyedItem>, n: nat) {
    forall i :: n <= i < |out| ==> Succ(g, out[i].key) !! remaining
  }

  lemma {:induction false} NothingLeftLater(
    g: map<string, set<string>>, remaining: set<string>, out: seq<KeyedItem>, remaining': set<string>, out': seq<KeyedItem>, n: nat)
    requires NothingLeft(g, remaining, out, n) && NothingLeft(g, remaining', out', |out|)
    requires remaining' <= remaining && out <= out'
    ensures NothingLeft(g, remaining', out', n)
  {
    forall i | n <= i < |out|
      ensures Succ(g, out'[i].key) !! remaining'
    {
      assert out'[i] == out[i];
    }
  }

  lemma NothingLeftAtEnd(kind: Kind, all: ItemMap, remaining: ItemMap, out: seq<KeyedItem>, n: nat, k: string)
    requires k in all && NothingLeft(KeyGraph(kind, all), remaining.Keys, out, n)
    requires forall d :: d in Neighbors(kind, all[k]) && d.kind == kind ==> d.key !in remaining
    ensures NothingLeft(KeyGraph(kind, all), remaining.Keys, out + [KeyedItem(k, all[k])], n)
  {
  }

  // So a visit emits everything that its item leads to past items visited before.
  lemma {:induction false} VisitEmitsReached(
    kind: Kind, all: ItemMap, remaining: ItemMap, before: seq<KeyedItem>, out: seq<KeyedItem>, grey: seq<string>, p: seq<string>)
    requires WalkInvariant(kind, all, remaining, out, grey)
    requires before <= out && |before| < |out| && NothingLeft(KeyGraph(kind, all), remaining.Keys, out, |before|)
    requires IsPath(KeyGraph(kind, all), p) && p[0] == out[|out| - 1].key
    requires forall k :: k in p ==> k !in grey && k !in KeysOf(before)
    ensures forall k :: k in p ==> k in KeysOf(out)
  {
    var avoid := (set k | k in grey) + KeysOf(before);
    var inside := KeysOf(out) + avoid;
    assert out[|out| - 1] in out;
    forall k | k in inside && k !in avoid
      ensures Succ(KeyGraph(kind, all), k) <= inside
    {
      var x :| x in out && x.key == k;
      var i :| 0 <= i < |out| && out[i] == x;
      assert forall j :: 0 <= j < |before| ==> out[j].key in KeysOf(before) by { KeysOfPrefix(before, out); }
    }
    PathStaysInside(KeyGraph(kind, all), p, inside, avoid);
  }

  lemma KeysOfPrefix(before: seq<KeyedItem>, out: seq<KeyedItem>)
    requires before <= out
    ensures forall j :: 0 <= j < |before| ==> out[j].key in KeysOf(before)
  {
  }

  lemma ReferenceIsEdge(kind: Kind, all: ItemMap, k: string, dep: Vertex)
    requires k in all && dep in Neighbors(kind, all[k]) && dep.kind == kind && dep.key in all
    ensures dep.key in Succ(KeyGraph(kind, all), k)
  {
  }

  lemma VisitBegins(
    kind: Kind, all: ItemMap, remaining: ItemMap, out: seq<KeyedItem>, grey: seq<string>, k: string)
    requires WalkInvariant(kind, all, remaining, out, grey) && k in remaining
    ensures WalkInvariant(kind, all, remaining - {k}, out, grey + [k])
  {
  }

  lemma {:induction false} VisitEnds(
    kind: Kind, all: ItemMap, remaining: ItemMap, out: seq<KeyedItem>, grey: seq<string>, k: string)
    requires k in all && WalkInvariant(kind, all, remaining, out, grey + [k]) && k !in grey
    requires IsPath(KeyGraph(kind, all), grey + [k])
    requires forall d :: d in Neighbors(kind, all[k]) && d.kind == kind ==> d.key !in remaining
    ensures WalkInvariant(kind, all, remaining, out + [KeyedItem(k, all[k])], grey)
  {
    AppendKeepsRest(all, remaining, out, grey, k);
    AppendKeepsSettled(kind, all, remaining, out, grey + [k], k);
  }

  lemma {:induction false} AppendKeepsSettled(
    kind: Kind, all: ItemMap, remaining: ItemMap, out: seq<KeyedItem>, grey: seq<string>, k: string)
    requires k in all && AllSettled(KeyGraph(kind, all), out)
    requires IsPath(KeyGraph(kind, all), grey) && grey[|grey| - 1] == k
    requires forall j :: j in all ==> j in remaining || j in KeysOf(out) || j in grey
    requires forall d :: d in Neighbors(kind, all[k]) && d.kind == kind ==> d.key !in remaining
    ensures AllSettled(KeyGraph(kind, all), out + [KeyedItem(k, all[k])])
  {
    var g := KeyGraph(kind, all);
    var x := KeyedItem(k, all[k]);
    LastIsSettled(g, out, grey, x);
    SettledKept(g, out, out + [x]);
  }

  lemma AppendKeepsRest(all: ItemMap, remaining: ItemMap, out: seq<KeyedItem>, grey: seq<string>, k: string)
    requires k in all && k !in grey
    requires forall j :: j in all ==> j in remaining || j in KeysOf(out) || j in grey + [k]
    requires forall j :: j in grey + [k] ==> j !in remaining && j !in KeysOf(out)
    ensures KeysOf(out + [KeyedItem(k, all[k])]) == KeysOf(out) + {k}
    ensures k !in remaining && k !in KeysOf(out)
    ensures forall j :: j in grey ==> j !in remaining && j !in KeysOf(out)
    ensures forall j :: j in all ==> j in remaining || j in KeysOf(out) || j == k || j in grey
  {
  }

  lemma {:induction false} LastIsSettled(g: map<string, set<string>>, out: seq<KeyedItem>, grey: seq<string>, x: KeyedItem)
    requires IsPath(g, grey) && grey[|grey| - 1] == x.key
    requires forall d :: d in Succ(g, x.key) ==> d in KeysOf(out) || d in grey
    ensures Settled(g, out + [x], |out|)
  {
    assert (out + [x])[..|out|] == out;
    forall d | d in Succ(g, x.key) && d !in KeysOf(out)
      ensures Reaches(g, d, x.key)
    {
      var i :| 0 <= i < |grey| && grey[i] == d;
      PathSuffix(g, grey, i);
    }
  }

  lemma {:induction false} SettledKept(g: map<string, set<string>>, out: seq<KeyedItem>, more: seq<KeyedItem>)
    requires out <= more
    requires AllSettled(g, out)
    ensures forall i :: 0 <= i < |out| ==> Settled(g, more, i)
  {
    forall i | 0 <= i < |out|
      ensures Settled(g, more, i)
    {
      assert Settled(g, out, i);
      assert more[..i] == out[..i];
    }
  }

  method AddItemsInDependencyOrder(kind: Kind, itemsIn: seq<KeyedItem>) returns (out: seq<KeyedItem>)
    ensures DependencyOrdered(kind, LoadItems(itemsIn), out)
  {
    var remainingItems := BuildItemMap(itemsIn);
    out := WalkAll(kind, remainingItems);
  }

  method WalkAll(kind: Kind, items: ItemMap) returns (out: seq<KeyedItem>)
    ensures DependencyOrdered(kind, items, out)
  {
    var walk := new DependencyWalk(kind, items);
    while walk.remainingItems != map[]
      invariant walk.Valid([])
      decreases walk.remainingItems.Keys
    {
      var firstKey :| firstKey in walk.remainingItems;
      assert [] + [firstKey] == [firstKey];
      walk.AddWithDependenciesFirst(firstKey, []);
    }
    out := walk.out;
    WalkEnds(kind, items, out);
  }

  lemma {:induction false} WalkEnds(kind: Kind, all: ItemMap, out: seq<KeyedItem>)
    requires WalkInvariant(kind, all, map[], out, [])
    ensures DependencyOrdered(kind, all, out)
  {
    LoadItemsDistinct(out);
    assert LoadItems(out).Keys == all.Keys;
    forall k | k in all
      ensures LoadItems(out)[k] == all[k]
    {
      var x :| x in out && x.key == k;
    }
  }

  // Every item comes after everything of its own collection that it references.
  ghost predicate FullyOrdered(kind: Kind, all: ItemMap, out: seq<KeyedItem>) {
    forall i, d :: 0 <= i < |out| && d in Succ(KeyGraph(kind, all), out[i].key) ==> d in KeysOf(out[..i])
  }

  // Along references an order that puts references first only goes back.
  lemma {:induction false} PathGoesBack(kind: Kind, all: ItemMap, out: seq<KeyedItem>, p: seq<string>, i: nat)
    requires FullyOrdered(kind, all, out) && IsPath(KeyGraph(kind, all), p)
    requires i < |out| && out[i].key == p[0]
    ensures exists j :: 0 <= j <= i && out[j].key == p[|p| - 1]
  {
    if |p| > 1 {
      assert p[1] in KeysOf(out[..i]);
      var x :| x in out[..i] && x.key == p[1];
      var j :| 0 <= j < i && out[..i][j] == x;
      PathGoesBack(kind, all, out, p[1..], j);
    }
  }

  // However the visits were ordered, everything comes after what it references exactly when no
  // item of the collection leads back to an item that references it.
  lemma {:induction false} FullyOrderedExactlyWhenAcyclic(kind: Kind, all: ItemMap, out: seq<KeyedItem>)
    requires DependencyOrdered(kind, all, out)
    ensures FullyOrdered(kind, all, out) <==> Acyclic(kind, all)
  {
    var g := KeyGraph(kind, all);
    LoadItemsKeys(out);
    if Acyclic(kind, all) {
      forall i, d | 0 <= i < |out| && d in Succ(g, out[i].key)
        ensures d in KeysOf(out[..i])
      {
        assert Settled(g, out, i);
      }
    }
    if FullyOrdered(kind, all, out) {
      forall k, d | d in Succ(g, k)
        ensures !Reaches(g, d, k)
      {
        EdgeNotOnCycle(kind, all, out, k, d);
      }
    }
  }

  lemma {:induction false} EdgeNotOnCycle(kind: Kind, all: ItemMap, out: seq<KeyedItem>, k: string, d: string)
    requires FullyOrdered(kind, all, out) && DistinctKeys(out) && KeysOf(out) == all.Keys
    requires d in Succ(KeyGraph(kind, all), k)
    ensures !Reaches(KeyGraph(kind, all), d, k)
  {
    var g := KeyGraph(kind, all);
    var x :| x in out && x.key == k;
    var i :| 0 <= i < |out| && out[i] == x;
    var y :| y in out[..i] && y.key == d;
    var j :| 0 <= j < i && out[..i][j] == y;
    if Reaches(g, d, k) {
      var p :| Connects(g, p, d, k);
      PathGoesBack(kind, all, out, p, j);
      assert false;
    }
  }

  // ---------- Sort ----------

  predicate DoesDataKindSupportDependencies(kind: Kind) {
    kind == Features
  }

  // Segments before flags; a kind of any other name after both.
  function DataKindPriority(kind: Kind): int {
    if kind.Name() == "segments" then 0
    else if kind.Name() == "features" then 1
    else |kind.Name()| + 2
  }

  // One collection as Sort leaves it.
  ghost predicate Arranged(c: Collection, c': Collection) {
    && c'.kind == c.kind
    && if DoesDataKindSupportDependencies(c.kind) then
         DependencyOrdered(c.kind, LoadItems(c.items), c'.items)
       else
         c' == c
  }

  ghost predicate AllArranged(data: seq<Collection>, arranged: seq<Collection>) {
    && |arranged| == |data|
    && forall i :: 0 <= i < |data| ==> Arranged(data[i], arranged[i])
  }

  ghost predicate SortedByPriority(cs: seq<Collection>) {
    forall i, j :: 0 <= i < j < |cs| ==> DataKindPriority(cs[i].kind) <= DataKindPriority(cs[j].kind)
  }

  // What Sort may return: Go leaves the order of collections with equal priority open.
  ghost predicate SortResult(data: seq<Collection>, sorted: seq<Collection>) {
    && SortedByPriority(sorted)
    && exists arranged :: AllArranged(data, arranged) && multiset(arranged) == multiset(sorted)
  }

  lemma {:induction false} FirstPriorityExists(cs: seq<Collection>) returns (i: nat)
    requires cs != []
    ensures i < |cs| && forall c :: c in cs ==> DataKindPriority(cs[i].kind) <= DataKindPriority(c.kind)
  {
    i := 0;
    if |cs| > 1 {
      var j := FirstPriorityExists(cs[1..]);
      assert cs == [cs[0]] + cs[1..];
      if DataKindPriority(cs[j + 1].kind) < DataKindPriority(cs[0].kind) {
        i := j + 1;
      }
    }
  }

  lemma {:induction false} TakeOut(cs: seq<Collection>, i: nat)
    requires i < |cs|
    ensures multiset(cs) == multiset{cs[i]} + multiset(cs[..i] + cs[i + 1..])
    ensures forall c :: c in cs[..i] + cs[i + 1..] ==> c in cs
    ensures |cs[..i] + cs[i + 1..]| < |cs|
  {
    assert cs == cs[..i] + [cs[i]] + cs[i + 1..];
  }

  lemma AppendLast(cs: seq<Collection>, c: Collection)
    requires SortedByPriority(cs) && forall x :: x in cs ==> DataKindPriority(x.kind) <= DataKindPriority(c.kind)
    ensures SortedByPriority(cs + [c])
  {
  }

  // sort.Slice, which is not stable: any collection of least priority may come next.
  method SortByPriority(cs: seq<Collection>) returns (sorted: seq<Collection>)
    ensures SortedByPriority(sorted) && multiset(sorted) == multiset(cs)
  {
    sorted := [];
    var rest := cs;
    while rest != []
      invariant multiset(sorted) + multiset(rest) == multiset(cs)
      invariant SortedByPriority(sorted)
      invariant forall c, c' :: c in sorted && c' in rest ==> DataKindPriority(c.kind) <= DataKindPriority(c'.kind)
      decreases |rest|
    {
      ghost var least := FirstPriorityExists(rest);
      var i :| 0 <= i < |rest| && forall c :: c in rest ==> DataKindPriority(rest[i].kind) <= DataKindPriority(c.kind);
      TakeOut(rest, i);
      AppendLast(sorted, rest[i]);
      sorted, rest := sorted + [rest[i]], rest[..i] + rest[i + 1..];
    }
  }

  method Sort(allData: seq<Collection>) returns (collections: seq<Collection>)
    ensures SortResult(allData, collections)
  {
    collections := [];
    for i := 0 to |allData|
      invariant AllArranged(allData[..i], collections)
    {
      var coll := allData[i];
      if DoesDataKindSupportDependencies(coll.kind) {
        var itemsOut := AddItemsInDependencyOrder(coll.kind, coll.items);
        collections := collections + [Collection(coll.kind, itemsOut)];
      } else {
        collections := collections + [coll];
      }
    }
    ghost var arranged := collections;
    assert allData[..|allData|] == allData;
    collections := SortByPriority(collections);
    assert AllArranged(allData, arranged) && multiset(arranged) == multiset(collections);
  }

  ghost predicate SameMeaning(c: Collection, c': Collection) {
    c'.kind == c.kind && LoadItems(c'.items) == LoadItems(c.items)
  }

  ghost predicate Covers(cs: seq<Collection>, others: seq<Collection>) {
    forall c :: c in cs ==> exists c' :: c' in others && SameMeaning(c, c')
  }

  lemma AllArrangedMeans(data: seq<Collection>, arranged: seq<Collection>)
    requires AllArranged(data, arranged)
    ensures |arranged| == |data| && forall i :: 0 <= i < |data| ==> SameMeaning(data[i], arranged[i])
  {
  }

  lemma {:induction false} RearrangedCovers(data: seq<Collection>, arranged: seq<Collection>, sorted: seq<Collection>)
    requires |arranged| == |data| && forall i :: 0 <= i < |data| ==> SameMeaning(data[i], arranged[i])
    requires multiset(arranged) == multiset(sorted)
    ensures Covers(data, sorted)
  {
    forall c | c in data
      ensures exists c' :: c' in sorted && SameMeaning(c, c')
    {
      var i :| 0 <= i < |data| && data[i] == c;
      assert arranged[i] in multiset(sorted);
    }
  }

  lemma {:induction false} RearrangedCoveredBy(data: seq<Collection>, arranged: seq<Collection>, sorted: seq<Collection>)
    requires |arranged| == |data| && forall i :: 0 <= i < |data| ==> SameMeaning(data[i], arranged[i])
    requires multiset(arranged) == multiset(sorted)
    ensures Covers(sorted, data)
  {
    forall c' | c' in sorted
      ensures exists c :: c in data && SameMeaning(c', c)
    {
      assert c' in multiset(arranged);
      var i :| 0 <= i < |arranged| && arranged[i] == c';
      assert data[i] in data;
    }
  }

  lemma CoveredIsConsistent(cs: seq<Collection>, others: seq<Collection>)
    requires Covers(cs, others) && ConsistentKinds(others)
    ensures ConsistentKinds(cs)
  {
  }

  lemma {:induction false} CoveredLoads(cs: seq<Collection>, others: seq<Collection>)
    requires Covers(cs, others) && ConsistentKinds(cs) && ConsistentKinds(others)
    ensures forall k :: k in Load(cs) ==> k in Load(others) && Load(others)[k] == Load(cs)[k]
  {
    forall k | k in Load(cs)
      ensures k in Load(others) && Load(others)[k] == Load(cs)[k]
    {
      LoadByMembership(cs);
      LoadByMembership(others);
      var c :| c in cs && c.kind == k;
      var c' :| c' in others && SameMeaning(c, c');
    }
  }

  // Writing the sorted collections stores what writing the given ones would have stored.
  lemma {:induction false} SortPreservesMeaning(data: seq<Collection>, sorted: seq<Collection>)
    requires SortResult(data, sorted) && ConsistentKinds(data)
    ensures Load(sorted) == Load(data) && ConsistentKinds(sorted)
  {
    assert Covers(data, sorted) && Covers(sorted, data) by {
      var arranged :| AllArranged(data, arranged) && multiset(arranged) == multiset(sorted);
      AllArrangedMeans(data, arranged);
      RearrangedCovers(data, arranged, sorted);
      RearrangedCoveredBy(data, arranged, sorted);
    }
    SortedLoadsAlike(data, sorted);
  }

  lemma {:induction false} SortedLoadsAlike(data: seq<Collection>, sorted: seq<Collection>)
    requires Covers(data, sorted) && Covers(sorted, data) && ConsistentKinds(data)
    ensures Load(sorted) == Load(data) && ConsistentKinds(sorted)
  {
    CoveredIsConsistent(sorted, data);
    CoveredLoads(data, sorted);
    CoveredLoads(sorted, data);
  }

  // In particular if no kind is given twice.
  lemma {:induction false} SortOfDistinctKinds(data: seq<Collection>, sorted: seq<Collection>)
    requires SortResult(data, sorted) && DistinctKinds(data)
    ensures Load(sorted) == Load(data)
  {
    DistinctKindsAreConsistent(data);
    SortPreservesMeaning(data, sorted);
  }

  // ---------- Sort may return any collection last of its kind ----------

  ghost function ReachSet(g: map<string, set<string>>, k: string): set<string> {
    set x | x in g && Reaches(g, k, x)
  }

  ghost predicate LeastReach(g: map<string, set<string>>, rest: set<string>, k: string) {
    k in rest && forall x :: x in rest ==> |ReachSet(g, k)| <= |ReachSet(g, x)|
  }

  lemma {:induction false} LeastReachExists(g: map<string, set<string>>, rest: set<string>) returns (k: string)
    requires rest != {}
    ensures LeastReach(g, rest, k)
  {
    k :| k in rest;
    if rest != {k} {
      var j := LeastReachExists(g, rest - {k});
      if |ReachSet(g, j)| < |ReachSet(g, k)| {
        k := j;
      }
    }
  }

  // What an item of least reach references either leads back to it or reaches less.
  lemma {:induction false} LeastReachIsMutual(g: map<string, set<string>>, rest: set<string>, k: string, d: string)
    requires k in g && rest <= g.Keys && LeastReach(g, rest, k) && d in Succ(g, k) && d in rest
    ensures Reaches(g, d, k)
  {
    ReachesEdge(g, k, d);
    forall x | x in ReachSet(g, d)
      ensures x in ReachSet(g, k)
    {
      ReachesTrans(g, k, d, x);
    }
    ReachesSelf(g, k);
    if k !in ReachSet(g, d) {
      SmallerSubset(ReachSet(g, d), ReachSet(g, k), k);
      assert false;
    }
  }

  lemma {:induction false} SmallerSubset(a: set<string>, b: set<string>, x: string)
    requires a <= b && x in b && x !in a
    ensures |a| < |b|
  {
    assert a <= b - {x};
    SubsetSize(a, b - {x});
  }

  lemma {:induction false} SubsetSize(a: set<string>, b: set<string>)
    requires a <= b
    ensures |a| <= |b|
  {
    if x :| x in a {
      SubsetSize(a - {x}, b - {x});
    }
  }

  // An item of least reach may come next.
  lemma {:induction false} LeastReachSettled(g: map<string, set<string>>, rest: set<string>, out: seq<KeyedItem>, x: KeyedItem)
    requires x.key in g && rest <= g.Keys && LeastReach(g, rest, x.key)
    requires forall d :: d in g ==> d in rest || d in KeysOf(out)
    requires Succ(g, x.key) <= g.Keys && AllSettled(g, out)
    ensures AllSettled(g, out + [x])
  {
    assert (out + [x])[..|out|] == out;
    forall d | d in Succ(g, x.key) && d !in KeysOf(out)
      ensures Reaches(g, d, x.key)
    {
      LeastReachIsMutual(g, rest, x.key, d);
    }
    SettledKept(g, out, out + [x]);
  }

  lemma {:induction false} LeastReachNext(kind: Kind, all: ItemMap, remaining: ItemMap, out: seq<KeyedItem>, k: string)
    requires WalkInvariant(kind, all, remaining, out, []) && LeastReach(KeyGraph(kind, all), remaining.Keys, k)
    ensures WalkInvariant(kind, all, remaining - {k}, out + [KeyedItem(k, all[k])], [])
  {
    assert AllSettled(KeyGraph(kind, all), out + [KeyedItem(k, all[k])]) by {
      LeastReachSettled(KeyGraph(kind, all), remaining.Keys, out, KeyedItem(k, all[k]));
    }
    AppendKeepsRest(all, remaining - {k}, out, [], k);
  }

  // Every collection can be put in dependency order: those that reach least come first.
  lemma {:induction false} OrderExists(kind: Kind, all: ItemMap, remaining: ItemMap, out: seq<KeyedItem>)
    returns (ordered: seq<KeyedItem>)
    requires WalkInvariant(kind, all, remaining, out, [])
    ensures DependencyOrdered(kind, all, ordered)
    decreases remaining.Keys
  {
    if remaining == map[] {
      WalkEnds(kind, all, out);
      return out;
    }
    var k := LeastReachExists(KeyGraph(kind, all), remaining.Keys);
    LeastReachNext(kind, all, remaining, out, k);
    ordered := OrderExists(kind, all, remaining - {k}, out + [KeyedItem(k, all[k])]);
  }

  lemma {:induction false} ArrangementExists(data: seq<Collection>) returns (arranged: seq<Collection>)
    ensures AllArranged(data, arranged)
  {
    if data == [] {
      return [];
    }
    var n := |data| - 1;
    var c := data[n];
    var init := ArrangementExists(data[..n]);
    if DoesDataKindSupportDependencies(c.kind) {
      var all := LoadItems(c.items);
      var ordered := OrderExists(c.kind, all, all, []);
      arranged := init + [Collection(c.kind, ordered)];
    } else {
      arranged := init + [c];
    }
  }

  // c can be put in behind everything of its own priority.
  ghost predicate PlacedBehind(before: seq<Collection>, c: Collection, after: seq<Collection>) {
    SortedByPriority(before + [c] + after) && forall x :: x in after ==> x.kind != c.kind
  }

  lemma {:induction false} PlacedLast(cs: seq<Collection>, c: Collection)
    requires SortedByPriority(cs) && forall x :: x in cs ==> DataKindPriority(x.kind) <= DataKindPriority(c.kind)
    ensures PlacedBehind(cs, c, [])
  {
    assert cs + [c] + [] == cs + [c];
    AppendLast(cs, c);
  }

  lemma {:induction false} PlacedBefore(before: seq<Collection>, c: Collection, after: seq<Collection>, last: Collection)
    requires PlacedBehind(before, c, after) && DataKindPriority(c.kind) < DataKindPriority(last.kind)
    requires forall x :: x in before + after ==> DataKindPriority(x.kind) <= DataKindPriority(last.kind)
    ensures PlacedBehind(before, c, after + [last])
  {
    forall x | x in before + [c] + after
      ensures DataKindPriority(x.kind) <= DataKindPriority(last.kind)
    {
      assert x in before + after || x == c;
    }
    AppendLast(before + [c] + after, last);
    assert before + [c] + (after + [last]) == before + [c] + after + [last];
  }

  lemma {:induction false} PlaceBehind(cs: seq<Collection>, c: Collection)
    returns (before: seq<Collection>, after: seq<Collection>)
    requires SortedByPriority(cs)
    ensures cs == before + after && PlacedBehind(before, c, after)
  {
    var n := |cs| - 1;
    if cs == [] || DataKindPriority(cs[n].kind) <= DataKindPriority(c.kind) {
      PlacedLast(cs, c);
      return cs, [];
    }
    var rest;
    before, rest := PlaceBehind(cs[..n], c);
    PlacedBefore(before, c, rest, cs[n]);
    after := rest + [cs[n]];
    assert cs == cs[..n] + [cs[n]];
  }

  lemma {:induction false} SortedExists(cs: seq<Collection>) returns (sorted: seq<Collection>)
    ensures SortedByPriority(sorted) && multiset(sorted) == multiset(cs)
  {
    if cs == [] {
      return [];
    }
    var rest := SortedExists(cs[1..]);
    var before, after := PlaceBehind(rest, cs[0]);
    assert cs == [cs[0]] + cs[1..];
    sorted := before + [cs[0]] + after;
  }

  // Any collection may end up as the one that decides what its kind means.
  lemma {:induction false} SortedWithLast(data: seq<Collection>, i: nat) returns (sorted: seq<Collection>)
    requires i < |data|
    ensures SortResult(data, sorted)
    ensures data[i].kind in Load(sorted) && Load(sorted)[data[i].kind] == LoadItems(data[i].items)
  {
    var arranged := ArrangementExists(data);
    AllArrangedMeans(data, arranged);
    var c := arranged[i];
    TakeOut(arranged, i);
    var rest := SortedExists(arranged[..i] + arranged[i + 1..]);
    var before, after := PlaceBehind(rest, c);
    sorted := before + [c] + after;
    assert multiset(arranged) == multiset(sorted);
    LoadLast(before + [c], after);
  }

  lemma {:induction false} LoadLast(cs: seq<Collection>, more: seq<Collection>)
    requires cs != [] && forall x :: x in more ==> x.kind != cs[|cs| - 1].kind
    ensures var c := cs[|cs| - 1]; c.kind in Load(cs + more) && Load(cs + more)[c.kind] == LoadItems(c.items)
  {
    if more == [] {
      assert cs + more == cs;
    } else {
      var n := |more| - 1;
      LoadLast(cs, more[..n]);
      assert (cs + more)[..|cs| + n] == cs + more[..n];
    }
  }

  // Whatever order Sort chooses, what is stored is what was given.
  ghost predicate SortKeepsMeaning(data: seq<Collection>) {
    forall sorted :: SortResult(data, sorted) ==> Load(sorted) == Load(data)
  }

  // That is so exactly when collections of one kind mean the same.
  lemma {:induction false} SortKeepsMeaningExactlyWhen(data: seq<Collection>)
    ensures SortKeepsMeaning(data) <==> ConsistentKinds(data)
  {
    if ConsistentKinds(data) {
      forall sorted | SortResult(data, sorted)
        ensures Load(sorted) == Load(data)
      {
        SortPreservesMeaning(data, sorted);
      }
    }
    if SortKeepsMeaning(data) {
      forall c, c' | c in data && c' in data && c.kind == c'.kind
        ensures LoadItems(c.items) == LoadItems(c'.items)
      {
        DecidesWhenKept(data, c);
        DecidesWhenKept(data, c');
      }
    }
  }

  lemma {:induction false} DecidesWhenKept(data: seq<Collection>, c: Collection)
    requires SortKeepsMeaning(data) && c in data
    ensures c.kind in Load(data) && Load(data)[c.kind] == LoadItems(c.items)
  {
    var i :| 0 <= i < |data| && data[i] == c;
    var sorted := SortedWithLast(data, i);
  }

  // For example, two collections of one kind with different contents may change places.
  lemma {:induction false} InconsistentKindsMayChangeMeaning()
    ensures exists data, sorted :: SortResult(data, sorted) && Load(sorted) != Load(data)
  {
    var c := Collection(Segments, [KeyedItem("s", ItemDescriptor(1, None))]);
    var c' := Collection(Segments, [KeyedItem("s", ItemDescriptor(2, None))]);
    assert LoadItems(c.items)["s"].version == 1 by { LoadItemsKeepsLast(c.items, 0); }
    assert LoadItems(c'.items)["s"].version == 2 by { LoadItemsKeepsLast(c'.items, 0); }
    assert c in [c, c'] && c' in [c, c'];
    SortKeepsMeaningExactlyWhen([c, c']);
  }

  // With acyclic prerequisites each flag is written after everything present that it references:
  // after every collection of segments, and after the prerequisites in its own collection.
  lemma {:induction false} FlagsFollowReferences(data: seq<Collection>, sorted: seq<Collection>, j: nat, b: nat, v: Vertex)
    requires SortResult(data, sorted)
    requires j < |sorted| && sorted[j].kind == Features && b < |sorted[j].items|
    requires Acyclic(Features, LoadItems(sorted[j].items))
    requires v in Neighbors(Features, sorted[j].items[b].item)
    ensures v.kind == Segments ==> forall i :: 0 <= i < |sorted| && sorted[i].kind == Segments ==> i < j
    ensures v.kind == Features && v.key in KeysOf(sorted[j].items) ==>
              exists a :: 0 <= a < b && sorted[j].items[a].key == v.key
    ensures v.kind == Features || v.kind == Segments
  {
    PriorityOrdersKinds(sorted);
    if v.kind == Features && v.key in KeysOf(sorted[j].items) {
      FeaturesAreOrdered(data, sorted, j);
      PrerequisiteComesFirst(LoadItems(sorted[j].items), sorted[j].items, b, v);
    }
  }

  lemma PriorityOrdersKinds(sorted: seq<Collection>)
    requires SortedByPriority(sorted)
    ensures forall i, j | 0 <= i < |sorted| && 0 <= j < |sorted| :: sorted[i].kind == Segments && sorted[j].kind == Features ==> i < j
  {
  }

  // Collections of any further kind come after all flags and segments.
  lemma OtherKindsComeLast(data: seq<Collection>, sorted: seq<Collection>, i: nat, j: nat)
    requires SortResult(data, sorted) && i < |sorted| && j < |sorted|
    requires IsSdkKind(sorted[i].kind) && sorted[j].kind.Other? && sorted[j].kind.name !in {"features", "segments"}
    ensures i < j
  {
  }

  lemma {:induction false} FeaturesAreOrdered(data: seq<Collection>, sorted: seq<Collection>, j: nat)
    requires SortResult(data, sorted) && j < |sorted| && sorted[j].kind == Features
    ensures DependencyOrdered(Features, LoadItems(sorted[j].items), sorted[j].items)
  {
    var arranged :| AllArranged(data, arranged) && multiset(arranged) == multiset(sorted);
    assert sorted[j] in multiset(arranged);
    var i :| 0 <= i < |arranged| && arranged[i] == sorted[j];
    assert Arranged(data[i], sorted[j]);
  }

  lemma {:induction false} PrerequisiteComesFirst(all: ItemMap, items: seq<KeyedItem>, b: nat, v: Vertex)
    requires DependencyOrdered(Features, all, items) && Acyclic(Features, all)
    requires b < |items| && v in Neighbors(Features, items[b].item)
    requires v.kind == Features && v.key in KeysOf(items)
    ensures exists a :: 0 <= a < b && items[a].key == v.key
  {
    FullyOrderedExactlyWhenAcyclic(Features, all, items);
    LoadItemsDistinct(items);
    ReferenceIsEdge(Features, all, items[b].key, v);
    var x :| x in items[..b] && x.key == v.key;
    var a :| 0 <= a < b && items[..b][a] == x;
  }
}
