/**
 internal/datasource/data_model_dependencies.go: the references between stored items, kept in both
 directions and brought up to date item by item.
 */
module DependencyTracking {
  import opened DataModel
  import opened Graph
  import opened Toposort

  type AdjacencyList = map<Vertex, set<Vertex>>

  // A set of vertices that a callee may add to (toposort.Neighbors).
  class VertexSet {
    var items: set<Vertex>

    constructor ()
      ensures items == {}
    {
      items := {};
    }
  }

  // ---------- What a tracker should know about stored data ----------

  function ReferencesIn(d: DataMap, v: Vertex): set<Vertex> {
    match Lookup(d, v)
    case Some(item) => Neighbors(v.kind, item)
    case None => {}
  }

  // Each item is tracked with the references of the item stored now, and nothing else is.
  ghost predicate Tracks(from: AdjacencyList, d: DataMap) {
    forall v :: Succ(from, v) == ReferencesIn(d, v)
  }

  // ---------- The tracker ----------

  class DependencyTracker {
    var dependenciesFrom: AdjacencyList
    var dependenciesTo: AdjacencyList

    constructor ()
      ensures Valid() && dependenciesFrom == map[]
    {
      dependenciesFrom := map[];
      dependenciesTo := map[];
    }

    ghost predicate Valid()
      reads this
    {
      Transposed(dependenciesFrom, dependenciesTo)
    }

    method UpdateDependenciesFrom(kind: Kind, fromKey: string, fromItem: ItemDescriptor)
      requires Valid()
      modifies this
      ensures Valid()
      ensures dependenciesFrom == old(dependenciesFrom)[Vertex(kind, fromKey) := Neighbors(kind, fromItem)]
    {
      var fromWhat := Vertex(kind, fromKey);
      var updatedDependencies := GetNeighbors(kind, fromItem);

      var oldDependencySet := if fromWhat in dependenciesFrom then dependenciesFrom[fromWhat] else {};
      ghost var from0, to0 := dependenciesFrom, dependenciesTo;
      RemoveReverseEdges(fromWhat, oldDependencySet);
      AllEdgesRemoved(from0, to0, fromWhat, dependenciesTo);
      ghost var to1 := dependenciesTo;
      dependenciesFrom := dependenciesFrom[fromWhat := updatedDependencies];
      AddReverseEdges(fromWhat, updatedDependencies);
      TransposeUpdated(from0, to0, to1, fromWhat, updatedDependencies, dependenciesTo);
    }

    // The first loop of updateDependenciesFrom.
    method RemoveReverseEdges(fromWhat: Vertex, oldDependencySet: set<Vertex>)
      modifies this`dependenciesTo
      ensures EdgesRemoved(old(dependenciesTo), fromWhat, oldDependencySet, dependenciesTo)
    {
      ghost var done: set<Vertex> := {};
      var todo := oldDependencySet;
      while todo != {}
        invariant done + todo == oldDependencySet && done !! todo
        invariant EdgesRemoved(old(dependenciesTo), fromWhat, done, dependenciesTo)
        decreases todo
      {
        var oldDep :| oldDep in todo;
        RemoveEdge(old(dependenciesTo), fromWhat, done, dependenciesTo, oldDep);
        if oldDep in dependenciesTo {
          dependenciesTo := dependenciesTo[oldDep := dependenciesTo[oldDep] - {fromWhat}];
        }
        todo, done := todo - {oldDep}, done + {oldDep};
      }
    }

    // The second loop of updateDependenciesFrom.
    method AddReverseEdges(fromWhat: Vertex, updatedDependencies: set<Vertex>)
      modifies this`dependenciesTo
      ensures EdgesAdded(old(dependenciesTo), fromWhat, updatedDependencies, dependenciesTo)
    {
      ghost var done: set<Vertex> := {};
      var todo := updatedDependencies;
      while todo != {}
        invariant done + todo == updatedDependencies && done !! todo
        invariant EdgesAdded(old(dependenciesTo), fromWhat, done, dependenciesTo)
        decreases todo
      {
        var newDep :| newDep in todo;
        AddEdge(old(dependenciesTo), fromWhat, done, dependenciesTo, newDep);
        if newDep !in dependenciesTo {
          dependenciesTo := dependenciesTo[newDep := {}];
        }
        dependenciesTo := dependenciesTo[newDep := dependenciesTo[newDep] + {fromWhat}];
        todo, done := todo - {newDep}, done + {newDep};
      }
    }

    method Reset()
      modifies this
      ensures Valid() && dependenciesFrom == map[]
    {
      dependenciesFrom := map[];
      dependenciesTo := map[];
    }

    // Adds to itemsOut exactly the vertices that lead to the modified item by a chain of references
    // meeting none of the vertices already in itemsOut; the item itself is the shortest chain.
    method AddAffectedItems(itemsOut: VertexSet, initialModifiedItem: Vertex)
      modifies itemsOut
      ensures AddsReachable(dependenciesTo, old(itemsOut.items), initialModifiedItem, itemsOut.items)
      ensures initialModifiedItem in itemsOut.items
      ensures ClosedSince(dependenciesTo, old(itemsOut.items), itemsOut.items)
      decreases Vertices(dependenciesTo) + {initialModifiedItem} - itemsOut.items
    {
      ghost var before := itemsOut.items;
      if initialModifiedItem !in itemsOut.items {
        itemsOut.items := itemsOut.items + {initialModifiedItem};
        var affectedItems := if initialModifiedItem in dependenciesTo then dependenciesTo[initialModifiedItem] else {};
        OutsideSelf(dependenciesTo, before, initialModifiedItem);
        var todo := affectedItems;
        while todo != {}
          invariant todo <= affectedItems
          invariant before + {initialModifiedItem} <= itemsOut.items && affectedItems - todo <= itemsOut.items
          invariant ClosedSince(dependenciesTo, before + {initialModifiedItem}, itemsOut.items)
          invariant forall v :: v in itemsOut.items && v !in before ==>
                                ReachesOutside(dependenciesTo, before, initialModifiedItem, v)
        {
          var affectedItem :| affectedItem in todo;
          todo := todo - {affectedItem};
          ghost var sofar := itemsOut.items;
          SuccIsVertex(dependenciesTo, initialModifiedItem, affectedItem);
          AddAffectedItems(itemsOut, affectedItem);
          forall v | v in itemsOut.items && v !in sofar
            ensures ReachesOutside(dependenciesTo, before, initialModifiedItem, v)
          {
            OutsideEdge(dependenciesTo, before, sofar, initialModifiedItem, affectedItem, v);
          }
        }
      }
      ClosedIsExact(dependenciesTo, before, itemsOut.items, initialModifiedItem);
    }
  }

  ghost predicate EdgesRemoved(to: AdjacencyList, u: Vertex, ends: set<Vertex>, to': AdjacencyList) {
    forall v :: Succ(to', v) == if v in ends then Succ(to, v) - {u} else Succ(to, v)
  }

  ghost predicate EdgesAdded(to: AdjacencyList, u: Vertex, ends: set<Vertex>, to': AdjacencyList) {
    forall v :: Succ(to', v) == if v in ends then Succ(to, v) + {u} else Succ(to, v)
  }

  lemma RemoveEdge(to: AdjacencyList, u: Vertex, ends: set<Vertex>, to': AdjacencyList, v: Vertex)
    requires EdgesRemoved(to, u, ends, to') && v !in ends
    ensures EdgesRemoved(to, u, ends + {v}, if v in to' then to'[v := to'[v] - {u}] else to')
  {
  }

  lemma AddEdge(to: AdjacencyList, u: Vertex, ends: set<Vertex>, to': AdjacencyList, v: Vertex)
    requires EdgesAdded(to, u, ends, to') && v !in ends
    ensures EdgesAdded(to, u, ends + {v}, to'[v := Succ(to', v) + {u}])
  {
  }

  lemma AllEdgesRemoved(from: AdjacencyList, to: AdjacencyList, u: Vertex, to': AdjacencyList)
    requires Transposed(from, to) && EdgesRemoved(to, u, Succ(from, u), to')
    ensures forall v :: Succ(to', v) == Succ(to, v) - {u}
  {
  }

  lemma {:induction false} TransposeUpdated(
    from: AdjacencyList, to: AdjacencyList, to': AdjacencyList, u: Vertex, refs: set<Vertex>, to'': AdjacencyList)
    requires Transposed(from, to)
    requires forall v :: Succ(to', v) == Succ(to, v) - {u}
    requires EdgesAdded(to', u, refs, to'')
    ensures Transposed(from[u := refs], to'')
  {
    forall a, b
      ensures b in Succ(from[u := refs], a) <==> a in Succ(to'', b)
    {
      assert b in Succ(from, a) <==> a in Succ(to, b);
    }
  }

  // now is before and every vertex that item leads to without meeting before.
  ghost predicate AddsReachable(g: AdjacencyList, before: set<Vertex>, item: Vertex, now: set<Vertex>) {
    forall v :: v in now <==> v in before || ReachesOutside(g, before, item, v)
  }

  function Vertices(g: AdjacencyList): set<Vertex> {
    g.Keys + set u, v | u in g && v in g[u] :: v
  }

  lemma SuccIsVertex(g: AdjacencyList, u: Vertex, v: Vertex)
    requires v in Succ(g, u)
    ensures v in Vertices(g)
  {
  }

  // Whatever a vertex of now outside before leads to is in now.
  ghost predicate ClosedSince(g: AdjacencyList, before: set<Vertex>, now: set<Vertex>) {
    forall u :: u in now && u !in before ==> Succ(g, u) <= now
  }

  lemma {:induction false} OutsideSelf(g: AdjacencyList, s: set<Vertex>, v: Vertex)
    requires v !in s
    ensures ReachesOutside(g, s, v, v)
  {
    assert Connects(g, [v], v, v);
  }

  lemma {:induction false} OutsideEdge(g: AdjacencyList, s: set<Vertex>, s': set<Vertex>, u: Vertex, w: Vertex, v: Vertex)
    requires s <= s' && u !in s && w in Succ(g, u) && ReachesOutside(g, s', w, v)
    ensures ReachesOutside(g, s, u, v)
  {
    var p :| Connects(g, p, w, v) && forall x :: x in p ==> x !in s';
    assert ([u] + p)[1..] == p;
    assert Connects(g, [u] + p, u, v);
  }

  lemma {:induction false} ClosedIsExact(g: AdjacencyList, before: set<Vertex>, now: set<Vertex>, item: Vertex)
    requires before <= now && item in now && ClosedSince(g, before, now)
    requires forall v :: v in now && v !in before ==> ReachesOutside(g, before, item, v)
    ensures AddsReachable(g, before, item, now)
  {
    forall v | ReachesOutside(g, before, item, v)
      ensures v in now
    {
      var p :| Connects(g, p, item, v) && forall x :: x in p ==> x !in before;
      PathStaysInside(g, p, now, before);
    }
  }

  // ---------- Repeated calls ----------

  // All the vertices that some changed vertex reaches, and no other.
  ghost predicate IsClosure(g: AdjacencyList, changed: set<Vertex>, result: set<Vertex>) {
    forall v :: v in result <==> exists c :: c in changed && Reaches(g, c, v)
  }

  // Adding the items affected by one more change to a closure gives the closure of both.
  lemma {:induction false} ClosureGrows(g: AdjacencyList, changed: set<Vertex>, before: set<Vertex>, c: Vertex, now: set<Vertex>)
    requires IsClosure(g, changed, before)
    requires AddsReachable(g, before, c, now)
    ensures IsClosure(g, changed + {c}, now)
  {
    forall v
      ensures v in now <==> exists x :: x in changed + {c} && Reaches(g, x, v)
    {
      if v in now && v !in before {
        var p :| Connects(g, p, c, v) && forall x :: x in p ==> x !in before;
        assert c in changed + {c} && Reaches(g, c, v);
      }
      if v in before {
        var x :| x in changed && Reaches(g, x, v);
        assert x in changed + {c};
      }
      if v !in before && exists x :: x in changed + {c} && Reaches(g, x, v) {
        assert Reaches(g, c, v);
        ReachesFromOutside(g, changed, before, c, v);
      }
    }
  }

  // A path that enters a closure does not leave it, so a path to a vertex outside never meets it.
  lemma {:induction false} ReachesFromOutside(g: AdjacencyList, changed: set<Vertex>, before: set<Vertex>, c: Vertex, v: Vertex)
    requires IsClosure(g, changed, before) && Reaches(g, c, v) && v !in before
    ensures ReachesOutside(g, before, c, v)
  {
    var p :| Connects(g, p, c, v);
    forall x | x in p
      ensures x !in before
    {
      var i :| 0 <= i < |p| && p[i] == x;
      PathSuffix(g, p, i);
      if x in before {
        var y :| y in changed && Reaches(g, y, x);
        assert Reaches(g, x, v);
        ReachesTrans(g, y, x, v);
      }
    }
  }
}
