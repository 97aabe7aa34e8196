/**
 Paths and reachability in a finite directed graph given by its adjacency lists.
 */
module Graph {

  function Succ<V>(g: map<V, set<V>>, v: V): set<V> {
    if v in g then g[v] else {}
  }

  ghost predicate IsPath<V>(g: map<V, set<V>>, p: seq<V>) {
    && |p| > 0
    && (|p| > 1 ==> p[1] in Succ(g, p[0]) && IsPath(g, p[1..]))
  }

  ghost predicate Connects<V>(g: map<V, set<V>>, p: seq<V>, a: V, b: V) {
    IsPath(g, p) && p[0] == a && p[|p| - 1] == b
  }

  // There is a path, possibly of a single vertex, from a to b.
  ghost predicate Reaches<V(!new)>(g: map<V, set<V>>, a: V, b: V) {
    exists p :: Connects(g, p, a, b)
  }

  // There is a path from a to b none of whose vertices, ends included, is in s.
  ghost predicate ReachesOutside<V(!new)>(g: map<V, set<V>>, s: set<V>, a: V, b: V) {
    exists p :: Connects(g, p, a, b) && forall x :: x in p ==> x !in s
  }

  // to is from with every edge turned round.
  ghost predicate Transposed<V(!new)>(from: map<V, set<V>>, to: map<V, set<V>>) {
    forall a, b :: b in Succ(from, a) <==> a in Succ(to, b)
  }

  lemma {:induction false} ReachesSelf<V(!new)>(g: map<V, set<V>>, a: V)
    ensures Reaches(g, a, a)
  {
    assert Connects(g, [a], a, a);
  }

  lemma {:induction false} PathStaysInside<V>(g: map<V, set<V>>, p: seq<V>, inside: set<V>, avoid: set<V>)
    requires IsPath(g, p) && p[0] in inside
    requires forall x :: x in p ==> x !in avoid
    requires forall x :: x in inside && x !in avoid ==> Succ(g, x) <= inside
    ensures forall x :: x in p ==> x in inside
  {
    if |p| > 1 {
      assert p == [p[0]] + p[1..];
      PathStaysInside(g, p[1..], inside, avoid);
    }
  }

  lemma {:induction false} JoinPaths<V>(g: map<V, set<V>>, p: seq<V>, q: seq<V>)
    requires IsPath(g, p) && IsPath(g, q) && p[|p| - 1] == q[0]
    ensures IsPath(g, p + q[1..])
  {
    if |p| == 1 {
      assert p + q[1..] == q;
    } else {
      JoinPaths(g, p[1..], q);
      assert (p + q[1..])[1..] == p[1..] + q[1..];
    }
  }

  lemma {:induction false} ReachesTrans<V(!new)>(g: map<V, set<V>>, a: V, b: V, c: V)
    requires Reaches(g, a, b) && Reaches(g, b, c)
    ensures Reaches(g, a, c)
  {
    var p :| Connects(g, p, a, b);
    var q :| Connects(g, q, b, c);
    JoinPaths(g, p, q);
    assert Connects(g, p + q[1..], a, c);
  }

  lemma {:induction false} ReachesEdge<V(!new)>(g: map<V, set<V>>, a: V, b: V)
    requires b in Succ(g, a)
    ensures Reaches(g, a, b)
  {
    assert [a, b][1..] == [b];
    assert Connects(g, [a, b], a, b);
  }

  lemma {:induction false} PathSuffix<V>(g: map<V, set<V>>, p: seq<V>, i: nat)
    requires IsPath(g, p) && i < |p|
    ensures Connects(g, p[i..], p[i], p[|p| - 1])
  {
    if i > 0 {
      PathSuffix(g, p[1..], i - 1);
      assert p[1..][i - 1..] == p[i..];
    }
  }

  lemma {:induction false} PathExtends<V>(g: map<V, set<V>>, p: seq<V>, v: V)
    requires IsPath(g, p) && v in Succ(g, p[|p| - 1])
    ensures IsPath(g, p + [v])
  {
    var q := [p[|p| - 1], v];
    assert q[1..] == [v];
    JoinPaths(g, p, q);
  }

  // Following edges forwards in one graph is following them backwards in its transpose.
  lemma {:induction false} TransposedPath<V(!new)>(from: map<V, set<V>>, to: map<V, set<V>>, p: seq<V>)
    requires Transposed(from, to) && IsPath(from, p)
    ensures Reaches(to, p[|p| - 1], p[0])
  {
    if |p| == 1 {
      ReachesSelf(to, p[0]);
    } else {
      TransposedPath(from, to, p[1..]);
      ReachesEdge(to, p[1], p[0]);
      ReachesTrans(to, p[|p| - 1], p[1], p[0]);
    }
  }

  lemma {:induction false} TransposedReaches<V(!new)>(from: map<V, set<V>>, to: map<V, set<V>>, a: V, b: V)
    requires Transposed(from, to)
    ensures Reaches(from, a, b) <==> Reaches(to, b, a)
  {
    if Reaches(from, a, b) {
      var p :| Connects(from, p, a, b);
      TransposedPath(from, to, p);
    }
    if Reaches(to, b, a) {
      var p :| Connects(to, p, b, a);
      TransposedPath(to, from, p);
    }
  }

  // Only the adjacency lists of the vertices on a path matter to it.
  lemma {:induction false} PathInBoth<V>(g: map<V, set<V>>, g': map<V, set<V>>, p: seq<V>)
    requires IsPath(g, p)
    requires forall x :: x in p ==> Succ(g, x) == Succ(g', x)
    ensures IsPath(g', p)
  {
    if |p| > 1 {
      assert p[0] in p && p == [p[0]] + p[1..];
      PathInBoth(g, g', p[1..]);
    }
  }
}
