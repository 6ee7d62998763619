/**
 * Directed graphs given by adjacency lists: paths, reachability, cycles and ranks.
 * Everything the dependency graphs of jobs and the chain graph of automations share.
 */
module Graph {
  type Id = string

  // a -> the nodes a points to; an entry may repeat and may name a node the graph lacks
  type Graph = map<Id, seq<Id>>

  predicate Edge(g: Graph, a: Id, b: Id) {
    a in g && b in g[a]
  }

  ghost predicate IsPath(g: Graph, p: seq<Id>) {
    && |p| > 0
    && forall i, j {:trigger p[i], p[j]} :: 0 <= i && j == i + 1 && j < |p| ==> Edge(g, p[i], p[j])
  }

  ghost predicate PathFromTo(g: Graph, p: seq<Id>, a: Id, b: Id) {
    IsPath(g, p) && p[0] == a && p[|p| - 1] == b
  }

  ghost predicate Reach(g: Graph, a: Id, b: Id) {
    exists p :: PathFromTo(g, p, a, b)
  }

  // A path that comes back to its first node after at least one edge
  ghost predicate ClosedPath(g: Graph, p: seq<Id>) {
    IsPath(g, p) && |p| > 1 && p[0] == p[|p| - 1]
  }

  ghost predicate Cyclic(g: Graph) {
    exists p :: ClosedPath(g, p)
  }

  ghost predicate Resolved(g: Graph) {
    forall a, b :: Edge(g, a, b) ==> b in g
  }

  // A rank that drops along every edge
  ghost predicate Ranked(g: Graph, rank: map<Id, nat>) {
    forall a, b :: Edge(g, a, b) ==> a in rank && b in rank && rank[b] < rank[a]
  }

  ghost predicate ClosedUnder(g: Graph, s: set<Id>) {
    forall a, b :: a in s && Edge(g, a, b) ==> b in s
  }

  lemma ReachSelf(g: Graph, a: Id)
    ensures Reach(g, a, a)
  {
    assert PathFromTo(g, [a], a, a);
  }

  lemma ReachTransitive(g: Graph, a: Id, b: Id, c: Id)
    requires Reach(g, a, b) && Reach(g, b, c)
    ensures Reach(g, a, c)
  {
    var p :| PathFromTo(g, p, a, b);
    var q :| PathFromTo(g, q, b, c);
    var r := p + q[1..];
    forall i, j | 0 <= i && j == i + 1 && j < |r| ensures Edge(g, r[i], r[j]) {
      if j < |p| {
        assert Edge(g, p[i], p[j]);
      } else {
        assert r[j] == q[j - |p| + 1] && r[i] == q[i - |p| + 1];
      }
    }
    assert PathFromTo(g, r, a, c);
  }

  lemma ReachEdge(g: Graph, a: Id, b: Id)
    requires Edge(g, a, b)
    ensures Reach(g, a, b)
  {
    assert PathFromTo(g, [a, b], a, b);
  }

  // Reachability is the least set that holds its start and is closed under edges
  lemma {:induction false} PathStaysInside(g: Graph, s: set<Id>, p: seq<Id>)
    requires IsPath(g, p) && p[0] in s && ClosedUnder(g, s)
    ensures p[|p| - 1] in s
    decreases |p|
  {
    if |p| > 1 {
      assert Edge(g, p[0], p[1]);
      PathStaysInside(g, s, p[1..]);
    }
  }

  lemma ReachStaysInside(g: Graph, s: set<Id>, a: Id, b: Id)
    requires a in s && ClosedUnder(g, s) && Reach(g, a, b)
    ensures b in s
  {
    var p :| PathFromTo(g, p, a, b);
    PathStaysInside(g, s, p);
  }

  lemma CyclicIffEdgeBack(g: Graph)
    ensures Cyclic(g) <==> exists a, b :: Edge(g, a, b) && Reach(g, b, a)
  {
    if Cyclic(g) {
      var p :| ClosedPath(g, p);
      assert Edge(g, p[0], p[1]);
      assert PathFromTo(g, p[1..], p[1], p[0]);
    }
    if a, b :| Edge(g, a, b) && Reach(g, b, a) {
      var p :| PathFromTo(g, p, b, a);
      assert ClosedPath(g, [a] + p);
    }
  }

  lemma {:induction false} RankDropsAlongPath(g: Graph, rank: map<Id, nat>, p: seq<Id>)
    requires Ranked(g, rank) && IsPath(g, p) && |p| > 1
    ensures p[0] in rank && p[|p| - 1] in rank
    ensures rank[p[|p| - 1]] < rank[p[0]]
    decreases |p|
  {
    assert Edge(g, p[0], p[1]);
    if |p| > 2 {
      RankDropsAlongPath(g, rank, p[1..]);
    }
  }

  lemma RankedIsAcyclic(g: Graph, rank: map<Id, nat>)
    requires Ranked(g, rank)
    ensures !Cyclic(g)
  {
    if p :| ClosedPath(g, p) {
      RankDropsAlongPath(g, rank, p);
    }
  }

  // Adding b to a's list closes a cycle exactly when a could be reached from b before
  function WithEdge(g: Graph, a: Id, b: Id): Graph
    requires a in g
  {
    g[a := g[a] + [b]]
  }

  lemma {:induction false} PathAvoidsNewEdge(g: Graph, a: Id, b: Id, p: seq<Id>)
    requires a in g && IsPath(WithEdge(g, a, b), p)
    ensures Reach(g, p[0], p[|p| - 1]) || (Reach(g, p[0], a) && Reach(g, b, p[|p| - 1]))
    decreases |p|
  {
    if |p| == 1 {
      ReachSelf(g, p[0]);
    } else {
      var q := p[1..];
      PathAvoidsNewEdge(g, a, b, q);
      assert Edge(WithEdge(g, a, b), p[0], p[1]);
      if Edge(g, p[0], p[1]) {
        ReachEdge(g, p[0], p[1]);
        if Reach(g, q[0], q[|q| - 1]) {
          ReachTransitive(g, p[0], p[1], q[|q| - 1]);
        } else {
          ReachTransitive(g, p[0], p[1], a);
        }
      } else {
        ReachSelf(g, a);
      }
    }
  }

  lemma WithEdgeCyclic(g: Graph, a: Id, b: Id)
    requires a in g && !Cyclic(g)
    ensures Cyclic(WithEdge(g, a, b)) <==> Reach(g, b, a)
  {
    var h := WithEdge(g, a, b);
    if Reach(g, b, a) {
      var p :| PathFromTo(g, p, b, a);
      assert forall x, y :: Edge(g, x, y) ==> Edge(h, x, y);
      assert Edge(h, a, b);
      assert ClosedPath(h, [a] + p);
    }
    if Cyclic(h) {
      CyclicIffEdgeBack(h);
      var x, y :| Edge(h, x, y) && Reach(h, y, x);
      var p :| PathFromTo(h, p, y, x);
      PathAvoidsNewEdge(g, a, b, p);
      CyclicIffEdgeBack(g);
      if Edge(g, x, y) {
        ReachEdge(g, x, y);
        if !Reach(g, y, x) {
          ReachTransitive(g, b, x, y);
          ReachTransitive(g, b, y, a);
        }
      }
    }
  }

  // Removing edges never closes a cycle
  lemma FewerEdgesAcyclic(g: Graph, h: Graph)
    requires !Cyclic(g)
    requires forall a, b :: Edge(h, a, b) ==> Edge(g, a, b)
    ensures !Cyclic(h)
  {
    forall p ensures !ClosedPath(h, p) {
      assert ClosedPath(h, p) ==> ClosedPath(g, p);
    }
  }

  ghost predicate PointsInto(g: Graph, s: set<Id>, x: Id) {
    exists y :: y in s && Edge(g, x, y)
  }

  // A walk of n + 1 nodes that never leaves s
  lemma {:induction false} WalkInside(g: Graph, s: set<Id>, a: Id, n: nat) returns (p: seq<Id>)
    requires a in s
    requires forall x :: x in s ==> PointsInto(g, s, x)
    ensures IsPath(g, p) && |p| == n + 1 && p[0] == a
    ensures forall i :: 0 <= i < |p| ==> p[i] in s
    decreases n
  {
    if n == 0 {
      p := [a];
    } else {
      assert PointsInto(g, s, a);
      var b :| b in s && Edge(g, a, b);
      var q := WalkInside(g, s, b, n - 1);
      p := [a] + q;
    }
  }

  lemma {:induction false} Pigeonhole(p: seq<Id>, s: set<Id>) returns (i: nat, j: nat)
    requires |p| > |s|
    requires forall k :: 0 <= k < |p| ==> p[k] in s
    ensures i < j < |p| && p[i] == p[j]
    decreases |p|
  {
    if k :| 1 <= k < |p| && p[k] == p[0] {
      i, j := 0, k;
    } else {
      var i', j' := Pigeonhole(p[1..], s - {p[0]});
      i, j := i' + 1, j' + 1;
    }
  }

  lemma SubPath(g: Graph, p: seq<Id>, i: nat, j: nat)
    requires IsPath(g, p) && i < j < |p|
    ensures PathFromTo(g, p[i..j + 1], p[i], p[j])
  {
  }

  // If every node of a non-empty finite set points into the set, the set holds a cycle
  lemma StuckSetIsCyclic(g: Graph, s: set<Id>)
    requires s != {}
    requires forall x :: x in s ==> PointsInto(g, s, x)
    ensures Cyclic(g)
  {
    var a :| a in s;
    var p := WalkInside(g, s, a, |s|);
    var i, j := Pigeonhole(p, s);
    SubPath(g, p, i, j);
    assert ClosedPath(g, p[i..j + 1]);
  }
}
