/**
 * Execution levels (buildDependencyLevels in src/utils/jobGraph.ts): Kahn's algorithm
 * against the depth of a node, the length of its longest dependency chain.
 */
module Levels {
  import opened Wrappers
  import opened Graph
  import opened JobGraph

  // The nodes that are done after k levels: all their dependencies were done before
  ghost function Below(g: Graph, k: nat): (s: set<Id>)
    ensures s <= g.Keys
  {
    if k == 0 then {} else set a | a in g && forall b :: b in g[a] ==> b in Below(g, k - 1)
  }

  ghost function Layer(g: Graph, k: nat): set<Id> {
    Below(g, k + 1) - Below(g, k)
  }

  lemma {:induction false} BelowGrows(g: Graph, j: nat, k: nat)
    requires j <= k
    ensures Below(g, j) <= Below(g, k)
  {
    if j > 0 {
      BelowGrows(g, j - 1, k - 1);
    }
  }

  lemma BelowEdge(g: Graph, a: Id, b: Id, k: nat)
    requires Edge(g, a, b) && a in Below(g, k)
    ensures k > 0 && b in Below(g, k - 1)
  {
  }

  lemma {:induction false} SameEdgesBelow(g: Graph, h: Graph, k: nat)
    requires h.Keys == g.Keys && forall a, b :: Edge(h, a, b) <==> Edge(g, a, b)
    ensures Below(h, k) == Below(g, k)
  {
    if k > 0 {
      SameEdgesBelow(g, h, k - 1);
      forall a | a in g ensures a in Below(h, k) <==> a in Below(g, k) {
        forall b ensures b in h[a] <==> b in g[a] {
          assert Edge(h, a, b) <==> Edge(g, a, b);
        }
      }
    }
  }

  ghost predicate ChainFrom(g: Graph, p: seq<Id>, a: Id) {
    IsPath(g, p) && p[0] == a
  }

  // A node is done after k levels iff no dependency chain from it has more than k nodes
  lemma {:induction false} BelowBoundsChains(g: Graph, a: Id, k: nat)
    requires Resolved(g) && a in g
    ensures a in Below(g, k) <==> forall p :: ChainFrom(g, p, a) ==> |p| <= k
    decreases k
  {
    if k == 0 {
      assert ChainFrom(g, [a], a);
    } else {
      forall b | b in g[a]
        ensures b in Below(g, k - 1) <==> forall q :: ChainFrom(g, q, b) ==> |q| <= k - 1
      {
        assert Edge(g, a, b);
        BelowBoundsChains(g, b, k - 1);
      }
      if a in Below(g, k) {
        forall p | ChainFrom(g, p, a) ensures |p| <= k {
          if |p| > 1 {
            assert Edge(g, p[0], p[1]);
            assert ChainFrom(g, p[1..], p[1]);
          }
        }
      } else {
        var b :| b in g[a] && b !in Below(g, k - 1);
        var q :| ChainFrom(g, q, b) && |q| > k - 1;
        assert ChainFrom(g, [a] + q, a);
      }
    }
  }

  // Level k (from 0) holds exactly the nodes whose longest chain has k + 1 nodes
  lemma LayerIsLongestChain(g: Graph, a: Id, k: nat)
    requires Resolved(g) && a in g
    ensures a in Layer(g, k) <==>
      (exists p :: ChainFrom(g, p, a) && |p| == k + 1) && (forall p :: ChainFrom(g, p, a) ==> |p| <= k + 1)
  {
    BelowBoundsChains(g, a, k);
    BelowBoundsChains(g, a, k + 1);
    if a in Layer(g, k) {
      var p :| ChainFrom(g, p, a) && |p| > k;
      assert |p| == k + 1;
    }
  }

  lemma EdgeDropsLayer(g: Graph, a: Id, b: Id, j: nat, k: nat)
    requires Edge(g, a, b) && a in Layer(g, j) && b in Layer(g, k)
    ensures k < j
  {
    if j <= k {
      assert b in Below(g, j);
      BelowGrows(g, j, k);
    }
  }

  // Once a level adds nothing, what is left is missing a node or holds a cycle
  lemma StalledIsBad(g: Graph, k: nat)
    requires Below(g, k + 1) == Below(g, k) && Below(g, k) != g.Keys
    ensures !Resolved(g) || Cyclic(g)
  {
    var left := g.Keys - Below(g, k);
    if Resolved(g) {
      forall x | x in left ensures PointsInto(g, left, x) {
        assert x !in Below(g, k + 1);
        var y :| y in g[x] && y !in Below(g, k);
        assert Edge(g, x, y);
      }
      assert left != {} by {
        if left == {} {
          forall x | x in g ensures x in Below(g, k) {
            assert x !in left;
          }
        }
      }
      StuckSetIsCyclic(g, left);
    }
  }

  lemma {:induction false} EveryNodeHasDepth(g: Graph, k: nat)
    requires Resolved(g) && !Cyclic(g)
    ensures exists n: nat :: Below(g, n) == g.Keys
    decreases g.Keys - Below(g, k)
  {
    if Below(g, k) != g.Keys {
      BelowGrows(g, k, k + 1);
      if Below(g, k + 1) == Below(g, k) {
        StalledIsBad(g, k);
      }
      EveryNodeHasDepth(g, k + 1);
    }
  }

  lemma {:induction false} BelowStaysInside(g: Graph, p: seq<Id>, k: nat)
    requires IsPath(g, p) && p[0] in Below(g, k)
    ensures |p| <= k && p[|p| - 1] in Below(g, k - |p| + 1)
    decreases |p|
  {
    if |p| > 1 {
      assert Edge(g, p[0], p[1]);
      BelowStaysInside(g, p[1..], k - 1);
    }
  }

  lemma CompleteIsGood(g: Graph, k: nat)
    requires Below(g, k) == g.Keys
    ensures Resolved(g) && !Cyclic(g)
  {
    forall a, b | Edge(g, a, b) ensures b in g {
      assert a in Below(g, k);
    }
    if Cyclic(g) {
      var p :| ClosedPath(g, p);
      assert Edge(g, p[0], p[1]);
      Turns(g, p, k);
    }
  }

  // Walking a closed path k times gives a chain longer than any level allows
  lemma {:induction false} Turns(g: Graph, p: seq<Id>, k: nat)
    requires ClosedPath(g, p)
    ensures p[0] !in Below(g, k)
    decreases k
  {
    if p[0] in Below(g, k) {
      BelowStaysInside(g, p, k);
      Turns(g, p, k - |p| + 1);
    }
  }

  // ----- Kahn's counters -----

  // How many entries of a dependency list are not yet processed, repeats counted
  function Outstanding(entries: seq<Id>, done: set<Id>): nat {
    if entries == [] then 0
    else Outstanding(entries[1..], done) + if entries[0] in done then 0 else 1
  }

  lemma {:induction false} OutstandingZero(entries: seq<Id>, done: set<Id>)
    ensures Outstanding(entries, done) == 0 <==> forall b :: b in entries ==> b in done
  {
    if entries != [] {
      OutstandingZero(entries[1..], done);
      assert entries == [entries[0]] + entries[1..];
    }
  }

  lemma {:induction false} OutstandingAll(entries: seq<Id>)
    ensures Outstanding(entries, {}) == |entries|
  {
    if entries != [] {
      OutstandingAll(entries[1..]);
    }
  }

  lemma {:induction false} OutstandingStep(entries: seq<Id>, done: set<Id>, c: Id)
    requires c !in done
    ensures Outstanding(entries, done) == Outstanding(entries, done + {c}) + multiset(entries)[c]
  {
    if entries != [] {
      OutstandingStep(entries[1..], done, c);
      assert entries == [entries[0]] + entries[1..];
    }
  }

  // The reverse lists of the planner: n appears under d as often as n lists d
  ghost predicate Links(g: Graph, dependents: Graph) {
    && dependents.Keys == g.Keys
    && (forall d, n :: d in g && n in g ==> multiset(dependents[d])[n] == multiset(g[n])[d])
    && (forall d, n :: d in g && n in dependents[d] ==> n in g)
  }

  ghost predicate Counted(g: Graph, counts: map<Id, int>, done: set<Id>) {
    counts.Keys == g.Keys && forall n :: n in g ==> counts[n] == Outstanding(g[n], done)
  }

  function ToSet(s: seq<Id>): set<Id> {
    set a | a in s
  }

  lemma {:induction false} DistinctCount(s: seq<Id>)
    requires Distinct(s)
    ensures |ToSet(s)| == |s|
  {
    if s != [] {
      var last := |s| - 1;
      DistinctCount(s[..last]);
      assert s == s[..last] + [s[last]];
      assert ToSet(s) == ToSet(s[..last]) + {s[last]};
    }
  }

  lemma {:induction false} NodeCount(nodes: seq<Node>)
    requires UniqueIds(nodes)
    ensures |ById(nodes)| == |nodes|
  {
    if nodes != [] {
      NodeCount(nodes[..|nodes| - 1]);
    }
  }

  // One node's entries pushed to the lists of the nodes they name; missing nodes have no list
  method LinkEntries(node: Node, before: Graph) returns (dependents: Graph)
    ensures dependents.Keys == before.Keys
    ensures forall d, n :: d in before ==>
      multiset(dependents[d])[n] == multiset(before[d])[n] + if n == node.id then multiset(node.dependsOn)[d] else 0
  {
    dependents := before;
    for j := 0 to |node.dependsOn|
      invariant dependents.Keys == before.Keys
      invariant forall d, n :: d in before ==>
        multiset(dependents[d])[n] == multiset(before[d])[n] + if n == node.id then multiset(node.dependsOn[..j])[d] else 0
    {
      var d := node.dependsOn[j];
      assert node.dependsOn[..j + 1] == node.dependsOn[..j] + [d];
      if d in dependents {
        dependents := dependents[d := dependents[d] + [node.id]];
      }
    }
    assert node.dependsOn[..|node.dependsOn|] == node.dependsOn;
  }

  // The lists after the first i nodes were linked
  ghost predicate LinkedSoFar(nodes: seq<Node>, i: nat, dependents: Graph)
    requires UniqueIds(nodes) && i <= |nodes|
  {
    && dependents.Keys == ById(nodes).Keys
    && (forall d, k :: d in dependents && 0 <= k < i ==>
      multiset(dependents[d])[nodes[k].id] == multiset(nodes[k].dependsOn)[d])
    && (forall d, n :: d in dependents && n in dependents[d] ==> exists k :: 0 <= k < i && nodes[k].id == n)
  }

  lemma LinkedAll(nodes: seq<Node>, dependents: Graph)
    requires UniqueIds(nodes) && LinkedSoFar(nodes, |nodes|, dependents)
    ensures Links(ById(nodes), dependents)
  {
    forall d, n | d in ById(nodes) && n in ById(nodes)
      ensures multiset(dependents[d])[n] == multiset(ById(nodes)[n])[d]
    {
      var k :| 0 <= k < |nodes| && nodes[k].id == n;
      ByIdFinds(nodes, k);
    }
  }

  method CountDependencies(nodes: seq<Node>) returns (counts: map<Id, int>, dependents: Graph)
    requires UniqueIds(nodes)
    ensures Counted(ById(nodes), counts, {}) && LinkedSoFar(nodes, 0, dependents)
  {
    counts, dependents := map[], map[];
    for i := 0 to |nodes|
      invariant counts.Keys == dependents.Keys == set k | 0 <= k < i :: nodes[k].id
      invariant forall k :: 0 <= k < i ==> counts[nodes[k].id] == |nodes[k].dependsOn|
      invariant forall d :: d in dependents ==> dependents[d] == []
    {
      counts := counts[nodes[i].id := |nodes[i].dependsOn|];
      dependents := dependents[nodes[i].id := []];
    }
    forall k | 0 <= k < |nodes| ensures counts[nodes[k].id] == Outstanding(ById(nodes)[nodes[k].id], {}) {
      ByIdFinds(nodes, k);
      OutstandingAll(nodes[k].dependsOn);
    }
  }

  method CountAndLink(nodes: seq<Node>) returns (counts: map<Id, int>, dependents: Graph)
    requires UniqueIds(nodes)
    ensures Counted(ById(nodes), counts, {}) && Links(ById(nodes), dependents)
  {
    counts, dependents := CountDependencies(nodes);
    hide LinkedSoFar, UniqueIds, ById, Counted, Links;
    for i := 0 to |nodes|
      invariant LinkedSoFar(nodes, i, dependents)
    {
      ghost var before := dependents;
      dependents := LinkEntries(nodes[i], dependents);
      LinkedOneMore(nodes, i, before, dependents);
    }
    LinkedAll(nodes, dependents);
  }

  lemma NotYetLinked(nodes: seq<Node>, i: nat, dependents: Graph, d: Id)
    requires UniqueIds(nodes) && i < |nodes| && LinkedSoFar(nodes, i, dependents) && d in dependents
    ensures multiset(dependents[d])[nodes[i].id] == 0
  {
    hide ById;
    assert nodes[i].id !in dependents[d];
  }

  lemma LinkedOneMore(nodes: seq<Node>, i: nat, before: Graph, after: Graph)
    requires UniqueIds(nodes) && i < |nodes| && LinkedSoFar(nodes, i, before) && after.Keys == before.Keys
    requires forall d, n :: d in before ==>
      multiset(after[d])[n] == multiset(before[d])[n] + if n == nodes[i].id then multiset(nodes[i].dependsOn)[d] else 0
    ensures LinkedSoFar(nodes, i + 1, after)
  {
    hide ById;
    forall d, k | d in after && 0 <= k < i + 1
      ensures multiset(after[d])[nodes[k].id] == multiset(nodes[k].dependsOn)[d]
    {
      NotYetLinked(nodes, i, before, d);
    }
    forall d, n | d in after && n in after[d] ensures exists k :: 0 <= k < i + 1 && nodes[k].id == n {
      assert multiset(after[d])[n] > 0;
      if n != nodes[i].id {
        assert n in before[d];
      }
    }
  }

  // The inner loop for one completed node: count down its dependents, collect those that reach zero
  method CompleteNode(list: seq<Id>, counts0: map<Id, int>, next0: seq<Id>)
    returns (counts: map<Id, int>, next: seq<Id>)
    requires forall n :: n in list ==> n in counts0
    requires forall n :: n in counts0 ==> multiset(list)[n] <= counts0[n]
    requires Distinct(next0) && forall n :: n in next0 ==> n in counts0 && counts0[n] == 0
    ensures counts.Keys == counts0.Keys && forall n :: n in counts0 ==> counts[n] == counts0[n] - multiset(list)[n]
    ensures Distinct(next)
    ensures forall n :: n in next <==> n in next0 || (n in counts0 && counts[n] == 0 < counts0[n])
  {
    counts, next := counts0, next0;
    for i := 0 to |list|
      invariant counts.Keys == counts0.Keys
      invariant forall n :: n in counts0 ==> counts[n] == counts0[n] - multiset(list[..i])[n]
      invariant Distinct(next)
      invariant forall n :: n in next <==> n in next0 || (n in counts0 && counts[n] == 0 < counts0[n])
    {
      var n := list[i];
      CountPrefix(list, i);
      var remaining := counts[n] - 1;
      counts := counts[n := remaining];
      if remaining == 0 {
        next := next + [n];
      }
    }
    assert list[..|list|] == list;
  }

  lemma CountPrefix(list: seq<Id>, i: nat)
    requires i < |list|
    ensures multiset(list[..i + 1]) == multiset(list[..i]) + multiset{list[i]}
    ensures multiset(list[..i + 1])[list[i]] <= multiset(list)[list[i]]
  {
    assert list[..i + 1] == list[..i] + [list[i]];
    assert list == list[..i + 1] + list[i + 1..];
  }

  // Since the level began: counters only fell, and next holds the nodes whose counter reached zero
  ghost predicate ReachedZero(g: Graph, start: map<Id, int>, counts: map<Id, int>, next: seq<Id>) {
    && start.Keys == counts.Keys == g.Keys
    && (forall n :: n in g ==> counts[n] <= start[n])
    && Distinct(next) && forall n :: n in next <==> n in g && counts[n] == 0 < start[n]
  }

  // Completing c turns counts over the processed set into counts over one node more
  method CompleteCounted(
    ghost g: Graph, ghost now: set<Id>, ghost start: map<Id, int>, dependents: Graph, c: Id, counts0: map<Id, int>,
    next0: seq<Id>)
    returns (counts: map<Id, int>, next: seq<Id>)
    requires Links(g, dependents) && Counted(g, counts0, now) && c in g && c !in now
    requires ReachedZero(g, start, counts0, next0)
    ensures Counted(g, counts, now + {c}) && ReachedZero(g, start, counts, next)
  {
    forall n | n in g ensures counts0[n] == Outstanding(g[n], now + {c}) + multiset(dependents[c])[n] {
      OutstandingStep(g[n], now, c);
    }
    counts, next := CompleteNode(dependents[c], counts0, next0);
  }

  method CompleteLevel(ghost g: Graph, ghost done: set<Id>, dependents: Graph, counts0: map<Id, int>, level: seq<Id>)
    returns (counts: map<Id, int>, next: seq<Id>)
    requires Links(g, dependents) && Counted(g, counts0, done)
    requires Distinct(level) && forall i :: 0 <= i < |level| ==> level[i] in g && level[i] !in done
    ensures Counted(g, counts, done + ToSet(level)) && ReachedZero(g, counts0, counts, next)
  {
    counts, next := counts0, [];
    assert ReachedZero(g, counts0, counts, next);
    ghost var now := done;
    hide *;
    for i := 0 to |level|
      invariant Counted(g, counts, now) && ReachedZero(g, counts0, counts, next)
      invariant now == done + ToSet(level[..i])
    {
      PrefixSet(level, i);
      counts, next := CompleteCounted(g, now, counts0, dependents, level[i], counts, next);
      now := now + {level[i]};
    }
    assert level[..|level|] == level;
  }

  lemma PrefixSet(s: seq<Id>, i: nat)
    requires Distinct(s) && i < |s|
    ensures s[i] !in ToSet(s[..i]) && ToSet(s[..i + 1]) == ToSet(s[..i]) + {s[i]}
  {
    assert s[..i + 1] == s[..i] + [s[i]];
  }

  // The ids of the nodes that wait for nothing
  function Ready(nodes: seq<Node>, counts: map<Id, int>): seq<Id> {
    if nodes == [] then []
    else
      var rest := Ready(nodes[..|nodes| - 1], counts);
      var id := nodes[|nodes| - 1].id;
      if id in counts && counts[id] == 0 then rest + [id] else rest
  }

  lemma {:induction false} ReadyIsFilter(nodes: seq<Node>, counts: map<Id, int>)
    requires UniqueIds(nodes)
    ensures Distinct(Ready(nodes, counts))
    ensures forall a :: a in Ready(nodes, counts) <==> a in ById(nodes) && a in counts && counts[a] == 0
  {
    if nodes != [] {
      ReadyIsFilter(nodes[..|nodes| - 1], counts);
    }
  }

  // What the planner promises about one level
  ghost predicate IsLevel(g: Graph, level: seq<Id>, k: nat) {
    level != [] && Distinct(level) && ToSet(level) == Layer(g, k)
  }

  // The planner's loop after k levels
  ghost predicate Progress(
    g: Graph, counts: map<Id, int>, currentLevel: seq<Id>, processed: nat, found: seq<seq<Id>>) {
    && Counted(g, counts, Below(g, |found|))
    && Distinct(currentLevel) && ToSet(currentLevel) == Layer(g, |found|)
    && processed == |Below(g, |found|)|
    && forall k :: 0 <= k < |found| ==> IsLevel(g, found[k], k)
  }

  lemma LayerAdds(g: Graph, k: nat, level: seq<Id>)
    requires Distinct(level) && ToSet(level) == Layer(g, k)
    ensures Below(g, k + 1) == Below(g, k) + ToSet(level)
    ensures |Below(g, k + 1)| == |Below(g, k)| + |level|
    ensures level != [] ==> Below(g, k) < Below(g, k + 1)
  {
    BelowGrows(g, k, k + 1);
    DistinctCount(level);
    hide Below;
    assert Below(g, k + 1) == Below(g, k) + ToSet(level);
    if level != [] {
      assert level[0] in ToSet(level);
    }
  }

  lemma LevelIsFresh(g: Graph, level: seq<Id>, k: nat)
    requires ToSet(level) == Layer(g, k)
    ensures forall i :: 0 <= i < |level| ==> level[i] in g && level[i] !in Below(g, k)
  {
    forall i | 0 <= i < |level| ensures level[i] in Layer(g, k) {
      assert level[i] in ToSet(level);
    }
  }

  lemma NextRound(g: Graph, counts: map<Id, int>, level: seq<Id>, processed: nat, found: seq<seq<Id>>,
                  after: map<Id, int>, next: seq<Id>)
    requires Progress(g, counts, level, processed, found) && level != []
    requires Counted(g, after, Below(g, |found|) + ToSet(level)) && ReachedZero(g, counts, after, next)
    ensures Progress(g, after, next, processed + |level|, found + [level])
    ensures Below(g, |found|) < Below(g, |found| + 1)
  {
    hide Below, Layer, Distinct, ToSet, Outstanding, Counted;
    LayerAdds(g, |found|, level);
    NextLevelIsLayer(g, counts, after, |found|, next);
    assert |found + [level]| == |found| + 1;
    assert IsLevel(g, level, |found|);
  }

  lemma NothingLeft(g: Graph, k: nat, total: nat)
    requires Layer(g, k) == {} && |g| == total
    ensures |Below(g, k)| == total <==> Resolved(g) && !Cyclic(g)
    ensures |Below(g, k)| == total ==> Below(g, k) == g.Keys
  {
    assert ToSet([]) == {};
    LayerAdds(g, k, []);
    hide Below;
    if |Below(g, k)| == total {
      SameSizeSubset(Below(g, k), g.Keys);
      CompleteIsGood(g, k);
    } else {
      StalledIsBad(g, k);
    }
  }

  lemma LastRound(nodes: seq<Node>, g: Graph, counts: map<Id, int>, processed: nat, found: seq<seq<Id>>)
    requires UniqueIds(nodes) && g == ById(nodes) && Progress(g, counts, [], processed, found)
    ensures processed == |nodes| <==> Resolved(g) && !Cyclic(g)
    ensures processed == |nodes| ==>
      Below(g, |found|) == g.Keys && forall k :: 0 <= k < |found| ==> IsLevel(g, found[k], k)
  {
    hide Below, Layer, Distinct, Counted, ById, UniqueIds, Resolved, Cyclic, IsLevel;
    assert Layer(g, |found|) == {};
    NodeCount(nodes);
    NothingLeft(g, |found|, |nodes|);
  }

  // One turn of the planner's loop
  method CompleteRound(
    ghost g: Graph, dependents: Graph, counts: map<Id, int>, level: seq<Id>, ghost processed: nat, ghost found: seq<seq<Id>>)
    returns (after: map<Id, int>, next: seq<Id>)
    requires Links(g, dependents) && Progress(g, counts, level, processed, found) && level != []
    ensures Progress(g, after, next, processed + |level|, found + [level])
    ensures Below(g, |found|) < Below(g, |found| + 1)
  {
    hide Below, Layer, Links, Counted, IsLevel, ToSet;
    LevelIsFresh(g, level, |found|);
    after, next := CompleteLevel(g, Below(g, |found|), dependents, counts, level);
    NextRound(g, counts, level, processed, found, after, next);
  }

  method BuildDependencyLevels(nodes: seq<Node>) returns (levels: Option<seq<seq<Id>>>)
    requires UniqueIds(nodes)
    ensures levels.Some? <==> Resolved(ById(nodes)) && !Cyclic(ById(nodes))
    ensures levels.Some? ==>
      forall k :: 0 <= k < |levels.value| ==> IsLevel(ById(nodes), levels.value[k], k)
    ensures levels.Some? ==> Below(ById(nodes), |levels.value|) == ById(nodes).Keys
  {
    hide *;
    ghost var g := ById(nodes);
    var counts, dependents := CountAndLink(nodes);
    var currentLevel := Ready(nodes, counts);
    FirstRound(nodes, g, counts);
    var found := [];
    var processedNodeCount: nat := 0;
    while |currentLevel| > 0
      invariant Progress(g, counts, currentLevel, processedNodeCount, found)
      decreases g.Keys - Below(g, |found|)
    {
      var after, next := CompleteRound(g, dependents, counts, currentLevel, processedNodeCount, found);
      found := found + [currentLevel];
      processedNodeCount := processedNodeCount + |currentLevel|;
      counts, currentLevel := after, next;
    }
    LastRound(nodes, g, counts, processedNodeCount, found);
    if processedNodeCount != |nodes| {
      return None;
    }
    return Some(found);
  }

  lemma FirstRound(nodes: seq<Node>, g: Graph, counts: map<Id, int>)
    requires UniqueIds(nodes) && g == ById(nodes) && Counted(g, counts, {})
    ensures Progress(g, counts, Ready(nodes, counts), 0, [])
  {
    ReadyIsFilter(nodes, counts);
    forall a | a in g ensures a in Ready(nodes, counts) <==> a in Layer(g, 0) {
      OutstandingZero(g[a], {});
    }
  }

  lemma SameSizeSubset(s: set<Id>, t: set<Id>)
    requires s <= t && |s| == |t|
    ensures s == t
  {
    assert |t - s| == 0;
  }

  lemma NextLevelIsLayer(g: Graph, before: map<Id, int>, after: map<Id, int>, k: nat, next: seq<Id>)
    requires Counted(g, before, Below(g, k)) && Counted(g, after, Below(g, k + 1))
    requires ReachedZero(g, before, after, next)
    ensures ToSet(next) == Layer(g, k + 1)
  {
    forall a | a in g ensures a in next <==> a in Layer(g, k + 1) {
      OutstandingZero(g[a], Below(g, k));
      OutstandingZero(g[a], Below(g, k + 1));
    }
  }
}
