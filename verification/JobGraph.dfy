/**
 * The dependency graph of a job's steps (src/utils/jobGraph.ts): cycle search,
 * closures and the edit check of the workflow editor.
 */
module JobGraph {
  import opened Wrappers
  import opened Graph

  datatype Node = Node(id: Id, dependsOn: seq<Id>)

  ghost predicate UniqueIds(nodes: seq<Node>) {
    forall i, j :: 0 <= i < j < |nodes| ==> nodes[i].id != nodes[j].id
  }

  ghost predicate Distinct(s: seq<Id>) {
    forall i, j :: 0 <= i < j < |s| ==> s[i] != s[j]
  }

  // The Map built from a node list: of two nodes with one id the later one wins
  function ById(nodes: seq<Node>): (g: Graph)
    ensures forall a :: a in g <==> exists i :: 0 <= i < |nodes| && nodes[i].id == a
  {
    if nodes == [] then map[]
    else
      var last := |nodes| - 1;
      assert forall i :: 0 <= i < last ==> nodes[..last][i] == nodes[i];
      ById(nodes[..last])[nodes[last].id := nodes[last].dependsOn]
  }

  lemma {:induction false} ByIdFinds(nodes: seq<Node>, i: nat)
    requires UniqueIds(nodes) && i < |nodes|
    ensures nodes[i].id in ById(nodes) && ById(nodes)[nodes[i].id] == nodes[i].dependsOn
  {
    var last := |nodes| - 1;
    if i < last {
      ByIdFinds(nodes[..last], i);
    }
  }

  // The entries the cycle search follows: neither the node itself nor a missing node
  function ProperEntries(entries: seq<Id>, a: Id, keys: set<Id>): seq<Id> {
    if entries == [] then []
    else
      var rest := ProperEntries(entries[..|entries| - 1], a, keys);
      var last := entries[|entries| - 1];
      if last != a && last in keys then rest + [last] else rest
  }

  lemma {:induction false} ProperEntriesMember(entries: seq<Id>, a: Id, keys: set<Id>, b: Id)
    ensures b in ProperEntries(entries, a, keys) <==> b in entries && b != a && b in keys
  {
    if entries != [] {
      var last := |entries| - 1;
      ProperEntriesMember(entries[..last], a, keys, b);
      assert entries == entries[..last] + [entries[last]];
    }
  }

  function Proper(g: Graph): Graph {
    map a | a in g :: ProperEntries(g[a], a, g.Keys)
  }

  lemma ProperEdge(g: Graph, a: Id, b: Id)
    ensures Edge(Proper(g), a, b) <==> Edge(g, a, b) && a != b && b in g
  {
    if a in g {
      ProperEntriesMember(g[a], a, g.Keys, b);
    }
  }

  // ----- Cycle search -----

  datatype Mark = Visiting | Visited

  // Midway through a search: the path being walked, and a rank for every finished node
  ghost predicate Consistent(g: Graph, states: map<Id, Mark>, path: seq<Id>, rank: map<Id, nat>, next: nat) {
    && (path != [] ==> IsPath(g, path))
    && Distinct(path)
    && states.Keys <= g.Keys
    && (forall a :: a in path <==> a in states && states[a] == Visiting)
    && (forall a :: a in rank <==> a in states && states[a] == Visited)
    && (forall a :: a in rank ==> rank[a] < next)
    && (forall a, b :: a in rank && Edge(g, a, b) ==> b in rank && rank[b] < rank[a])
  }

  lemma EnterKeepsConsistent(
    g: Graph, states: map<Id, Mark>, path: seq<Id>, rank: map<Id, nat>, next: nat, a: Id)
    requires Consistent(g, states, path, rank, next) && a in g && a !in states
    requires path != [] ==> Edge(g, path[|path| - 1], a)
    ensures Consistent(g, states[a := Visiting], path + [a], rank, next)
  {
  }

  lemma LeaveKeepsConsistent(
    g: Graph, states: map<Id, Mark>, path: seq<Id>, rank: map<Id, nat>, next: nat, a: Id)
    requires Consistent(g, states, path + [a], rank, next)
    requires forall b :: Edge(g, a, b) ==> b in rank
    ensures Consistent(g, states[a := Visited], path, rank[a := next], next + 1)
  {
    var long := path + [a];
    assert forall i :: 0 <= i < |path| ==> path[i] == long[i];
    assert long[|path|] == a;
  }

  lemma AllEntriesFinished(graph: Graph, rank: map<Id, nat>, a: Id)
    requires a in graph
    requires forall j :: 0 <= j < |graph[a]| ==> Edge(Proper(graph), a, graph[a][j]) ==> graph[a][j] in rank
    ensures forall b :: Edge(Proper(graph), a, b) ==> b in rank
  {
    forall b { ProperEdge(graph, a, b); }
  }

  ghost predicate Searching(
    graph: Graph, follows: Graph, states: map<Id, Mark>, path: seq<Id>, rank: map<Id, nat>, next: nat, unmarked: set<Id>) {
    && follows == Proper(graph)
    && unmarked == graph.Keys - states.Keys
    && Consistent(follows, states, path, rank, next)
  }

  // Popping a node whose dependencies are finished
  lemma LeaveKeepsSearching(
    graph: Graph, follows: Graph, states: map<Id, Mark>, path: seq<Id>, rank: map<Id, nat>, next: nat, unmarked: set<Id>)
    requires Searching(graph, follows, states, path, rank, next, unmarked) && path != []
    requires forall b :: Edge(follows, path[|path| - 1], b) ==> b in rank
    ensures Searching(graph, follows, states[path[|path| - 1] := Visited], path[..|path| - 1],
      rank[path[|path| - 1] := next], next + 1, unmarked)
  {
    var rest, a := path[..|path| - 1], path[|path| - 1];
    assert a in path && a in states;
    hide Proper, Edge, IsPath, Distinct, Consistent;
    assert path == rest + [a];
    LeaveKeepsConsistent(follows, states, rest, rank, next, a);
    assert states[a := Visited].Keys == states.Keys;
  }

  /** The two local variables of findDependencyCycle and its inner function visit. */
  class CycleSearch {
    const graph: Graph
    var states: map<Id, Mark>
    var currentPath: seq<Id>
    ghost var rank: map<Id, nat>
    ghost var nextRank: nat
    ghost var unmarked: set<Id>
    ghost const follows: Graph

    ghost predicate Valid()
      reads this
    {
      Searching(graph, follows, states, currentPath, rank, nextRank, unmarked)
    }

    constructor (graph: Graph)
      ensures Valid() && this.graph == graph && currentPath == [] && states == map[] && follows == Proper(graph)
    {
      this.graph, this.follows := graph, Proper(graph);
      states, currentPath, rank, nextRank, unmarked := map[], [], map[], 0, graph.Keys;
    }

    // What was finished stays finished, and nothing loses its mark
    twostate predicate Extends()
      reads this
    {
      old(rank.Keys) <= rank.Keys && unmarked <= old(unmarked)
    }

    lemma SettledBetweenTrees(a: Id)
      requires Valid() && currentPath == [] && a in states
      ensures a in rank
    {
    }

    lemma AllVisited()
      requires Valid() && graph.Keys <= rank.Keys
      ensures !Cyclic(follows)
    {
      forall a, b | Edge(follows, a, b) ensures a in rank && b in rank && rank[b] < rank[a] {
        ProperEdge(graph, a, b);
      }
      RankedIsAcyclic(follows, rank);
    }

    method Visit(nodeId: Id) returns (cycle: Option<seq<Id>>)
      requires Valid() && nodeId in graph && nodeId !in states
      requires currentPath != [] ==> Edge(follows, currentPath[|currentPath| - 1], nodeId)
      modifies this
      ensures cycle.None? ==> Valid() && Extends() && nodeId in rank && currentPath == old(currentPath)
      ensures cycle.Some? ==> ClosedPath(follows, cycle.value) && Distinct(cycle.value[1..])
      decreases unmarked, 1
    {
      hide Consistent, Proper, IsPath, ClosedPath, Distinct, Edge;
      Enter(nodeId);
      var entries := graph[nodeId];
      cycle := None;
      for i := 0 to |entries|
        invariant cycle.None? && Valid() && Extends() && unmarked < old(unmarked)
        invariant currentPath == old(currentPath) + [nodeId]
        invariant forall j :: 0 <= j < i ==> Edge(follows, nodeId, entries[j]) ==> entries[j] in rank
      {
        cycle := Follow(nodeId, entries[i]);
        if cycle.Some? {
          return;
        }
      }
      AllEntriesFinished(graph, rank, nodeId);
      Leave(nodeId);
    }

    // Pushing the node and marking it
    method Enter(nodeId: Id)
      requires Valid() && nodeId in graph && nodeId !in states
      requires currentPath != [] ==> Edge(follows, currentPath[|currentPath| - 1], nodeId)
      modifies this
      ensures Valid() && rank == old(rank) && unmarked < old(unmarked)
      ensures currentPath == old(currentPath) + [nodeId]
    {
      assert nodeId in follows;
      hide Consistent, Proper;
      EnterKeepsConsistent(follows, states, currentPath, rank, nextRank, nodeId);
      states := states[nodeId := Visiting];
      unmarked := unmarked - {nodeId};
      currentPath := currentPath + [nodeId];
    }

    // One turn of the loop over a node's dependencies
    method Follow(nodeId: Id, dependencyId: Id) returns (cycle: Option<seq<Id>>)
      requires Valid() && nodeId in graph && dependencyId in graph[nodeId]
      requires currentPath != [] && currentPath[|currentPath| - 1] == nodeId
      modifies this
      ensures cycle.None? ==> Valid() && Extends() && currentPath == old(currentPath)
      ensures cycle.None? ==> Edge(follows, nodeId, dependencyId) ==> dependencyId in rank
      ensures cycle.Some? ==> ClosedPath(follows, cycle.value) && Distinct(cycle.value[1..])
      decreases unmarked, 2
    {
      ProperEdge(graph, nodeId, dependencyId);
      if dependencyId == nodeId || dependencyId !in graph {
        return None;
      }
      if dependencyId in states && states[dependencyId] == Visiting {
        var start := LastIndexOf(currentPath, dependencyId);
        ClosingThePath(follows, currentPath, start);
        return Some(currentPath[start..] + [dependencyId]);
      }
      if dependencyId !in states {
        cycle := Visit(dependencyId);
        return;
      }
      return None;
    }

    // Popping the node and marking it visited
    method Leave(nodeId: Id)
      requires Valid() && currentPath != [] && currentPath[|currentPath| - 1] == nodeId && nodeId in graph
      requires forall b :: Edge(follows, nodeId, b) ==> b in rank
      modifies this
      ensures Valid() && nodeId in rank && currentPath == old(currentPath)[..|old(currentPath)| - 1]
      ensures Extends()
    {
      hide Searching, Edge;
      LeaveKeepsSearching(graph, follows, states, currentPath, rank, nextRank, unmarked);
      currentPath := currentPath[..|currentPath| - 1];
      states := states[nodeId := Visited];
      rank := rank[nodeId := nextRank];
      nextRank := nextRank + 1;
    }
  }

  lemma ClosingThePath(g: Graph, path: seq<Id>, start: nat)
    requires IsPath(g, path) && Distinct(path) && start < |path|
    requires Edge(g, path[|path| - 1], path[start])
    requires path[|path| - 1] != path[start]
    ensures ClosedPath(g, path[start..] + [path[start]]) && Distinct((path[start..] + [path[start]])[1..])
  {
    var c := path[start..] + [path[start]];
    forall i, j | 0 <= i && j == i + 1 && j < |c| ensures Edge(g, c[i], c[j]) {
      assert c[i] == path[start + i];
      if j < |c| - 1 {
        assert c[j] == path[start + j];
      }
    }
  }

  method LastIndexOf(s: seq<Id>, x: Id) returns (index: nat)
    requires x in s
    ensures index < |s| && s[index] == x
    ensures forall j :: index < j < |s| ==> s[j] != x
  {
    index := |s| - 1;
    while s[index] != x
      invariant index < |s| && forall j :: index < j < |s| ==> s[j] != x
      decreases index
    {
      index := index - 1;
    }
  }

  method FindDependencyCycle(nodes: seq<Node>) returns (cycle: Option<seq<Id>>)
    ensures cycle.None? <==> !Cyclic(Proper(ById(nodes)))
    ensures cycle.Some? ==> ClosedPath(Proper(ById(nodes)), cycle.value) && Distinct(cycle.value[1..])
  {
    hide Consistent, Proper, IsPath, ClosedPath, Distinct, Edge;
    var search := new CycleSearch(ById(nodes));
    for i := 0 to |nodes|
      invariant search.Valid() && search.currentPath == []
      invariant forall j :: 0 <= j < i ==> nodes[j].id in search.rank
    {
      if nodes[i].id !in search.states {
        cycle := search.Visit(nodes[i].id);
        if cycle.Some? {
          return;
        }
      } else {
        search.SettledBetweenTrees(nodes[i].id);
      }
    }
    search.AllVisited();
    cycle := None;
  }

  // ----- Editing the graph -----

  datatype ConnectError = SelfEdge | Duplicate | Cycle | Missing

  // Every node with the target's id gains the source as a last dependency
  function Connected(nodes: seq<Node>, sourceId: Id, targetId: Id): seq<Node> {
    seq(|nodes|, i requires 0 <= i < |nodes| =>
      if nodes[i].id == targetId then Node(targetId, nodes[i].dependsOn + [sourceId]) else nodes[i])
  }

  predicate HasId(nodes: seq<Node>, id: Id) {
    exists i :: 0 <= i < |nodes| && nodes[i].id == id
  }

  // The first node with the id
  function First(nodes: seq<Node>, id: Id): (node: Node)
    requires HasId(nodes, id)
    ensures node in nodes && node.id == id
  {
    if nodes[0].id == id then nodes[0] else First(nodes[1..], id)
  }

  // What the edit check promises: the edited graph exactly when the edge is new and closes no cycle
  ghost function Connection(nodes: seq<Node>, sourceId: Id, targetId: Id): Result<seq<Node>, ConnectError> {
    if sourceId == targetId then Err(SelfEdge)
    else if !HasId(nodes, targetId) || !HasId(nodes, sourceId) then Err(Missing)
    else if sourceId in First(nodes, targetId).dependsOn then Err(Duplicate)
    else if Cyclic(Proper(ById(Connected(nodes, sourceId, targetId)))) then Err(Cycle)
    else Ok(Connected(nodes, sourceId, targetId))
  }

  // A node is not connected to itself, nor an unknown one to any; of the nodes with the target's id the first says
  // whether the source is there already; all of them gain it as their last dependency, unless that closes a cycle
  ghost predicate ConnectTold(nodes: seq<Node>, sourceId: Id, targetId: Id, r: Result<seq<Node>, ConnectError>) {
    if sourceId == targetId then r == Err(SelfEdge)
    else if (forall i :: 0 <= i < |nodes| ==> nodes[i].id != targetId) || (forall i :: 0 <= i < |nodes| ==> nodes[i].id != sourceId)
    then r == Err(Missing)
    else exists i, next :: (IsFirst(nodes, targetId, i) && Gains(nodes, next, sourceId, targetId) &&
      ConnectEnds(nodes[i], next, sourceId, r))
  }

  ghost predicate ConnectEnds(target: Node, next: seq<Node>, sourceId: Id, r: Result<seq<Node>, ConnectError>) {
    if sourceId in target.dependsOn then r == Err(Duplicate)
    else if Cyclic(Proper(ById(next))) then r == Err(Cycle)
    else r == Ok(next)
  }

  ghost predicate IsFirst(nodes: seq<Node>, id: Id, i: int) {
    0 <= i < |nodes| && nodes[i].id == id && forall j :: 0 <= j < i ==> nodes[j].id != id
  }

  ghost predicate Gains(nodes: seq<Node>, next: seq<Node>, sourceId: Id, targetId: Id) {
    && |next| == |nodes|
    && forall j :: 0 <= j < |nodes| ==>
      next[j].id == nodes[j].id && next[j].dependsOn == nodes[j].dependsOn + if nodes[j].id == targetId then [sourceId] else []
  }

  lemma {:induction false} FirstIsFirst(nodes: seq<Node>, id: Id) returns (i: nat)
    requires HasId(nodes, id)
    ensures IsFirst(nodes, id, i) && nodes[i] == First(nodes, id)
  {
    if nodes[0].id == id {
      i := 0;
    } else {
      var k :| 0 <= k < |nodes| && nodes[k].id == id;
      assert nodes[1..][k - 1].id == id;
      var rest := FirstIsFirst(nodes[1..], id);
      i := rest + 1;
      forall j | 0 <= j < i ensures nodes[j].id != id {
        assert j > 0 ==> nodes[j] == nodes[1..][j - 1];
      }
    }
  }

  lemma ConnectionIsTold(nodes: seq<Node>, sourceId: Id, targetId: Id)
    ensures ConnectTold(nodes, sourceId, targetId, Connection(nodes, sourceId, targetId))
  {
    if sourceId != targetId && HasId(nodes, targetId) && HasId(nodes, sourceId) {
      var i := FirstIsFirst(nodes, targetId);
      var next := Connected(nodes, sourceId, targetId);
      assert Gains(nodes, next, sourceId, targetId);
      assert 0 <= i < |nodes|;
      hide Gains, IsFirst, Connected, Cyclic, Proper, ById, First;
      assert ConnectEnds(nodes[i], next, sourceId, Connection(nodes, sourceId, targetId));
    }
  }

  method CanConnectDependency(nodes: seq<Node>, sourceId: Id, targetId: Id)
    returns (r: Result<seq<Node>, ConnectError>)
    ensures r == Connection(nodes, sourceId, targetId)
    ensures ConnectTold(nodes, sourceId, targetId, r)
  {
    ConnectionIsTold(nodes, sourceId, targetId);
    hide ConnectTold;
    if sourceId == targetId {
      return Err(SelfEdge);
    }
    if !HasId(nodes, targetId) || !HasId(nodes, sourceId) {
      return Err(Missing);
    }
    if sourceId in First(nodes, targetId).dependsOn {
      return Err(Duplicate);
    }
    var updated := Connected(nodes, sourceId, targetId);
    var cycle := FindDependencyCycle(updated);
    if cycle.Some? {
      return Err(Cycle);
    }
    return Ok(updated);
  }

  lemma {:induction false} ConnectedById(nodes: seq<Node>, s: Id, t: Id)
    requires HasId(nodes, t)
    ensures t in ById(nodes) && ById(Connected(nodes, s, t)) == WithEdge(ById(nodes), t, s)
  {
    var last := |nodes| - 1;
    var less := nodes[..last];
    assert Connected(nodes, s, t)[..last] == Connected(less, s, t);
    if HasId(less, t) {
      ConnectedById(less, s, t);
    } else {
      assert forall i :: 0 <= i < |less| ==> nodes[i] == less[i];
      assert Connected(less, s, t) == less;
    }
  }

  lemma ProperEntriesAppend(entries: seq<Id>, last: Id, a: Id, keys: set<Id>)
    requires last != a && last in keys
    ensures ProperEntries(entries + [last], a, keys) == ProperEntries(entries, a, keys) + [last]
  {
    assert (entries + [last])[..|entries|] == entries;
  }

  lemma ProperWithEdge(g: Graph, s: Id, t: Id)
    requires s != t && s in g && t in g
    ensures Proper(WithEdge(g, t, s)) == WithEdge(Proper(g), t, s)
  {
    hide ProperEntries;
    var h := WithEdge(g, t, s);
    assert h.Keys == g.Keys;
    ProperEntriesAppend(g[t], s, t, g.Keys);
    forall a | a in g ensures Proper(h)[a] == WithEdge(Proper(g), t, s)[a] {
      assert h[a] == if a == t then g[t] + [s] else g[a];
    }
  }

  // On an acyclic graph an edge is refused as a cycle iff the source already depends on the target
  lemma ConnectionRefusesCycle(nodes: seq<Node>, s: Id, t: Id)
    requires !Cyclic(Proper(ById(nodes)))
    requires s != t && HasId(nodes, s) && HasId(nodes, t) && s !in First(nodes, t).dependsOn
    ensures Connection(nodes, s, t) == Err(Cycle) <==> Reach(Proper(ById(nodes)), s, t)
  {
    var g := ById(nodes);
    ConnectedById(nodes, s, t);
    ProperWithEdge(g, s, t);
    WithEdgeCyclic(Proper(g), t, s);
  }

  // A session of edits: refused ones change nothing
  ghost function Edited(nodes: seq<Node>, edits: seq<(Id, Id)>): seq<Node> {
    if edits == [] then nodes
    else
      var before := Edited(nodes, edits[..|edits| - 1]);
      var edit := edits[|edits| - 1];
      match Connection(before, edit.0, edit.1)
      case Ok(after) => after
      case Err(_) => before
  }

  lemma {:induction false} EditsStayAcyclic(nodes: seq<Node>, edits: seq<(Id, Id)>)
    requires !Cyclic(Proper(ById(nodes)))
    ensures !Cyclic(Proper(ById(Edited(nodes, edits))))
  {
    if edits != [] {
      EditsStayAcyclic(nodes, edits[..|edits| - 1]);
    }
  }

  // ----- Closures -----

  /** The Set that both closure functions fill through their inner function visit. */
  class ClosureSearch {
    const neighbours: Graph
    var closure: set<Id>
    ghost const universe: set<Id>

    ghost predicate Valid()
      reads this
    {
      closure <= universe && forall a, b :: Edge(neighbours, a, b) ==> b in universe
    }

    constructor (neighbours: Graph, start: Id)
      ensures Valid() && this.neighbours == neighbours && closure == {} && start in universe
    {
      this.neighbours := neighbours;
      closure := {};
      universe := {start} + set a, b | a in neighbours && b in neighbours[a] :: b;
    }

    method Visit(id: Id)
      requires Valid() && id in universe
      modifies this
      ensures Valid() && old(closure) <= closure && id in closure
      ensures forall a :: a in closure && a !in old(closure) ==> Reach(neighbours, id, a)
      ensures forall a, b :: a in closure && a !in old(closure) && Edge(neighbours, a, b) ==> b in closure
      decreases universe - closure
    {
      if id in closure {
        return;
      }
      closure := closure + {id};
      ReachSelf(neighbours, id);
      var entries := if id in neighbours then neighbours[id] else [];
      for i := 0 to |entries|
        invariant Valid() && old(closure) + {id} <= closure
        invariant forall j :: 0 <= j < i ==> entries[j] in closure
        invariant forall a :: a in closure && a !in old(closure) ==> Reach(neighbours, id, a)
        invariant forall a, b ::
          a in closure && a !in old(closure) && a != id && Edge(neighbours, a, b) ==> b in closure
      {
        assert Edge(neighbours, id, entries[i]);
        label before:
        Visit(entries[i]);
        forall a | a in closure && a !in old@before(closure) ensures Reach(neighbours, id, a) {
          ReachEdge(neighbours, id, entries[i]);
          ReachTransitive(neighbours, id, entries[i], a);
        }
      }
    }
  }

  method CollectReachable(neighbours: Graph, start: Id) returns (closure: set<Id>)
    ensures forall x :: x in closure <==> Reach(neighbours, start, x)
  {
    var search := new ClosureSearch(neighbours, start);
    search.Visit(start);
    closure := search.closure;
    forall x | Reach(neighbours, start, x) ensures x in closure {
      ReachStaysInside(neighbours, closure, start, x);
    }
  }

  method DependencyClosure(nodes: seq<Node>, selectedId: Id) returns (closure: set<Id>)
    ensures selectedId !in ById(nodes) ==> closure == {}
    ensures selectedId in ById(nodes) ==> forall x :: x in closure <==> Reach(ById(nodes), selectedId, x)
  {
    if selectedId !in ById(nodes) {
      return {};
    }
    closure := CollectReachable(ById(nodes), selectedId);
  }

  // Some node has the id, or lists it
  ghost predicate Mentioned(nodes: seq<Node>, id: Id) {
    exists i :: 0 <= i < |nodes| && (nodes[i].id == id || id in nodes[i].dependsOn)
  }

  // Some node of this id lists the other one
  ghost predicate Listing(nodes: seq<Node>, n: Id, d: Id) {
    exists i :: 0 <= i < |nodes| && nodes[i].id == n && d in nodes[i].dependsOn
  }

  // Who depends on whom: d points to n when some node n lists d
  ghost predicate IsReversal(nodes: seq<Node>, g: Graph) {
    && (forall x :: x in g <==> Mentioned(nodes, x))
    && (forall d, n :: Edge(g, d, n) <==> Listing(nodes, n, d))
  }

  // The entries of all nodes with one id together; with unique ids this is the graph itself
  function Merged(nodes: seq<Node>): Graph {
    if nodes == [] then map[]
    else
      var g, last := Merged(nodes[..|nodes| - 1]), nodes[|nodes| - 1];
      g[last.id := (if last.id in g then g[last.id] else []) + last.dependsOn]
  }

  lemma {:induction false} MergedEdges(nodes: seq<Node>, n: Id, d: Id)
    ensures Edge(Merged(nodes), n, d) <==> Listing(nodes, n, d)
  {
    if nodes != [] {
      var less, last := nodes[..|nodes| - 1], nodes[|nodes| - 1];
      MergedEdges(less, n, d);
      if Listing(less, n, d) {
        var i :| 0 <= i < |less| && less[i].id == n && d in less[i].dependsOn;
        assert nodes[i] == less[i];
      }
      if Listing(nodes, n, d) {
        var i :| 0 <= i < |nodes| && nodes[i].id == n && d in nodes[i].dependsOn;
        assert i < |less| ==> less[i] == nodes[i];
      }
    }
  }

  lemma UniqueListing(nodes: seq<Node>, n: Id, d: Id)
    requires UniqueIds(nodes)
    ensures Edge(ById(nodes), n, d) <==> Listing(nodes, n, d)
  {
    forall i | 0 <= i < |nodes| { ByIdFinds(nodes, i); }
  }

  // One more entry in a node's list, which is created when absent
  function Push(g: Graph, d: Id, n: Id): (h: Graph)
    ensures forall x, y :: Edge(h, x, y) <==> Edge(g, x, y) || (x == d && y == n)
  {
    g[d := (if d in g then g[d] else []) + [n]]
  }

  method LinkDependents(nodes: seq<Node>) returns (dependents: Graph)
    ensures IsReversal(nodes, dependents)
  {
    dependents := map[];
    for i := 0 to |nodes|
      invariant IsReversal(nodes[..i], dependents)
    {
      ghost var before := dependents;
      dependents := LinkNode(nodes[i], dependents);
      OneMoreListed(nodes, i, before, dependents);
    }
    assert nodes[..|nodes|] == nodes;
  }

  lemma OneMoreListed(nodes: seq<Node>, i: nat, before: Graph, after: Graph)
    requires i < |nodes| && IsReversal(nodes[..i], before)
    requires after.Keys == before.Keys + {nodes[i].id} + set d | d in nodes[i].dependsOn
    requires forall d, n :: Edge(after, d, n) <==> Edge(before, d, n) || (n == nodes[i].id && d in nodes[i].dependsOn)
    ensures IsReversal(nodes[..i + 1], after)
  {
    var less, more := nodes[..i], nodes[..i + 1];
    assert forall k :: 0 <= k < i ==> less[k] == more[k];
    assert more[i] == nodes[i];
    forall x ensures Mentioned(more, x) <==> Mentioned(less, x) || x == nodes[i].id || x in nodes[i].dependsOn {
    }
    forall n, d ensures Listing(more, n, d) <==> Listing(less, n, d) || (n == nodes[i].id && d in nodes[i].dependsOn) {
    }
  }

  method LinkNode(node: Node, before: Graph) returns (dependents: Graph)
    ensures dependents.Keys == before.Keys + {node.id} + set d | d in node.dependsOn
    ensures forall d, n :: Edge(dependents, d, n) <==> Edge(before, d, n) || (n == node.id && d in node.dependsOn)
  {
    dependents := before[node.id := if node.id in before then before[node.id] else []];
    for j := 0 to |node.dependsOn|
      invariant dependents.Keys == before.Keys + {node.id} + set d | d in node.dependsOn[..j]
      invariant forall d, n :: Edge(dependents, d, n) <==>
        Edge(before, d, n) || (n == node.id && d in node.dependsOn[..j])
    {
      dependents := Push(dependents, node.dependsOn[j], node.id);
      assert node.dependsOn[..j + 1] == node.dependsOn[..j] + [node.dependsOn[j]];
    }
    assert node.dependsOn[..|node.dependsOn|] == node.dependsOn;
  }

  method DependentClosure(nodes: seq<Node>, selectedId: Id) returns (closure: set<Id>)
    ensures !Mentioned(nodes, selectedId) ==> closure == {}
    ensures Mentioned(nodes, selectedId) ==> forall x :: x in closure <==> Reach(Merged(nodes), x, selectedId)
    ensures UniqueIds(nodes) && Mentioned(nodes, selectedId) ==> forall x :: x in closure <==> Reach(ById(nodes), x, selectedId)
  {
    var dependents := LinkDependents(nodes);
    if selectedId !in dependents {
      return {};
    }
    closure := CollectReachable(dependents, selectedId);
    hide Reach, ById, Merged;
    MergedReversal(nodes, dependents, selectedId);
    if UniqueIds(nodes) {
      forall x { ReversalReach(nodes, dependents, selectedId, x); }
    }
  }

  lemma MergedReversal(nodes: seq<Node>, g: Graph, a: Id)
    requires IsReversal(nodes, g)
    ensures forall x :: Reach(g, a, x) <==> Reach(Merged(nodes), x, a)
  {
    forall d, n ensures Edge(g, d, n) <==> Edge(Merged(nodes), n, d) {
      MergedEdges(nodes, n, d);
    }
    forall x { BackwardsReach(g, Merged(nodes), a, x); }
  }

  function Backwards(p: seq<Id>): seq<Id> {
    seq(|p|, i requires 0 <= i < |p| => p[|p| - 1 - i])
  }

  lemma BackwardsReach(g: Graph, h: Graph, a: Id, b: Id)
    requires forall d, n :: Edge(g, d, n) <==> Edge(h, n, d)
    ensures Reach(g, a, b) <==> Reach(h, b, a)
  {
    if p :| PathFromTo(g, p, a, b) {
      assert PathFromTo(h, Backwards(p), b, a);
    }
    if p :| PathFromTo(h, p, b, a) {
      assert PathFromTo(g, Backwards(p), a, b);
    }
  }

  lemma ReversalReach(nodes: seq<Node>, g: Graph, a: Id, b: Id)
    requires UniqueIds(nodes) && IsReversal(nodes, g)
    ensures Reach(g, a, b) <==> Reach(ById(nodes), b, a)
  {
    forall d, n ensures Edge(g, d, n) <==> Edge(ById(nodes), n, d) {
      UniqueListing(nodes, n, d);
    }
    BackwardsReach(g, ById(nodes), a, b);
  }
}
