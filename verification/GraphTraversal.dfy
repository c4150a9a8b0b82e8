/** Bounded forward traversal of a graph: what the step cap can and cannot cut off. */
module GraphTraversal {
  import opened Values
  import opened Gates
  import opened GraphModel
  import opened Reachability

  const MAX_TRAVERSAL_STEPS := 512

  /** The transitions whose both ends are nodes of the graph. */
  function GraphEdges(nodes: seq<Node>): Edges<Id> {
    var byId := NodeMap(nodes);
    set id, t | id in byId && t in byId[id].transitions && t.to in byId :: (id, t.to)
  }

  ghost function ReachableIds(nodes: seq<Node>, starts: seq<Id>): set<Id> {
    Reach(Elems(starts) * NodeMap(nodes).Keys, GraphEdges(nodes))
  }

  lemma ReachableAreNodes(nodes: seq<Node>, starts: seq<Id>)
    ensures ReachableIds(nodes, starts) <= NodeMap(nodes).Keys
    ensures |ReachableIds(nodes, starts)| <= |nodes|
  {
    var s, e := Elems(starts) * NodeMap(nodes).Keys, GraphEdges(nodes);
    ReachIsLeast(s, e);
    assert Closed(e, NodeMap(nodes).Keys);
    SubsetSize(ReachableIds(nodes, starts), NodeMap(nodes).Keys);
    DistinctSize(NodeIds(nodes));
  }

  /** Pushes the targets that are nodes and not yet visited. */
  method PushTargets(ts: seq<Transition>, ids: set<Id>, visited: set<Id>, frontier: seq<Id>) returns (pushed: seq<Id>)
    ensures forall x :: x in frontier ==> x in pushed
    ensures forall x :: x in pushed && x !in frontier ==> x in ids && exists t :: t in ts && t.to == x
    ensures forall t :: t in ts && t.to in ids ==> t.to in visited || t.to in pushed
  {
    pushed := frontier;
    for i := 0 to |ts|
      invariant forall x :: x in frontier ==> x in pushed
      invariant forall x :: x in pushed && x !in frontier ==> x in ids && exists t :: t in ts && t.to == x
      invariant forall k :: 0 <= k < i && ts[k].to in ids ==> ts[k].to in visited || ts[k].to in pushed
    {
      if ts[i].to in ids && ts[i].to !in visited {
        assert ts[i] in ts;
        pushed := pushed + [ts[i].to];
      }
    }
  }

  /** The search so far: all of it is reachable, and nothing next to it has been forgotten. */
  ghost predicate Searching(from: set<Id>, edges: Edges<Id>, visited: set<Id>, frontier: seq<Id>) {
    && visited <= Reach(from, edges)
    && (forall x :: x in frontier ==> x in Reach(from, edges))
    && (forall x :: x in from ==> x in visited || x in frontier)
    && (forall e :: e in edges && e.0 in visited ==> e.1 in visited || e.1 in frontier)
  }

  lemma SearchStarts(from: set<Id>, edges: Edges<Id>, frontier: seq<Id>)
    requires forall x :: x in frontier <==> x in from
    ensures Searching(from, edges, {}, frontier)
  {
    ReachStarts(from, edges);
  }

  lemma SearchDone(from: set<Id>, edges: Edges<Id>, visited: set<Id>)
    requires Searching(from, edges, visited, [])
    ensures visited == Reach(from, edges)
  {
    ReachIsLeast(from, edges);
    assert Closed(edges, visited);
  }

  lemma SkipKeepsSearching(from: set<Id>, edges: Edges<Id>, visited: set<Id>, rest: seq<Id>, id: Id)
    requires Searching(from, edges, visited, rest + [id])
    ensures id in Reach(from, edges)
    ensures id in visited ==> Searching(from, edges, visited, rest)
  {
    var frontier := rest + [id];
    assert id in frontier;
    assert forall x :: x in frontier <==> x in rest || x == id;
  }

  lemma VisitKeepsSearching(nodes: seq<Node>, from: set<Id>, visited: set<Id>, rest: seq<Id>, id: Id, pushed: seq<Id>)
    requires Searching(from, GraphEdges(nodes), visited, rest + [id])
    requires id in NodeMap(nodes)
    requires var ts := NodeMap(nodes)[id].transitions;
      && (forall x :: x in rest ==> x in pushed)
      && (forall x :: x in pushed && x !in rest ==> x in NodeMap(nodes) && exists t :: t in ts && t.to == x)
      && (forall t :: t in ts && t.to in NodeMap(nodes) ==> t.to in visited + {id} || t.to in pushed)
    ensures Searching(from, GraphEdges(nodes), visited + {id}, pushed)
    ensures visited + {id} <= Reach(from, GraphEdges(nodes))
  {
    hide NodeMap;
    var edges := GraphEdges(nodes);
    assert id in rest + [id];
    forall x | x in pushed ensures x in Reach(from, edges) {
      if x in rest {
        assert x in rest + [id];
      } else {
        assert (id, x) in edges;
        ReachStep(from, edges, id, x);
      }
    }
  }

  /** Everything visited is reachable, and the cap only limits how many nodes are visited: with a cap
      of at least the number of reachable nodes the answer is exactly the reachable set. */
  method ReachableNodes(nodes: seq<Node>, starts: seq<Id>, maxSteps: int) returns (visited: set<Id>)
    ensures visited <= ReachableIds(nodes, starts)
    ensures |visited| == if maxSteps <= 0 then 0
                         else if maxSteps < |ReachableIds(nodes, starts)| then maxSteps
                         else |ReachableIds(nodes, starts)|
  {
    hide NodeMap, GraphEdges, Searching, Reach, Reachable, NodeIds;
    var byId := NodeMap(nodes);
    ghost var from := Elems(starts) * byId.Keys;
    ghost var edges := GraphEdges(nodes);
    ghost var all := ReachableIds(nodes, starts);

    ReachableAreNodes(nodes, starts);
    visited := {};
    var frontier := Filter(id => id in byId, starts);
    Filtered(id => id in byId, starts);
    SearchStarts(from, edges, frontier);
    var steps := 0;
    while frontier != [] && steps < maxSteps
      invariant steps == |visited| && (steps == 0 || steps <= maxSteps)
      invariant visited <= all && Searching(from, edges, visited, frontier)
      decreases all - visited, |frontier|
    {
      var id := frontier[|frontier| - 1];
      var rest := frontier[..|frontier| - 1];
      assert frontier == rest + [id];
      frontier := rest;
      SkipKeepsSearching(from, edges, visited, rest, id);
      if id in visited { continue; }
      ghost var before := visited;
      visited, steps := visited + {id}, steps + 1;
      frontier := PushTargets(byId[id].transitions, byId.Keys, visited, frontier);
      VisitKeepsSearching(nodes, from, before, rest, id, frontier);
    }
    SubsetSize(visited, all);
    if frontier == [] { SearchDone(from, edges, visited); }
  }

  /** On a validated graph the default cap never cuts the search: 512 steps cover 256 nodes. */
  method ReachableInGraph(g: Graph, starts: seq<Id>) returns (visited: set<Id>)
    requires WellFormed(g)
    ensures visited == ReachableIds(g.nodes, starts)
  {
    visited := ReachableNodes(g.nodes, starts, MAX_TRAVERSAL_STEPS);
    ReachableAreNodes(g.nodes, starts);
    SubsetSize(visited, ReachableIds(g.nodes, starts));
  }
}
