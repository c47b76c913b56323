/** The two graph searches of the flow validator: breadth-first reachability with a queue that may
    hold duplicates, and depth-first cycle detection with shared visited / on-stack sets. */
module FlowGraph {
  import opened Flows

  type Graph = set<(string, string)>

  type Adjacency = map<string, seq<string>>

  /** The edges the searches follow: those that leave a declared node. */
  function EdgesOf(flow: Flow): Graph {
    set e | e in flow.edges && e.source in NodeIds(flow.nodes) :: (e.source, e.target)
  }

  function DeclaredEdges(flow: Flow): Graph {
    set e | e in flow.edges :: (e.source, e.target)
  }

  ghost predicate IsPath(g: Graph, p: seq<string>) {
    |p| > 0 && forall i :: 0 <= i < |p| - 1 ==> (p[i], p[i + 1]) in g
  }

  ghost predicate IsPathFromTo(g: Graph, p: seq<string>, a: string, b: string) {
    IsPath(g, p) && p[0] == a && p[|p| - 1] == b
  }

  ghost predicate Reachable(g: Graph, a: string, b: string) {
    exists p :: IsPathFromTo(g, p, a, b)
  }

  /** A directed cycle: a path of at least one edge back to its start. */
  ghost predicate IsCycle(g: Graph, p: seq<string>) {
    |p| > 1 && IsPath(g, p) && p[0] == p[|p| - 1]
  }

  ghost predicate HasDirectedCycle(g: Graph) {
    exists p :: IsCycle(g, p)
  }

  /** A rank for the nodes that strictly decreases along every edge. */
  ghost predicate IsRanking(g: Graph, rank: map<string, nat>) {
    forall a, b :: (a, b) in g ==> a in rank && b in rank && rank[b] < rank[a]
  }

  ghost predicate Represents(adj: Adjacency, g: Graph) {
    forall a, b :: (a, b) in g <==> a in adj && b in adj[a]
  }

  function Targets(adj: Adjacency, a: string): seq<string> {
    if a in adj then adj[a] else []
  }

  /** Every node an edge or the adjacency table mentions. */
  ghost function Mentioned(adj: Adjacency, g: Graph): set<string> {
    adj.Keys + (set e | e in g :: e.1)
  }

  function Elements(s: seq<string>): set<string> {
    set x | x in s
  }

  lemma ElementsAppend(s: seq<string>, x: string)
    ensures Elements(s + [x]) == Elements(s) + {x}
  {
  }

  method BuildAdjacency(flow: Flow) returns (adj: Adjacency)
    ensures Represents(adj, EdgesOf(flow)) && adj.Keys == NodeIds(flow.nodes)
  {
    adj := map n | n in NodeIds(flow.nodes) :: [];
    for i := 0 to |flow.edges|
      invariant adj.Keys == NodeIds(flow.nodes)
      invariant forall a, b :: a in adj && b in adj[a] <==>
                  exists e :: e in flow.edges[..i] && e.source == a && e.target == b && a in NodeIds(flow.nodes)
    {
      var e := flow.edges[i];
      assert flow.edges[..i + 1] == flow.edges[..i] + [e];
      if e.source in adj {
        adj := adj[e.source := adj[e.source] + [e.target]];
      }
    }
    assert flow.edges[..|flow.edges|] == flow.edges;
    forall a, b ensures (a, b) in EdgesOf(flow) <==> a in adj && b in adj[a] {
      if (a, b) in EdgesOf(flow) {
        var e :| e in flow.edges && e.source in NodeIds(flow.nodes) && (e.source, e.target) == (a, b);
        assert e in flow.edges[..|flow.edges|];
      }
    }
  }

  // ---------------------------------------------------------------- reachability

  lemma ReachableStep(g: Graph, a: string, b: string, c: string)
    requires Reachable(g, a, b) && (b, c) in g
    ensures Reachable(g, a, c)
  {
    var p :| IsPathFromTo(g, p, a, b);
    assert IsPathFromTo(g, p + [c], a, c);
  }

  lemma {:induction false} ClosedSetHoldsPath(g: Graph, s: set<string>, p: seq<string>)
    requires IsPath(g, p) && p[0] in s
    requires forall a, b :: a in s && (a, b) in g ==> b in s
    ensures p[|p| - 1] in s
    decreases |p|
  {
    if |p| > 1 {
      assert (p[0], p[1]) in g;
      assert forall i :: 0 <= i < |p| - 2 ==> (p[1..][i], p[1..][i + 1]) == (p[i + 1], p[i + 2]);
      ClosedSetHoldsPath(g, s, p[1..]);
    }
  }

  /** The state of the breadth-first search: `found` nodes are expanded, `waiting` ones are not. */
  ghost predicate Frontier(g: Graph, entry: string, found: set<string>, waiting: set<string>) {
    && entry in found + waiting
    && (forall v :: v in found + waiting ==> Reachable(g, entry, v))
    && (forall a, b :: a in found && (a, b) in g ==> b in found + waiting)
  }

  lemma Expand(g: Graph, entry: string, found: set<string>, node: string, rest: set<string>, waiting: set<string>)
    requires Frontier(g, entry, found, {node} + rest) && rest <= waiting
    requires forall b :: b in waiting - rest ==> (node, b) in g
    requires forall b :: (node, b) in g ==> b in found + {node} + waiting
    ensures Frontier(g, entry, found + {node}, waiting)
  {
    forall v | v in found + {node} + waiting ensures Reachable(g, entry, v) {
      if v in found + ({node} + rest) {
      } else {
        ReachableStep(g, entry, node, v);
      }
    }
  }

  lemma ExpandedIsExact(g: Graph, entry: string, found: set<string>)
    requires Frontier(g, entry, found, {})
    ensures forall v :: v in found <==> Reachable(g, entry, v)
  {
    forall v | Reachable(g, entry, v) ensures v in found {
      var p :| IsPathFromTo(g, p, entry, v);
      ClosedSetHoldsPath(g, found, p);
    }
    assert forall v :: v in found ==> v in found + {};
  }

  /** Every neighbour not reached yet joins the end of the queue, also when it waits there already. */
  method EnqueueNeighbours(neighbours: seq<string>, reachable: set<string>, queue: seq<string>) returns (longer: seq<string>)
    ensures Elements(longer) == Elements(queue) + (Elements(neighbours) - reachable)
  {
    longer := queue;
    for i := 0 to |neighbours|
      invariant Elements(longer) == Elements(queue) + (Elements(neighbours[..i]) - reachable)
    {
      assert neighbours[..i + 1] == neighbours[..i] + [neighbours[i]];
      ElementsAppend(neighbours[..i], neighbours[i]);
      if neighbours[i] !in reachable {
        ElementsAppend(longer, neighbours[i]);
        longer := longer + [neighbours[i]];
      }
    }
    assert neighbours[..|neighbours|] == neighbours;
  }

  /** The set found is exactly the set of nodes a directed path joins to the entry. */
  method FindReachable(flow: Flow) returns (reachable: set<string>)
    ensures forall v :: v in reachable <==> Reachable(EdgesOf(flow), flow.entryNodeId, v)
  {
    var adj := BuildAdjacency(flow);
    ghost var g := EdgesOf(flow);
    ghost var all := Mentioned(adj, g) + {flow.entryNodeId};
    reachable := {};
    var queue := [flow.entryNodeId];
    assert IsPathFromTo(g, [flow.entryNodeId], flow.entryNodeId, flow.entryNodeId);
    while queue != []
      invariant reachable <= all && Elements(queue) <= all
      invariant Frontier(g, flow.entryNodeId, reachable, Elements(queue))
      decreases all - reachable, |queue|
    {
      var node := queue[0];
      ghost var rest := Elements(queue[1..]);
      assert Elements(queue) == {node} + rest;
      queue := queue[1..];
      if node in reachable {
        assert reachable + ({node} + rest) == reachable + rest;
        continue;
      }
      ghost var found := reachable;
      reachable := reachable + {node};
      assert node in all - found && node !in all - reachable;
      var neighbours := Targets(adj, node);
      assert forall b :: b in neighbours <==> (node, b) in g;
      assert Elements(neighbours) <= Mentioned(adj, g) by {
        forall b | b in neighbours ensures b in Mentioned(adj, g) { assert (node, b) in g; }
      }
      queue := EnqueueNeighbours(neighbours, reachable, queue);
      Expand(g, flow.entryNodeId, found, node, rest, Elements(queue));
    }
    assert Elements(queue) == {};
    ExpandedIsExact(g, flow.entryNodeId, reachable);
  }

  // ---------------------------------------------------------------- cycle detection

  lemma {:induction false} RankFallsAlongPath(g: Graph, rank: map<string, nat>, p: seq<string>)
    requires IsRanking(g, rank) && IsPath(g, p) && |p| > 1
    ensures p[0] in rank && p[|p| - 1] in rank && rank[p[|p| - 1]] < rank[p[0]]
    decreases |p|
  {
    assert (p[0], p[1]) in g;
    if |p| > 2 {
      assert forall i :: 0 <= i < |p| - 2 ==> (p[1..][i], p[1..][i + 1]) == (p[i + 1], p[i + 2]);
      RankFallsAlongPath(g, rank, p[1..]);
    }
  }

  /** A ranked graph has no cycle. */
  lemma RankedGraphsAreAcyclic(g: Graph, rank: map<string, nat>)
    requires IsRanking(g, rank)
    ensures !HasDirectedCycle(g)
  {
    if HasDirectedCycle(g) {
      var p :| IsCycle(g, p);
      RankFallsAlongPath(g, rank, p);
      assert false;
    }
  }

  /** In a list of finished nodes every edge leads to an earlier entry. */
  ghost predicate IsFinishOrder(g: Graph, finished: seq<string>) {
    forall i, b :: 0 <= i < |finished| && (finished[i], b) in g ==> b in finished[..i]
  }

  ghost function FirstIndex(s: seq<string>, x: string): (i: nat)
    requires x in s
    ensures i < |s| && s[i] == x && x !in s[..i]
  {
    if s[0] == x then 0 else 1 + FirstIndex(s[1..], x)
  }

  lemma FinishOrderRanks(g: Graph, finished: seq<string>) returns (rank: map<string, nat>)
    requires IsFinishOrder(g, finished)
    requires forall a, b :: (a, b) in g ==> a in finished
    ensures IsRanking(g, rank)
  {
    rank := map x | x in finished :: FirstIndex(finished, x);
    forall a, b | (a, b) in g ensures a in rank && b in rank && rank[b] < rank[a] {
      var i := FirstIndex(finished, a);
      assert b in finished[..i];
      var j :| 0 <= j < i && finished[j] == b;
      assert b !in finished[..FirstIndex(finished, b)];
    }
  }

  /** The stack is a path, and a visited node off the stack is finished. */
  ghost predicate SearchInv(g: Graph, visited: set<string>, inStack: set<string>, stack: seq<string>, finished: seq<string>) {
    && inStack == Elements(stack)
    && (stack != [] ==> IsPath(g, stack))
    && visited == inStack + Elements(finished)
    && inStack !! Elements(finished)
    && IsFinishOrder(g, finished)
  }

  lemma Push(g: Graph, visited: set<string>, inStack: set<string>, stack: seq<string>, finished: seq<string>, node: string)
    requires SearchInv(g, visited, inStack, stack, finished) && node !in visited
    requires stack != [] ==> (stack[|stack| - 1], node) in g
    ensures SearchInv(g, visited + {node}, inStack + {node}, stack + [node], finished)
  {
    ElementsAppend(stack, node);
  }

  lemma Pop(g: Graph, visited: set<string>, inStack: set<string>, stack: seq<string>, finished: seq<string>, node: string)
    requires SearchInv(g, visited, inStack, stack + [node], finished) && node !in stack
    requires forall b :: (node, b) in g ==> b in finished
    ensures SearchInv(g, visited, inStack - {node}, stack, finished + [node])
  {
    ElementsAppend(stack, node);
    ElementsAppend(finished, node);
    if stack != [] {
      var path := stack + [node];
      forall i | 0 <= i < |stack| - 1 ensures (stack[i], stack[i + 1]) in g {
        assert (path[i], path[i + 1]) in g;
      }
    }
    var extended := finished + [node];
    forall i, b | 0 <= i < |extended| && (extended[i], b) in g ensures b in extended[..i] {
      if i < |finished| {
        assert b in finished[..i] && extended[..i] == finished[..i];
      } else {
        assert extended[..i] == finished;
      }
    }
  }

  lemma BackEdgeClosesCycle(g: Graph, stack: seq<string>, neighbour: string)
    requires stack != [] && IsPath(g, stack) && (stack[|stack| - 1], neighbour) in g && neighbour in stack
    ensures HasDirectedCycle(g)
  {
    var k :| 0 <= k < |stack| && stack[k] == neighbour;
    var cycle := stack[k..] + [neighbour];
    forall j | 0 <= j < |cycle| - 1 ensures (cycle[j], cycle[j + 1]) in g {
      if j < |stack| - k - 1 {
        assert (stack[k + j], stack[k + j + 1]) in g;
      }
    }
    assert IsCycle(g, cycle);
  }

  /** The state the recursive search shares between its calls. */
  class CycleSearch {
    const adj: Adjacency
    ghost const graph: Graph
    var visited: set<string>
    var inStack: set<string>
    ghost var stack: seq<string>
    ghost var finished: seq<string>

    constructor (adj: Adjacency, ghost graph: Graph)
      requires Represents(adj, graph)
      ensures Valid() && visited == {} && stack == []
      ensures this.adj == adj && this.graph == graph
    {
      this.adj, this.graph := adj, graph;
      visited, inStack, stack, finished := {}, {}, [], [];
    }

    ghost predicate Valid()
      reads this
    {
      Represents(adj, graph) && SearchInv(graph, visited, inStack, stack, finished)
    }

    ghost function Unvisited(): set<string>
      reads this
    {
      Mentioned(adj, graph) - visited
    }

    /** Visits everything reachable from `node` that is not visited yet. A cycle is found, or the
        stack is as before and `node` is finished. */
    method Dfs(node: string) returns (found: bool)
      requires Valid() && node in Unvisited()
      requires stack != [] ==> (stack[|stack| - 1], node) in graph
      modifies this
      ensures found ==> HasDirectedCycle(graph)
      ensures !found ==> Valid() && stack == old(stack) && old(visited) + {node} <= visited
      ensures !found ==> node in finished
      decreases Unvisited()
    {
      Push(graph, visited, inStack, stack, finished, node);
      visited := visited + {node};
      inStack := inStack + {node};
      stack := stack + [node];
      assert node in old(Unvisited()) && node !in Unvisited();
      var neighbours := Targets(adj, node);
      for i := 0 to |neighbours|
        invariant Valid() && stack == old(stack) + [node] && old(visited) + {node} <= visited
        invariant forall j :: 0 <= j < i ==> neighbours[j] in visited && neighbours[j] !in inStack
      {
        var neighbour := neighbours[i];
        assert (node, neighbour) in graph && neighbour in Mentioned(adj, graph);
        if neighbour !in visited {
          var deeper := Dfs(neighbour);
          if deeper { return true; }
          assert inStack == Elements(stack) && neighbour in Elements(finished);
        } else if neighbour in inStack {
          BackEdgeClosesCycle(graph, stack, neighbour);
          return true;
        }
      }
      assert forall b :: (node, b) in graph ==> b in neighbours && b in visited && b !in inStack;
      assert forall b :: b in visited && b !in inStack ==> b in finished;
      Pop(graph, visited, inStack, old(stack), finished, node);
      inStack := inStack - {node};
      stack := old(stack);
      finished := finished + [node];
      return false;
    }
  }

  /** When every node is visited and none is on the stack, the finish order ranks the graph. */
  lemma CompleteSearchRanks(g: Graph, ids: set<string>, visited: set<string>, finished: seq<string>)
    requires SearchInv(g, visited, {}, [], finished) && ids <= visited
    requires forall a, b :: (a, b) in g ==> a in ids
    ensures !HasDirectedCycle(g) && exists rank :: IsRanking(g, rank)
  {
    var rank := FinishOrderRanks(g, finished);
    RankedGraphsAreAcyclic(g, rank);
  }

  /** True exactly when the flow's edges contain a directed cycle; otherwise a ranking exists. */
  method HasCycle(flow: Flow) returns (found: bool)
    ensures found <==> HasDirectedCycle(EdgesOf(flow))
    ensures !found ==> exists rank :: IsRanking(EdgesOf(flow), rank)
  {
    var adj := BuildAdjacency(flow);
    ghost var g := EdgesOf(flow);
    var search := new CycleSearch(adj, g);
    for i := 0 to |flow.nodes|
      invariant search.Valid() && search.stack == [] && search.inStack == {}
      invariant search.adj == adj && search.graph == g
      invariant NodeIds(flow.nodes[..i]) <= search.visited
    {
      var node := flow.nodes[i].id;
      assert flow.nodes[..i + 1] == flow.nodes[..i] + [flow.nodes[i]];
      assert NodeIds(flow.nodes[..i + 1]) == NodeIds(flow.nodes[..i]) + {node};
      if node !in search.visited {
        found := search.Dfs(node);
        if found { return true; }
        assert search.inStack == Elements([]) == {};
      }
    }
    assert flow.nodes[..|flow.nodes|] == flow.nodes;
    CompleteSearchRanks(g, NodeIds(flow.nodes), search.visited, search.finished);
    return false;
  }
}
