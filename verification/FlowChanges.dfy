/** What a change of the flow does to its decisions: one more boundary, one more node of a known id. */
module FlowChanges {
  import opened Basics
  import opened Values
  import opened Flows
  import opened Decisions
  import opened Boundaries
  import opened Evaluation

  // ---------------------------------------------------------------- lists of nodes

  lemma ActiveOfCons(n: Node, rest: seq<Node>, t: NodeType)
    ensures ActiveOf([n] + rest, t) == (if n.nodeType == t && n.isActive then [n] else []) + ActiveOf(rest, t)
  {
    assert ([n] + rest)[1..] == rest;
  }

  lemma ActiveOfOne(n: Node, t: NodeType)
    ensures ActiveOf([n], t) == if n.nodeType == t && n.isActive then [n] else []
  {
    assert [n][1..] == [];
  }

  lemma {:induction false} ActiveOfConcat(a: seq<Node>, b: seq<Node>, t: NodeType)
    ensures ActiveOf(a + b, t) == ActiveOf(a, t) + ActiveOf(b, t)
  {
    if a == [] {
      assert a + b == b;
    } else {
      var n, rest := a[0], a[1..];
      assert a == [n] + rest && a + b == [n] + (rest + b);
      ActiveOfConcat(rest, b, t);
      ActiveOfCons(n, rest, t);
      ActiveOfCons(n, rest + b, t);
      Associates(if n.nodeType == t && n.isActive then [n] else [], ActiveOf(rest, t), ActiveOf(b, t));
    }
  }

  lemma ActiveAround(left: seq<Node>, n: Node, right: seq<Node>, t: NodeType)
    ensures ActiveOf(left + [n] + right, t) == ActiveOf(left, t) + ActiveOf([n], t) + ActiveOf(right, t)
  {
    ActiveOfConcat(left, [n], t);
    ActiveOfConcat(left + [n], right, t);
  }

  lemma {:induction false} ResultsForConcat(judge: Judge, a: seq<Node>, b: seq<Node>)
    ensures ResultsFor(judge, a + b) == ResultsFor(judge, a) + ResultsFor(judge, b)
  {
    if b == [] {
      assert a + b == a;
    } else {
      var n := |b| - 1;
      ResultsForConcat(judge, a, b[..n]);
      assert (a + b)[..|a| + n] == a + b[..n];
    }
  }

  lemma ResultsAround(judge: Judge, left: seq<Node>, n: Node, right: seq<Node>)
    ensures ResultsFor(judge, left + [n] + right)
         == Inserted(ResultsFor(judge, left + right), |left|, ResultFor(judge, n, Passes(judge, n)))
  {
    ResultsForConcat(judge, left, [n]);
    ResultsForConcat(judge, left + [n], right);
    ResultsForConcat(judge, left, right);
    assert [n][..0] == [];
    InsertedConcat(ResultsFor(judge, left), ResultsFor(judge, right), ResultFor(judge, n, Passes(judge, n)));
  }

  lemma InsertedConcat<T>(a: seq<T>, b: seq<T>, x: T)
    ensures Inserted(a + b, |a|, x) == a + [x] + b
  {
  }

  // ---------------------------------------------------------------- one more boundary

  /** The flow with one more node declared at position `p`. */
  function WithNode(flow: Flow, p: nat, node: Node): Flow
    requires p <= |flow.nodes|
  {
    flow.(nodes := flow.nodes[..p] + [node] + flow.nodes[p..])
  }

  /** How many active boundaries are declared before position `p`. */
  function BoundariesBefore(flow: Flow, p: nat): nat
    requires p <= |flow.nodes|
  {
    |ActiveOf(flow.nodes[..p], BoundaryNode)|
  }

  function ResultsOf(judge: Judge, flow: Flow): seq<BoundaryResult> {
    ResultsFor(judge, ActiveOf(flow.nodes, BoundaryNode))
  }

  lemma InsertedKeepsOthers(flow: Flow, p: nat, b: Node, t: NodeType)
    requires p <= |flow.nodes| && b.nodeType != t
    ensures ActiveOf(WithNode(flow, p, b).nodes, t) == ActiveOf(flow.nodes, t)
  {
    assert flow.nodes == flow.nodes[..p] + flow.nodes[p..];
    ActiveOfConcat(flow.nodes[..p], flow.nodes[p..], t);
    ActiveAround(flow.nodes[..p], b, flow.nodes[p..], t);
    ActiveOfOne(b, t);
  }

  lemma InsertedKeepsCandidates(flow: Flow, p: nat, b: Node)
    requires p <= |flow.nodes| && b.nodeType.BoundaryNode?
    ensures SameCandidates(flow, WithNode(flow, p, b))
  {
    InsertedKeepsOthers(flow, p, b, DecisionNode);
    InsertedKeepsOthers(flow, p, b, FallbackNode);
  }

  /** Declaring one more active boundary inserts its result among the others, in declaration order. */
  lemma InsertedBoundaryResults(judge: Judge, flow: Flow, p: nat, b: Node)
    requires p <= |flow.nodes| && b.nodeType.BoundaryNode? && b.isActive
    ensures BoundariesBefore(flow, p) <= |ResultsOf(judge, flow)|
    ensures ResultsOf(judge, WithNode(flow, p, b))
         == Inserted(ResultsOf(judge, flow), BoundariesBefore(flow, p), ResultFor(judge, b, Passes(judge, b)))
  {
    assert flow.nodes == flow.nodes[..p] + flow.nodes[p..];
    ActiveOfConcat(flow.nodes[..p], flow.nodes[p..], BoundaryNode);
    ActiveAround(flow.nodes[..p], b, flow.nodes[p..], BoundaryNode);
    ActiveOfOne(b, BoundaryNode);
    ResultsAround(judge, ActiveOf(flow.nodes[..p], BoundaryNode), b, ActiveOf(flow.nodes[p..], BoundaryNode));
  }

  lemma InsertedIsJudged(judge: Judge, flow: Flow, p: nat, b: Node)
    requires p <= |flow.nodes| && judge.verdict(b.condition).Some?
    ensures AllJudged(judge, ActiveOf(WithNode(flow, p, b).nodes, BoundaryNode))
       <==> AllJudged(judge, ActiveOf(flow.nodes, BoundaryNode))
  {
    assert flow.nodes == flow.nodes[..p] + flow.nodes[p..];
    assert forall n :: n in WithNode(flow, p, b).nodes <==> n in flow.nodes || n == b;
  }

  /** The two evaluations end alike: the same error, or decisions that differ in the listed boundary
      results only. */
  ghost predicate EndAlike(x: Result<(DecisionResult, seq<Record>), EvaluationError>,
                           y: Result<(DecisionResult, seq<Record>), EvaluationError>) {
    match (x, y)
    case (Failure(e), Failure(f)) => e == f
    case (Success((a, _)), Success((b, _))) => b.(boundaryResults := a.boundaryResults) == a
    case _ => false
  }

  lemma SameChoiceEndsAlike(judge: Judge, signal: Signal, f: Flow, g: Flow, stamp: Stamp, i: nat, r: BoundaryResult)
    requires f.id == g.id && f.version == g.version && Selected(judge, f) == Selected(judge, g) && SameCandidates(f, g)
    requires AllJudged(judge, ActiveOf(f.nodes, BoundaryNode)) <==> AllJudged(judge, ActiveOf(g.nodes, BoundaryNode))
    requires i <= |ResultsOf(judge, f)| && ResultsOf(judge, g) == Inserted(ResultsOf(judge, f), i, r)
    requires !TakesOver(ResultsOf(judge, f), i, r)
    ensures EndAlike(Evaluated(judge, signal, f, stamp), Evaluated(judge, signal, g, stamp))
  {
    if Selected(judge, f).Some? {
      LosingBoundaryChangesNothing(InitialResult(judge, signal, f, Selected(judge, f).value, stamp), ResultsOf(judge, f), i, r);
    }
  }

  lemma IsTablePosition(nodes: seq<Node>, id: string, k: nat)
    requires k <= |nodes| && (k < |nodes| ==> nodes[k].id == id)
    requires forall j :: 0 <= j < |nodes| && (k == |nodes| || j > k) ==> nodes[j].id != id
    ensures TablePosition(nodes, id) == k
  {
  }

  /** The table position of any other id moves by one behind the new node, and stays before it. */
  lemma PositionAfterInsertion(nodes: seq<Node>, p: nat, b: Node, id: string)
    requires p <= |nodes| && b.id != id
    ensures TablePosition(Inserted(nodes, p, b), id)
         == TablePosition(nodes, id) + if TablePosition(nodes, id) < p then 0 else 1
  {
    var k := TablePosition(nodes, id);
    IsTablePosition(Inserted(nodes, p, b), id, if k < p then k else k + 1);
  }

  lemma {:induction false} SameKeysSameBest(nodes: seq<Node>, nodes': seq<Node>, candidates: seq<Node>)
    requires candidates != []
    requires forall a, b :: a in candidates && b in candidates ==> (KeyBelow(nodes, a, b) <==> KeyBelow(nodes', a, b))
    ensures BestIndex(nodes, candidates) == BestIndex(nodes', candidates)
  {
    var n := |candidates| - 1;
    if n > 0 {
      assert forall a :: a in candidates[..n] ==> a in candidates;
      SameKeysSameBest(nodes, nodes', candidates[..n]);
      var k := BestIndex(nodes, candidates[..n]);
      assert candidates[k] in candidates && candidates[n] in candidates;
    }
  }

  /** A node whose id no other node has does not change the choice, nor does any node under first match. */
  lemma InsertedKeepsChoice(judge: Judge, flow: Flow, p: nat, b: Node)
    requires p <= |flow.nodes| && b.nodeType.BoundaryNode?
    requires flow.strategy == Some("priority") ==> b.id !in NodeIds(flow.nodes)
    ensures Selected(judge, flow) == Selected(judge, WithNode(flow, p, b))
  {
    InsertedKeepsCandidates(flow, p, b);
    var passing := Passing(judge, ActiveOf(flow.nodes, DecisionNode));
    if passing != [] && flow.strategy == Some("priority") {
      var longer := Inserted(flow.nodes, p, b);
      forall x, y | x in passing && y in passing ensures KeyBelow(flow.nodes, x, y) <==> KeyBelow(longer, x, y) {
        PassingAreNodes(judge, flow, x);
        PassingAreNodes(judge, flow, y);
        PositionAfterInsertion(flow.nodes, p, b, x.id);
        PositionAfterInsertion(flow.nodes, p, b, y.id);
      }
      SameKeysSameBest(flow.nodes, longer, passing);
    }
  }

  lemma PassingAreNodes(judge: Judge, flow: Flow, n: Node)
    requires n in Passing(judge, ActiveOf(flow.nodes, DecisionNode))
    ensures n in flow.nodes
  {
    var passing := Passing(judge, ActiveOf(flow.nodes, DecisionNode));
    var at := CandidatesEmbed(judge, flow.nodes);
    var i :| 0 <= i < |passing| && passing[i] == n;
    assert flow.nodes[at[i]] == n;
  }

  /** Inserting into a flow a boundary that does not take over - of lower rank, or of equal rank and
      declared later, or not triggered - leaves the decision as it is; so does deleting one. Under the
      priority strategy its id has to be its own. */
  lemma LosingBoundaryNodeChangesNothing(judge: Judge, signal: Signal, flow: Flow, p: nat, b: Node, stamp: Stamp)
    requires p <= |flow.nodes| && b.nodeType.BoundaryNode? && b.isActive && judge.verdict(b.condition).Some?
    requires flow.strategy == Some("priority") ==> b.id !in NodeIds(flow.nodes)
    requires !TakesOver(ResultsOf(judge, flow), BoundariesBefore(flow, p), ResultFor(judge, b, Passes(judge, b)))
    ensures EndAlike(Evaluated(judge, signal, flow, stamp), Evaluated(judge, signal, WithNode(flow, p, b), stamp))
  {
    InsertedKeepsCandidates(flow, p, b);
    InsertedBoundaryResults(judge, flow, p, b);
    InsertedKeepsChoice(judge, flow, p, b);
    InsertedIsJudged(judge, flow, p, b);
    SameChoiceEndsAlike(judge, signal, flow, WithNode(flow, p, b), stamp, BoundariesBefore(flow, p),
                        ResultFor(judge, b, Passes(judge, b)));
  }

  // ---------------------------------------------------------------- repeated ids

  lemma BothPass(judge: Judge, a: Node, b: Node)
    requires Passes(judge, a) && Passes(judge, b)
    ensures Passing(judge, [a, b]) == [a, b]
  {
    assert [a, b][..1] == [a] && [a][..0] == [];
    assert Passing(judge, [a]) == [a];
  }

  lemma TwoActive(a: Node, b: Node, rest: seq<Node>)
    requires a.nodeType.DecisionNode? && b.nodeType.DecisionNode? && a.isActive && b.isActive
    ensures ActiveOf([a, b] + rest, DecisionNode) == [a, b] + ActiveOf(rest, DecisionNode)
  {
    ActiveOfOne(a, DecisionNode);
    ActiveOfOne(b, DecisionNode);
    ActiveOfConcat([a], [b], DecisionNode);
    ActiveOfConcat([a, b], rest, DecisionNode);
    assert [a] + [b] == [a, b];
  }

  lemma OtherAddsNothing(nodes: seq<Node>, other: Node, t: NodeType)
    requires other.nodeType != t
    ensures ActiveOf(nodes + [other], t) == ActiveOf(nodes, t)
  {
    ActiveOfConcat(nodes, [other], t);
    ActiveOfOne(other, t);
  }

  lemma FirstOfEquals(nodes: seq<Node>, a: Node, b: Node)
    requires a.priority == b.priority
    ensures BestIndex(nodes, [a, b]) == if TablePosition(nodes, a.id) <= TablePosition(nodes, b.id) then 0 else 1
  {
    var k := BestIndex(nodes, [a, b]);
    assert [a, b][0] == a && [a, b][1] == b;
    assert IsFirstBest(nodes, [a, b], k);
  }

  /** That evaluation depends on the active nodes only needs unique ids: any other node that repeats the
      id of the first of two candidates of equal priority hands the choice to the second. */
  lemma RepeatedIdsMatter(judge: Judge, a: Node, b: Node, other: Node, f: Flow, g: Flow)
    requires f.nodes == [a, b] && g == f.(nodes := [a, b] + [other]) && f.strategy == Some("priority")
    requires a.nodeType.DecisionNode? && b.nodeType.DecisionNode? && a.isActive && b.isActive
    requires Passes(judge, a) && Passes(judge, b) && a.priority == b.priority && a.id != b.id
    requires other.id == a.id && other.nodeType.StartNode?
    ensures SameActiveNodes(f, g)
    ensures Selected(judge, f) == Some(Selection(a, true)) && Selected(judge, g) == Some(Selection(b, true))
  {
    OtherAddsNothing([a, b], other, DecisionNode);
    OtherAddsNothing([a, b], other, BoundaryNode);
    OtherAddsNothing([a, b], other, FallbackNode);
    TwoActive(a, b, []);
    assert [a, b] + [] == [a, b];
    BothPass(judge, a, b);
    TableOfTwo(a, b, other);
    FirstOfEquals(f.nodes, a, b);
    FirstOfEquals(g.nodes, a, b);
  }

  lemma TableOfTwo(a: Node, b: Node, other: Node)
    requires a.id != b.id && other.id == a.id
    ensures TablePosition([a, b], a.id) == 0 && TablePosition([a, b], b.id) == 1
    ensures TablePosition([a, b] + [other], a.id) == 2 && TablePosition([a, b] + [other], b.id) == 1
  {
    assert [a, b][0] == a && [a, b][1] == b;
    assert ([a, b] + [other])[1] == b && ([a, b] + [other])[2] == other;
  }
}
