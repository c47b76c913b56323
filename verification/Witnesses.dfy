/** Concrete inputs for what the program does not promise: flows that pass the validator and still raise,
    and a commit that is refused and leaves a gate behind. */
module Witnesses {
  import opened Basics
  import opened Values
  import opened Flows
  import opened FlowGraph
  import opened Decisions
  import opened Boundaries
  import opened Evaluation
  import opened EvaluationRecords
  import opened LedgerAdapter
  import opened HumanGates
  import opened Worlds
  import opened Engine
  import opened Safety
  import opened SafePlans
  import opened Outcomes
  import opened FlowValidator
  import CE = ConditionEvaluator

  // ---------------------------------------------------------------- small flows

  function SmallNode(id: string, t: NodeType, condition: Option<string>, effect: Option<string>, isActive: bool): Node {
    Node(id, t, condition, 0, None, effect, None, isActive, true)
  }

  /** A flow without edges, entered at its first node. */
  function SmallFlow(nodes: seq<Node>): Flow
    requires nodes != []
  {
    Flow("flow", "1.0.0", nodes[0].id, nodes, [], None, false)
  }

  lemma NoEdgesNoCycle(flow: Flow)
    requires flow.edges == []
    ensures EdgesOf(flow) == {} && !HasDirectedCycle(EdgesOf(flow))
    ensures Reachable(EdgesOf(flow), flow.entryNodeId, flow.entryNodeId)
  {
    assert EdgesOf(flow) == {};
    RankedGraphsAreAcyclic(EdgesOf(flow), map[]);
    assert IsPathFromTo(EdgesOf(flow), [flow.entryNodeId], flow.entryNodeId, flow.entryNodeId);
  }

  /** The validator accepts a node and a fallback without edges, as far as it looks at their conditions. */
  lemma TwoNodesAreAccepted(host: CE.Host, vc: bool, first: Node, fallback: Node)
    requires first.id != fallback.id && fallback.nodeType.FallbackNode? && !first.nodeType.FallbackNode?
    requires first.contractValid && fallback.contractValid
    requires vc && first.nodeType.DecisionNode? ==> CE.IsValidSyntax(host, first.condition)
    ensures Accepted(host, vc, SmallFlow([first, fallback]))
  {
    var flow := SmallFlow([first, fallback]);
    NoEdgesNoCycle(flow);
    assert flow.nodes[0] == first && flow.nodes[1] == fallback;
    forall rule ensures IsMet(rule, host, vc, flow) {
      match rule {
        case EntryExists => assert first in flow.nodes;
        case NoOrphans => assert IsFallbackId(flow.nodes, fallback.id);
        case _ =>
      }
    }
  }

  lemma LoneFallbackIsAccepted(host: CE.Host, vc: bool, fallback: Node)
    requires fallback.nodeType.FallbackNode? && fallback.contractValid
    ensures Accepted(host, vc, SmallFlow([fallback]))
  {
    var flow := SmallFlow([fallback]);
    NoEdgesNoCycle(flow);
    assert flow.nodes[0] == fallback;
    forall rule ensures IsMet(rule, host, vc, flow) {
      match rule {
        case EntryExists => assert fallback in flow.nodes;
        case NoOrphans => assert IsFallbackId(flow.nodes, fallback.id);
        case _ =>
      }
    }
  }

  // ---------------------------------------------------------------- accepted flows that raise

  /** A host whose parser rejects every text. */
  const NO_SYNTAX: CE.Host := CE.Host(_ => None, _ => true, _ => false)

  lemma NothingParses()
    ensures !CE.IsValidSyntax(NO_SYNTAX, Some("?"))
  {
    assert CE.Strip(NO_SYNTAX.space, "?") == "?";
  }

  ghost predicate RaisesThoughAccepted(settings: Settings, validateConditions: bool, flow: Flow) {
    && Accepted(settings.host, validateConditions, flow)
    && forall signal, stamp :: Evaluated(JudgeFor(settings, signal), signal, flow, stamp).Failure?
  }

  /** Loaded without validating conditions: an invalid decision condition, with an active fallback and no
      boundary at all. */
  lemma InvalidDecisionRaises(settings: Settings, condition: string)
    requires !CE.IsValidSyntax(settings.host, Some(condition))
    ensures RaisesThoughAccepted(settings, false, SmallFlow([
              SmallNode("d", DecisionNode, Some(condition), None, true), SmallNode("f", FallbackNode, None, None, true)]))
  {
    var decision, fallback := SmallNode("d", DecisionNode, Some(condition), None, true), SmallNode("f", FallbackNode, None, None, true);
    var flow := SmallFlow([decision, fallback]);
    assert "d"[0] != "f"[0];
    TwoNodesAreAccepted(settings.host, false, decision, fallback);
    assert decision in flow.nodes;
    forall signal, stamp ensures Evaluated(JudgeFor(settings, signal), signal, flow, stamp).Failure? {
      FlowsRaiseExactlyWhen(settings, signal, flow, stamp);
    }
  }

  /** Accepted with all conditions validated: an invalid boundary condition. */
  lemma InvalidBoundaryRaises(settings: Settings, condition: string)
    requires !CE.IsValidSyntax(settings.host, Some(condition))
    ensures RaisesThoughAccepted(settings, true, SmallFlow([
              SmallNode("b", BoundaryNode, Some(condition), None, true), SmallNode("f", FallbackNode, None, None, true)]))
  {
    var boundary, fallback := SmallNode("b", BoundaryNode, Some(condition), None, true), SmallNode("f", FallbackNode, None, None, true);
    var flow := SmallFlow([boundary, fallback]);
    assert "b"[0] != "f"[0];
    TwoNodesAreAccepted(settings.host, true, boundary, fallback);
    assert boundary in flow.nodes;
    forall signal, stamp ensures Evaluated(JudgeFor(settings, signal), signal, flow, stamp).Failure? {
      FlowsRaiseExactlyWhen(settings, signal, flow, stamp);
    }
  }

  /** Accepted with all conditions validated: the one fallback is not active. */
  lemma InactiveFallbackRaises(settings: Settings)
    ensures RaisesThoughAccepted(settings, true, SmallFlow([SmallNode("f", FallbackNode, None, None, false)]))
  {
    var fallback := SmallNode("f", FallbackNode, None, None, false);
    var flow := SmallFlow([fallback]);
    LoneFallbackIsAccepted(settings.host, true, fallback);
    forall signal, stamp ensures Evaluated(JudgeFor(settings, signal), signal, flow, stamp).Failure? {
      FlowsRaiseExactlyWhen(settings, signal, flow, stamp);
    }
  }

  // ---------------------------------------------------------------- a refused commit

  /** Two active decisions of one id, and a boundary that always escalates. */
  function EscalatingTwins(d: string, b: string): Flow {
    SmallFlow([SmallNode(d, DecisionNode, None, None, true), SmallNode(d, DecisionNode, None, None, true),
               SmallNode(b, BoundaryNode, None, Some("escalate"), true)])
  }

  lemma TwinsAreActive(d: string, b: string)
    ensures var decision, boundary := SmallNode(d, DecisionNode, None, None, true),
                                      SmallNode(b, BoundaryNode, None, Some("escalate"), true);
            && ActiveOf(EscalatingTwins(d, b).nodes, DecisionNode) == [decision, decision]
            && ActiveOf(EscalatingTwins(d, b).nodes, BoundaryNode) == [boundary]
  {
    var decision, boundary := SmallNode(d, DecisionNode, None, None, true),
                              SmallNode(b, BoundaryNode, None, Some("escalate"), true);
    var nodes := EscalatingTwins(d, b).nodes;
    assert nodes[1..] == [decision, boundary] && nodes[1..][1..] == [boundary] && [boundary][1..] == [];
    assert ActiveOf([boundary], BoundaryNode) == [boundary] && ActiveOf([boundary], DecisionNode) == [];
    assert ActiveOf(nodes[1..], DecisionNode) == [decision] && ActiveOf(nodes[1..], BoundaryNode) == [boundary];
  }

  lemma LoneEscalationDominates(judge: Judge, boundary: Node)
    requires boundary.effect == Some("escalate") && Passes(judge, boundary)
    ensures var rs := ResultsFor(judge, [boundary]);
            Dominant(rs) == Some(0) && rs[0].effect == "escalate"
  {
    assert [boundary][..0] == [];
    var rs := ResultsFor(judge, [boundary]);
    assert rs == [ResultFor(judge, boundary, true)];
    assert Weights(rs)[0] >= 0;
    assert Dominates(rs, 0);
    DominantIs(rs, 0);
  }

  lemma TwinsAreSelected(judge: Judge, d: string, b: string)
    requires judge.verdict(None) == Some(true)
    ensures Selected(judge, EscalatingTwins(d, b)).Some?
    ensures AllJudged(judge, ActiveOf(EscalatingTwins(d, b).nodes, DecisionNode))
  {
    var decision := SmallNode(d, DecisionNode, None, None, true);
    TwinsAreActive(d, b);
    NothingPasses(judge, [decision, decision]);
    assert decision in [decision, decision];
  }

  lemma TwinsRepeatAnId(judge: Judge, d: string, b: string)
    requires Selected(judge, EscalatingTwins(d, b)).Some?
    ensures !Distinct(IdsIn(Consulted(judge, EscalatingTwins(d, b))))
  {
    TwinsAreActive(d, b);
    var ids := IdsIn(Consulted(judge, EscalatingTwins(d, b)));
    assert ids[0] == ids[1];
  }

  lemma EscalationIsPending(result: DecisionResult, rs: seq<BoundaryResult>)
    requires Dominant(rs) == Some(0) && rs[0].effect == "escalate"
    ensures Adjusted(result, rs).status == PendingHuman
  {
  }

  lemma TwinsArePending(judge: Judge, signal: Signal, d: string, b: string, stamp: Stamp)
    requires judge.verdict(None) == Some(true)
    ensures var e := Evaluated(judge, signal, EscalatingTwins(d, b), stamp);
            e.Success? && e.value.0.status == PendingHuman
  {
    TwinsAreActive(d, b);
    TwinsAreSelected(judge, d, b);
    var flow, boundary := EscalatingTwins(d, b), SmallNode(b, BoundaryNode, None, Some("escalate"), true);
    LoneEscalationDominates(judge, boundary);
    EscalationIsPending(InitialResult(judge, signal, flow, Selected(judge, flow).value, stamp), ResultsFor(judge, [boundary]));
  }

  lemma TwinsEscalate(settings: Settings, signal: Signal, d: string, b: string, stamp: Stamp)
    ensures var e := Evaluated(JudgeFor(settings, signal), signal, EscalatingTwins(d, b), stamp);
            e.Success? && e.value.0.status == PendingHuman
    ensures Selected(JudgeFor(settings, signal), EscalatingTwins(d, b)).Some?
    ensures !Distinct(IdsIn(Consulted(JudgeFor(settings, signal), EscalatingTwins(d, b))))
  {
    var judge := JudgeFor(settings, signal);
    assert judge.verdict(None) == Some(true);
    TwinsAreSelected(judge, d, b);
    TwinsRepeatAnId(judge, d, b);
    TwinsArePending(judge, signal, d, b, stamp);
  }

  /** Its strict commit is refused, and the gate is left behind; nothing else is. */
  lemma RefusedCommitLeavesGate(settings: Settings, adapter: Adapter, w: World, signal: Signal, d: string, b: string, draw: Draw)
    requires settings.strict && settings.ledger == Some(adapter) && IsInjective(adapter.naming)
    requires LogFits(adapter.naming, w.gates, w.log) && IsFresh(w, draw)
    ensures var plan := Planned(settings, w, signal, EscalatingTwins(d, b), draw, None);
            var v := Applied(w, plan.effects);
            && plan.answer.Success? && plan.answer.value.status == StatusError
            && draw.gateId !in w.gates.store && draw.gateId in v.gates.store && v.gates.store[draw.gateId].status == GatePending
            && v == w.(gates := v.gates, log := v.log)
  {
    var flow, judge := EscalatingTwins(d, b), JudgeFor(settings, signal);
    TwinsEscalate(settings, signal, d, b, draw.stamp);
    var (result, records) := Evaluated(judge, signal, flow, draw.stamp).value;
    StrictAnswer(settings, adapter, w, signal, flow, draw);
    TwinsCommitIsPartial(settings, adapter, w, signal, d, b, draw);
    UnacceptedCommitLeavesTheRest(settings, adapter, w, signal, flow, draw, None, result, records);
  }

  lemma TwinsCommitIsPartial(settings: Settings, adapter: Adapter, w: World, signal: Signal, d: string, b: string, draw: Draw)
    requires IsInjective(adapter.naming) && LogFits(adapter.naming, w.gates, w.log) && IsFresh(w, draw)
    requires Evaluated(JudgeFor(settings, signal), signal, EscalatingTwins(d, b), draw.stamp).Success?
    ensures var (result, records) := Evaluated(JudgeFor(settings, signal), signal, EscalatingTwins(d, b), draw.stamp).value;
            var final := WithGate(result, draw);
            CommitOutcome(w.log, EventsFor(adapter, CommitTrace(signal, EscalatingTwins(d, b), final, records, draw), final)).status
            == CommitPartial
  {
    var flow, judge := EscalatingTwins(d, b), JudgeFor(settings, signal);
    var (result, records) := Evaluated(judge, signal, flow, draw.stamp).value;
    var final := WithGate(result, draw);
    TwinsEscalate(settings, signal, d, b, draw.stamp);
    ResultShape(judge, signal, flow, draw.stamp);
    ExplainedIsWellNamed(adapter.naming, w.gates, w.log);
    FreshCommitOutcome(adapter, w, judge, flow, CommitTrace(signal, flow, final, records, draw), final);
  }

  // ---------------------------------------------------------------- a gate left behind by an outage

  /** A decision that always passes, a boundary that always escalates, a fallback. */
  function Escalating(): Flow {
    Flow("flow", "1.0.0", "d",
         [SmallNode("d", DecisionNode, None, None, true), SmallNode("b", BoundaryNode, None, Some("escalate"), true),
          SmallNode("f", FallbackNode, None, None, true)],
         [Edge("d", "b", None)], None, false)
  }

  lemma OneEdge(flow: Flow, a: string, b: string)
    requires flow.edges == [Edge(a, b, None)] && a in NodeIds(flow.nodes) && a != b && flow.entryNodeId == a
    ensures EdgesOf(flow) == {(a, b)} && !HasDirectedCycle(EdgesOf(flow))
    ensures Reachable(EdgesOf(flow), a, a) && Reachable(EdgesOf(flow), a, b)
  {
    var g := EdgesOf(flow);
    assert flow.edges[0] in flow.edges;
    assert (a, b) in g;
    assert forall e :: e in flow.edges ==> e == flow.edges[0];
    RankedGraphsAreAcyclic(g, map[a := 1, b := 0]);
    assert IsPathFromTo(g, [a], a, a);
    assert IsPathFromTo(g, [a, b], a, b);
  }

  lemma ThreeHaveUniqueIds(d: Node, b: Node, f: Node)
    requires d.id != b.id && d.id != f.id && b.id != f.id
    ensures UniqueIds([d, b, f])
  {
  }

  lemma OnlyFallbackAt(nodes: seq<Node>, i: nat)
    requires i < |nodes| && nodes[i].nodeType.FallbackNode?
    requires forall j :: 0 <= j < |nodes| && j != i ==> !nodes[j].nodeType.FallbackNode?
    ensures HasOneFallback(nodes) && IsFallbackId(nodes, nodes[i].id)
  {
    assert nodes[i] in nodes;
  }

  lemma LastIsOnlyFallback(d: Node, b: Node, f: Node)
    requires !d.nodeType.FallbackNode? && !b.nodeType.FallbackNode? && f.nodeType.FallbackNode?
    ensures HasOneFallback([d, b, f]) && IsFallbackId([d, b, f], f.id)
  {
    var nodes := [d, b, f];
    assert nodes[0] == d && nodes[1] == b && nodes[2] == f;
    OnlyFallbackAt(nodes, 2);
  }

  lemma ThreeAreKnown(d: Node, b: Node, f: Node)
    ensures d.id in NodeIds([d, b, f]) && b.id in NodeIds([d, b, f])
    ensures forall n :: n in [d, b, f] ==> n == d || n == b || n == f
  {
    assert d in [d, b, f] && b in [d, b, f];
  }

  /** A decision, a boundary and a fallback, with an edge from the first to the second. */
  lemma ThreeNodesAreAccepted(host: CE.Host, flow: Flow, d: Node, b: Node, f: Node)
    requires flow.nodes == [d, b, f] && flow.edges == [Edge(d.id, b.id, None)] && flow.entryNodeId == d.id
    requires d.id != b.id && d.id != f.id && b.id != f.id
    requires d.nodeType.DecisionNode? && b.nodeType.BoundaryNode? && f.nodeType.FallbackNode?
    requires d.contractValid && b.contractValid && f.contractValid && d.condition.None?
    ensures Accepted(host, true, flow)
  {
    ThreeHaveUniqueIds(d, b, f);
    LastIsOnlyFallback(d, b, f);
    ThreeAreKnown(d, b, f);
    OneEdge(flow, d.id, b.id);
    assert forall e :: e in flow.edges ==> e == Edge(d.id, b.id, None);
    forall rule ensures IsMet(rule, host, true, flow) {
      assert CE.IsValidSyntax(host, None);
    }
  }

  lemma EscalatingIsAccepted(host: CE.Host)
    ensures Accepted(host, true, Escalating())
  {
    assert "d"[0] != "b"[0] && "d"[0] != "f"[0] && "b"[0] != "f"[0];
    ThreeNodesAreAccepted(host, Escalating(), SmallNode("d", DecisionNode, None, None, true),
                          SmallNode("b", BoundaryNode, None, Some("escalate"), true), SmallNode("f", FallbackNode, None, None, true));
  }

  lemma EscalatingIsActive()
    ensures ActiveOf(Escalating().nodes, DecisionNode) == [SmallNode("d", DecisionNode, None, None, true)]
    ensures ActiveOf(Escalating().nodes, BoundaryNode) == [SmallNode("b", BoundaryNode, None, Some("escalate"), true)]
  {
    var nodes := Escalating().nodes;
    assert nodes[1..] == [nodes[1], nodes[2]] && nodes[1..][1..] == [nodes[2]] && [nodes[2]][1..] == [];
    assert ActiveOf([nodes[2]], DecisionNode) == [] == ActiveOf([nodes[2]], BoundaryNode);
    assert ActiveOf(nodes[1..], DecisionNode) == [] && ActiveOf(nodes[1..], BoundaryNode) == [nodes[1]];
  }

  lemma EscalatingIsPending(judge: Judge, signal: Signal, stamp: Stamp)
    requires judge.verdict(None) == Some(true)
    ensures var e := Evaluated(judge, signal, Escalating(), stamp);
            e.Success? && e.value.0.status == PendingHuman
  {
    var flow := Escalating();
    var decision, boundary := SmallNode("d", DecisionNode, None, None, true),
                              SmallNode("b", BoundaryNode, None, Some("escalate"), true);
    EscalatingIsActive();
    NothingPasses(judge, [decision]);
    assert decision in [decision];
    LoneEscalationDominates(judge, boundary);
    EscalationIsPending(InitialResult(judge, signal, flow, Selected(judge, flow).value, stamp), ResultsFor(judge, [boundary]));
  }

  lemma NothingReached(adapter: Adapter, trace: DecisionTrace, result: DecisionResult)
    ensures Fails(EventsFor(adapter, trace, result), Some(0)) && Reached(EventsFor(adapter, trace, result), Some(0)) == []
  {
  }

  lemma GateAloneIsWritten(settings: Settings, adapter: Adapter, w: World, signal: Signal, flow: Flow, draw: Draw,
                           result: DecisionResult, records: seq<Record>)
    requires result.status == PendingHuman
    ensures var plan := PlanStrict(settings, adapter, w, signal, flow, draw, Some(0), result, records);
            && plan.answer == Failure(LedgerRaised)
            && Applied(w, plan.effects)
               == w.(gates := Opened(w.gates, NewRequest(draw.gateId, result, None, draw.gateAt), result))
  {
    var final := WithGate(result, draw);
    NothingReached(adapter, CommitTrace(signal, flow, final, records, draw), final);
    assert Opening(result, draw) + Appends([]) == Opening(result, draw);
    OpeningWrites(w, result, draw);
  }

  /** A flow that the validator accepts, with the ledger raising at the first append: the request fails,
      nothing is in the ledger, and a pending gate is left behind. */
  lemma OutageLeavesGate(settings: Settings, adapter: Adapter, w: World, signal: Signal, draw: Draw)
    requires settings.strict && settings.ledger == Some(adapter) && draw.gateId !in w.gates.store
    ensures var plan := Planned(settings, w, signal, Escalating(), draw, Some(0));
            var v := Applied(w, plan.effects);
            && Accepted(settings.host, true, Escalating())
            && plan.answer == Failure(LedgerRaised) && v == w.(gates := v.gates)
            && draw.gateId in v.gates.store && v.gates.store[draw.gateId].status == GatePending
  {
    var judge := JudgeFor(settings, signal);
    EscalatingIsAccepted(settings.host);
    assert judge.verdict(None) == Some(true);
    EscalatingIsPending(judge, signal, draw.stamp);
    var (result, records) := Evaluated(judge, signal, Escalating(), draw.stamp).value;
    GateAloneIsWritten(settings, adapter, w, signal, Escalating(), draw, result, records);
  }
}
