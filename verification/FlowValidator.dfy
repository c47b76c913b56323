/** The structural and semantic rules a flow must meet before it is loaded. */
module FlowValidator {
  import opened Basics
  import opened Flows
  import opened FlowGraph
  import opened ConditionEvaluator

  datatype Rule =
    | HasNodes | UniqueNodeIds | EntryExists | EdgeReferences | ExactlyOneFallback
    | NoOrphans | NoCycles | ContractNodes | EdgeConditions | NodeConditions

  /** The rules in the order in which they are checked. */
  function Position(rule: Rule): nat {
    match rule
    case HasNodes => 0
    case UniqueNodeIds => 1
    case EntryExists => 2
    case EdgeReferences => 3
    case ExactlyOneFallback => 4
    case NoOrphans => 5
    case NoCycles => 6
    case ContractNodes => 7
    case EdgeConditions => 8
    case NodeConditions => 9
  }

  predicate NeedsContract(t: NodeType) {
    t.DecisionNode? || t.BoundaryNode? || t.FallbackNode?
  }

  /** Active or not, exactly one node is a fallback node. */
  ghost predicate HasOneFallback(nodes: seq<Node>) {
    exists i :: 0 <= i < |nodes| && nodes[i].nodeType.FallbackNode?
                && forall j :: 0 <= j < |nodes| && nodes[j].nodeType.FallbackNode? ==> j == i
  }

  ghost predicate IsFallbackId(nodes: seq<Node>, id: string) {
    exists n :: n in nodes && n.nodeType.FallbackNode? && n.id == id
  }

  /** What each rule demands. The last two are demanded only when conditions are validated, and
      then of edges and decision nodes, not of boundary nodes. */
  ghost predicate IsMet(rule: Rule, host: Host, validateConditions: bool, flow: Flow) {
    match rule
    case HasNodes => flow.nodes != []
    case UniqueNodeIds => UniqueIds(flow.nodes)
    case EntryExists => flow.entryNodeId in NodeIds(flow.nodes)
    case EdgeReferences =>
      forall e :: e in flow.edges ==> e.source in NodeIds(flow.nodes) && e.target in NodeIds(flow.nodes)
    case ExactlyOneFallback => HasOneFallback(flow.nodes)
    case NoOrphans =>
      forall n :: n in flow.nodes ==>
        IsFallbackId(flow.nodes, n.id) || Reachable(EdgesOf(flow), flow.entryNodeId, n.id)
    case NoCycles => flow.allowCycles || !HasDirectedCycle(EdgesOf(flow))
    case ContractNodes => forall n :: n in flow.nodes && NeedsContract(n.nodeType) ==> n.contractValid
    case EdgeConditions =>
      validateConditions ==> forall e :: e in flow.edges ==> IsValidSyntax(host, e.condition)
    case NodeConditions =>
      validateConditions ==>
        forall n :: n in flow.nodes && n.nodeType.DecisionNode? ==> IsValidSyntax(host, n.condition)
  }

  ghost predicate Accepted(host: Host, validateConditions: bool, flow: Flow) {
    forall rule :: IsMet(rule, host, validateConditions, flow)
  }

  // ---------------------------------------------------------------- the checks

  method CheckUniqueNodeIds(flow: Flow) returns (ok: bool)
    ensures ok <==> UniqueIds(flow.nodes)
  {
    var seen: set<string> := {};
    for i := 0 to |flow.nodes|
      invariant seen == set n | n in flow.nodes[..i] :: n.id
      invariant UniqueIds(flow.nodes[..i])
    {
      assert flow.nodes[..i + 1] == flow.nodes[..i] + [flow.nodes[i]];
      if flow.nodes[i].id in seen {
        var n :| n in flow.nodes[..i] && n.id == flow.nodes[i].id;
        return false;
      }
      forall j | 0 <= j < i ensures flow.nodes[j].id != flow.nodes[i].id {
        assert flow.nodes[j] in flow.nodes[..i];
      }
      seen := seen + {flow.nodes[i].id};
    }
    assert flow.nodes[..|flow.nodes|] == flow.nodes;
    return true;
  }

  method CheckEdgeReferences(flow: Flow) returns (ok: bool)
    ensures ok <==> forall e :: e in flow.edges ==>
                      e.source in NodeIds(flow.nodes) && e.target in NodeIds(flow.nodes)
  {
    var nodeIds := NodeIds(flow.nodes);
    for i := 0 to |flow.edges|
      invariant forall j :: 0 <= j < i ==> flow.edges[j].source in nodeIds && flow.edges[j].target in nodeIds
    {
      if flow.edges[i].source !in nodeIds { return false; }
      if flow.edges[i].target !in nodeIds { return false; }
    }
    return true;
  }

  method CheckExactlyOneFallback(flow: Flow) returns (ok: bool)
    ensures ok <==> HasOneFallback(flow.nodes)
  {
    var fallbacks: seq<nat> := [];
    for i := 0 to |flow.nodes|
      invariant forall k :: 0 <= k < |fallbacks| ==> fallbacks[k] < i && flow.nodes[fallbacks[k]].nodeType.FallbackNode?
      invariant forall j :: 0 <= j < i && flow.nodes[j].nodeType.FallbackNode? ==> j in fallbacks
      invariant Distinct(fallbacks)
    {
      if flow.nodes[i].nodeType.FallbackNode? {
        fallbacks := fallbacks + [i];
      }
    }
    if |fallbacks| > 1 {
      assert fallbacks[0] != fallbacks[1];
      return false;
    }
    return |fallbacks| == 1;
  }

  method CheckNoOrphanNodes(flow: Flow) returns (ok: bool)
    ensures ok <==> forall n :: n in flow.nodes ==>
                      IsFallbackId(flow.nodes, n.id) || Reachable(EdgesOf(flow), flow.entryNodeId, n.id)
  {
    var reachable := FindReachable(flow);
    var fallbackIds := set n | n in flow.nodes && n.nodeType.FallbackNode? :: n.id;
    for i := 0 to |flow.nodes|
      invariant forall j :: 0 <= j < i ==> flow.nodes[j].id in reachable || flow.nodes[j].id in fallbackIds
    {
      var node := flow.nodes[i];
      if node.id !in reachable && node.id !in fallbackIds {
        assert node in flow.nodes && !IsFallbackId(flow.nodes, node.id);
        return false;
      }
    }
    return true;
  }

  method CheckContractNodes(flow: Flow) returns (ok: bool)
    ensures ok <==> forall n :: n in flow.nodes
                                && (n.nodeType == DecisionNode || n.nodeType == BoundaryNode || n.nodeType == FallbackNode) ==>
                                  n.contractValid
  {
    for i := 0 to |flow.nodes|
      invariant forall j :: 0 <= j < i && NeedsContract(flow.nodes[j].nodeType) ==> flow.nodes[j].contractValid
    {
      if NeedsContract(flow.nodes[i].nodeType) && !flow.nodes[i].contractValid {
        assert flow.nodes[i] in flow.nodes;
        return false;
      }
    }
    return true;
  }

  method CheckEdgeConditions(host: Host, flow: Flow) returns (ok: bool)
    ensures ok <==> forall e :: e in flow.edges ==> IsValidSyntax(host, e.condition)
  {
    for i := 0 to |flow.edges|
      invariant forall j :: 0 <= j < i ==> IsValidSyntax(host, flow.edges[j].condition)
    {
      if !IsValidSyntax(host, flow.edges[i].condition) { return false; }
    }
    return true;
  }

  method CheckNodeConditions(host: Host, flow: Flow) returns (ok: bool)
    ensures ok <==> forall n :: n in flow.nodes && n.nodeType.DecisionNode? ==> IsValidSyntax(host, n.condition)
  {
    for i := 0 to |flow.nodes|
      invariant forall j :: 0 <= j < i && flow.nodes[j].nodeType.DecisionNode? ==>
                  IsValidSyntax(host, flow.nodes[j].condition)
    {
      var node := flow.nodes[i];
      if node.nodeType.DecisionNode? && !IsValidSyntax(host, node.condition) {
        assert node in flow.nodes;
        return false;
      }
    }
    return true;
  }

  /** The rules about nodes and edges. */
  method CheckStructure(host: Host, validateConditions: bool, flow: Flow) returns (violated: Option<Rule>)
    ensures violated.None? ==>
              forall rule :: Position(rule) <= Position(NoCycles) ==> IsMet(rule, host, validateConditions, flow)
    ensures violated.Some? ==> IsFirstViolated(violated.value, host, validateConditions, flow)
    ensures violated.None? && !flow.allowCycles ==> exists rank :: IsRanking(DeclaredEdges(flow), rank)
  {
    if flow.nodes == [] { return Some(HasNodes); }
    var ok := CheckUniqueNodeIds(flow);
    if !ok { return Some(UniqueNodeIds); }
    if flow.entryNodeId !in NodeIds(flow.nodes) { return Some(EntryExists); }
    ok := CheckEdgeReferences(flow);
    if !ok { return Some(EdgeReferences); }
    assert EdgesOf(flow) == DeclaredEdges(flow);
    ok := CheckExactlyOneFallback(flow);
    if !ok { return Some(ExactlyOneFallback); }
    ok := CheckNoOrphanNodes(flow);
    if !ok { return Some(NoOrphans); }
    if !flow.allowCycles {
      var cyclic := HasCycle(flow);
      if cyclic { return Some(NoCycles); }
    }
    return None;
  }

  ghost predicate IsFirstViolated(rule: Rule, host: Host, validateConditions: bool, flow: Flow) {
    !IsMet(rule, host, validateConditions, flow)
    && forall earlier :: Position(earlier) < Position(rule) ==> IsMet(earlier, host, validateConditions, flow)
  }

  /** The first rule the flow breaks, or None. A flow accepted without allow_cycles has a rank that
      strictly decreases along every one of its edges. */
  method Validate(host: Host, validateConditions: bool, flow: Flow) returns (violated: Option<Rule>)
    ensures violated.None? ==> Accepted(host, validateConditions, flow)
    ensures violated.Some? ==> IsFirstViolated(violated.value, host, validateConditions, flow)
    ensures violated.None? && !flow.allowCycles ==> exists rank :: IsRanking(DeclaredEdges(flow), rank)
  {
    violated := CheckStructure(host, validateConditions, flow);
    if violated.Some? { return; }
    var ok := CheckContractNodes(flow);
    if !ok { return Some(ContractNodes); }
    if validateConditions {
      ok := CheckEdgeConditions(host, flow);
      if !ok { return Some(EdgeConditions); }
      ok := CheckNodeConditions(host, flow);
      if !ok { return Some(NodeConditions); }
    }
  }
}
