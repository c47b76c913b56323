/** Decision flows as they are declared. */
module Flows {
  import opened Basics
  import opened Values

  datatype NodeType =
    | StartNode | EndNode | DecisionNode | BoundaryNode | HumanGateNode | FallbackNode
    | ForkNode | MergeNode | ActionNode

  /** `contractValid` is the outcome of the inline contract check of the contract registry. */
  datatype Node = Node(
    id: string,
    nodeType: NodeType,
    condition: Option<string>,
    priority: nat,
    severity: Option<string>,
    effect: Option<string>,
    action: Option<Record>,
    isActive: bool,
    contractValid: bool)

  datatype Edge = Edge(source: string, target: string, condition: Option<string>)

  /** `strategy` is metadata.resolution_policy.strategy and `allowCycles` says whether
      metadata.allow_cycles is True. */
  datatype Flow = Flow(
    id: string,
    version: string,
    entryNodeId: string,
    nodes: seq<Node>,
    edges: seq<Edge>,
    strategy: Option<string>,
    allowCycles: bool)

  function NodeIds(nodes: seq<Node>): (ids: set<string>)
    ensures forall n :: n in nodes ==> n.id in ids
  {
    set n | n in nodes :: n.id
  }

  ghost predicate UniqueIds(nodes: seq<Node>) {
    forall i, j :: 0 <= i < j < |nodes| ==> nodes[i].id != nodes[j].id
  }

  /** The active nodes of one type, in declaration order. */
  function ActiveOf(nodes: seq<Node>, t: NodeType): (r: seq<Node>)
    ensures forall n :: n in r <==> n in nodes && n.nodeType == t && n.isActive
  {
    if nodes == [] then []
    else
      var rest := ActiveOf(nodes[1..], t);
      if nodes[0].nodeType == t && nodes[0].isActive then [nodes[0]] + rest else rest
  }
}
