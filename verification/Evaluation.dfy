/** Core evaluation without side effects: decision nodes, resolution, fallback, boundaries. */
module Evaluation {
  import opened Basics
  import opened Values
  import opened Flows
  import opened Decisions
  import opened Boundaries

  // ---------------------------------------------------------------- resolution

  /** The position the engine's id table holds for a node id: that of its last occurrence. */
  function TablePosition(nodes: seq<Node>, id: string): (p: nat)
    ensures p <= |nodes|
    ensures p < |nodes| ==> nodes[p].id == id && forall j :: p < j < |nodes| ==> nodes[j].id != id
    ensures p == |nodes| ==> forall j :: 0 <= j < |nodes| ==> nodes[j].id != id
  {
    LastFrom(nodes, id, |nodes|)
  }

  function LastFrom(nodes: seq<Node>, id: string, n: nat): (p: nat)
    requires n <= |nodes|
    requires forall j :: n <= j < |nodes| ==> nodes[j].id != id
    ensures p <= |nodes|
    ensures p < |nodes| ==> nodes[p].id == id && forall j :: p < j < |nodes| ==> nodes[j].id != id
    ensures p == |nodes| ==> forall j :: 0 <= j < |nodes| ==> nodes[j].id != id
  {
    if n == 0 then |nodes| else if nodes[n - 1].id == id then n - 1 else LastFrom(nodes, id, n - 1)
  }

  /** The order of the keys (priority, -position). */
  predicate KeyBelow(nodes: seq<Node>, a: Node, b: Node) {
    a.priority < b.priority
    || (a.priority == b.priority && TablePosition(nodes, a.id) > TablePosition(nodes, b.id))
  }

  /** What max() returns: the first of the candidates with the greatest key. */
  ghost predicate IsFirstBest(nodes: seq<Node>, candidates: seq<Node>, k: nat) {
    k < |candidates|
    && forall j :: 0 <= j < |candidates| ==>
         !KeyBelow(nodes, candidates[k], candidates[j]) && (j < k ==> KeyBelow(nodes, candidates[j], candidates[k]))
  }

  function BestIndex(nodes: seq<Node>, candidates: seq<Node>): (k: nat)
    requires candidates != []
    ensures IsFirstBest(nodes, candidates, k)
  {
    var n := |candidates| - 1;
    if n == 0 then 0
    else
      var k := BestIndex(nodes, candidates[..n]);
      if KeyBelow(nodes, candidates[k], candidates[n]) then n else k
  }

  function Resolved(nodes: seq<Node>, strategy: Option<string>, candidates: seq<Node>): Node
    requires candidates != []
  {
    if strategy == Some("priority") then candidates[BestIndex(nodes, candidates)] else candidates[0]
  }

  method Resolve(nodes: seq<Node>, strategy: Option<string>, candidates: seq<Node>) returns (node: Node)
    requires candidates != []
    ensures node == Resolved(nodes, strategy, candidates)
  {
    if strategy != Some("priority") { return candidates[0]; }
    var k := 0;
    for i := 1 to |candidates|
      invariant k < i && IsFirstBest(nodes, candidates[..i], k)
    {
      if KeyBelow(nodes, candidates[k], candidates[i]) { k := i; }
    }
    assert candidates[..|candidates|] == candidates;
    assert k == BestIndex(nodes, candidates);
    return candidates[k];
  }

  /** `s` is found in `t` at the increasing positions `at`. */
  ghost predicate Embeds(at: seq<nat>, s: seq<Node>, t: seq<Node>) {
    |at| == |s|
    && (forall i :: 0 <= i < |at| ==> at[i] < |t| && t[at[i]] == s[i])
    && (forall i, j :: 0 <= i < j < |at| ==> at[i] < at[j])
  }

  ghost predicate IsLeftmostHighest(candidates: seq<Node>, k: nat) {
    k < |candidates|
    && forall j :: 0 <= j < |candidates| ==>
         candidates[j].priority <= candidates[k].priority && (j < k ==> candidates[j].priority < candidates[k].priority)
  }

  /** With unique ids the priority strategy picks the leftmost candidate of the highest priority. */
  lemma PriorityPicksLeftmostHighest(nodes: seq<Node>, candidates: seq<Node>, at: seq<nat>)
    requires UniqueIds(nodes) && Embeds(at, candidates, nodes) && candidates != []
    ensures IsLeftmostHighest(candidates, BestIndex(nodes, candidates))
  {
    forall i | 0 <= i < |at| ensures TablePosition(nodes, candidates[i].id) == at[i] {
      assert nodes[at[i]].id == candidates[i].id;
    }
  }

  lemma LeftmostHighestIsUnique(candidates: seq<Node>, i: nat, j: nat)
    requires IsLeftmostHighest(candidates, i) && IsLeftmostHighest(candidates, j)
    ensures i == j
  {
    assert candidates[i].priority == candidates[j].priority;
  }

  /** Without unique ids, exactly when the strategy still picks the leftmost candidate of the highest
      priority: when no rival of that priority has an earlier place in the id table. */
  lemma PriorityIsLeftmostExactlyWhen(nodes: seq<Node>, candidates: seq<Node>, k: nat)
    requires IsLeftmostHighest(candidates, k)
    ensures IsLeftmostHighest(candidates, BestIndex(nodes, candidates))
       <==> forall j :: 0 <= j < |candidates| && candidates[j].priority == candidates[k].priority ==>
              TablePosition(nodes, candidates[k].id) <= TablePosition(nodes, candidates[j].id)
  {
    var best := BestIndex(nodes, candidates);
    assert !KeyBelow(nodes, candidates[best], candidates[k]);
    if IsLeftmostHighest(candidates, best) {
      LeftmostHighestIsUnique(candidates, best, k);
      forall j | 0 <= j < |candidates| && candidates[j].priority == candidates[k].priority
        ensures TablePosition(nodes, candidates[k].id) <= TablePosition(nodes, candidates[j].id)
      {
        assert !KeyBelow(nodes, candidates[best], candidates[j]);
      }
    } else {
      assert KeyBelow(nodes, candidates[k], candidates[best]);
    }
  }

  /** A later node that repeats an id can cost an earlier one the tie it should win. */
  lemma RepeatedIdsMisleadPriority(nodes: seq<Node>, a: Node, b: Node)
    requires nodes == [a, b, a] && a.id != b.id && a.priority == b.priority
    ensures !IsLeftmostHighest(nodes, BestIndex(nodes, nodes))
  {
    assert nodes[0] == a && nodes[1] == b && nodes[2] == a;
    assert TablePosition(nodes, a.id) == 2 && TablePosition(nodes, b.id) == 1;
    assert KeyBelow(nodes, nodes[0], nodes[1]);
    assert IsLeftmostHighest(nodes, 0);
  }

  // ---------------------------------------------------------------- matching and records

  /** The nodes whose condition holds, in order. */
  function Passing(judge: Judge, nodes: seq<Node>): seq<Node> {
    if nodes == [] then []
    else
      var n := |nodes| - 1;
      var before := Passing(judge, nodes[..n]);
      if Passes(judge, nodes[n]) then before + [nodes[n]] else before
  }

  function DecisionRecord(judge: Judge, node: Node): Record {
    var matched := Passes(judge, node);
    NodeRecord(node.id, "decision", matched, Str(if node.condition.Some? then node.condition.value else ""),
               judge.wording(if matched then ConditionMatched else ConditionNotMatched))
  }

  function DecisionRecords(judge: Judge, nodes: seq<Node>): (r: seq<Record>)
    ensures |r| == |nodes|
  {
    if nodes == [] then []
    else
      var n := |nodes| - 1;
      DecisionRecords(judge, nodes[..n]) + [DecisionRecord(judge, nodes[n])]
  }

  function FallbackRecord(judge: Judge, node: Node): Record {
    NodeRecord(node.id, "fallback", true, Str(""), judge.wording(FallbackSelected))
  }

  /** The condition the engine's boundary table holds for an id: that of the last boundary node
      with the id, active or not. */
  function BoundaryCondition(nodes: seq<Node>, id: string): Value {
    if nodes == [] then Null
    else
      var n := |nodes| - 1;
      if nodes[n].nodeType.BoundaryNode? && nodes[n].id == id then
        if nodes[n].condition.Some? then Str(nodes[n].condition.value) else Null
      else BoundaryCondition(nodes[..n], id)
  }

  function BoundaryRecord(nodes: seq<Node>, b: BoundaryResult): Record {
    NodeRecord(b.boundaryId, "boundary", b.triggered, BoundaryCondition(nodes, b.boundaryId), b.reason)
  }

  function BoundaryRecords(nodes: seq<Node>, rs: seq<BoundaryResult>): (r: seq<Record>)
    ensures |r| == |rs|
  {
    if rs == [] then []
    else
      var n := |rs| - 1;
      BoundaryRecords(nodes, rs[..n]) + [BoundaryRecord(nodes, rs[n])]
  }

  // ---------------------------------------------------------------- evaluation

  datatype EvaluationError = InvalidCondition | NoActiveFallback

  /** What is fresh in one evaluation: two new ids and the time. */
  datatype Stamp = Stamp(traceId: Uuid, resultId: Uuid, now: int)

  datatype Selection = Selection(node: Node, matched: bool)

  /** The node the decision rests on before boundaries are heard. */
  function Selected(judge: Judge, flow: Flow): Option<Selection> {
    var passing := Passing(judge, ActiveOf(flow.nodes, DecisionNode));
    var fallbacks := ActiveOf(flow.nodes, FallbackNode);
    if passing != [] then Some(Selection(Resolved(flow.nodes, flow.strategy, passing), true))
    else if fallbacks != [] then Some(Selection(fallbacks[0], false))
    else None
  }

  function InitialResult(judge: Judge, signal: Signal, flow: Flow, chosen: Selection, stamp: Stamp): DecisionResult {
    var decisions := ActiveOf(flow.nodes, DecisionNode);
    DecisionResult(
      stamp.resultId, stamp.traceId, flow.id, flow.version, chosen.node.id, signal.id, StateConfirmed,
      if chosen.matched then Confirmed else Fallback,
      if chosen.matched then Pass else Fail,
      signal.confidence, chosen.node.action, |decisions|, |Passing(judge, decisions)|,
      None, [], None, None, stamp.now, stamp.now, stamp.now)
  }

  /** Decision records, then the fallback record if there is one, then boundary records. */
  function RecordsOf(judge: Judge, flow: Flow, chosen: Selection, rs: seq<BoundaryResult>): seq<Record> {
    DecisionRecords(judge, ActiveOf(flow.nodes, DecisionNode))
    + (if chosen.matched then [] else [FallbackRecord(judge, chosen.node)])
    + BoundaryRecords(flow.nodes, rs)
  }

  /** The result and the node records of an evaluation, or why it raises. */
  ghost function Evaluated(judge: Judge, signal: Signal, flow: Flow, stamp: Stamp)
    : Result<(DecisionResult, seq<Record>), EvaluationError>
  {
    var chosen := Selected(judge, flow);
    if !AllJudged(judge, ActiveOf(flow.nodes, DecisionNode)) then Failure(InvalidCondition)
    else if chosen.None? then Failure(NoActiveFallback)
    else
      var heard := Heard(judge, ActiveOf(flow.nodes, BoundaryNode), InitialResult(judge, signal, flow, chosen.value, stamp));
      if heard.None? then Failure(InvalidCondition)
      else Success((heard.value.0, RecordsOf(judge, flow, chosen.value, heard.value.1)))
  }

  method GetFallback(nodes: seq<Node>) returns (r: Option<Node>)
    ensures r == if ActiveOf(nodes, FallbackNode) == [] then None else Some(ActiveOf(nodes, FallbackNode)[0])
  {
    for i := 0 to |nodes|
      invariant ActiveOf(nodes[i..], FallbackNode) == ActiveOf(nodes, FallbackNode)
    {
      assert nodes[i..][1..] == nodes[i + 1..];
      if nodes[i].nodeType.FallbackNode? && nodes[i].isActive { return Some(nodes[i]); }
    }
    return None;
  }

  method EvaluateDecisions(judge: Judge, decisions: seq<Node>)
    returns (ok: bool, matched: seq<Node>, records: seq<Record>, evaluated: nat, passed: nat)
    ensures ok <==> AllJudged(judge, decisions)
    ensures ok ==> matched == Passing(judge, decisions) && records == DecisionRecords(judge, decisions)
    ensures ok ==> evaluated == |decisions| && passed == |matched|
  {
    ok, matched, records, evaluated, passed := true, [], [], 0, 0;
    for i := 0 to |decisions|
      invariant ok && AllJudged(judge, decisions[..i])
      invariant matched == Passing(judge, decisions[..i]) && records == DecisionRecords(judge, decisions[..i])
      invariant evaluated == i && passed == |matched|
    {
      var node := decisions[i];
      ghost var seen := decisions[..i + 1];
      assert seen[..i] == decisions[..i] && seen == decisions[..i] + [node];
      evaluated := evaluated + 1;
      var verdict := judge.verdict(node.condition);
      if verdict.None? {
        ok := false;
        return;
      }
      if verdict.value {
        matched := matched + [node];
        passed := passed + 1;
      }
      records := records + [DecisionRecord(judge, node)];
    }
    assert decisions[..|decisions|] == decisions;
  }

  method AppendBoundaryRecords(nodes: seq<Node>, rs: seq<BoundaryResult>, records: seq<Record>) returns (all: seq<Record>)
    ensures all == records + BoundaryRecords(nodes, rs)
  {
    all := records;
    for i := 0 to |rs|
      invariant all == records + BoundaryRecords(nodes, rs[..i])
    {
      assert rs[..i + 1][..i] == rs[..i];
      all := all + [BoundaryRecord(nodes, rs[i])];
    }
    assert rs[..|rs|] == rs;
  }

  method PureEvaluate(judge: Judge, signal: Signal, flow: Flow, stamp: Stamp)
    returns (r: Result<(DecisionResult, seq<Record>), EvaluationError>)
    ensures r == Evaluated(judge, signal, flow, stamp)
  {
    var decisions := ActiveOf(flow.nodes, DecisionNode);
    var ok, matched, records, evaluated, passed := EvaluateDecisions(judge, decisions);
    if !ok { return Failure(InvalidCondition); }
    var chosen: Selection;
    if matched != [] {
      var node := Resolve(flow.nodes, flow.strategy, matched);
      chosen := Selection(node, true);
    } else {
      var fallback := GetFallback(flow.nodes);
      if fallback.None? { return Failure(NoActiveFallback); }
      chosen := Selection(fallback.value, false);
      records := records + [FallbackRecord(judge, fallback.value)];
    }
    assert records == DecisionRecords(judge, decisions)
                      + (if chosen.matched then [] else [FallbackRecord(judge, chosen.node)]);
    var initial := DecisionResult(
      stamp.resultId, stamp.traceId, flow.id, flow.version, chosen.node.id, signal.id, StateConfirmed,
      if chosen.matched then Confirmed else Fallback, if chosen.matched then Pass else Fail,
      signal.confidence, chosen.node.action, evaluated, passed, None, [], None, None, stamp.now, stamp.now, stamp.now);
    var heard := Apply(judge, flow.nodes, initial);
    if heard.None? { return Failure(InvalidCondition); }
    records := AppendBoundaryRecords(flow.nodes, heard.value.1, records);
    return Success((heard.value.0, records));
  }

  // ---------------------------------------------------------------- what the result depends on

  lemma {:induction false} ActiveOfEmbeds(nodes: seq<Node>, t: NodeType) returns (at: seq<nat>)
    ensures Embeds(at, ActiveOf(nodes, t), nodes)
  {
    at := [];
    if nodes != [] {
      var rest := ActiveOfEmbeds(nodes[1..], t);
      at := Shifted(rest, ActiveOf(nodes[1..], t), nodes);
      if nodes[0].nodeType == t && nodes[0].isActive {
        Prepended(at, ActiveOf(nodes[1..], t), nodes);
        at := [0] + at;
      }
    }
  }

  lemma Prepended(at: seq<nat>, s: seq<Node>, t: seq<Node>)
    requires t != [] && Embeds(at, s, t) && forall i :: 0 <= i < |at| ==> at[i] > 0
    ensures Embeds([0] + at, [t[0]] + s, t)
  {
  }

  lemma Shifted(at: seq<nat>, s: seq<Node>, t: seq<Node>) returns (moved: seq<nat>)
    requires t != [] && Embeds(at, s, t[1..])
    ensures Embeds(moved, s, t) && forall i :: 0 <= i < |moved| ==> moved[i] > 0
  {
    moved := seq(|at|, i requires 0 <= i < |at| => at[i] + 1);
  }

  lemma {:induction false} PassingEmbeds(judge: Judge, nodes: seq<Node>) returns (at: seq<nat>)
    ensures Embeds(at, Passing(judge, nodes), nodes)
  {
    at := [];
    if nodes != [] {
      var n := |nodes| - 1;
      at := PassingEmbeds(judge, nodes[..n]);
      if Passes(judge, nodes[n]) {
        at := at + [n];
      }
    }
  }

  lemma CandidatesEmbed(judge: Judge, nodes: seq<Node>) returns (at: seq<nat>)
    ensures Embeds(at, Passing(judge, ActiveOf(nodes, DecisionNode)), nodes)
  {
    var outer := ActiveOfEmbeds(nodes, DecisionNode);
    var inner := PassingEmbeds(judge, ActiveOf(nodes, DecisionNode));
    at := seq(|inner|, i requires 0 <= i < |inner| => outer[inner[i]]);
  }

  lemma {:induction false} BoundaryConditionIsOwn(nodes: seq<Node>, p: nat)
    requires UniqueIds(nodes) && p < |nodes| && nodes[p].nodeType.BoundaryNode?
    ensures BoundaryCondition(nodes, nodes[p].id)
         == if nodes[p].condition.Some? then Str(nodes[p].condition.value) else Null
  {
    var n := |nodes| - 1;
    if p < n {
      BoundaryConditionIsOwn(nodes[..n], p);
    }
  }

  /** Each record of an active boundary carries its own condition. */
  lemma {:induction false} BoundaryRecordsAreLocal(
      judge: Judge, nodes: seq<Node>, nodes': seq<Node>, bs: seq<Node>)
    requires UniqueIds(nodes) && UniqueIds(nodes')
    requires forall b :: b in bs ==> b in nodes && b in nodes' && b.nodeType.BoundaryNode?
    ensures BoundaryRecords(nodes, ResultsFor(judge, bs)) == BoundaryRecords(nodes', ResultsFor(judge, bs))
  {
    if bs != [] {
      var n := |bs| - 1;
      assert forall b :: b in bs[..n] ==> b in bs;
      BoundaryRecordsAreLocal(judge, nodes, nodes', bs[..n]);
      var b := bs[n];
      assert b in bs;
      var p :| 0 <= p < |nodes| && nodes[p] == b;
      var q :| 0 <= q < |nodes'| && nodes'[q] == b;
      BoundaryConditionIsOwn(nodes, p);
      BoundaryConditionIsOwn(nodes', q);
      assert ResultsFor(judge, bs)[..n] == ResultsFor(judge, bs[..n]);
    }
  }

  ghost predicate SameActiveNodes(f: Flow, g: Flow) {
    && ActiveOf(f.nodes, DecisionNode) == ActiveOf(g.nodes, DecisionNode)
    && ActiveOf(f.nodes, BoundaryNode) == ActiveOf(g.nodes, BoundaryNode)
    && ActiveOf(f.nodes, FallbackNode) == ActiveOf(g.nodes, FallbackNode)
  }

  ghost predicate SameCandidates(f: Flow, g: Flow) {
    && ActiveOf(f.nodes, DecisionNode) == ActiveOf(g.nodes, DecisionNode)
    && ActiveOf(f.nodes, FallbackNode) == ActiveOf(g.nodes, FallbackNode)
  }

  /** With unique ids the choice does not depend on where else the candidates stand. */
  lemma SameChoice(judge: Judge, f: Flow, g: Flow)
    requires f.strategy == g.strategy && UniqueIds(f.nodes) && UniqueIds(g.nodes) && SameCandidates(f, g)
    ensures Selected(judge, f) == Selected(judge, g)
  {
    var passing := Passing(judge, ActiveOf(f.nodes, DecisionNode));
    if passing != [] {
      var at := CandidatesEmbed(judge, f.nodes);
      var at' := CandidatesEmbed(judge, g.nodes);
      PriorityPicksLeftmostHighest(f.nodes, passing, at);
      PriorityPicksLeftmostHighest(g.nodes, passing, at');
      LeftmostHighestIsUnique(passing, BestIndex(f.nodes, passing), BestIndex(g.nodes, passing));
    }
  }

  lemma SameRecords(judge: Judge, f: Flow, g: Flow, chosen: Selection, rs: seq<BoundaryResult>)
    requires ActiveOf(f.nodes, DecisionNode) == ActiveOf(g.nodes, DecisionNode)
    requires BoundaryRecords(f.nodes, rs) == BoundaryRecords(g.nodes, rs)
    ensures RecordsOf(judge, f, chosen, rs) == RecordsOf(judge, g, chosen, rs)
  {
  }

  lemma SameInitial(judge: Judge, signal: Signal, f: Flow, g: Flow, chosen: Selection, stamp: Stamp)
    requires f.id == g.id && f.version == g.version
    requires ActiveOf(f.nodes, DecisionNode) == ActiveOf(g.nodes, DecisionNode)
    ensures InitialResult(judge, signal, f, chosen, stamp) == InitialResult(judge, signal, g, chosen, stamp)
  {
  }

  /** With unique node ids, evaluation depends only on the active decision, boundary and fallback
      nodes, each kind in its own order, and on the strategy: node kinds may be interleaved
      differently, other nodes and all edges may change. */
  lemma OnlyActiveNodesMatter(judge: Judge, signal: Signal, f: Flow, g: Flow, stamp: Stamp)
    requires f.id == g.id && f.version == g.version && f.strategy == g.strategy
    requires UniqueIds(f.nodes) && UniqueIds(g.nodes) && SameActiveNodes(f, g)
    ensures Evaluated(judge, signal, f, stamp) == Evaluated(judge, signal, g, stamp)
  {
    var boundaries := ActiveOf(f.nodes, BoundaryNode);
    SameChoice(judge, f, g);
    if Selected(judge, f).Some? {
      var chosen := Selected(judge, f).value;
      SameInitial(judge, signal, f, g, chosen, stamp);
      BoundaryRecordsAreLocal(judge, f.nodes, g.nodes, boundaries);
      SameRecords(judge, f, g, chosen, ResultsFor(judge, boundaries));
    }
  }

  /** When evaluation raises: a decision condition is invalid; or nothing passes and no fallback
      node is active; or else a boundary condition is invalid. */
  lemma RaisesExactlyWhen(judge: Judge, signal: Signal, flow: Flow, stamp: Stamp)
    ensures Evaluated(judge, signal, flow, stamp) == Failure(NoActiveFallback)
       <==> AllJudged(judge, ActiveOf(flow.nodes, DecisionNode))
            && (forall n :: n in flow.nodes && n.nodeType.DecisionNode? && n.isActive ==> !Passes(judge, n))
            && (forall n :: n in flow.nodes && n.nodeType.FallbackNode? ==> !n.isActive)
    ensures Evaluated(judge, signal, flow, stamp).Success?
       <==> Selected(judge, flow).Some?
            && (forall n :: n in flow.nodes && (n.nodeType.DecisionNode? || n.nodeType.BoundaryNode?) && n.isActive
                  ==> judge.verdict(n.condition).Some?)
  {
    NothingPasses(judge, ActiveOf(flow.nodes, DecisionNode));
    var fallbacks := ActiveOf(flow.nodes, FallbackNode);
    if fallbacks != [] { assert fallbacks[0] in fallbacks; }
  }

  lemma {:induction false} NothingPasses(judge: Judge, nodes: seq<Node>)
    ensures Passing(judge, nodes) == [] <==> forall n :: n in nodes ==> !Passes(judge, n)
  {
    if nodes != [] {
      var n := |nodes| - 1;
      assert nodes == nodes[..n] + [nodes[n]];
      NothingPasses(judge, nodes[..n]);
    }
  }
}
