/** What one evaluation leaves for the ledger: the shape of its result, its node records and the
    number and ids of its events. */
module EvaluationRecords {
  import opened Basics
  import opened Values
  import opened Flows
  import opened Decisions
  import opened Boundaries
  import opened Evaluation
  import opened LedgerClient
  import opened LedgerAdapter
  import opened CommitProperties
  import opened LedgerProjector

  // ---------------------------------------------------------------- the result

  ghost predicate IsInitial(result: DecisionResult, signal: Signal, flow: Flow, stamp: Stamp) {
    && result.id == stamp.resultId && result.traceId == stamp.traceId
    && result.flowId == flow.id && result.flowVersion == flow.version && result.sourceSignalId == signal.id
    && result.confidence == signal.confidence && result.state == StateConfirmed
    && result.createdAt == stamp.now && result.evaluatedAt == stamp.now && result.updatedAt == stamp.now
    && result.executionId.None? && result.humanGate.None? && result.errorMessage.None?
  }

  ghost predicate IsEngineStatus(status: DecisionStatus) {
    status == Confirmed || status == Fallback || status == Blocked || status == PendingHuman
  }

  lemma InitialShape(judge: Judge, signal: Signal, flow: Flow, chosen: Selection, stamp: Stamp)
    ensures var initial := InitialResult(judge, signal, flow, chosen, stamp);
            IsInitial(initial, signal, flow, stamp) && IsEngineStatus(initial.status)
            && (initial.outcome == Pass <==> chosen.matched)
  {
  }

  lemma BoundariesKeep(result: DecisionResult, rs: seq<BoundaryResult>, signal: Signal, flow: Flow, stamp: Stamp)
    requires IsInitial(result, signal, flow, stamp) && IsEngineStatus(result.status)
    ensures var heard := Adjusted(result, rs);
            IsInitial(heard, signal, flow, stamp) && IsEngineStatus(heard.status)
            && heard.outcome == result.outcome && heard.boundaryResults == rs
  {
  }

  /** An evaluated decision is confirmed, fallen back, blocked or pending; it is passed exactly when
      some decision condition held, whatever the boundaries then made of it. */
  lemma ResultShape(judge: Judge, signal: Signal, flow: Flow, stamp: Stamp)
    requires Evaluated(judge, signal, flow, stamp).Success?
    ensures Selected(judge, flow).Some?
    ensures var (result, records) := Evaluated(judge, signal, flow, stamp).value;
            && IsInitial(result, signal, flow, stamp) && IsEngineStatus(result.status)
            && (result.outcome == Pass <==> Selected(judge, flow).value.matched)
            && records == RecordsOf(judge, flow, Selected(judge, flow).value,
                                    ResultsFor(judge, ActiveOf(flow.nodes, BoundaryNode)))
  {
    var chosen := Selected(judge, flow).value;
    InitialShape(judge, signal, flow, chosen, stamp);
    BoundariesKeep(InitialResult(judge, signal, flow, chosen, stamp), ResultsFor(judge, ActiveOf(flow.nodes, BoundaryNode)),
                   signal, flow, stamp);
  }

  /** The result with other fresh ids and another time. */
  function Restamped(result: DecisionResult, stamp: Stamp): DecisionResult {
    result.(id := stamp.resultId, traceId := stamp.traceId, evaluatedAt := stamp.now, createdAt := stamp.now,
            updatedAt := stamp.now)
  }

  lemma BoundariesIgnoreStamp(result: DecisionResult, rs: seq<BoundaryResult>, stamp: Stamp)
    ensures Adjusted(Restamped(result, stamp), rs) == Restamped(Adjusted(result, rs), stamp)
  {
  }

  /** Routing is deterministic: two evaluations of a signal against a flow give the same records and
      results that differ in ids and times only, or the same error. */
  lemma OnlyIdsAndTimesDiffer(judge: Judge, signal: Signal, flow: Flow, s: Stamp, t: Stamp)
    ensures Evaluated(judge, signal, flow, t)
         == match Evaluated(judge, signal, flow, s)
            case Failure(error) => Failure(error)
            case Success((result, records)) => Success((Restamped(result, t), records))
  {
    if Selected(judge, flow).Some? {
      var initial := InitialResult(judge, signal, flow, Selected(judge, flow).value, s);
      assert InitialResult(judge, signal, flow, Selected(judge, flow).value, t) == Restamped(initial, t);
      BoundariesIgnoreStamp(initial, ResultsFor(judge, ActiveOf(flow.nodes, BoundaryNode)), t);
    }
  }

  // ---------------------------------------------------------------- the records

  lemma {:induction false} DecisionRecordsAreEngineRecords(judge: Judge, nodes: seq<Node>)
    ensures AllEngineRecords(DecisionRecords(judge, nodes))
  {
    if nodes != [] {
      DecisionRecordsAreEngineRecords(judge, nodes[..|nodes| - 1]);
    }
  }

  lemma {:induction false} BoundaryRecordsAreEngineRecords(nodes: seq<Node>, rs: seq<BoundaryResult>)
    ensures AllEngineRecords(BoundaryRecords(nodes, rs))
  {
    if rs != [] {
      BoundaryRecordsAreEngineRecords(nodes, rs[..|rs| - 1]);
    }
  }

  lemma RecordsAreEngineRecords(judge: Judge, flow: Flow, chosen: Selection, rs: seq<BoundaryResult>)
    ensures AllEngineRecords(RecordsOf(judge, flow, chosen, rs))
  {
    DecisionRecordsAreEngineRecords(judge, ActiveOf(flow.nodes, DecisionNode));
    BoundaryRecordsAreEngineRecords(flow.nodes, rs);
  }

  function IdsIn(nodes: seq<Node>): (ids: seq<string>)
    ensures |ids| == |nodes|
    ensures forall i :: 0 <= i < |ids| ==> ids[i] == nodes[i].id
  {
    seq(|nodes|, i requires 0 <= i < |nodes| => nodes[i].id)
  }

  /** The nodes an evaluation consults: active decisions, the fallback it falls back to, active boundaries. */
  function Consulted(judge: Judge, flow: Flow): seq<Node>
    requires Selected(judge, flow).Some?
  {
    ActiveOf(flow.nodes, DecisionNode)
    + (if Selected(judge, flow).value.matched then [] else [Selected(judge, flow).value.node])
    + ActiveOf(flow.nodes, BoundaryNode)
  }

  lemma {:induction false} DecisionRecordIds(judge: Judge, nodes: seq<Node>)
    ensures NodeIdsOf(DecisionRecords(judge, nodes)) == IdsIn(nodes)
  {
    if nodes != [] {
      var n := |nodes| - 1;
      DecisionRecordIds(judge, nodes[..n]);
      assert NodeIdsOf(DecisionRecords(judge, nodes))[..n] == NodeIdsOf(DecisionRecords(judge, nodes[..n]));
      assert IdsIn(nodes) == IdsIn(nodes[..n]) + [nodes[n].id];
    }
  }

  lemma {:induction false} BoundaryRecordIds(judge: Judge, nodes: seq<Node>, bs: seq<Node>)
    ensures NodeIdsOf(BoundaryRecords(nodes, ResultsFor(judge, bs))) == IdsIn(bs)
  {
    if bs != [] {
      var n := |bs| - 1;
      BoundaryRecordIds(judge, nodes, bs[..n]);
      var rs := ResultsFor(judge, bs);
      assert rs[..n] == ResultsFor(judge, bs[..n]);
      assert NodeIdsOf(BoundaryRecords(nodes, rs))[..n] == NodeIdsOf(BoundaryRecords(nodes, rs[..n]));
      assert IdsIn(bs) == IdsIn(bs[..n]) + [bs[n].id];
    }
  }

  lemma ThreeRecordIds(a: seq<Record>, b: seq<Record>, c: seq<Record>)
    ensures NodeIdsOf(a + b + c) == NodeIdsOf(a) + NodeIdsOf(b) + NodeIdsOf(c)
  {
  }

  lemma ThreeNodeIds(a: seq<Node>, b: seq<Node>, c: seq<Node>)
    ensures IdsIn(a + b + c) == IdsIn(a) + IdsIn(b) + IdsIn(c)
  {
  }

  lemma FallbackRecordIds(judge: Judge, chosen: Selection)
    ensures NodeIdsOf(if chosen.matched then [] else [FallbackRecord(judge, chosen.node)])
         == IdsIn(if chosen.matched then [] else [chosen.node])
  {
  }

  /** There is one record for each consulted node, in this order and under its id. */
  lemma RecordIds(judge: Judge, flow: Flow)
    requires Selected(judge, flow).Some?
    ensures NodeIdsOf(RecordsOf(judge, flow, Selected(judge, flow).value,
                                ResultsFor(judge, ActiveOf(flow.nodes, BoundaryNode))))
         == IdsIn(Consulted(judge, flow))
  {
    var chosen := Selected(judge, flow).value;
    var decisions, boundaries := ActiveOf(flow.nodes, DecisionNode), ActiveOf(flow.nodes, BoundaryNode);
    ThreeRecordIds(DecisionRecords(judge, decisions),
                   if chosen.matched then [] else [FallbackRecord(judge, chosen.node)],
                   BoundaryRecords(flow.nodes, ResultsFor(judge, boundaries)));
    ThreeNodeIds(decisions, if chosen.matched then [] else [chosen.node], boundaries);
    DecisionRecordIds(judge, decisions);
    FallbackRecordIds(judge, chosen);
    BoundaryRecordIds(judge, flow.nodes, boundaries);
  }

  lemma {:induction false} DecisionRecordAt(judge: Judge, nodes: seq<Node>, i: nat)
    requires i < |nodes|
    ensures DecisionRecords(judge, nodes)[i] == DecisionRecord(judge, nodes[i])
  {
    if i < |nodes| - 1 { DecisionRecordAt(judge, nodes[..|nodes| - 1], i); }
  }

  lemma {:induction false} BoundaryRecordAt(judge: Judge, nodes: seq<Node>, bs: seq<Node>, i: nat)
    requires i < |bs|
    ensures BoundaryRecords(nodes, ResultsFor(judge, bs))[i]
         == BoundaryRecord(nodes, ResultFor(judge, bs[i], Passes(judge, bs[i])))
  {
    var n, rs := |bs| - 1, ResultsFor(judge, bs);
    assert rs[..n] == ResultsFor(judge, bs[..n]);
    if i < n { BoundaryRecordAt(judge, nodes, bs[..n], i); }
  }

  function TypeText(t: NodeType): string {
    match t
    case DecisionNode => "decision"
    case BoundaryNode => "boundary"
    case FallbackNode => "fallback"
    case _ => ""
  }

  /** What a record says of its node: id, type, condition, and whether it held; a fallback counts as matched. */
  ghost predicate TellsOfNode(judge: Judge, record: Record, node: Node) {
    && IsEngineRecord(record)
    && record["node_id"] == Str(node.id) && record["node_type"] == Str(TypeText(node.nodeType))
    && record["matched"] == Bool(node.nodeType.FallbackNode? || judge.verdict(node.condition) == Some(true))
    && (node.nodeType.FallbackNode? || (node.nodeType.DecisionNode? && node.condition.None?) ==> record["condition"] == Str(""))
    && (node.nodeType.DecisionNode? && node.condition.Some? ==> record["condition"] == Str(node.condition.value))
  }

  ghost predicate TellOfNodes(judge: Judge, records: seq<Record>, nodes: seq<Node>) {
    |records| == |nodes| && forall i :: 0 <= i < |records| ==> TellsOfNode(judge, records[i], nodes[i])
  }

  lemma TellConcat(judge: Judge, a: seq<Record>, s: seq<Node>, b: seq<Record>, t: seq<Node>)
    requires TellOfNodes(judge, a, s) && TellOfNodes(judge, b, t)
    ensures TellOfNodes(judge, a + b, s + t)
  {
  }

  lemma DecisionRecordTells(judge: Judge, n: Node)
    requires n.nodeType.DecisionNode?
    ensures TellsOfNode(judge, DecisionRecord(judge, n), n)
  {
  }

  lemma FallbackRecordTells(judge: Judge, n: Node)
    requires n.nodeType.FallbackNode?
    ensures TellsOfNode(judge, FallbackRecord(judge, n), n)
  {
  }

  lemma BoundaryRecordTells(judge: Judge, nodes: seq<Node>, n: Node)
    requires n.nodeType.BoundaryNode?
    ensures TellsOfNode(judge, BoundaryRecord(nodes, ResultFor(judge, n, Passes(judge, n))), n)
  {
  }

  lemma DecisionRecordsTell(judge: Judge, nodes: seq<Node>)
    requires forall n :: n in nodes ==> n.nodeType.DecisionNode?
    ensures TellOfNodes(judge, DecisionRecords(judge, nodes), nodes)
  {
    var records := DecisionRecords(judge, nodes);
    forall i | 0 <= i < |nodes| ensures TellsOfNode(judge, records[i], nodes[i]) {
      DecisionRecordAt(judge, nodes, i);
      DecisionRecordTells(judge, nodes[i]);
    }
  }

  lemma FallbackRecordsTell(judge: Judge, chosen: Selection)
    requires !chosen.matched ==> chosen.node.nodeType.FallbackNode?
    ensures TellOfNodes(judge, if chosen.matched then [] else [FallbackRecord(judge, chosen.node)],
                        if chosen.matched then [] else [chosen.node])
  {
    if !chosen.matched { FallbackRecordTells(judge, chosen.node); }
  }

  lemma BoundaryRecordsTell(judge: Judge, nodes: seq<Node>, bs: seq<Node>)
    requires forall n :: n in bs ==> n.nodeType.BoundaryNode?
    ensures TellOfNodes(judge, BoundaryRecords(nodes, ResultsFor(judge, bs)), bs)
  {
    var records := BoundaryRecords(nodes, ResultsFor(judge, bs));
    forall i | 0 <= i < |bs| ensures TellsOfNode(judge, records[i], bs[i]) {
      BoundaryRecordAt(judge, nodes, bs, i);
      BoundaryRecordTells(judge, nodes, bs[i]);
    }
  }

  /** Each record tells of its node. */
  lemma RecordsTell(judge: Judge, flow: Flow)
    requires Selected(judge, flow).Some?
    ensures TellOfNodes(judge, RecordsOf(judge, flow, Selected(judge, flow).value,
                                         ResultsFor(judge, ActiveOf(flow.nodes, BoundaryNode))), Consulted(judge, flow))
  {
    var chosen := Selected(judge, flow).value;
    assert !chosen.matched ==> chosen.node in ActiveOf(flow.nodes, FallbackNode);
    ThreeTell(judge, flow, chosen, ActiveOf(flow.nodes, DecisionNode), ActiveOf(flow.nodes, BoundaryNode));
  }

  /** Where node ids do not repeat, the record of a boundary has its own condition. */
  lemma BoundaryRecordsTellConditions(judge: Judge, flow: Flow, i: nat)
    requires UniqueIds(flow.nodes) && i < |ActiveOf(flow.nodes, BoundaryNode)|
    ensures var b := ActiveOf(flow.nodes, BoundaryNode)[i];
            var record := BoundaryRecords(flow.nodes, ResultsFor(judge, ActiveOf(flow.nodes, BoundaryNode)))[i];
            "condition" in record
            && record["condition"] == if b.condition.Some? then Str(b.condition.value) else Null
  {
    var bs := ActiveOf(flow.nodes, BoundaryNode);
    BoundaryRecordAt(judge, flow.nodes, bs, i);
    assert bs[i] in bs;
    var p :| 0 <= p < |flow.nodes| && flow.nodes[p] == bs[i];
    BoundaryConditionIsOwn(flow.nodes, p);
  }

  lemma ThreeTell(judge: Judge, flow: Flow, chosen: Selection, decisions: seq<Node>, boundaries: seq<Node>)
    requires !chosen.matched ==> chosen.node.nodeType.FallbackNode?
    requires (forall n :: n in decisions ==> n.nodeType.DecisionNode?) && forall n :: n in boundaries ==> n.nodeType.BoundaryNode?
    ensures TellOfNodes(judge,
                        DecisionRecords(judge, decisions)
                        + (if chosen.matched then [] else [FallbackRecord(judge, chosen.node)])
                        + BoundaryRecords(flow.nodes, ResultsFor(judge, boundaries)),
                        decisions + (if chosen.matched then [] else [chosen.node]) + boundaries)
  {
    var middle := if chosen.matched then [] else [FallbackRecord(judge, chosen.node)];
    var fallback := if chosen.matched then [] else [chosen.node];
    DecisionRecordsTell(judge, decisions);
    FallbackRecordsTell(judge, chosen);
    BoundaryRecordsTell(judge, flow.nodes, boundaries);
    TellConcat(judge, DecisionRecords(judge, decisions), decisions, middle, fallback);
    TellConcat(judge, DecisionRecords(judge, decisions) + middle, decisions + fallback,
               BoundaryRecords(flow.nodes, ResultsFor(judge, boundaries)), boundaries);
  }

  lemma {:induction false} ActiveIdsAreDistinct(nodes: seq<Node>, t: NodeType)
    requires UniqueIds(nodes)
    ensures Distinct(IdsIn(ActiveOf(nodes, t)))
  {
    var at := ActiveOfEmbeds(nodes, t);
    var active := ActiveOf(nodes, t);
    forall i, j | 0 <= i < j < |active| ensures active[i].id != active[j].id {
      assert nodes[at[i]] == active[i] && nodes[at[j]] == active[j];
    }
  }

  lemma IdsTellTypesApart(nodes: seq<Node>, a: Node, b: Node)
    requires UniqueIds(nodes) && a in nodes && b in nodes && a.nodeType != b.nodeType
    ensures a.id != b.id
  {
    var i :| 0 <= i < |nodes| && nodes[i] == a;
    var j :| 0 <= j < |nodes| && nodes[j] == b;
    assert i < j ==> nodes[i].id != nodes[j].id;
    assert j < i ==> nodes[j].id != nodes[i].id;
  }

  lemma ActiveIdsAreApart(nodes: seq<Node>, t: NodeType, u: NodeType)
    requires UniqueIds(nodes) && t != u
    ensures Apart(IdsIn(ActiveOf(nodes, t)), IdsIn(ActiveOf(nodes, u)))
  {
    var a, b := ActiveOf(nodes, t), ActiveOf(nodes, u);
    forall x, y | x in IdsIn(a) && y in IdsIn(b) ensures x != y {
      var i :| 0 <= i < |a| && IdsIn(a)[i] == x;
      var j :| 0 <= j < |b| && IdsIn(b)[j] == y;
      assert a[i] in a && b[j] in b;
      IdsTellTypesApart(nodes, a[i], b[j]);
    }
  }

  lemma DistinctThree<T>(a: seq<T>, b: seq<T>, c: seq<T>)
    requires Distinct(a) && Distinct(b) && Distinct(c)
    requires Apart(a, b) && Apart(a, c) && Apart(b, c)
    ensures Distinct(a + b + c)
  {
    DistinctConcat(a, b);
    DistinctConcat(a + b, c);
  }

  lemma FallbackIsApart(nodes: seq<Node>, fallback: Node, t: NodeType)
    requires UniqueIds(nodes) && fallback in ActiveOf(nodes, FallbackNode) && t != FallbackNode
    ensures fallback.id !in IdsIn(ActiveOf(nodes, t))
  {
    ActiveIdsAreApart(nodes, FallbackNode, t);
    var fallbacks := ActiveOf(nodes, FallbackNode);
    var i :| 0 <= i < |fallbacks| && fallbacks[i] == fallback;
    assert IdsIn(fallbacks)[i] in IdsIn(fallbacks);
  }

  /** Unique node ids make the consulted ids distinct. */
  lemma ConsultedIdsAreDistinct(judge: Judge, flow: Flow)
    requires Selected(judge, flow).Some? && UniqueIds(flow.nodes)
    ensures Distinct(IdsIn(Consulted(judge, flow)))
  {
    var chosen := Selected(judge, flow).value;
    var decisions, boundaries := ActiveOf(flow.nodes, DecisionNode), ActiveOf(flow.nodes, BoundaryNode);
    var middle := if chosen.matched then [] else [chosen.node];
    ActiveIdsAreDistinct(flow.nodes, DecisionNode);
    ActiveIdsAreDistinct(flow.nodes, BoundaryNode);
    ActiveIdsAreApart(flow.nodes, DecisionNode, BoundaryNode);
    if !chosen.matched {
      FallbackIsApart(flow.nodes, chosen.node, DecisionNode);
      FallbackIsApart(flow.nodes, chosen.node, BoundaryNode);
    }
    ThreeNodeIds(decisions, middle, boundaries);
    DistinctThree(IdsIn(decisions), IdsIn(middle), IdsIn(boundaries));
  }

  // ---------------------------------------------------------------- the events

  /** One event for the signal, one for each consulted node, one for a gate, one for the outcome. */
  lemma EventCount(adapter: Adapter, judge: Judge, flow: Flow, trace: DecisionTrace, result: DecisionResult)
    requires Selected(judge, flow).Some? && trace.signalId.Some?
    requires trace.evaluatedNodes
          == RecordsOf(judge, flow, Selected(judge, flow).value, ResultsFor(judge, ActiveOf(flow.nodes, BoundaryNode)))
    ensures |EventsFor(adapter, trace, result)|
         == 2 + |ActiveOf(flow.nodes, DecisionNode)| + |ActiveOf(flow.nodes, BoundaryNode)|
            + (if Selected(judge, flow).value.matched then 0 else 1) + |trace.humanGateRequests|
  {
    RecordIds(judge, flow);
  }

  lemma {:induction false} NothingAppended(log: Log, events: Log, i: nat)
    requires AppendedCount(log, events) == 0 && i < |events|
    ensures Has(log, events[i].eventId) && CommitLog(log, events) == log
  {
    var n := |events| - 1;
    if n > 0 {
      NothingAppended(log, events[..n], if i < n then i else 0);
      assert events[..n][if i < n then i else 0] == events[if i < n then i else 0];
    } else {
      assert events[..n] == [];
    }
  }

  /** A commit that brings anything new is never reported as DUPLICATE. */
  lemma NewIsNotDuplicate(log: Log, events: Log, i: nat)
    requires i < |events| && !Has(log, events[i].eventId)
    ensures CommitOutcome(log, events).status != CommitDuplicate
  {
    if AppendedCount(log, events) == 0 {
      NothingAppended(log, events, i);
    }
  }
}
