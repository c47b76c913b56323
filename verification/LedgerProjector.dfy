/** From ledger events back to a trace. */
module LedgerProjector {
  import opened Basics
  import opened Values
  import opened Decisions
  import opened LedgerClient
  import opened LedgerAdapter

  // ---------------------------------------------------------------- step types

  function LastSegment(s: string): string {
    if s == "" then ""
    else if s[0] == '.' then LastSegment(s[1..])
    else if '.' in s then LastSegment(s[1..])
    else s
  }

  function Lower(s: string): (r: string)
    ensures |r| == |s|
  {
    seq(|s|, i requires 0 <= i < |s| => if 'A' <= s[i] <= 'Z' then (s[i] as int + 32) as char else s[i])
  }

  /** What an event contributes to the projection. */
  datatype Role = SignalRole | NodeRole | OutcomeRole | OtherRole

  function RoleOf(stepType: string): Role {
    var step := Lower(LastSegment(stepType));
    if step == "signal" then SignalRole
    else if step in {"decision", "boundary", "fallback", "action"} then NodeRole
    else if step == "outcome" then OutcomeRole
    else OtherRole
  }

  lemma PlainText(s: string)
    requires forall i :: 0 <= i < |s| ==> 'a' <= s[i] <= 'z'
    ensures Lower(LastSegment(s)) == s
  {
    assert LastSegment(s) == s;
  }

  lemma RoleOfStep(step: StepType)
    ensures RoleOf(StepText(step))
         == match step
            case SignalStep => SignalRole
            case OutcomeStep => OutcomeRole
            case HumanStep => OtherRole
            case _ => NodeRole
  {
    match step {
      case SignalStep => PlainText("signal");
      case DecisionStep => PlainText("decision");
      case BoundaryStep => PlainText("boundary");
      case HumanStep => PlainText("human");
      case ActionStep => PlainText("action");
      case OutcomeStep => PlainText("outcome");
    }
  }

  // ---------------------------------------------------------------- reading an outcome

  function StatusFrom(payload: Record): DecisionStatus {
    var text := TextOr(payload, "status", "confirmed");
    if text == "fallback" then Fallback
    else if text == "blocked" then Blocked
    else if text == "pending_human" then PendingHuman
    else if text == "rejected" then Rejected
    else if text == "error" then StatusError
    else Confirmed
  }

  function OutcomeFrom(payload: Record): DecisionOutcome {
    var text := TextOr(payload, "outcome", "pass");
    if text == "fail" then Fail
    else if text == "abstain" then Abstain
    else if text == "error" then OutcomeError
    else Pass
  }

  /** float(payload.get("confidence", 1.0)), if it is a number between 0 and 1. */
  function ConfidenceFrom(payload: Record): Option<Confidence> {
    if "confidence" !in payload then Some(1.0)
    else if IsNumeric(payload["confidence"]) && 0.0 <= NumberOf(payload["confidence"]) <= 1.0 then
      Some(NumberOf(payload["confidence"]))
    else None
  }

  function SelectedFrom(payload: Record): Option<string> {
    if "selected_node_id" !in payload then Some("")
    else if payload["selected_node_id"].Str? then Some(payload["selected_node_id"].s)
    else None
  }

  /** The partial result an outcome event records; None is a validation error. */
  function ResultFrom(outcome: LedgerEvent, signalId: Option<Uuid>, createdAt: int): Option<DecisionResult> {
    var confidence, selected := ConfidenceFrom(outcome.payload), SelectedFrom(outcome.payload);
    if confidence.None? || selected.None? then None
    else Some(DecisionResult(
      outcome.decisionId, outcome.traceId, outcome.flowId, outcome.flowVersion, selected.value,
      if signalId.Some? then signalId.value else outcome.traceId,
      StateConfirmed, StatusFrom(outcome.payload), OutcomeFrom(outcome.payload), confidence.value, None, 0, 0,
      None, [], None, None, outcome.occurredAt, createdAt, outcome.occurredAt))
  }

  // ---------------------------------------------------------------- the fold

  datatype Partial = Partial(
    signalId: Option<Uuid>,
    startedAt: int,
    nodes: seq<Record>,
    outcome: Option<LedgerEvent>)

  function GetOr(record: Record, key: string, default: Value): Value {
    if key in record then record[key] else default
  }

  function RecordFrom(event: LedgerEvent): Record {
    map["node_id" := GetOr(event.payload, "node_id", Str(event.stepId)),
        "node_type" := GetOr(event.payload, "node_type", Str(Lower(LastSegment(event.stepType)))),
        "matched" := GetOrNull(event.payload, "matched"),
        "condition" := GetOrNull(event.payload, "condition"),
        "reason" := GetOrNull(event.payload, "reason")]
  }

  function AsUuid(text: string): Option<Uuid> {
    if |text| == UUID_LENGTH then Some(text) else None
  }

  function Absorb(p: Partial, event: LedgerEvent): Partial {
    match RoleOf(event.stepType)
    case SignalRole =>
      p.(signalId := if AsUuid(event.stepId).Some? then AsUuid(event.stepId) else p.signalId,
         startedAt := event.occurredAt)
    case NodeRole => p.(nodes := p.nodes + [RecordFrom(event)])
    case OutcomeRole => p.(outcome := Some(event))
    case OtherRole => p
  }

  function Absorbed(p: Partial, events: Log): Partial {
    if events == [] then p
    else
      var n := |events| - 1;
      Absorb(Absorbed(p, events[..n]), events[n])
  }

  /** Not found, or an error while rebuilding, or the trace. */
  datatype Projection = Unknown | Unreadable | Projected(trace: DecisionTrace)

  function TraceFrom(traceId: string, first: LedgerEvent, p: Partial): Projection {
    var result := if p.outcome.Some? then ResultFrom(p.outcome.value, p.signalId, p.startedAt) else None;
    if p.outcome.Some? && result.None? then Unreadable
    else if AsUuid(traceId).None? then Unknown
    else Projected(DecisionTrace(
      traceId, first.flowId, first.flowVersion,
      if p.outcome.Some? then StateCompleted else StateEvaluating,
      if p.outcome.Some? then Some(p.outcome.value.decisionId) else None,
      p.signalId, p.startedAt,
      if p.outcome.Some? then Some(p.outcome.value.occurredAt) else None,
      p.nodes, if result.Some? then [result.value] else [], [], [], true))
  }

  function ProjectionOf(log: Log, traceId: string): Projection {
    var events := OfTrace(log, traceId);
    if events == [] then Unknown
    else TraceFrom(traceId, events[0], Absorbed(Partial(None, events[0].occurredAt, [], None), events))
  }

  method Project(client: LedgerClient, traceId: string) returns (r: Projection)
    requires client.Valid()
    ensures r == ProjectionOf(client.events, traceId)
  {
    var events := client.GetEventsByTraceId(traceId);
    if events == [] { return Unknown; }
    var p := Partial(None, events[0].occurredAt, [], None);
    ghost var start := p;
    for i := 0 to |events|
      invariant p == Absorbed(start, events[..i])
    {
      assert events[..i + 1][..i] == events[..i];
      p := Absorb(p, events[i]);
    }
    assert events[..|events|] == events;
    return TraceFrom(traceId, events[0], p);
  }

  lemma {:induction false} OutcomesAreSeen(p: Partial, events: Log)
    ensures Absorbed(p, events).outcome.Some?
       <==> p.outcome.Some? || exists e :: e in events && RoleOf(e.stepType) == OutcomeRole
  {
    if events != [] {
      var n := |events| - 1;
      OutcomesAreSeen(p, events[..n]);
      assert events == events[..n] + [events[n]];
    }
  }

  /** Of a trace whose id is a UUID there is a projection unless no event is of it, or its outcome cannot be
      read; it is completed exactly when there is an outcome, and holds a decision exactly then. */
  lemma ProjectionExists(log: Log, traceId: Uuid)
    ensures ProjectionOf(log, traceId) == Unknown <==> forall e :: e in log ==> e.traceId != traceId
    ensures ProjectionOf(log, traceId).Projected? ==>
              var t := ProjectionOf(log, traceId).trace;
              var hasOutcome := exists e :: e in log && e.traceId == traceId && RoleOf(e.stepType) == OutcomeRole;
              && t.id == traceId && t.projected
              && (t.state == if hasOutcome then StateCompleted else StateEvaluating)
              && (t.decisionId.Some? <==> hasOutcome) && |t.decisionResults| == if hasOutcome then 1 else 0
  {
    var events := OfTrace(log, traceId);
    forall e ensures e in events <==> e in log && e.traceId == traceId { OfTraceMembers(log, traceId, e); }
    if events != [] {
      assert events[0] in events;
      OutcomesAreSeen(Partial(None, events[0].occurredAt, [], None), events);
    }
  }

  // ---------------------------------------------------------------- project after commit

  lemma {:induction false} AbsorbedConcat(p: Partial, a: Log, b: Log)
    ensures Absorbed(p, a + b) == Absorbed(Absorbed(p, a), b)
  {
    if b == [] {
      assert a + b == a;
    } else {
      var n := |b| - 1;
      assert (a + b)[..|a| + n] == a + b[..n];
      AbsorbedConcat(p, a, b[..n]);
    }
  }

  ghost predicate AllHuman(events: Log) {
    forall e :: e in events ==> e.stepType == StepText(HumanStep)
  }

  /** Gate events, when opened and when resolved, leave no mark on the projection. */
  lemma {:induction false} HumanEventsLeaveNoMark(p: Partial, events: Log)
    requires AllHuman(events)
    ensures Absorbed(p, events) == p
  {
    if events != [] {
      var n := |events| - 1;
      assert events == events[..n] + [events[n]];
      assert events[n] in events;
      HumanEventsLeaveNoMark(p, events[..n]);
      RoleOfStep(HumanStep);
    }
  }

  /** A record as the engine writes it. */
  ghost predicate IsEngineRecord(record: Record) {
    && record.Keys == {"node_id", "node_type", "matched", "condition", "reason"}
    && record["node_id"].Str?
    && (record["node_type"] == Str("decision") || record["node_type"] == Str("boundary")
        || record["node_type"] == Str("fallback"))
  }

  ghost predicate AllEngineRecords(records: seq<Record>) {
    forall i :: 0 <= i < |records| ==> IsEngineRecord(records[i])
  }

  function IsFallbackRecord(record: Record): bool {
    TextOr(record, "node_type", "decision") == "fallback"
  }

  /** The records that are not fallback records. */
  function WithoutFallback(records: seq<Record>): seq<Record> {
    if records == [] then []
    else
      var n := |records| - 1;
      var before := WithoutFallback(records[..n]);
      if IsFallbackRecord(records[n]) then before else before + [records[n]]
  }

  lemma NodeEventReadsBack(adapter: Adapter, trace: DecisionTrace, result: DecisionResult, record: Record)
    requires IsEngineRecord(record)
    ensures RecordFrom(NodeEvent(adapter, trace, result, record)) == record
  {
  }

  /** What the event of a node record says: its step type is the type of the node, a fallback counting as the
      outcome, and its payload is the record. */
  ghost predicate IsEventOfNode(event: LedgerEvent, record: Record)
    requires IsEngineRecord(record)
  {
    && event.stepId == record["node_id"].s && event.payload == record
    && event.stepType == if record["node_type"].s == "fallback" then "outcome" else record["node_type"].s
  }

  lemma NodeEventTells(adapter: Adapter, trace: DecisionTrace, result: DecisionResult, record: Record)
    requires IsEngineRecord(record)
    ensures IsEventOfNode(NodeEvent(adapter, trace, result, record), record)
  {
    assert NodePayload(record).Keys == record.Keys;
  }

  lemma {:induction false} NodeEventAt(adapter: Adapter, trace: DecisionTrace, result: DecisionResult, records: seq<Record>, i: nat)
    requires i < |records|
    ensures NodeEvents(adapter, trace, result, records)[i] == NodeEvent(adapter, trace, result, records[i])
  {
    if i < |records| - 1 { NodeEventAt(adapter, trace, result, records[..|records| - 1], i); }
  }

  lemma {:induction false} GateEventAt(adapter: Adapter, trace: DecisionTrace, result: DecisionResult, gates: seq<GateRequest>, i: nat)
    requires i < |gates|
    ensures GateEvents(adapter, trace, result, gates)[i] == GateEvent(adapter, trace, result, gates[i])
  {
    if i < |gates| - 1 { GateEventAt(adapter, trace, result, gates[..|gates| - 1], i); }
  }

  ghost predicate NodesAreToldFrom(events: Log, k: nat, records: seq<Record>)
    requires AllEngineRecords(records)
  {
    k + |records| <= |events| && forall i :: 0 <= i < |records| ==> IsEventOfNode(events[k + i], records[i])
  }

  ghost predicate GatesAreToldFrom(events: Log, k: nat, gates: seq<GateRequest>) {
    k + |gates| <= |events| && forall i :: 0 <= i < |gates| ==> IsEventOfGate(events[k + i], gates[i])
  }

  ghost predicate IsEventOfGate(event: LedgerEvent, gate: GateRequest) {
    && event.stepType == "human" && event.stepId == gate.id && event.occurredAt == gate.createdAt
    && event.payload.Keys == {"gate_id", "node_id", "status", "required_role"}
    && event.payload["gate_id"] == Str(gate.id) && event.payload["node_id"] == Str(gate.nodeId)
    && event.payload["required_role"] == (if gate.requiredRole.Some? then Str(gate.requiredRole.value) else Null)
    && (gate.status == GatePending ==> event.payload["status"] == Str("pending"))
  }

  lemma GateEventTells(adapter: Adapter, trace: DecisionTrace, result: DecisionResult, gate: GateRequest)
    ensures IsEventOfGate(GateEvent(adapter, trace, result, gate), gate)
  {
  }

  lemma NodeEventsTell(adapter: Adapter, trace: DecisionTrace, result: DecisionResult, records: seq<Record>, a: Log, b: Log)
    requires AllEngineRecords(records)
    ensures NodesAreToldFrom(a + NodeEvents(adapter, trace, result, records) + b, |a|, records)
  {
    forall i | 0 <= i < |records|
      ensures IsEventOfNode((a + NodeEvents(adapter, trace, result, records) + b)[|a| + i], records[i])
    {
      NodeEventAt(adapter, trace, result, records, i);
      NodeEventTells(adapter, trace, result, records[i]);
    }
  }

  lemma GateEventsTell(adapter: Adapter, trace: DecisionTrace, result: DecisionResult, gates: seq<GateRequest>, a: Log, b: Log)
    ensures GatesAreToldFrom(a + GateEvents(adapter, trace, result, gates) + b, |a|, gates)
  {
    forall i | 0 <= i < |gates|
      ensures IsEventOfGate((a + GateEvents(adapter, trace, result, gates) + b)[|a| + i], gates[i])
    {
      GateEventAt(adapter, trace, result, gates, i);
      GateEventTells(adapter, trace, result, gates[i]);
    }
  }

  /** All events of an evaluation are of its trace, its decision, its flow and the schema of the adapter. */
  ghost predicate IsOf(e: LedgerEvent, adapter: Adapter, trace: DecisionTrace, result: DecisionResult) {
    && e.traceId == trace.id && e.decisionId == result.id && e.flowId == trace.flowId
    && e.flowVersion == trace.flowVersion && e.schemaVersion == adapter.schemaVersion
  }

  lemma EventsAreOf(adapter: Adapter, trace: DecisionTrace, result: DecisionResult)
    ensures forall e :: e in EventsFor(adapter, trace, result) ==> IsOf(e, adapter, trace, result)
  {
    var nodes := NodeEvents(adapter, trace, result, trace.evaluatedNodes);
    var gates := GateEvents(adapter, trace, result, trace.humanGateRequests);
    forall e | e in nodes ensures IsOf(e, adapter, trace, result) {
      var i :| 0 <= i < |nodes| && nodes[i] == e;
      NodeEventAt(adapter, trace, result, trace.evaluatedNodes, i);
    }
    forall e | e in gates ensures IsOf(e, adapter, trace, result) {
      var i :| 0 <= i < |gates| && gates[i] == e;
      GateEventAt(adapter, trace, result, trace.humanGateRequests, i);
    }
  }

  /** The signal and the outcome happened when the trace started and when the decision was evaluated, and the
      nodes when the trace was completed. */
  lemma EventTimes(adapter: Adapter, trace: DecisionTrace, result: DecisionResult)
    requires trace.signalId.Some? && trace.completedAt.Some?
    ensures var events, n := EventsFor(adapter, trace, result), |trace.evaluatedNodes|;
            && n + 1 < |events|
            && events[0].occurredAt == trace.startedAt && events[|events| - 1].occurredAt == result.evaluatedAt
            && forall i :: 1 <= i <= n ==> events[i].occurredAt == trace.completedAt.value
  {
    var nodes := NodeEvents(adapter, trace, result, trace.evaluatedNodes);
    forall i | 0 <= i < |nodes| ensures nodes[i].occurredAt == trace.completedAt.value {
      NodeEventAt(adapter, trace, result, trace.evaluatedNodes, i);
    }
  }

  /** Which event stands where: the signal, the node records in order, the gates, the outcome. */
  lemma EventsTell(adapter: Adapter, trace: DecisionTrace, result: DecisionResult)
    requires trace.signalId.Some? && AllEngineRecords(trace.evaluatedNodes)
    ensures var events, n, m := EventsFor(adapter, trace, result), |trace.evaluatedNodes|, |trace.humanGateRequests|;
            && |events| == n + m + 2
            && events[0].stepType == "signal" && events[0].stepId == trace.signalId.value
            && NodesAreToldFrom(events, 1, trace.evaluatedNodes)
            && GatesAreToldFrom(events, 1 + n, trace.humanGateRequests)
            && events[n + m + 1].stepType == "outcome" && events[n + m + 1].stepId == result.id
  {
    var signals := SignalEvents(adapter, trace, result);
    var nodes := NodeEvents(adapter, trace, result, trace.evaluatedNodes);
    var gates := GateEvents(adapter, trace, result, trace.humanGateRequests);
    var last := [OutcomeEvent(adapter, trace, result)];
    NodeEventsTell(adapter, trace, result, trace.evaluatedNodes, signals, gates + last);
    GateEventsTell(adapter, trace, result, trace.humanGateRequests, signals + nodes, last);
    assert signals + nodes + (gates + last) == EventsFor(adapter, trace, result) == signals + nodes + gates + last;
  }

  lemma NodeEventRole(adapter: Adapter, trace: DecisionTrace, result: DecisionResult, record: Record)
    requires IsEngineRecord(record)
    ensures RoleOf(NodeEvent(adapter, trace, result, record).stepType)
         == if IsFallbackRecord(record) then OutcomeRole else NodeRole
  {
    RoleOfStep(StepOfNode(TextOr(record, "node_type", "decision")));
  }

  lemma NodeEventAbsorbs(p: Partial, adapter: Adapter, trace: DecisionTrace, result: DecisionResult, record: Record)
    requires IsEngineRecord(record)
    ensures var q := Absorb(p, NodeEvent(adapter, trace, result, record));
            q.signalId == p.signalId && q.startedAt == p.startedAt
            && q.nodes == if IsFallbackRecord(record) then p.nodes else p.nodes + [record]
  {
    NodeEventRole(adapter, trace, result, record);
    NodeEventReadsBack(adapter, trace, result, record);
  }

  lemma AbsorbedSnoc(p: Partial, events: Log, last: LedgerEvent)
    ensures Absorbed(p, events + [last]) == Absorb(Absorbed(p, events), last)
  {
    assert (events + [last])[..|events|] == events;
  }

  lemma NodeEventsSnoc(adapter: Adapter, trace: DecisionTrace, result: DecisionResult, records: seq<Record>, n: nat)
    requires |records| == n + 1
    ensures NodeEvents(adapter, trace, result, records)
         == NodeEvents(adapter, trace, result, records[..n]) + [NodeEvent(adapter, trace, result, records[n])]
    ensures WithoutFallback(records)
         == WithoutFallback(records[..n]) + if IsFallbackRecord(records[n]) then [] else [records[n]]
  {
  }

  lemma {:induction false} NodeEventsAbsorb(
      p: Partial, adapter: Adapter, trace: DecisionTrace, result: DecisionResult, records: seq<Record>)
    requires AllEngineRecords(records)
    ensures var q := Absorbed(p, NodeEvents(adapter, trace, result, records));
            q.signalId == p.signalId && q.startedAt == p.startedAt && q.nodes == p.nodes + WithoutFallback(records)
  {
    if records == [] {
      assert p.nodes + [] == p.nodes;
    } else {
      var n := |records| - 1;
      var before := NodeEvents(adapter, trace, result, records[..n]);
      NodeEventsAbsorb(p, adapter, trace, result, records[..n]);
      NodeEventAbsorbs(Absorbed(p, before), adapter, trace, result, records[n]);
      AbsorbedSnoc(p, before, NodeEvent(adapter, trace, result, records[n]));
      NodeEventsSnoc(adapter, trace, result, records, n);
    }
  }

  lemma {:induction false} GateEventsAreHuman(adapter: Adapter, trace: DecisionTrace, result: DecisionResult, gates: seq<GateRequest>)
    ensures AllHuman(GateEvents(adapter, trace, result, gates))
  {
    if gates != [] {
      GateEventsAreHuman(adapter, trace, result, gates[..|gates| - 1]);
    }
  }

  lemma OutcomeReadsBack(adapter: Adapter, trace: DecisionTrace, result: DecisionResult)
    ensures var payload := OutcomeEvent(adapter, trace, result).payload;
            StatusFrom(payload) == result.status && OutcomeFrom(payload) == result.outcome
            && ConfidenceFrom(payload) == Some(result.confidence) && SelectedFrom(payload) == Some(result.selectedNodeId)
  {
    var payload := OutcomePayload(result);
    assert payload["status"] == Str(StatusText(result.status));
    assert payload["outcome"] == Str(OutcomeText(result.outcome));
  }

  /** The outcome event says which decision it is of and how it ended, in words. */
  lemma OutcomeIsSpelled(adapter: Adapter, trace: DecisionTrace, result: DecisionResult)
    ensures var payload := OutcomeEvent(adapter, trace, result).payload;
            && payload.Keys == {"decision_id", "status", "outcome", "selected_node_id", "confidence"}
            && payload["decision_id"] == Str(result.id)
            && (result.status == Confirmed ==> payload["status"] == Str("confirmed"))
            && (result.status == Fallback ==> payload["status"] == Str("fallback"))
            && (result.status == Blocked ==> payload["status"] == Str("blocked"))
            && (result.status == PendingHuman ==> payload["status"] == Str("pending_human"))
            && (result.outcome == Pass ==> payload["outcome"] == Str("pass"))
            && (result.outcome == Fail ==> payload["outcome"] == Str("fail"))
  {
  }

  lemma SignalEventsAbsorb(p: Partial, adapter: Adapter, trace: DecisionTrace, result: DecisionResult)
    requires trace.signalId.Some?
    ensures Absorbed(p, SignalEvents(adapter, trace, result))
         == p.(signalId := trace.signalId, startedAt := trace.startedAt)
  {
    RoleOfStep(SignalStep);
    var signals := SignalEvents(adapter, trace, result);
    assert |signals| == 1 && signals[..0] == [];
    assert Absorbed(p, signals) == Absorb(p, signals[0]);
    assert AsUuid(signals[0].stepId) == trace.signalId;
  }

  /** What the events of one evaluation leave in the fold. */
  lemma EvaluationAbsorbs(p: Partial, adapter: Adapter, trace: DecisionTrace, result: DecisionResult)
    requires trace.signalId.Some? && AllEngineRecords(trace.evaluatedNodes)
    ensures Absorbed(p, EventsFor(adapter, trace, result))
         == Partial(trace.signalId, trace.startedAt, p.nodes + WithoutFallback(trace.evaluatedNodes),
                    Some(OutcomeEvent(adapter, trace, result)))
  {
    var signals := SignalEvents(adapter, trace, result);
    var nodes := NodeEvents(adapter, trace, result, trace.evaluatedNodes);
    var gates := GateEvents(adapter, trace, result, trace.humanGateRequests);
    SignalEventsAbsorb(p, adapter, trace, result);
    RoleOfStep(OutcomeStep);
    NodeEventsAbsorb(Absorbed(p, signals), adapter, trace, result, trace.evaluatedNodes);
    AbsorbedConcat(p, signals, nodes);
    GateEventsAreHuman(adapter, trace, result, trace.humanGateRequests);
    HumanEventsLeaveNoMark(Absorbed(p, signals + nodes), gates);
    AbsorbedConcat(p, signals + nodes, gates);
    var all := EventsFor(adapter, trace, result);
    assert all[..|all| - 1] == signals + nodes + gates;
  }

  /** The projection of a trace's log agrees with the trace and its result on everything the ledger
      records, whatever gate resolutions follow the evaluation's events. */
  ghost predicate Agrees(projected: DecisionTrace, trace: DecisionTrace, result: DecisionResult) {
    && projected.id == trace.id && projected.flowId == trace.flowId && projected.flowVersion == trace.flowVersion
    && projected.state == StateCompleted && projected.signalId == trace.signalId
    && projected.decisionId == Some(result.id) && projected.startedAt == trace.startedAt
    && projected.completedAt == Some(result.evaluatedAt)
    && projected.evaluatedNodes == WithoutFallback(trace.evaluatedNodes)
    && |projected.decisionResults| == 1
    && var r := projected.decisionResults[0];
       && r.id == result.id && r.traceId == trace.id && r.flowId == trace.flowId && r.flowVersion == trace.flowVersion
       && r.status == result.status && r.outcome == result.outcome && r.selectedNodeId == result.selectedNodeId
       && r.confidence == result.confidence && Some(r.sourceSignalId) == trace.signalId
       && r.evaluatedAt == result.evaluatedAt && r.createdAt == trace.startedAt
  }

  lemma ProjectionAgrees(adapter: Adapter, log: Log, trace: DecisionTrace, result: DecisionResult, later: Log)
    requires OfTrace(log, trace.id) == EventsFor(adapter, trace, result) + later && AllHuman(later)
    requires trace.signalId.Some? && AllEngineRecords(trace.evaluatedNodes)
    ensures ProjectionOf(log, trace.id).Projected?
    ensures Agrees(ProjectionOf(log, trace.id).trace, trace, result)
  {
    var events := EventsFor(adapter, trace, result);
    var first := (events + later)[0];
    assert first == SignalEvents(adapter, trace, result)[0];
    var start := Partial(None, first.occurredAt, [], None);
    EvaluationAbsorbs(start, adapter, trace, result);
    AbsorbedConcat(start, events, later);
    HumanEventsLeaveNoMark(Absorbed(start, events), later);
    OutcomeReadsBack(adapter, trace, result);
  }
}
