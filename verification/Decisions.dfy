/** Signals, decision results, gate requests and traces. */
module Decisions {
  import opened Basics
  import opened Values
  import opened Conditions

  const UUID_LENGTH: nat := 36

  /** The text form of a UUID (section 4 of RFC 9562): always 36 characters. */
  type Uuid = s: string | |s| == UUID_LENGTH witness "00000000-0000-0000-0000-000000000000"

  /** Confidence scores are validated to lie between 0 and 1. */
  type Confidence = c: real | 0.0 <= c <= 1.0 witness 1.0

  datatype Signal = Signal(
    id: Uuid,
    kind: string,
    confidence: Confidence,
    payload: Record,
    source: string,
    timestamp: int,
    idempotencyKey: Option<string>)

  /** What conditions may refer to. */
  function ContextOf(signal: Signal): Context {
    map["type" := Str(signal.kind),
        "confidence" := Num(signal.confidence),
        "payload" := Dict(signal.payload),
        "source" := Str(signal.source),
        "created_at" := Time(signal.timestamp)]
  }

  datatype DecisionOutcome = Pass | Fail | Abstain | OutcomeError

  datatype DecisionStatus = Confirmed | Fallback | Blocked | PendingHuman | Rejected | StatusError

  datatype RuntimeState = StateEvaluating | StateConfirmed | StateRejected | StateCompleted | StateFailed

  datatype GateStatus =
    | GatePending | GateAssigned | GateInReview | GateApproved | GateRejected | GateTimedOut | GateCancelled

  datatype GateRequest = GateRequest(
    id: Uuid,
    flowId: string,
    decisionId: Option<Uuid>,
    traceId: Option<Uuid>,
    nodeId: string,
    requiredRole: Option<string>,
    status: GateStatus,
    responseValue: Option<string>,
    responseNote: Option<string>,
    respondedAt: Option<int>,
    createdAt: int)

  datatype BoundaryResult = BoundaryResult(
    boundaryId: string,
    triggered: bool,
    severity: string,
    effect: string,
    action: Option<Record>,
    reason: string)

  datatype DecisionResult = DecisionResult(
    id: Uuid,
    traceId: Uuid,
    flowId: string,
    flowVersion: string,
    selectedNodeId: string,
    sourceSignalId: Uuid,
    state: RuntimeState,
    status: DecisionStatus,
    outcome: DecisionOutcome,
    confidence: Confidence,
    action: Option<Record>,
    conditionsEvaluated: nat,
    conditionsPassed: nat,
    executionId: Option<Uuid>,
    boundaryResults: seq<BoundaryResult>,
    humanGate: Option<GateRequest>,
    errorMessage: Option<string>,
    evaluatedAt: int,
    createdAt: int,
    updatedAt: int)

  /** One entry of evaluated_nodes. */
  function NodeRecord(nodeId: string, nodeType: string, matched: bool, condition: Value, reason: string): Record {
    map["node_id" := Str(nodeId),
        "node_type" := Str(nodeType),
        "matched" := Bool(matched),
        "condition" := condition,
        "reason" := Str(reason)]
  }

  /** `projected` is metadata.projected_from_ledger. */
  datatype DecisionTrace = DecisionTrace(
    id: Uuid,
    flowId: string,
    flowVersion: string,
    state: RuntimeState,
    decisionId: Option<Uuid>,
    signalId: Option<Uuid>,
    startedAt: int,
    completedAt: Option<int>,
    evaluatedNodes: seq<Record>,
    decisionResults: seq<DecisionResult>,
    boundaryResults: seq<BoundaryResult>,
    humanGateRequests: seq<GateRequest>,
    projected: bool)

  /** The trace of a completed evaluation; its id is the trace id of the result. */
  function CreateTrace(signal: Signal, flowId: string, flowVersion: string, result: DecisionResult,
                       evaluatedNodes: seq<Record>, now: int): DecisionTrace {
    DecisionTrace(
      result.traceId, flowId, flowVersion, StateCompleted, Some(result.id), Some(signal.id),
      result.createdAt, Some(now), evaluatedNodes, [result], result.boundaryResults,
      if result.humanGate.Some? then [result.humanGate.value] else [], false)
  }
}
