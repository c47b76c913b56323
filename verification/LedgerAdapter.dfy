/** From traces to ledger events: the ordered event sequence of one evaluation, its deterministic
    event ids, the commit loop, and the gate resolution events. */
module LedgerAdapter {
  import opened Basics
  import opened Values
  import opened Decisions
  import opened LedgerClient

  // ---------------------------------------------------------------- event ids

  /** What an event id is derived from besides the trace id. */
  datatype StepKey =
    | SignalKey(signalId: Uuid)
    | NodeKey(nodeId: string)
    | GateKey(gateId: Uuid)
    | OutcomeKey(decisionId: Uuid)
    | GateActionKey(gate: Uuid, action: string)

  function KeyText(key: StepKey): string {
    match key
    case SignalKey(id) => "signal:" + id
    case NodeKey(id) => "node:" + id
    case GateKey(id) => "human:" + id
    case OutcomeKey(id) => "outcome:" + id
    case GateActionKey(gate, action) => "human_action:" + gate + ":" + action
  }

  function NameText(traceId: Uuid, key: StepKey): string {
    traceId + ":" + KeyText(key)
  }

  /** The event id for a trace and a step: the name-based UUID (section 5.5 of RFC 9562) of the name
      text. */
  type Naming = (Uuid, StepKey) -> string

  ghost predicate IsInjective(naming: Naming) {
    forall t, k, u, l :: naming(t, k) == naming(u, l) ==> t == u && k == l
  }

  lemma TailsEqual(prefix: string, a: string, b: string)
    requires prefix + a == prefix + b
    ensures a == b
  {
    assert (prefix + a)[|prefix|..] == a && (prefix + b)[|prefix|..] == b;
  }

  lemma HeadsEqual(a: string, b: string, x: string, y: string)
    requires |a| == |b| && a + x == b + y
    ensures a == b && x == y
  {
    assert (a + x)[..|a|] == a && (b + y)[..|b|] == b;
    assert (a + x)[|a|..] == x && (b + y)[|b|..] == y;
  }

  lemma KeyTextStart(key: StepKey)
    ensures |KeyText(key)| >= 5
    ensures key.SignalKey? ==> KeyText(key)[0] == 's'
    ensures key.NodeKey? ==> KeyText(key)[0] == 'n'
    ensures key.OutcomeKey? ==> KeyText(key)[0] == 'o'
    ensures key.GateKey? ==> KeyText(key)[0] == 'h' && |KeyText(key)| > 5 && KeyText(key)[5] == ':'
    ensures key.GateActionKey? ==> KeyText(key)[0] == 'h' && |KeyText(key)| > 5 && KeyText(key)[5] == '_'
  {
  }

  /** Different steps have different key texts. Node ids are arbitrary text, so a node id can contain
      anything another key contains; the prefix and the fixed length of UUIDs keep them apart. */
  lemma KeyTextIsInjective(k: StepKey, l: StepKey)
    requires KeyText(k) == KeyText(l)
    ensures k == l
  {
    KeyTextStart(k);
    KeyTextStart(l);
    match k {
      case SignalKey(id) => TailsEqual("signal:", id, l.signalId);
      case NodeKey(id) => TailsEqual("node:", id, l.nodeId);
      case GateKey(id) => TailsEqual("human:", id, l.gateId);
      case OutcomeKey(id) => TailsEqual("outcome:", id, l.decisionId);
      case GateActionKey(gate, action) =>
        var tail, tail' := gate + (":" + action), l.gate + (":" + l.action);
        assert KeyText(k) == "human_action:" + tail && KeyText(l) == "human_action:" + tail';
        TailsEqual("human_action:", tail, tail');
        HeadsEqual(gate, l.gate, ":" + action, ":" + l.action);
        TailsEqual(":", action, l.action);
    }
  }

  /** The name texts are distinct for distinct traces or steps. */
  lemma NameTextIsInjective(t: Uuid, k: StepKey, u: Uuid, l: StepKey)
    requires NameText(t, k) == NameText(u, l)
    ensures t == u && k == l
  {
    var x, y := ":" + KeyText(k), ":" + KeyText(l);
    assert t + x == NameText(t, k) && u + y == NameText(u, l);
    HeadsEqual(t, u, x, y);
    TailsEqual(":", KeyText(k), KeyText(l));
    KeyTextIsInjective(k, l);
  }

  /** So the name text is itself an injective naming. */
  lemma NameTextNames()
    ensures IsInjective(NameText)
  {
    forall t, k, u, l | NameText(t, k) == NameText(u, l) ensures t == u && k == l { NameTextIsInjective(t, k, u, l); }
  }

  // ---------------------------------------------------------------- event sequences

  datatype StepType = SignalStep | DecisionStep | BoundaryStep | HumanStep | ActionStep | OutcomeStep

  function StepText(step: StepType): string {
    match step
    case SignalStep => "signal"
    case DecisionStep => "decision"
    case BoundaryStep => "boundary"
    case HumanStep => "human"
    case ActionStep => "action"
    case OutcomeStep => "outcome"
  }

  const NODE_TYPE_TO_STEP: map<string, StepType> :=
    map["signal" := SignalStep, "decision" := DecisionStep, "boundary" := BoundaryStep,
        "human_gate" := HumanStep, "action" := ActionStep, "fallback" := OutcomeStep]

  function StepOfNode(nodeType: string): StepType {
    if nodeType in NODE_TYPE_TO_STEP then NODE_TYPE_TO_STEP[nodeType] else DecisionStep
  }

  function StatusText(status: DecisionStatus): string {
    match status
    case Confirmed => "confirmed"
    case Fallback => "fallback"
    case Blocked => "blocked"
    case PendingHuman => "pending_human"
    case Rejected => "rejected"
    case StatusError => "error"
  }

  function OutcomeText(outcome: DecisionOutcome): string {
    match outcome
    case Pass => "pass"
    case Fail => "fail"
    case Abstain => "abstain"
    case OutcomeError => "error"
  }

  function GateStatusText(status: GateStatus): string {
    match status
    case GatePending => "pending"
    case GateAssigned => "assigned"
    case GateInReview => "in_review"
    case GateApproved => "approved"
    case GateRejected => "rejected"
    case GateTimedOut => "timed_out"
    case GateCancelled => "cancelled"
  }

  /** record.get(key, default) where a text is expected. */
  function TextOr(record: Record, key: string, default: string): string {
    if key in record && record[key].Str? then record[key].s else default
  }

  /** record.get(key). */
  function GetOrNull(record: Record, key: string): Value {
    if key in record then record[key] else Null
  }

  datatype Adapter = Adapter(naming: Naming, schemaVersion: string)

  function StepEvent(adapter: Adapter, trace: DecisionTrace, result: DecisionResult,
                     key: StepKey, step: StepType, stepId: string, payload: Record, at: int): LedgerEvent {
    LedgerEvent(adapter.naming(trace.id, key), adapter.schemaVersion, trace.id, result.id,
                trace.flowId, trace.flowVersion, StepText(step), stepId, payload, at)
  }

  function SignalEvents(adapter: Adapter, trace: DecisionTrace, result: DecisionResult): Log {
    if trace.signalId.None? then []
    else
      var id := trace.signalId.value;
      [StepEvent(adapter, trace, result, SignalKey(id), SignalStep, id, map["signal_id" := Str(id)], trace.startedAt)]
  }

  function NodePayload(record: Record): Record {
    map["node_id" := Str(TextOr(record, "node_id", "")),
        "node_type" := Str(TextOr(record, "node_type", "decision")),
        "matched" := GetOrNull(record, "matched"),
        "condition" := GetOrNull(record, "condition"),
        "reason" := GetOrNull(record, "reason")]
  }

  function NodeEvent(adapter: Adapter, trace: DecisionTrace, result: DecisionResult, record: Record): LedgerEvent {
    var nodeId := TextOr(record, "node_id", "");
    StepEvent(adapter, trace, result, NodeKey(nodeId), StepOfNode(TextOr(record, "node_type", "decision")), nodeId,
              NodePayload(record), if trace.completedAt.Some? then trace.completedAt.value else trace.startedAt)
  }

  function NodeEvents(adapter: Adapter, trace: DecisionTrace, result: DecisionResult, records: seq<Record>): (log: Log)
    ensures |log| == |records|
  {
    if records == [] then []
    else
      var n := |records| - 1;
      NodeEvents(adapter, trace, result, records[..n]) + [NodeEvent(adapter, trace, result, records[n])]
  }

  function GateEvent(adapter: Adapter, trace: DecisionTrace, result: DecisionResult, gate: GateRequest): LedgerEvent {
    StepEvent(adapter, trace, result, GateKey(gate.id), HumanStep, gate.id,
              map["gate_id" := Str(gate.id),
                  "node_id" := Str(gate.nodeId),
                  "status" := Str(GateStatusText(gate.status)),
                  "required_role" := if gate.requiredRole.Some? then Str(gate.requiredRole.value) else Null],
              gate.createdAt)
  }

  function GateEvents(adapter: Adapter, trace: DecisionTrace, result: DecisionResult, gates: seq<GateRequest>): (log: Log)
    ensures |log| == |gates|
  {
    if gates == [] then []
    else
      var n := |gates| - 1;
      GateEvents(adapter, trace, result, gates[..n]) + [GateEvent(adapter, trace, result, gates[n])]
  }

  function OutcomePayload(result: DecisionResult): Record {
    map["decision_id" := Str(result.id),
        "status" := Str(StatusText(result.status)),
        "outcome" := Str(OutcomeText(result.outcome)),
        "selected_node_id" := Str(result.selectedNodeId),
        "confidence" := Num(result.confidence)]
  }

  function OutcomeEvent(adapter: Adapter, trace: DecisionTrace, result: DecisionResult): LedgerEvent {
    StepEvent(adapter, trace, result, OutcomeKey(result.id), OutcomeStep, result.id, OutcomePayload(result),
              result.evaluatedAt)
  }

  /** Signal, node records in order, gates, outcome. */
  function EventsFor(adapter: Adapter, trace: DecisionTrace, result: DecisionResult): Log {
    SignalEvents(adapter, trace, result)
    + NodeEvents(adapter, trace, result, trace.evaluatedNodes)
    + GateEvents(adapter, trace, result, trace.humanGateRequests)
    + [OutcomeEvent(adapter, trace, result)]
  }

  method AppendNodeEvents(adapter: Adapter, trace: DecisionTrace, result: DecisionResult, records: seq<Record>, before: Log)
    returns (events: Log)
    ensures events == before + NodeEvents(adapter, trace, result, records)
  {
    events := before;
    for i := 0 to |records|
      invariant events == before + NodeEvents(adapter, trace, result, records[..i])
    {
      assert records[..i + 1][..i] == records[..i];
      events := events + [NodeEvent(adapter, trace, result, records[i])];
    }
    assert records[..|records|] == records;
  }

  method AppendGateEvents(adapter: Adapter, trace: DecisionTrace, result: DecisionResult, gates: seq<GateRequest>, before: Log)
    returns (events: Log)
    ensures events == before + GateEvents(adapter, trace, result, gates)
  {
    events := before;
    for i := 0 to |gates|
      invariant events == before + GateEvents(adapter, trace, result, gates[..i])
    {
      assert gates[..i + 1][..i] == gates[..i];
      events := events + [GateEvent(adapter, trace, result, gates[i])];
    }
    assert gates[..|gates|] == gates;
  }

  method BuildEvents(adapter: Adapter, trace: DecisionTrace, result: DecisionResult) returns (events: Log)
    ensures events == EventsFor(adapter, trace, result)
  {
    events := SignalEvents(adapter, trace, result);
    events := AppendNodeEvents(adapter, trace, result, trace.evaluatedNodes, events);
    events := AppendGateEvents(adapter, trace, result, trace.humanGateRequests, events);
    events := events + [OutcomeEvent(adapter, trace, result)];
  }

  // ---------------------------------------------------------------- commit

  datatype CommitStatus = CommitAccepted | CommitPartial | CommitDuplicate | CommitFailed

  /** `Some(k)` when the ledger client raises at the append after the first `k` of a commit. */
  type Outage = Option<nat>

  predicate Fails(events: Log, outage: Outage) {
    outage.Some? && outage.value < |events|
  }

  function Reached(events: Log, outage: Outage): Log {
    if Fails(events, outage) then events[..outage.value] else events
  }

  datatype CommitResult = CommitResult(status: CommitStatus, appended: nat, duplicates: nat, eventIds: seq<string>)

  /** The log after appending the events one by one. */
  function CommitLog(log: Log, events: Log): Log {
    if events == [] then log
    else
      var n := |events| - 1;
      Appended(CommitLog(log, events[..n]), events[n])
  }

  function AppendedCount(log: Log, events: Log): (count: nat)
    ensures count <= |events| && |CommitLog(log, events)| == |log| + count
  {
    if events == [] then 0
    else
      var n := |events| - 1;
      AppendedCount(log, events[..n]) + (if Has(CommitLog(log, events[..n]), events[n].eventId) then 0 else 1)
  }

  function StatusFor(appended: nat, duplicates: nat, errors: nat): CommitStatus {
    if errors > 0 then CommitFailed
    else if appended == 0 && duplicates > 0 then CommitDuplicate
    else if duplicates > 0 then CommitPartial
    else CommitAccepted
  }

  function IdsOf(events: Log): (ids: seq<string>)
    ensures |ids| == |events|
    ensures forall i :: 0 <= i < |ids| ==> ids[i] == events[i].eventId
  {
    seq(|events|, i requires 0 <= i < |events| => events[i].eventId)
  }

  function CommitOutcome(log: Log, events: Log): CommitResult {
    var appended := AppendedCount(log, events);
    CommitResult(StatusFor(appended, |events| - appended, 0), appended, |events| - appended, IdsOf(events))
  }

  lemma CommitStep(log: Log, events: Log, i: nat)
    requires i < |events|
    ensures CommitLog(log, events[..i + 1]) == Appended(CommitLog(log, events[..i]), events[i])
    ensures AppendedCount(log, events[..i + 1])
         == AppendedCount(log, events[..i])
            + if StatusOf(CommitLog(log, events[..i]), events[i]).AppendAccepted? then 1 else 0
    ensures IdsOf(events[..i + 1]) == IdsOf(events[..i]) + [events[i].eventId]
  {
    assert events[..i + 1][..i] == events[..i];
  }

  /** The commit loop over the events the client answers for. */
  method AppendEach(client: LedgerClient, events: Log) returns (r: CommitResult)
    requires client.Valid()
    modifies client
    ensures client.Valid()
    ensures client.events == CommitLog(old(client.events), events)
    ensures r == CommitOutcome(old(client.events), events)
  {
    var appended, duplicates, errors := 0, 0, 0;
    var ids: seq<string> := [];
    for i := 0 to |events|
      invariant client.Valid() && errors == 0
      invariant client.events == CommitLog(old(client.events), events[..i])
      invariant appended == AppendedCount(old(client.events), events[..i]) && appended + duplicates == i
      invariant ids == IdsOf(events[..i])
    {
      CommitStep(old(client.events), events, i);
      var status := client.Append(events[i]);
      ids := ids + [events[i].eventId];
      match status {
        case AppendAccepted => appended := appended + 1;
        case AppendDuplicate => duplicates := duplicates + 1;
        case AppendInvalid => errors := errors + 1;
      }
    }
    assert events[..|events|] == events;
    return CommitResult(StatusFor(appended, duplicates, errors), appended, duplicates, ids);
  }

  /** None when the client raises, with the appends before that done. */
  method AppendAll(client: LedgerClient, events: Log, outage: Outage) returns (r: Option<CommitResult>)
    requires client.Valid()
    modifies client
    ensures client.Valid()
    ensures client.events == CommitLog(old(client.events), Reached(events, outage))
    ensures r == if Fails(events, outage) then None else Some(CommitOutcome(old(client.events), events))
  {
    var report := AppendEach(client, Reached(events, outage));
    return if Fails(events, outage) then None else Some(report);
  }

  method Commit(client: LedgerClient, adapter: Adapter, trace: DecisionTrace, result: DecisionResult, outage: Outage)
    returns (r: Option<CommitResult>)
    requires client.Valid()
    modifies client
    ensures client.Valid()
    ensures client.events == CommitLog(old(client.events), Reached(EventsFor(adapter, trace, result), outage))
    ensures r == if Fails(EventsFor(adapter, trace, result), outage) then None
                 else Some(CommitOutcome(old(client.events), EventsFor(adapter, trace, result)))
  {
    var events := BuildEvents(adapter, trace, result);
    r := AppendAll(client, events, outage);
  }

  // ---------------------------------------------------------------- gate resolutions

  datatype GateAction = Approve | Reject

  function ActionText(action: GateAction): string {
    if action.Approve? then "approve" else "reject"
  }

  /** Who resolved a gate, when and how. */
  datatype Resolution = Resolution(action: GateAction, actorId: string, actorRoles: Option<seq<string>>,
                                   comment: Option<string>, at: int)

  function TextOrNull(text: Option<string>): Value {
    if text.Some? then Str(text.value) else Null
  }

  function RolesValue(roles: Option<seq<string>>): Value {
    if roles.None? then Null
    else List(seq(|roles.value|, i requires 0 <= i < |roles.value| => Str(roles.value[i])))
  }

  function ResolutionPayload(gate: GateRequest, decisionId: Uuid, r: Resolution): Record {
    var shared := map["gate_id" := Str(gate.id),
                      "decision_id" := Str(decisionId),
                      "action" := Str(ActionText(r.action)),
                      "actor_id" := Str(r.actorId),
                      "actor_roles" := RolesValue(r.actorRoles),
                      "required_role" := TextOrNull(gate.requiredRole),
                      "comment" := TextOrNull(r.comment)];
    if r.action.Approve?
    then shared["event_type" := Str("runtime.human_gate.approved")]["approved_at" := Time(r.at)]
    else shared["event_type" := Str("runtime.human_gate.rejected")]["rejected_at" := Time(r.at)]
  }

  function ResolutionTrace(gate: GateRequest, result: DecisionResult): Uuid {
    if gate.traceId.Some? then gate.traceId.value else result.traceId
  }

  /** The event of an approval or rejection; its id depends only on the trace, the gate and the action. */
  function ResolutionEvent(adapter: Adapter, gate: GateRequest, result: DecisionResult, r: Resolution): LedgerEvent {
    var traceId := ResolutionTrace(gate, result);
    var decisionId := if gate.decisionId.Some? then gate.decisionId.value else result.id;
    LedgerEvent(adapter.naming(traceId, GateActionKey(gate.id, ActionText(r.action))), adapter.schemaVersion, traceId,
                decisionId, gate.flowId, result.flowVersion, StepText(HumanStep), gate.id,
                ResolutionPayload(gate, decisionId, r), r.at)
  }

  /** `down` says that the client raises: then there is no status. */
  method AppendHumanGateEvent(client: LedgerClient, adapter: Adapter, gate: GateRequest, result: DecisionResult,
                              r: Resolution, down: bool)
    returns (status: Option<AppendStatus>)
    requires client.Valid()
    modifies client
    ensures client.Valid()
    ensures down ==> client.events == old(client.events) && status.None?
    ensures !down ==> client.events == Appended(old(client.events), ResolutionEvent(adapter, gate, result, r))
                      && status == Some(StatusOf(old(client.events), ResolutionEvent(adapter, gate, result, r)))
  {
    if down { return None; }
    var answer := client.Append(ResolutionEvent(adapter, gate, result, r));
    return Some(answer);
  }
}
