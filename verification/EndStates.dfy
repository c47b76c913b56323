/** What a request leaves behind, store by store, when nothing fails; and which response it gets. */
module EndStates {
  import opened Basics
  import opened Values
  import opened Flows
  import opened Decisions
  import opened Boundaries
  import opened Evaluation
  import opened EvaluationRecords
  import opened LedgerClient
  import opened LedgerAdapter
  import opened CommitProperties
  import opened LedgerProjector
  import opened HumanGates
  import opened EventBus
  import opened TraceStore
  import opened Worlds
  import opened Engine
  import opened Routes
  import opened Safety
  import opened SafePlans
  import opened Outcomes

  // ---------------------------------------------------------------- what is left behind

  /** The pending gate of a decision, which asks for no role. */
  ghost predicate IsOpenGateOf(g: GateRequest, draw: Draw, result: DecisionResult) {
    && g.id == draw.gateId && g.status == GatePending && g.requiredRole.None? && g.respondedAt.None?
    && g.decisionId == Some(result.id) && g.traceId == Some(result.traceId) && g.nodeId == result.selectedNodeId
    && g.flowId == result.flowId && g.createdAt == draw.gateAt
  }

  /** The decision as evaluated, with an execution id if it is confirmed and a gate if it is pending. */
  ghost predicate IsAnswerTo(answer: DecisionResult, draw: Draw, result: DecisionResult) {
    && answer == result.(executionId := answer.executionId, humanGate := answer.humanGate)
    && answer.executionId == (if result.status == Confirmed then Some(draw.executionId) else None)
    && (answer.humanGate.Some? <==> result.status == PendingHuman)
    && (answer.humanGate.Some? ==> IsOpenGateOf(answer.humanGate.value, draw, result))
  }

  ghost predicate IsRequestFor(m: RuntimeEvent, draw: Draw, answer: DecisionResult) {
    && m.id == draw.eventId && m.flowId == answer.flowId && m.traceId == answer.traceId && m.decisionId == answer.id
    && Some(m.executionId) == answer.executionId && m.action == answer.action
  }

  ghost predicate IsTraceOf(t: DecisionTrace, signal: Signal, flow: Flow, draw: Draw, answer: DecisionResult,
                            records: seq<Record>) {
    && t.id == draw.stamp.traceId && t.flowId == flow.id && t.flowVersion == flow.version && t.state == StateCompleted
    && t.decisionId == Some(answer.id) && t.signalId == Some(signal.id)
    && t.startedAt == draw.stamp.now && t.completedAt == Some(draw.saveAt)
    && t.evaluatedNodes == records && t.decisionResults == [answer] && t.boundaryResults == answer.boundaryResults
    && t.humanGateRequests == (if answer.humanGate.Some? then [answer.humanGate.value] else []) && !t.projected
  }

  /** The events of an evaluation: the signal, the node records, the gate if there is one, the outcome. */
  ghost predicate IsLogOf(events: Log, signal: Signal, answer: DecisionResult, records: seq<Record>)
    requires AllEngineRecords(records)
  {
    var gates := if answer.humanGate.Some? then [answer.humanGate.value] else [];
    && |events| == |records| + |gates| + 2
    && events[0].stepType == "signal" && events[0].stepId == signal.id
    && NodesAreToldFrom(events, 1, records) && GatesAreToldFrom(events, 1 + |records|, gates)
    && events[|events| - 1].stepType == "outcome" && events[|events| - 1].stepId == answer.id
    && forall e :: e in events ==> e.traceId == answer.traceId
  }

  ghost predicate IsRequestedOn(w: World, v: World, draw: Draw, answer: DecisionResult) {
    if answer.status == Confirmed
    then exists m :: v.bus == w.bus + [m] && v.published == w.published + [m] && IsRequestFor(m, draw, answer)
    else v.bus == w.bus && v.published == w.published
  }

  ghost predicate IsHeldIn(w: World, v: World, draw: Draw, result: DecisionResult, answer: DecisionResult) {
    if answer.humanGate.Some?
    then v.gates == Gates(w.gates.store[draw.gateId := answer.humanGate.value], w.gates.results[draw.gateId := result])
    else v.gates == w.gates
  }

  ghost predicate IsCachedIn(w: World, v: World, signal: Signal, answer: DecisionResult) {
    v.cache == if HasKey(signal) then w.cache[signal.idempotencyKey.value := answer] else w.cache
  }

  ghost predicate IsTracedIn(w: World, v: World, signal: Signal, flow: Flow, draw: Draw, answer: DecisionResult,
                             records: seq<Record>) {
    var id := draw.stamp.traceId;
    && v.traces.order == w.traces.order + [id] && id in v.traces.byTraceId
    && v.traces.byTraceId == w.traces.byTraceId[id := v.traces.byTraceId[id]]
    && IsTraceOf(v.traces.byTraceId[id], signal, flow, draw, answer, records)
    && answer.id in v.traces.byDecisionId && v.traces.byDecisionId[answer.id] == v.traces.byTraceId[id]
  }

  /** The log grows by the events of the evaluation, if there is a ledger. */
  ghost predicate IsLoggedIn(settings: Settings, w: World, v: World, signal: Signal, answer: DecisionResult,
                             records: seq<Record>)
    requires AllEngineRecords(records)
  {
    if settings.ledger.None? then v.log == w.log
    else exists events :: v.log == w.log + events && IsLogOf(events, signal, answer, records)
  }

  // ---------------------------------------------------------------- the end state as one value

  /** The state `w` after dispatching and keeping. */
  function Kept(w: World, ms: seq<RuntimeEvent>, cache: map<string, DecisionResult>, trace: DecisionTrace): World {
    World(w.gates, w.log, w.bus + ms, w.published + ms, cache, Saved(w.traces, trace))
  }

  lemma ClosingEnds(w: World, signal: Signal, final: DecisionResult, draw: Draw, done: DecisionResult, trace: DecisionTrace)
    ensures Applied(w, Dispatching(final, draw) + Remembering(signal, done) + [SaveTrace(trace)])
         == Kept(w, Messages(final, draw), Cached(w.cache, signal, done), trace)
  {
    var first, second := Dispatching(final, draw), Remembering(signal, done);
    AppliedConcat(w, first + second, [SaveTrace(trace)]);
    AppliedConcat(w, first, second);
    DispatchingWrites(w, final, draw);
    RememberingWrites(Applied(w, first), signal, done);
    AppliedOne(Applied(w, first + second), SaveTrace(trace));
  }

  function Cached(cache: map<string, DecisionResult>, signal: Signal, answer: DecisionResult): map<string, DecisionResult> {
    if HasKey(signal) then cache[signal.idempotencyKey.value := answer] else cache
  }

  lemma KeepingEnds(w: World, final: DecisionResult, draw: Draw, trace: DecisionTrace)
    ensures Applied(w, Dispatching(final, draw) + [SaveTrace(trace)]) == Kept(w, Messages(final, draw), w.cache, trace)
  {
    AppliedConcat(w, Dispatching(final, draw), [SaveTrace(trace)]);
    DispatchingWrites(w, final, draw);
    AppliedOne(Applied(w, Dispatching(final, draw)), SaveTrace(trace));
  }

  /** The state after an evaluation that nothing disturbed. */
  function EndOf(w: World, signal: Signal, flow: Flow, draw: Draw, result: DecisionResult, records: seq<Record>,
                 events: Log): World {
    var final := WithGate(result, draw);
    Kept(w.(gates := if result.status.PendingHuman?
                     then Opened(w.gates, NewRequest(draw.gateId, result, None, draw.gateAt), result) else w.gates,
            log := w.log + events),
         Messages(final, draw), Cached(w.cache, signal, Dispatched(final, draw)),
         FinalTrace(signal, flow, final, records, draw))
  }

  /** A strict evaluation whose commit is accepted, and whose answer is cached once more by the route. */
  lemma StrictEnds(settings: Settings, adapter: Adapter, w: World, signal: Signal, flow: Flow, draw: Draw,
                   result: DecisionResult, records: seq<Record>)
    requires var final := WithGate(result, draw);
             var events := EventsFor(adapter, CommitTrace(signal, flow, final, records, draw), final);
             CommitOutcome(w.log, events).status == CommitAccepted
    ensures var final := WithGate(result, draw);
            var events := EventsFor(adapter, CommitTrace(signal, flow, final, records, draw), final);
            var plan := PlanStrict(settings, adapter, w, signal, flow, draw, None, result, records);
            && plan.answer == Success(Dispatched(final, draw))
            && Applied(w, plan.effects) == EndOf(w, signal, flow, draw, result, records, events)
  {
    var final := WithGate(result, draw);
    var events := EventsFor(adapter, CommitTrace(signal, flow, final, records, draw), final);
    var opening, closing := Opening(result, draw), Closing(signal, flow, final, records, draw);
    AcceptedExactlyWhenNew(w.log, events);
    AppliedConcat(w, opening + Appends(events), closing);
    AppliedConcat(w, opening, Appends(events));
    OpeningWrites(w, result, draw);
    AppendsWriteLog(Applied(w, opening), events);
    ClosingEnds(Applied(w, opening + Appends(events)), signal, final, draw, Dispatched(final, draw),
                FinalTrace(signal, flow, final, records, draw));
  }

  /** What a parallel evaluation appends: nothing without a ledger. */
  function EventsAfterwards(settings: Settings, trace: DecisionTrace, done: DecisionResult): Log {
    if settings.ledger.None? then [] else EventsFor(settings.ledger.value, trace, done)
  }

  lemma RecordingEnds(settings: Settings, w: World, trace: DecisionTrace, done: DecisionResult)
    requires CommitOutcome(w.log, EventsAfterwards(settings, trace, done)).status == CommitAccepted
    ensures Applied(w, Recording(settings, trace, done, None)) == w.(log := w.log + EventsAfterwards(settings, trace, done))
  {
    RecordingWritesLog(settings, w, trace, done, None);
    AcceptedExactlyWhenNew(w.log, EventsAfterwards(settings, trace, done));
    assert w.log + [] == w.log;
  }

  lemma ParallelEnds(settings: Settings, w: World, signal: Signal, flow: Flow, draw: Draw, result: DecisionResult,
                     records: seq<Record>)
    requires var final := WithGate(result, draw);
             var events := EventsAfterwards(settings, FinalTrace(signal, flow, final, records, draw), Dispatched(final, draw));
             CommitOutcome(w.log, events).status == CommitAccepted
    ensures var final := WithGate(result, draw);
            var events := EventsAfterwards(settings, FinalTrace(signal, flow, final, records, draw), Dispatched(final, draw));
            var plan := PlanParallel(settings, signal, flow, draw, None, result, records);
            && plan.answer == Success(Dispatched(final, draw))
            && Applied(w, plan.effects).cache == w.cache
            && Applied(w, plan.effects).(cache := Cached(w.cache, signal, Dispatched(final, draw)))
               == EndOf(w, signal, flow, draw, result, records, events)
  {
    var final := WithGate(result, draw);
    var trace, done := FinalTrace(signal, flow, final, records, draw), Dispatched(final, draw);
    var opening, keeping := Opening(result, draw), Dispatching(final, draw) + [SaveTrace(trace)];
    AppliedConcat(w, opening, Settling(settings, signal, flow, final, records, draw, None));
    OpeningWrites(w, result, draw);
    var gated := Applied(w, opening);
    AppliedConcat(gated, keeping, Recording(settings, trace, done, None));
    KeepingEnds(gated, final, draw, trace);
    RecordingEnds(settings, Applied(gated, keeping), trace, done);
  }

  // ---------------------------------------------------------------- the end state, store by store

  lemma EndHolds(w: World, signal: Signal, flow: Flow, draw: Draw, result: DecisionResult, records: seq<Record>, events: Log)
    requires result.executionId.None? && result.humanGate.None?
    ensures var answer := Dispatched(WithGate(result, draw), draw);
            && IsAnswerTo(answer, draw, result)
            && IsHeldIn(w, EndOf(w, signal, flow, draw, result, records, events), draw, result, answer)
  {
  }

  lemma EndRequests(w: World, signal: Signal, flow: Flow, draw: Draw, result: DecisionResult, records: seq<Record>, events: Log)
    ensures var answer := Dispatched(WithGate(result, draw), draw);
            IsRequestedOn(w, EndOf(w, signal, flow, draw, result, records, events), draw, answer)
  {
    var final := WithGate(result, draw);
    if final.status.Confirmed? {
      var m := ExecutionEvent(final, draw);
      assert Messages(final, draw) == [m] && IsRequestFor(m, draw, Dispatched(final, draw));
    } else {
      assert w.bus + [] == w.bus && w.published + [] == w.published;
    }
  }

  lemma EndTraces(w: World, signal: Signal, flow: Flow, draw: Draw, result: DecisionResult, records: seq<Record>, events: Log)
    requires IsInitial(result, signal, flow, draw.stamp) && draw.stamp.traceId !in w.traces.byTraceId
    ensures var answer := Dispatched(WithGate(result, draw), draw);
            && IsTracedIn(w, EndOf(w, signal, flow, draw, result, records, events), signal, flow, draw, answer, records)
            && IsCachedIn(w, EndOf(w, signal, flow, draw, result, records, events), signal, answer)
  {
    var trace := FinalTrace(signal, flow, WithGate(result, draw), records, draw);
    SavedIsFound(w.traces, trace, trace.id, Dispatched(WithGate(result, draw), draw).id);
  }

  lemma EventsAreOfTrace(adapter: Adapter, trace: DecisionTrace, result: DecisionResult)
    ensures forall e :: e in EventsFor(adapter, trace, result) ==> e.traceId == trace.id
  {
    var events := EventsFor(adapter, trace, result);
    EventsAreNamed(adapter, trace, result);
    forall e | e in events ensures e.traceId == trace.id {
      var i :| 0 <= i < |events| && events[i] == e;
    }
  }

  lemma EventsAreLogOf(adapter: Adapter, trace: DecisionTrace, result: DecisionResult, signal: Signal, answer: DecisionResult,
                       records: seq<Record>)
    requires trace.signalId == Some(signal.id) && trace.evaluatedNodes == records && AllEngineRecords(records)
    requires trace.humanGateRequests == (if answer.humanGate.Some? then [answer.humanGate.value] else [])
    requires result.id == answer.id && trace.id == answer.traceId
    ensures IsLogOf(EventsFor(adapter, trace, result), signal, answer, records)
  {
    EventsTell(adapter, trace, result);
    EventsAreOfTrace(adapter, trace, result);
  }

  // ---------------------------------------------------------------- evaluation requests

  /** Ids are fresh, and what is in the ledger was written by the program. */
  ghost predicate IsReadyFor(settings: Settings, w: World, draw: Draw) {
    && IsFresh(w, draw)
    && (settings.ledger.Some? ==>
          IsInjective(settings.ledger.value.naming) && LogFits(settings.ledger.value.naming, w.gates, w.log))
  }

  /** Nothing disturbs the request: its answer is not cached yet, evaluation does not raise, and no two
      consulted nodes have the same id. */
  ghost predicate IsUndisturbed(settings: Settings, w: World, signal: Signal, flow: Flow, draw: Draw) {
    var judge := JudgeFor(settings, signal);
    && !(HasKey(signal) && signal.idempotencyKey.value in w.cache)
    && Evaluated(judge, signal, flow, draw.stamp).Success?
    && (Selected(judge, flow).Some? ==> Distinct(IdsIn(Consulted(judge, flow))))
  }

  lemma TraceIsAccepted(settings: Settings, w: World, signal: Signal, flow: Flow, draw: Draw, trace: DecisionTrace,
                        done: DecisionResult)
    requires settings.ledger.Some? && IsReadyFor(settings, w, draw) && IsUndisturbed(settings, w, signal, flow, draw)
    requires trace.id == draw.stamp.traceId && trace.signalId.Some? && |trace.humanGateRequests| <= 1
    requires trace.evaluatedNodes == Evaluated(JudgeFor(settings, signal), signal, flow, draw.stamp).value.1
    ensures CommitOutcome(w.log, EventsFor(settings.ledger.value, trace, done)).status == CommitAccepted
  {
    ResultShape(JudgeFor(settings, signal), signal, flow, draw.stamp);
    ExplainedIsWellNamed(settings.ledger.value.naming, w.gates, w.log);
    FreshCommitOutcome(settings.ledger.value, w, JudgeFor(settings, signal), flow, trace, done);
  }

  lemma EvaluatedRecords(judge: Judge, signal: Signal, flow: Flow, stamp: Stamp)
    requires Evaluated(judge, signal, flow, stamp).Success?
    ensures var (result, records) := Evaluated(judge, signal, flow, stamp).value;
            IsInitial(result, signal, flow, stamp) && AllEngineRecords(records)
  {
    ResultShape(judge, signal, flow, stamp);
    RecordsAreEngineRecords(judge, flow, Selected(judge, flow).value, ResultsFor(judge, ActiveOf(flow.nodes, BoundaryNode)));
  }

  lemma RememberingEnds(w: World, effects: seq<Effect>, signal: Signal, answer: DecisionResult)
    ensures Applied(w, effects + Remembering(signal, answer))
         == Applied(w, effects).(cache := Cached(Applied(w, effects).cache, signal, answer))
  {
    AppliedConcat(w, effects, Remembering(signal, answer));
    RememberingWrites(Applied(w, effects), signal, answer);
  }

  /** The evaluation of the request gives this. */
  ghost predicate Gives(settings: Settings, signal: Signal, flow: Flow, draw: Draw, result: DecisionResult, records: seq<Record>) {
    Evaluated(JudgeFor(settings, signal), signal, flow, draw.stamp) == Success((result, records))
  }

  /** The request ends in the end state with these events. */
  ghost predicate Ends(settings: Settings, w: World, signal: Signal, flow: Flow, draw: Draw, result: DecisionResult,
                       records: seq<Record>, events: Log) {
    var h := EvaluateRoute(settings, w, signal, Some(flow), draw, None);
    && h.response == Returned(Dispatched(WithGate(result, draw), draw))
    && Applied(w, h.effects) == EndOf(w, signal, flow, draw, result, records, events)
  }

  lemma AnswerIsCachedLast(w: World, effects: seq<Effect>, signal: Signal, answer: DecisionResult, end: World)
    requires Applied(w, effects).(cache := Cached(w.cache, signal, answer)) == end
    requires Applied(w, effects).cache in {w.cache, Cached(w.cache, signal, answer)}
    ensures Applied(w, effects + Remembering(signal, answer)) == end
  {
    RememberingEnds(w, effects, signal, answer);
  }

  lemma RouteFollowsPlan(settings: Settings, w: World, signal: Signal, flow: Flow, draw: Draw, plan: Plan, answer: DecisionResult)
    requires !(HasKey(signal) && signal.idempotencyKey.value in w.cache)
    requires plan == Planned(settings, w, signal, flow, draw, None) && plan.answer == Success(answer)
    ensures EvaluateRoute(settings, w, signal, Some(flow), draw, None)
         == Handling(plan.effects + Remembering(signal, answer), Returned(answer))
  {
  }

  lemma StrictIsPlanned(settings: Settings, w: World, signal: Signal, flow: Flow, draw: Draw, result: DecisionResult,
                        records: seq<Record>)
    requires CommitsFirst(settings) && Gives(settings, signal, flow, draw, result, records)
    ensures Planned(settings, w, signal, flow, draw, None)
         == PlanStrict(settings, settings.ledger.value, w, signal, flow, draw, None, result, records)
  {
  }

  lemma ParallelIsPlanned(settings: Settings, w: World, signal: Signal, flow: Flow, draw: Draw, result: DecisionResult,
                          records: seq<Record>)
    requires !CommitsFirst(settings) && Gives(settings, signal, flow, draw, result, records)
    ensures Planned(settings, w, signal, flow, draw, None)
         == PlanParallel(settings, signal, flow, draw, None, result, records)
  {
  }

  lemma PlanEnds(settings: Settings, w: World, signal: Signal, flow: Flow, draw: Draw, plan: Plan, result: DecisionResult,
                 records: seq<Record>, events: Log)
    requires !(HasKey(signal) && signal.idempotencyKey.value in w.cache)
    requires plan == Planned(settings, w, signal, flow, draw, None)
    requires plan.answer == Success(Dispatched(WithGate(result, draw), draw))
    requires Applied(w, plan.effects).(cache := Cached(w.cache, signal, Dispatched(WithGate(result, draw), draw)))
          == EndOf(w, signal, flow, draw, result, records, events)
    requires Applied(w, plan.effects).cache in
               {w.cache, Cached(w.cache, signal, Dispatched(WithGate(result, draw), draw))}
    ensures Ends(settings, w, signal, flow, draw, result, records, events)
  {
    var answer := Dispatched(WithGate(result, draw), draw);
    RouteFollowsPlan(settings, w, signal, flow, draw, plan, answer);
    AnswerIsCachedLast(w, plan.effects, signal, answer, EndOf(w, signal, flow, draw, result, records, events));
  }

  lemma StrictRouteEnds(settings: Settings, w: World, signal: Signal, flow: Flow, draw: Draw, result: DecisionResult,
                        records: seq<Record>)
    returns (events: Log)
    requires CommitsFirst(settings) && IsReadyFor(settings, w, draw) && IsUndisturbed(settings, w, signal, flow, draw)
    requires Gives(settings, signal, flow, draw, result, records) && AllEngineRecords(records)
    requires IsInitial(result, signal, flow, draw.stamp)
    ensures Ends(settings, w, signal, flow, draw, result, records, events)
    ensures IsLogOf(events, signal, Dispatched(WithGate(result, draw), draw), records)
  {
    var adapter, final := settings.ledger.value, WithGate(result, draw);
    var trace := CommitTrace(signal, flow, final, records, draw);
    events := EventsFor(adapter, trace, final);
    TraceIsAccepted(settings, w, signal, flow, draw, trace, final);
    StrictEnds(settings, adapter, w, signal, flow, draw, result, records);
    EventsAreLogOf(adapter, trace, final, signal, Dispatched(final, draw), records);
    StrictIsPlanned(settings, w, signal, flow, draw, result, records);
    PlanEnds(settings, w, signal, flow, draw, PlanStrict(settings, adapter, w, signal, flow, draw, None, result, records),
             result, records, events);
  }

  lemma ParallelEvents(settings: Settings, w: World, signal: Signal, flow: Flow, draw: Draw, result: DecisionResult,
                       records: seq<Record>)
    returns (events: Log)
    requires IsReadyFor(settings, w, draw) && IsUndisturbed(settings, w, signal, flow, draw)
    requires Gives(settings, signal, flow, draw, result, records) && AllEngineRecords(records)
    requires IsInitial(result, signal, flow, draw.stamp)
    ensures events == EventsAfterwards(settings, FinalTrace(signal, flow, WithGate(result, draw), records, draw),
                                       Dispatched(WithGate(result, draw), draw))
    ensures CommitOutcome(w.log, events).status == CommitAccepted
    ensures if settings.ledger.None? then events == []
            else IsLogOf(events, signal, Dispatched(WithGate(result, draw), draw), records)
  {
    var done := Dispatched(WithGate(result, draw), draw);
    var trace := FinalTrace(signal, flow, WithGate(result, draw), records, draw);
    events := EventsAfterwards(settings, trace, done);
    if settings.ledger.Some? {
      TraceIsAccepted(settings, w, signal, flow, draw, trace, done);
      EventsAreLogOf(settings.ledger.value, trace, done, signal, done, records);
    }
  }

  lemma ParallelRouteEnds(settings: Settings, w: World, signal: Signal, flow: Flow, draw: Draw, result: DecisionResult,
                          records: seq<Record>)
    returns (events: Log)
    requires !CommitsFirst(settings) && IsReadyFor(settings, w, draw) && IsUndisturbed(settings, w, signal, flow, draw)
    requires Gives(settings, signal, flow, draw, result, records) && AllEngineRecords(records)
    requires IsInitial(result, signal, flow, draw.stamp)
    ensures Ends(settings, w, signal, flow, draw, result, records, events)
    ensures if settings.ledger.None? then events == []
            else IsLogOf(events, signal, Dispatched(WithGate(result, draw), draw), records)
  {
    events := ParallelEvents(settings, w, signal, flow, draw, result, records);
    ParallelEnds(settings, w, signal, flow, draw, result, records);
    ParallelIsPlanned(settings, w, signal, flow, draw, result, records);
    PlanEnds(settings, w, signal, flow, draw, PlanParallel(settings, signal, flow, draw, None, result, records),
             result, records, events);
  }

  /** All six stores after the request. */
  ghost predicate IsLeftBehind(settings: Settings, w: World, v: World, signal: Signal, flow: Flow, draw: Draw,
                               answer: DecisionResult, result: DecisionResult, records: seq<Record>)
    requires AllEngineRecords(records)
  {
    && IsAnswerTo(answer, draw, result) && IsHeldIn(w, v, draw, result, answer)
    && IsLoggedIn(settings, w, v, signal, answer, records)
    && IsRequestedOn(w, v, draw, answer)
    && IsCachedIn(w, v, signal, answer)
    && IsTracedIn(w, v, signal, flow, draw, answer, records)
  }

  lemma EndIsLeftBehind(settings: Settings, w: World, signal: Signal, flow: Flow, draw: Draw, result: DecisionResult,
                        records: seq<Record>, events: Log)
    requires IsInitial(result, signal, flow, draw.stamp) && AllEngineRecords(records)
    requires draw.stamp.traceId !in w.traces.byTraceId
    requires if settings.ledger.None? then events == []
             else IsLogOf(events, signal, Dispatched(WithGate(result, draw), draw), records)
    ensures IsLeftBehind(settings, w, EndOf(w, signal, flow, draw, result, records, events), signal, flow, draw,
                         Dispatched(WithGate(result, draw), draw), result, records)
  {
    EndHolds(w, signal, flow, draw, result, records, events);
    EndRequests(w, signal, flow, draw, result, records, events);
    EndTraces(w, signal, flow, draw, result, records, events);
    assert EndOf(w, signal, flow, draw, result, records, events).log == w.log + events;
    assert w.log + [] == w.log;
  }

  /** What an undisturbed evaluation request leaves, in strict mode and in parallel mode alike: its answer is
      the decision as evaluated; a pending one is held at a new gate; the ledger has grown by its signal, its
      node records, its gate and its outcome; a confirmed one is announced and handed over, once; the
      answer is cached under the key; the trace is kept last, found by its id and by its decision. */
  lemma EvaluationLeaves(settings: Settings, w: World, signal: Signal, flow: Flow, draw: Draw)
    requires IsReadyFor(settings, w, draw) && IsUndisturbed(settings, w, signal, flow, draw)
    ensures var (result, records) := Evaluated(JudgeFor(settings, signal), signal, flow, draw.stamp).value;
            var h := EvaluateRoute(settings, w, signal, Some(flow), draw, None);
            && AllEngineRecords(records) && h.response.Returned?
            && IsLeftBehind(settings, w, Applied(w, h.effects), signal, flow, draw, h.response.result, result, records)
  {
    var (result, records) := Evaluated(JudgeFor(settings, signal), signal, flow, draw.stamp).value;
    EvaluatedRecords(JudgeFor(settings, signal), signal, flow, draw.stamp);
    var events: Log;
    if CommitsFirst(settings) {
      events := StrictRouteEnds(settings, w, signal, flow, draw, result, records);
    } else {
      events := ParallelRouteEnds(settings, w, signal, flow, draw, result, records);
    }
    EndIsLeftBehind(settings, w, signal, flow, draw, result, records, events);
  }

  // ---------------------------------------------------------------- gate requests

  /** The ledger event of a resolution. */
  ghost predicate IsEventOfResolution(e: LedgerEvent, g: GateRequest, d: DecisionResult, r: Resolution, recordedAt: int) {
    && e.traceId == d.traceId && e.decisionId == d.id && e.flowId == g.flowId && e.flowVersion == d.flowVersion
    && e.stepType == "human" && e.stepId == g.id && e.occurredAt == recordedAt
    && {"gate_id", "decision_id", "action", "actor_id", "comment"} <= e.payload.Keys
    && e.payload["gate_id"] == Str(g.id) && e.payload["decision_id"] == Str(d.id)
    && e.payload["action"] == Str(if r.action.Approve? then "approve" else "reject")
    && e.payload["actor_id"] == Str(r.actorId)
    && e.payload["comment"] == (if r.comment.Some? then Str(r.comment.value) else Null)
  }

  lemma ResolvedGateIsAnswered(naming: Naming, g: Gates, e: LedgerEvent, traceId: Uuid, gateId: Uuid, action: string)
    requires IsInjective(naming) && IsExplained(naming, g, e)
    ensures e.eventId == naming(traceId, GateActionKey(gateId, action)) ==>
              gateId in g.store && g.store[gateId].responseValue == Some(action)
  {
    var key :| e.eventId == naming(e.traceId, key) && KeyFits(g, e.traceId, key);
    assert e.eventId == naming(traceId, GateActionKey(gateId, action)) ==> key == GateActionKey(gateId, action);
  }

  /** No resolution of the gate is in the log yet. */
  lemma PendingIsUnrecorded(adapter: Adapter, w: World, id: string, r: Resolution, recordedAt: int)
    requires GatesInv(w.gates) && LogFits(adapter.naming, w.gates, w.log) && IsInjective(adapter.naming)
    requires id in w.gates.store && w.gates.store[id].status.GatePending?
    ensures !Has(w.log, RecordedResolution(adapter, Settled(w.gates, id, r), id, r, recordedAt).eventId)
  {
    var event := RecordedResolution(adapter, Settled(w.gates, id, r), id, r, recordedAt);
    assert InStep(w.gates.store[id], w.gates.results[id]);
    forall e | e in w.log ensures e.eventId != event.eventId {
      ResolvedGateIsAnswered(adapter.naming, w.gates, e, event.traceId, w.gates.store[id].id, ActionText(r.action));
    }
  }

  lemma ResolutionTells(adapter: Adapter, g: Gates, id: string, r: Resolution, recordedAt: int)
    requires GatesInv(g) && id in g.store && g.store[id].status.GatePending?
    ensures IsEventOfResolution(RecordedResolution(adapter, Settled(g, id, r), id, r, recordedAt), g.store[id], g.results[id],
                                r, recordedAt)
  {
    assert InStep(g.store[id], g.results[id]);
  }

  /** The gate is answered, the decision under it resolved, and no other gate touched. */
  ghost predicate IsSettledIn(g: Gates, h: Gates, id: string, r: Resolution)
    requires id in g.store && id in g.results
  {
    && id in h.store && id in h.results
    && h.store == g.store[id := h.store[id]] && h.results == g.results[id := h.results[id]]
    && IsAnsweredAs(g.store[id], r, h.store[id])
    && IsResolvedAs(g.results[id], r.action, h.results[id]) && h.results[id].updatedAt == r.at
  }

  /** The ledger has grown by the event of the resolution, unless there is none or the client raises. */
  ghost predicate IsResolutionLoggedIn(settings: Settings, w: World, v: World, id: string, r: Resolution, recordedAt: int,
                                       down: bool)
    requires id in w.gates.store && id in w.gates.results
  {
    if settings.ledger.None? || down then v.log == w.log
    else exists e :: v.log == w.log + [e] && IsEventOfResolution(e, w.gates.store[id], w.gates.results[id], r, recordedAt)
  }

  lemma SettledTells(g: Gates, id: string, r: Resolution)
    requires id in g.store && id in g.results
    ensures IsSettledIn(g, Settled(g, id, r), id, r)
  {
  }

  lemma ResolutionEnds(settings: Settings, w: World, id: string, r: Resolution, recordedAt: int, down: bool)
    returns (logged: Log)
    requires GatesInv(w.gates) && id in w.gates.store && w.gates.store[id].status.GatePending?
    requires settings.ledger.Some? ==>
               IsInjective(settings.ledger.value.naming) && LogFits(settings.ledger.value.naming, w.gates, w.log)
    ensures Applied(w, Resolving(settings, w.gates, id, r, recordedAt, down))
         == w.(gates := Settled(w.gates, id, r), log := w.log + logged)
    ensures if settings.ledger.None? || down then logged == []
            else |logged| == 1 && IsEventOfResolution(logged[0], w.gates.store[id], w.gates.results[id], r, recordedAt)
  {
    ResolvingWrites(settings, w, id, r, recordedAt, down);
    logged := [];
    assert w.log + [] == w.log;
    if settings.ledger.Some? && !down {
      PendingIsUnrecorded(settings.ledger.value, w, id, r, recordedAt);
      ResolutionTells(settings.ledger.value, w.gates, id, r, recordedAt);
      logged := [RecordedResolution(settings.ledger.value, Settled(w.gates, id, r), id, r, recordedAt)];
    }
  }

  lemma LoggedTells(settings: Settings, w: World, v: World, id: string, r: Resolution, recordedAt: int, down: bool, logged: Log)
    requires id in w.gates.store && id in w.gates.results && v.log == w.log + logged
    requires if settings.ledger.None? || down then logged == []
             else |logged| == 1 && IsEventOfResolution(logged[0], w.gates.store[id], w.gates.results[id], r, recordedAt)
    ensures IsResolutionLoggedIn(settings, w, v, id, r, recordedAt, down)
  {
    if logged == [] {
      assert w.log + logged == w.log;
    } else {
      assert logged == [logged[0]];
    }
  }

  /** What a resolution leaves: its gate settled, and the ledger grown by its event; nothing else. */
  lemma ResolutionLeaves(settings: Settings, w: World, id: string, r: Resolution, recordedAt: int, down: bool)
    requires GatesInv(w.gates) && id in w.gates.store && w.gates.store[id].status.GatePending?
    requires settings.ledger.Some? ==>
               IsInjective(settings.ledger.value.naming) && LogFits(settings.ledger.value.naming, w.gates, w.log)
    ensures var v := Applied(w, Resolving(settings, w.gates, id, r, recordedAt, down));
            && v == w.(gates := v.gates, log := v.log) && IsSettledIn(w.gates, v.gates, id, r)
            && IsResolutionLoggedIn(settings, w, v, id, r, recordedAt, down)
            && v.gates == Settled(w.gates, id, r)
  {
    var v := Applied(w, Resolving(settings, w.gates, id, r, recordedAt, down));
    SettledTells(w.gates, id, r);
    var logged := ResolutionEnds(settings, w, id, r, recordedAt, down);
    LoggedTells(settings, w, v, id, r, recordedAt, down, logged);
  }

  ghost predicate LacksRole(g: GateRequest, roles: Option<seq<string>>) {
    g.requiredRole.Some? && (roles.None? || g.requiredRole.value !in roles.value)
  }

  /** A refused gate action changes nothing: 404 for an unknown gate, 409 for one that is not pending, 403
      without the role it requires. */
  lemma RefusalResponses(settings: Settings, w: World, id: string, roles: Option<seq<string>>, r: Resolution, recordedAt: int,
                         down: bool)
    ensures var h := GateRoute(settings, w, id, roles, r, recordedAt, down);
            && (id !in w.gates.store ==> h == Handling([], HttpError(404)))
            && (id in w.gates.store && w.gates.store[id].status != GatePending ==> h == Handling([], HttpError(409)))
            && (id in w.gates.store && w.gates.store[id].status == GatePending && LacksRole(w.gates.store[id], roles) ==>
                  h == Handling([], HttpError(403)))
  {
  }

  lemma AcceptedRoute(settings: Settings, w: World, id: string, roles: Option<seq<string>>, r: Resolution, recordedAt: int,
                      down: bool)
    requires id in w.gates.store && id in w.gates.results
    requires w.gates.store[id].status == GatePending && !LacksRole(w.gates.store[id], roles)
    ensures GateRoute(settings, w, id, roles, r, recordedAt, down)
         == Handling(Resolving(settings, w.gates, id, r, recordedAt, down),
                     if settings.strict && settings.ledger.Some? && down then HttpError(500)
                     else Returned(Settled(w.gates, id, r).results[id]))
  {
  }

  /** An accepted one settles the gate and records it; the response is the resolved decision, or 500 if the
      client raises in strict mode. */
  lemma ResolutionResponse(settings: Settings, w: World, id: string, roles: Option<seq<string>>, r: Resolution, recordedAt: int,
                           down: bool)
    requires GatesInv(w.gates) && id in w.gates.store
    requires w.gates.store[id].status == GatePending && !LacksRole(w.gates.store[id], roles)
    requires settings.ledger.Some? ==>
               IsInjective(settings.ledger.value.naming) && LogFits(settings.ledger.value.naming, w.gates, w.log)
    ensures var h := GateRoute(settings, w, id, roles, r, recordedAt, down);
            var v := Applied(w, h.effects);
            && v == w.(gates := v.gates, log := v.log) && IsSettledIn(w.gates, v.gates, id, r)
            && IsResolutionLoggedIn(settings, w, v, id, r, recordedAt, down)
            && h.response == if settings.strict && settings.ledger.Some? && down then HttpError(500)
                             else Returned(v.gates.results[id])
  {
    AcceptedRoute(settings, w, id, roles, r, recordedAt, down);
    ResolutionLeaves(settings, w, id, r, recordedAt, down);
  }

  // ---------------------------------------------------------------- responses to evaluations

  /** The response to an evaluation request whose answer is not cached: 404 without a flow; 500 if nothing
      passes and no fallback is active, or the client raises during a strict commit; 400 if evaluation
      meets an invalid condition; else a decision. */
  lemma EvaluationResponses(settings: Settings, w: World, signal: Signal, flow: Option<Flow>, draw: Draw, outage: Outage)
    requires !(HasKey(signal) && signal.idempotencyKey.value in w.cache)
    ensures var response := EvaluateRoute(settings, w, signal, flow, draw, outage).response;
            && (response == HttpError(404) <==> flow.None?)
            && (response == HttpError(400) <==>
                  flow.Some?
                  && Evaluated(JudgeFor(settings, signal), signal, flow.value, draw.stamp) == Failure(InvalidCondition))
            && (response.HttpError? ==> response.code in {400, 404, 500})
            && (outage.None? ==>
                  (response == HttpError(500) <==>
                     flow.Some?
                     && Evaluated(JudgeFor(settings, signal), signal, flow.value, draw.stamp) == Failure(NoActiveFallback)))
  {
    if flow.Some? { PlanAnswers(settings, w, signal, flow.value, draw, outage); }
  }

  lemma PlanAnswers(settings: Settings, w: World, signal: Signal, flow: Flow, draw: Draw, outage: Outage)
    ensures var answer := Planned(settings, w, signal, flow, draw, outage).answer;
            match Evaluated(JudgeFor(settings, signal), signal, flow, draw.stamp)
            case Failure(error) => answer == Failure(EvaluationRaised(error))
            case Success(_) => answer.Success? || (answer == Failure(LedgerRaised) && outage.Some?)
  {
    var pure := Evaluated(JudgeFor(settings, signal), signal, flow, draw.stamp);
    if pure.Success? && CommitsFirst(settings) {
      StrictAnswers(settings, settings.ledger.value, w, signal, flow, draw, outage, pure.value.0, pure.value.1);
    }
  }

  lemma StrictAnswers(settings: Settings, adapter: Adapter, w: World, signal: Signal, flow: Flow, draw: Draw, outage: Outage,
                      result: DecisionResult, records: seq<Record>)
    ensures var answer := PlanStrict(settings, adapter, w, signal, flow, draw, outage, result, records).answer;
            answer.Success? || (answer == Failure(LedgerRaised) && outage.Some?)
  {
  }
}
