/** The evaluation pipeline: pure evaluation, gate, ledger commit, dispatch, and what is kept. */
module Engine {
  import opened Basics
  import opened Values
  import opened Flows
  import opened Decisions
  import opened Boundaries
  import opened Evaluation
  import opened LedgerClient
  import opened LedgerAdapter
  import opened HumanGates
  import opened EventBus
  import opened TraceStore
  import opened Worlds
  import CE = ConditionEvaluator

  /** `strict` says whether ledger_mode is "strict"; without a ledger adapter it has no effect.
      `refusal` words the error message of a commit that is not accepted. */
  datatype Settings = Settings(
    host: CE.Host,
    wording: Reason -> string,
    refusal: CommitStatus -> string,
    ledger: Option<Adapter>,
    strict: bool)

  predicate CommitsFirst(settings: Settings) {
    settings.strict && settings.ledger.Some?
  }

  /** The fresh ids of one request and the times at which it reads the clock. */
  datatype Draw = Draw(
    stamp: Stamp,
    gateId: Uuid,
    executionId: Uuid,
    eventId: Uuid,
    gateAt: int,
    commitAt: int,
    failAt: int,
    saveAt: int)

  function JudgeFor(settings: Settings, signal: Signal): Judge {
    Judge(c => CE.Matches(settings.host, c, ContextOf(signal)), settings.wording)
  }

  predicate HasKey(signal: Signal) {
    signal.idempotencyKey.Some? && signal.idempotencyKey.value != ""
  }

  // ---------------------------------------------------------------- the plan of an evaluation

  function WithGate(result: DecisionResult, draw: Draw): DecisionResult {
    if result.status.PendingHuman?
    then result.(humanGate := Some(NewRequest(draw.gateId, result, None, draw.gateAt)))
    else result
  }

  function Opening(result: DecisionResult, draw: Draw): seq<Effect> {
    if result.status.PendingHuman? then [OpenGate(NewRequest(draw.gateId, result, None, draw.gateAt), result)] else []
  }

  function Dispatched(result: DecisionResult, draw: Draw): DecisionResult {
    if result.status.Confirmed? then result.(executionId := Some(draw.executionId)) else result
  }

  function ExecutionEvent(result: DecisionResult, draw: Draw): RuntimeEvent {
    RuntimeEvent(draw.eventId, result.flowId, result.traceId, result.id, draw.executionId, result.action)
  }

  function Dispatching(result: DecisionResult, draw: Draw): seq<Effect> {
    if result.status.Confirmed?
    then [Announce(ExecutionEvent(result, draw)), HandOver(ExecutionEvent(result, draw))]
    else []
  }

  function Remembering(signal: Signal, result: DecisionResult): seq<Effect> {
    if HasKey(signal) then [Remember(signal.idempotencyKey.value, result)] else []
  }

  /** The trace a strict commit records: before dispatch. */
  function CommitTrace(signal: Signal, flow: Flow, result: DecisionResult, records: seq<Record>, draw: Draw): DecisionTrace {
    CreateTrace(signal, flow.id, flow.version, result, records, draw.commitAt)
  }

  /** The trace that is kept: after dispatch. */
  function FinalTrace(signal: Signal, flow: Flow, result: DecisionResult, records: seq<Record>, draw: Draw): DecisionTrace {
    CreateTrace(signal, flow.id, flow.version, Dispatched(result, draw), records, draw.saveAt)
  }

  /** What follows an accepted strict commit. */
  function Closing(signal: Signal, flow: Flow, result: DecisionResult, records: seq<Record>, draw: Draw): seq<Effect> {
    Dispatching(result, draw)
    + Remembering(signal, Dispatched(result, draw))
    + [SaveTrace(FinalTrace(signal, flow, result, records, draw))]
  }

  /** What follows evaluation when there is no commit gate; an outage of the ledger is swallowed. */
  function Settling(settings: Settings, signal: Signal, flow: Flow, result: DecisionResult, records: seq<Record>, draw: Draw,
                    outage: Outage): seq<Effect>
  {
    var trace := FinalTrace(signal, flow, result, records, draw);
    Dispatching(result, draw) + [SaveTrace(trace)] + Recording(settings, trace, Dispatched(result, draw), outage)
  }

  function Recording(settings: Settings, trace: DecisionTrace, result: DecisionResult, outage: Outage): seq<Effect> {
    if settings.ledger.None? then [] else Appends(Reached(EventsFor(settings.ledger.value, trace, result), outage))
  }

  function EventWithId(log: Log, id: string): Option<LedgerEvent> {
    if log == [] then None
    else if log[|log| - 1].eventId == id then Some(log[|log| - 1])
    else EventWithId(log[..|log| - 1], id)
  }

  /** The first result of the trace stored for the decision of a ledger event. */
  function ResultOfEvent(w: World, id: string): Option<DecisionResult> {
    var event := EventWithId(w.log, id);
    if event.Some? && event.value.decisionId in w.traces.byDecisionId
       && w.traces.byDecisionId[event.value.decisionId].decisionResults != []
    then Some(w.traces.byDecisionId[event.value.decisionId].decisionResults[0])
    else None
  }

  function FirstResult(w: World, ids: seq<string>): Option<DecisionResult> {
    if ids == [] then None
    else if ResultOfEvent(w, ids[0]).Some? then ResultOfEvent(w, ids[0])
    else FirstResult(w, ids[1..])
  }

  function Recovered(w: World, ids: seq<string>, signal: Signal): Option<DecisionResult> {
    if HasKey(signal) && signal.idempotencyKey.value in w.cache then Some(w.cache[signal.idempotencyKey.value])
    else FirstResult(w, ids)
  }

  function Refused(settings: Settings, result: DecisionResult, status: CommitStatus, draw: Draw): DecisionResult {
    result.(status := StatusError, state := StateFailed, errorMessage := Some(settings.refusal(status)),
            updatedAt := draw.failAt)
  }

  /** The answer to a strict commit that was not accepted, in the state it left. */
  function AnswerRefused(settings: Settings, w: World, signal: Signal, result: DecisionResult, report: CommitResult,
                         draw: Draw): DecisionResult {
    var prior := if report.status.CommitDuplicate? then Recovered(w, report.eventIds, signal) else None;
    if prior.Some? then prior.value else Refused(settings, result, report.status, draw)
  }

  datatype EngineError = EvaluationRaised(error: EvaluationError) | LedgerRaised

  /** The writes of one evaluation in their order, and its answer. */
  datatype Plan = Plan(effects: seq<Effect>, answer: Result<DecisionResult, EngineError>)

  /** Strict mode: an outage during the commit raises. */
  ghost function PlanStrict(settings: Settings, adapter: Adapter, w: World, signal: Signal, flow: Flow, draw: Draw,
                            outage: Outage, result: DecisionResult, records: seq<Record>): Plan {
    var final := WithGate(result, draw);
    var events := EventsFor(adapter, CommitTrace(signal, flow, final, records, draw), final);
    var report := CommitOutcome(w.log, events);
    var commit := Opening(result, draw) + Appends(Reached(events, outage));
    if Fails(events, outage) then Plan(commit, Failure(LedgerRaised))
    else if report.status.CommitAccepted?
    then Plan(commit + Closing(signal, flow, final, records, draw), Success(Dispatched(final, draw)))
    else Plan(commit, Success(AnswerRefused(settings, Applied(w, commit), signal, final, report, draw)))
  }

  ghost function PlanParallel(settings: Settings, signal: Signal, flow: Flow, draw: Draw, outage: Outage,
                              result: DecisionResult, records: seq<Record>): Plan {
    var final := WithGate(result, draw);
    Plan(Opening(result, draw) + Settling(settings, signal, flow, final, records, draw, outage),
         Success(Dispatched(final, draw)))
  }

  ghost function Planned(settings: Settings, w: World, signal: Signal, flow: Flow, draw: Draw, outage: Outage): Plan {
    match Evaluated(JudgeFor(settings, signal), signal, flow, draw.stamp)
    case Failure(error) => Plan([], Failure(EvaluationRaised(error)))
    case Success((result, records)) =>
      if CommitsFirst(settings)
      then PlanStrict(settings, settings.ledger.value, w, signal, flow, draw, outage, result, records)
      else PlanParallel(settings, signal, flow, draw, outage, result, records)
  }

  // ---------------------------------------------------------------- the engine

  lemma {:induction false} TheEventWithId(log: Log, event: LedgerEvent)
    requires DistinctIds(log) && event in log
    ensures EventWithId(log, event.eventId) == Some(event)
  {
    var n := |log| - 1;
    if log[n] != event {
      assert event in log[..n];
      TheEventWithId(log[..n], event);
    }
  }

  lemma {:induction false} NoEventWithId(log: Log, id: string)
    requires !Has(log, id)
    ensures EventWithId(log, id).None?
  {
    if log != [] {
      var n := |log| - 1;
      assert log[n].eventId != id;
      assert !Has(log[..n], id);
      NoEventWithId(log[..n], id);
    }
  }

  lemma RecordingWritesLog(settings: Settings, w: World, trace: DecisionTrace, result: DecisionResult, outage: Outage)
    ensures Applied(w, Recording(settings, trace, result, outage))
         == if settings.ledger.None? then w
            else w.(log := CommitLog(w.log, Reached(EventsFor(settings.ledger.value, trace, result), outage)))
  {
    if settings.ledger.Some? {
      AppendsWriteLog(w, Reached(EventsFor(settings.ledger.value, trace, result), outage));
    }
  }

  class DecisionRuntimeEngine {
    const settings: Settings
    const gates: HumanGateManager
    const ledger: LedgerClient
    const bus: EventBus
    const publisher: ExecutionPublisher
    const cache: IdempotencyStore
    const traces: TraceStore
    /** All writes so far, in their order. */
    ghost var written: seq<Effect>

    constructor (settings: Settings, gates: HumanGateManager, ledger: LedgerClient, bus: EventBus,
                 publisher: ExecutionPublisher, cache: IdempotencyStore, traces: TraceStore)
      requires gates.Valid() && ledger.Valid() && traces.Valid()
      ensures Valid() && this.settings == settings && written == []
      ensures this.gates == gates && this.ledger == ledger && this.bus == bus
      ensures this.publisher == publisher && this.cache == cache && this.traces == traces
    {
      this.settings, this.gates, this.ledger, this.bus := settings, gates, ledger, bus;
      this.publisher, this.cache, this.traces, written := publisher, cache, traces, [];
    }

    ghost function State(): World
      reads gates, ledger, bus, publisher, cache, traces
    {
      World(gates.Value(), ledger.events, bus.events, publisher.sent, cache.store, traces.Value())
    }

    ghost predicate Valid()
      reads gates, ledger, bus, publisher, cache, traces
    {
      gates.Valid() && ledger.Valid() && traces.Valid()
    }

    /** Every write of a store is noted where it is made. */
    ghost method NoteWrites(effects: seq<Effect>)
      modifies this`written
      ensures written == old(written) + effects
    {
      written := written + effects;
    }

    method OpenGate(result: DecisionResult, draw: Draw) returns (final: DecisionResult)
      requires Valid()
      modifies this`written, gates
      ensures Valid()
      ensures final == WithGate(result, draw)
      ensures State() == Applied(old(State()), Opening(result, draw))
      ensures written == old(written) + Opening(result, draw)
    {
      final := result;
      if result.status.PendingHuman? {
        AppliedOne(State(), Opening(result, draw)[0]);
        var request := gates.CreateRequest(draw.gateId, result, None, draw.gateAt);
        NoteWrites([Worlds.OpenGate(request, result)]);
        final := result.(humanGate := Some(request));
      }
    }

    method AnnounceExecution(event: RuntimeEvent)
      requires Valid()
      modifies this`written, bus
      ensures Valid()
      ensures State() == After(old(State()), Announce(event)) && written == old(written) + [Announce(event)]
    {
      bus.Publish(event);
      NoteWrites([Announce(event)]);
    }

    method HandOverExecution(event: RuntimeEvent)
      requires Valid()
      modifies this`written, publisher
      ensures Valid()
      ensures State() == After(old(State()), HandOver(event)) && written == old(written) + [HandOver(event)]
    {
      publisher.Publish(event);
      NoteWrites([HandOver(event)]);
    }

    method Dispatch(result: DecisionResult, draw: Draw) returns (final: DecisionResult)
      requires Valid()
      modifies this`written, bus, publisher
      ensures Valid()
      ensures final == Dispatched(result, draw)
      ensures State() == Applied(old(State()), Dispatching(result, draw))
      ensures written == old(written) + Dispatching(result, draw)
    {
      final := result;
      if result.status.Confirmed? {
        var event := ExecutionEvent(result, draw);
        AppliedTwo(State(), Announce(event), HandOver(event));
        final := result.(executionId := Some(draw.executionId));
        AnnounceExecution(event);
        HandOverExecution(event);
      }
    }

    method RecoverPriorResult(ids: seq<string>, signal: Signal) returns (prior: Option<DecisionResult>)
      requires Valid()
      ensures prior == Recovered(State(), ids, signal)
    {
      if HasKey(signal) {
        prior := cache.Get(signal.idempotencyKey.value);
        if prior.Some? { return; }
      }
      for i := 0 to |ids|
        invariant FirstResult(State(), ids) == FirstResult(State(), ids[i..])
      {
        assert ids[i..][1..] == ids[i + 1..];
        var event := ledger.GetByEventId(ids[i]);
        if event.Some? {
          TheEventWithId(ledger.events, event.value);
          var trace := traces.GetByDecisionId(event.value.decisionId);
          if trace.Some? && trace.value.decisionResults != [] {
            return Some(trace.value.decisionResults[0]);
          }
        } else {
          NoEventWithId(ledger.events, ids[i]);
        }
      }
      return None;
    }

    method CommitTo(adapter: Adapter, trace: DecisionTrace, result: DecisionResult, outage: Outage)
      returns (report: Option<CommitResult>)
      requires Valid()
      modifies this`written, ledger
      ensures Valid()
      ensures State() == old(State()).(log := CommitLog(old(ledger.events), Reached(EventsFor(adapter, trace, result), outage)))
      ensures written == old(written) + Appends(Reached(EventsFor(adapter, trace, result), outage))
      ensures report == if Fails(EventsFor(adapter, trace, result), outage) then None
                        else Some(CommitOutcome(old(ledger.events), EventsFor(adapter, trace, result)))
    {
      ghost var before, effects := State(), Appends(Reached(EventsFor(adapter, trace, result), outage));
      report := Commit(ledger, adapter, trace, result, outage);
      assert State() == before.(log := ledger.events);
      NoteWrites(effects);
    }

    /** The commit gate of strict mode: the client raises, or the commit is accepted (None), or it is
        refused with an answer. */
    method CommitStrictly(adapter: Adapter, signal: Signal, flow: Flow, final: DecisionResult, records: seq<Record>,
                          draw: Draw, outage: Outage)
      returns (r: Result<Option<DecisionResult>, EngineError>)
      requires Valid()
      modifies this`written, ledger
      ensures Valid()
      ensures written == old(written)
                         + Appends(Reached(EventsFor(adapter, CommitTrace(signal, flow, final, records, draw), final), outage))
      ensures var events := EventsFor(adapter, CommitTrace(signal, flow, final, records, draw), final);
              var report := CommitOutcome(old(ledger.events), events);
              State() == Applied(old(State()), Appends(Reached(events, outage)))
              && r == if Fails(events, outage) then Failure(LedgerRaised)
                      else if report.status.CommitAccepted? then Success(None)
                      else Success(Some(AnswerRefused(settings, State(), signal, final, report, draw)))
    {
      var trace := CommitTrace(signal, flow, final, records, draw);
      AppendsWriteLog(State(), Reached(EventsFor(adapter, trace, final), outage));
      var outcome := CommitTo(adapter, trace, final, outage);
      if outcome.None? { return Failure(LedgerRaised); }
      var report := outcome.value;
      if report.status.CommitAccepted? { return Success(None); }
      if report.status.CommitDuplicate? {
        var prior := RecoverPriorResult(report.eventIds, signal);
        if prior.Some? { return Success(prior); }
      }
      return Success(Some(Refused(settings, final, report.status, draw)));
    }

    /** After an accepted commit: dispatch, cache, save. */
    method Close(signal: Signal, flow: Flow, result: DecisionResult, records: seq<Record>, draw: Draw)
      returns (final: DecisionResult)
      requires Valid()
      modifies this`written, bus, publisher, cache, traces
      ensures Valid()
      ensures final == Dispatched(result, draw)
      ensures State() == Applied(old(State()), Closing(signal, flow, result, records, draw))
      ensures written == old(written) + Closing(signal, flow, result, records, draw)
    {
      ghost var start, earlier := State(), written;
      ghost var a, b := Dispatching(result, draw), Remembering(signal, Dispatched(result, draw));
      ghost var c := [SaveTrace(FinalTrace(signal, flow, result, records, draw))];
      AppliedConcat(start, a, b);
      AppliedConcat(start, a + b, c);
      Associates(earlier, a, b);
      Associates(earlier, a + b, c);
      final := Dispatch(result, draw);
      RememberAnswer(signal, final);
      Save(FinalTrace(signal, flow, result, records, draw));
    }

    method RememberAnswer(signal: Signal, result: DecisionResult)
      requires Valid()
      modifies this`written, cache
      ensures Valid()
      ensures State() == Applied(old(State()), Remembering(signal, result))
      ensures written == old(written) + Remembering(signal, result)
    {
      if HasKey(signal) {
        AppliedOne(State(), Remember(signal.idempotencyKey.value, result));
        cache.Set(signal.idempotencyKey.value, result);
        NoteWrites([Remember(signal.idempotencyKey.value, result)]);
      }
    }

    method Save(trace: DecisionTrace)
      requires Valid()
      modifies this`written, traces
      ensures Valid()
      ensures State() == Applied(old(State()), [SaveTrace(trace)]) && written == old(written) + [SaveTrace(trace)]
    {
      AppliedOne(State(), SaveTrace(trace));
      traces.Save(trace);
      NoteWrites([SaveTrace(trace)]);
    }

    /** Without a commit gate: dispatch, save, and commit if there is a ledger. */
    method DispatchAndSave(signal: Signal, flow: Flow, result: DecisionResult, records: seq<Record>, draw: Draw, outage: Outage)
      returns (final: DecisionResult)
      requires Valid()
      modifies this`written, bus, publisher, ledger, traces
      ensures Valid()
      ensures final == Dispatched(result, draw)
      ensures State() == Applied(old(State()), Settling(settings, signal, flow, result, records, draw, outage))
      ensures written == old(written) + Settling(settings, signal, flow, result, records, draw, outage)
    {
      var trace := FinalTrace(signal, flow, result, records, draw);
      ghost var start, earlier := State(), written;
      ghost var a, b := Dispatching(result, draw), [SaveTrace(trace)];
      ghost var c := Recording(settings, trace, Dispatched(result, draw), outage);
      AppliedConcat(start, a, b);
      AppliedConcat(start, a + b, c);
      Associates(earlier, a, b);
      Associates(earlier, a + b, c);
      final := Dispatch(result, draw);
      Save(trace);
      CommitAfterwards(trace, final, outage);
    }

    /** The commit of parallel mode: what it reports is ignored, and what it raises is swallowed. */
    method CommitAfterwards(trace: DecisionTrace, result: DecisionResult, outage: Outage)
      requires Valid()
      modifies this`written, ledger
      ensures Valid()
      ensures State() == Applied(old(State()), Recording(settings, trace, result, outage))
      ensures written == old(written) + Recording(settings, trace, result, outage)
    {
      RecordingWritesLog(settings, State(), trace, result, outage);
      if settings.ledger.Some? {
        var _ := CommitTo(settings.ledger.value, trace, result, outage);
      }
    }

    /** The rest of an evaluation in strict mode. */
    method EvaluateStrictly(adapter: Adapter, signal: Signal, flow: Flow, draw: Draw, outage: Outage,
                            result: DecisionResult, records: seq<Record>)
      returns (r: Result<DecisionResult, EngineError>)
      requires Valid()
      modifies this`written, gates, ledger, bus, publisher, cache, traces
      ensures Valid()
      ensures var plan := PlanStrict(settings, adapter, old(State()), signal, flow, draw, outage, result, records);
              r == plan.answer && State() == Applied(old(State()), plan.effects) && written == old(written) + plan.effects
    {
      ghost var start, earlier := State(), written;
      var final := OpenGate(result, draw);
      ghost var reached := Reached(EventsFor(adapter, CommitTrace(signal, flow, final, records, draw), final), outage);
      AppliedConcat(start, Opening(result, draw), Appends(reached));
      Associates(earlier, Opening(result, draw), Appends(reached));
      var gate := CommitStrictly(adapter, signal, flow, final, records, draw, outage);
      if gate.Failure? { return Failure(gate.error); }
      if gate.value.Some? { return Success(gate.value.value); }
      AppliedConcat(start, Opening(result, draw) + Appends(reached), Closing(signal, flow, final, records, draw));
      Associates(earlier, Opening(result, draw) + Appends(reached), Closing(signal, flow, final, records, draw));
      final := Close(signal, flow, final, records, draw);
      return Success(final);
    }

    /** Evaluation with all its side effects; `outage` says where the ledger client raises, if it does. */
    method Evaluate(signal: Signal, flow: Flow, draw: Draw, outage: Outage) returns (r: Result<DecisionResult, EngineError>)
      requires Valid()
      modifies this`written, gates, ledger, bus, publisher, cache, traces
      ensures Valid()
      ensures r == Planned(settings, old(State()), signal, flow, draw, outage).answer
      ensures State() == Applied(old(State()), Planned(settings, old(State()), signal, flow, draw, outage).effects)
      ensures written == old(written) + Planned(settings, old(State()), signal, flow, draw, outage).effects
    {
      var pure := PureEvaluate(JudgeFor(settings, signal), signal, flow, draw.stamp);
      if pure.Failure? { return Failure(EvaluationRaised(pure.error)); }
      var (result, records) := pure.value;
      if CommitsFirst(settings) {
        r := EvaluateStrictly(settings.ledger.value, signal, flow, draw, outage, result, records);
      } else {
        ghost var start, earlier := State(), written;
        var final := OpenGate(result, draw);
        AppliedConcat(start, Opening(result, draw), Settling(settings, signal, flow, final, records, draw, outage));
        Associates(earlier, Opening(result, draw), Settling(settings, signal, flow, final, records, draw, outage));
        final := DispatchAndSave(signal, flow, final, records, draw, outage);
        return Success(final);
      }
    }

    /** The same evaluation without any side effect. */
    method Simulate(signal: Signal, flow: Flow, stamp: Stamp, now: int)
      returns (r: Result<(DecisionResult, DecisionTrace), EvaluationError>)
      ensures var pure := Evaluated(JudgeFor(settings, signal), signal, flow, stamp);
              r == if pure.Failure? then Failure(pure.error)
                   else Success((pure.value.0, CreateTrace(signal, flow.id, flow.version, pure.value.0, pure.value.1, now)))
    {
      var pure := PureEvaluate(JudgeFor(settings, signal), signal, flow, stamp);
      if pure.Failure? { return Failure(pure.error); }
      var (final, records) := pure.value;
      return Success((final, CreateTrace(signal, flow.id, flow.version, final, records, now)));
    }
  }
}
