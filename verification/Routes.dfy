/** The requests that change the state: evaluation with its idempotency wrapper, and the resolution of
    human gates. */
module Routes {
  import opened Basics
  import opened Flows
  import opened Decisions
  import opened Evaluation
  import opened LedgerClient
  import opened LedgerAdapter
  import opened HumanGates
  import opened Worlds
  import opened Engine

  datatype Response = Returned(result: DecisionResult) | HttpError(code: nat)

  /** The writes of one request in their order, and its response. */
  datatype Handling = Handling(effects: seq<Effect>, response: Response)

  /** `flow` is what the registry finds for the request. */
  ghost function EvaluateRoute(settings: Settings, w: World, signal: Signal, flow: Option<Flow>, draw: Draw, outage: Outage)
    : Handling
  {
    if HasKey(signal) && signal.idempotencyKey.value in w.cache then
      Handling([], Returned(w.cache[signal.idempotencyKey.value]))
    else if flow.None? then Handling([], HttpError(404))
    else
      var plan := Planned(settings, w, signal, flow.value, draw, outage);
      match plan.answer
      case Failure(error) => Handling(plan.effects, HttpError(ErrorCode(error)))
      case Success(result) => Handling(plan.effects + Remembering(signal, result), Returned(result))
  }

  function ErrorCode(error: EngineError): nat {
    if error == EvaluationRaised(InvalidCondition) then 400 else 500
  }

  function RefusalCode(error: GateError): nat {
    match error
    case GateNotFound => 404
    case GateNotPending => 409
    case RoleMissing => 403
  }

  /** The ledger event of a resolution, built from the gate and the decision as the manager left them. */
  function RecordedResolution(adapter: Adapter, g: Gates, requestId: string, r: Resolution, recordedAt: int): LedgerEvent
    requires requestId in g.store && requestId in g.results
  {
    ResolutionEvent(adapter, g.store[requestId], g.results[requestId], r.(at := recordedAt))
  }

  function Resolving(settings: Settings, g: Gates, requestId: string, r: Resolution, recordedAt: int, down: bool): seq<Effect> {
    [SettleGate(requestId, r)]
    + (if settings.ledger.None? || down || requestId !in g.store || requestId !in g.results then []
       else [AppendEvent(RecordedResolution(settings.ledger.value, Settled(g, requestId, r), requestId, r, recordedAt))])
  }

  /** Approval or rejection; `down` says that the ledger client raises. */
  function GateRoute(settings: Settings, w: World, requestId: string, roles: Option<seq<string>>, r: Resolution,
                     recordedAt: int, down: bool): Handling
  {
    var refusal := Refusal(w.gates, requestId, roles);
    if refusal.Some? then Handling([], HttpError(RefusalCode(refusal.value)))
    else
      var effects := Resolving(settings, w.gates, requestId, r, recordedAt, down);
      var g := After(w, SettleGate(requestId, r)).gates;
      Handling(effects,
               if (CommitsFirst(settings) && down) || requestId !in g.results then HttpError(500)
               else Returned(g.results[requestId]))
  }

  lemma ResolvingNotes(settings: Settings, w: World, requestId: string, r: Resolution, recordedAt: int, down: bool,
                       earlier: seq<Effect>)
    requires requestId in w.gates.store && requestId in w.gates.results
    ensures var settled := After(w, SettleGate(requestId, r));
            earlier + Resolving(settings, w.gates, requestId, r, recordedAt, down)
            == earlier + [SettleGate(requestId, r)]
               + (if settings.ledger.None? || down then []
                  else [AppendEvent(RecordedResolution(settings.ledger.value, settled.gates, requestId, r, recordedAt))])
  {
  }

  lemma ResolvingWrites(settings: Settings, w: World, requestId: string, r: Resolution, recordedAt: int, down: bool)
    requires requestId in w.gates.store && requestId in w.gates.results
    ensures var settled := After(w, SettleGate(requestId, r));
            Applied(w, Resolving(settings, w.gates, requestId, r, recordedAt, down))
            == (if settings.ledger.None? || down then settled
                else After(settled, AppendEvent(
                                      RecordedResolution(settings.ledger.value, settled.gates, requestId, r, recordedAt))))
  {
    var first := SettleGate(requestId, r);
    AppliedOne(w, first);
    if settings.ledger.Some? && !down {
      AppliedTwo(w, first, AppendEvent(
        RecordedResolution(settings.ledger.value, Settled(w.gates, requestId, r), requestId, r, recordedAt)));
    } else {
      assert [first] + [] == [first];
    }
  }

  // ---------------------------------------------------------------- the application

  class Application {
    const engine: DecisionRuntimeEngine

    constructor (engine: DecisionRuntimeEngine)
      ensures this.engine == engine
    {
      this.engine := engine;
    }

    method Evaluate(signal: Signal, flow: Option<Flow>, draw: Draw, outage: Outage) returns (response: Response)
      requires engine.Valid()
      modifies engine`written, engine.gates, engine.ledger, engine.bus, engine.publisher, engine.cache, engine.traces
      ensures engine.Valid()
      ensures var h := EvaluateRoute(engine.settings, old(engine.State()), signal, flow, draw, outage);
              response == h.response && engine.State() == Applied(old(engine.State()), h.effects)
              && engine.written == old(engine.written) + h.effects
    {
      if HasKey(signal) {
        var cached := engine.cache.Get(signal.idempotencyKey.value);
        if cached.Some? { return Returned(cached.value); }
      }
      if flow.None? { return HttpError(404); }
      response := EvaluateNow(signal, flow.value, draw, outage);
    }

    /** An evaluation whose answer is not cached yet. */
    method EvaluateNow(signal: Signal, flow: Flow, draw: Draw, outage: Outage) returns (response: Response)
      requires engine.Valid() && !(HasKey(signal) && signal.idempotencyKey.value in engine.cache.store)
      modifies engine`written, engine.gates, engine.ledger, engine.bus, engine.publisher, engine.cache, engine.traces
      ensures engine.Valid()
      ensures var h := EvaluateRoute(engine.settings, old(engine.State()), signal, Some(flow), draw, outage);
              response == h.response && engine.State() == Applied(old(engine.State()), h.effects)
              && engine.written == old(engine.written) + h.effects
    {
      ghost var start, earlier := engine.State(), engine.written;
      ghost var plan := Planned(engine.settings, start, signal, flow, draw, outage);
      var r := engine.Evaluate(signal, flow, draw, outage);
      match r {
        case Failure(error) =>
          return HttpError(ErrorCode(error));
        case Success(result) =>
          AppliedConcat(start, plan.effects, Remembering(signal, result));
          Associates(earlier, plan.effects, Remembering(signal, result));
          engine.RememberAnswer(signal, result);
          return Returned(result);
      }
    }

    method Settle(requestId: string, roles: Option<seq<string>>, r: Resolution) returns (outcome: Result<DecisionResult, GateError>)
      requires engine.Valid()
      modifies engine`written, engine.gates
      ensures engine.Valid()
      ensures var refusal := old(Refusal(engine.gates.Value(), requestId, roles));
              if refusal.Some?
              then outcome == Failure(refusal.value) && engine.State() == old(engine.State())
                   && engine.written == old(engine.written)
              else engine.State() == After(old(engine.State()), SettleGate(requestId, r))
                   && engine.written == old(engine.written) + [SettleGate(requestId, r)]
                   && requestId in engine.gates.store && requestId in engine.gates.results
                   && outcome == Success(engine.gates.results[requestId])
    {
      outcome := engine.gates.Resolve(requestId, roles, r);
      if outcome.Success? { engine.NoteWrites([SettleGate(requestId, r)]); }
    }

    /** In strict mode a client that raises makes the request fail; otherwise it is swallowed. */
    method RecordResolution(adapter: Adapter, requestId: string, result: DecisionResult, r: Resolution, recordedAt: int,
                            down: bool)
      returns (ok: bool)
      requires engine.Valid() && requestId in engine.gates.store && engine.gates.results[requestId] == result
      modifies engine`written, engine.ledger
      ensures engine.Valid() && ok == !(engine.settings.strict && down)
      ensures engine.State() == if down then old(engine.State())
                                else After(old(engine.State()), AppendEvent(
                                       RecordedResolution(adapter, old(engine.gates.Value()), requestId, r, recordedAt)))
      ensures engine.written == old(engine.written)
                                + (if down then []
                                   else [AppendEvent(
                                           RecordedResolution(adapter, old(engine.gates.Value()), requestId, r, recordedAt))])
    {
      var gate := engine.gates.GetRequest(requestId);
      var status := AppendHumanGateEvent(engine.ledger, adapter, gate.value, result, r.(at := recordedAt), down);
      if !down {
        engine.NoteWrites([AppendEvent(RecordedResolution(adapter, engine.gates.Value(), requestId, r, recordedAt))]);
      }
      return !(engine.settings.strict && (status.None? || status.value.AppendInvalid?));
    }

    method ResolveGate(requestId: string, roles: Option<seq<string>>, r: Resolution, recordedAt: int, down: bool)
      returns (response: Response)
      requires engine.Valid()
      modifies engine`written, engine.gates, engine.ledger
      ensures engine.Valid()
      ensures var h := GateRoute(engine.settings, old(engine.State()), requestId, roles, r, recordedAt, down);
              response == h.response && engine.State() == Applied(old(engine.State()), h.effects)
              && engine.written == old(engine.written) + h.effects
    {
      ghost var start, earlier := engine.State(), engine.written;
      var outcome := Settle(requestId, roles, r);
      if outcome.Failure? { return HttpError(RefusalCode(outcome.error)); }
      ResolvingWrites(engine.settings, start, requestId, r, recordedAt, down);
      ResolvingNotes(engine.settings, start, requestId, r, recordedAt, down, earlier);
      if engine.settings.ledger.Some? {
        var ok := RecordResolution(engine.settings.ledger.value, requestId, outcome.value, r, recordedAt, down);
        if !ok { return HttpError(500); }
      }
      return Returned(outcome.value);
    }
  }
}
