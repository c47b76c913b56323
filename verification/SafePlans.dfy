/** Every write that a request plans is safe where it comes. */
module SafePlans {
  import opened Basics
  import opened Flows
  import opened Decisions
  import opened Boundaries
  import opened Evaluation
  import opened EvaluationRecords
  import opened LedgerClient
  import opened LedgerAdapter
  import opened CommitProperties
  import opened LedgerProjector
  import opened HumanGates
  import opened EventBus
  import opened TraceStore
  import opened Worlds
  import opened Engine
  import opened Routes
  import opened Safety

  /** Between requests: all announcements are handed over, and their traces are kept. */
  ghost predicate AtRest(w: World) {
    w.published == w.bus && forall m :: m in w.bus ==> m.traceId in w.traces.byTraceId
  }

  /** What makes the drawn ids fresh: nothing in the state uses them. */
  ghost predicate IsFresh(w: World, draw: Draw) {
    && (forall e :: e in w.log ==> e.traceId != draw.stamp.traceId)
    && draw.stamp.traceId !in w.traces.byTraceId && draw.stamp.resultId !in w.traces.byDecisionId
    && draw.gateId !in w.gates.store
    && (forall id :: id in w.gates.results ==> w.gates.results[id].id != draw.stamp.resultId)
    && forall m :: m in w.bus ==>
         && m.traceId != draw.stamp.traceId && m.decisionId != draw.stamp.resultId
         && m.executionId != draw.executionId && m.id != draw.eventId
  }

  /** A decision as the engine holds it after evaluation and before dispatch. */
  ghost predicate IsEvaluated(result: DecisionResult, draw: Draw) {
    && result.id == draw.stamp.resultId && result.traceId == draw.stamp.traceId
    && result.executionId.None? && IsEngineStatus(result.status)
  }

  // ---------------------------------------------------------------- opening a gate

  lemma OpeningWrites(w: World, result: DecisionResult, draw: Draw)
    ensures Applied(w, Opening(result, draw))
         == if result.status.PendingHuman?
            then w.(gates := Opened(w.gates, NewRequest(draw.gateId, result, None, draw.gateAt), result))
            else w
  {
    if result.status.PendingHuman? {
      AppliedOne(w, Opening(result, draw)[0]);
    }
  }

  lemma OpeningIsSafe(adapter: Adapter, strict: bool, past: set<Inquiry>, w: World, result: DecisionResult, draw: Draw)
    requires draw.gateId !in w.gates.store && forall m :: m in w.bus ==> m.decisionId != result.id
    ensures AllSafe(adapter, strict, past, w, Opening(result, draw))
  {
    assert Applied(w, []) == w;
  }

  // ---------------------------------------------------------------- appending the events of an evaluation

  lemma EvaluationEventIsExplained(adapter: Adapter, g: Gates, trace: DecisionTrace, result: DecisionResult, i: nat)
    requires i < |EventsFor(adapter, trace, result)|
    ensures IsExplained(adapter.naming, g, EventsFor(adapter, trace, result)[i])
    ensures EventsFor(adapter, trace, result)[i].traceId == trace.id
  {
    EventsAreNamed(adapter, trace, result);
    var key := KeysOf(trace, result)[i];
    assert KeyFits(g, trace.id, key);
  }

  lemma AppendsAreSafe(adapter: Adapter, strict: bool, past: set<Inquiry>, w: World, trace: DecisionTrace, result: DecisionResult,
                       outage: Outage)
    requires strict ==> trace.id !in w.traces.byTraceId && !IsOnBus(w.bus, trace.id)
    ensures AllSafe(adapter, strict, past, w, Appends(Reached(EventsFor(adapter, trace, result), outage)))
  {
    var events := EventsFor(adapter, trace, result);
    var reached := Reached(events, outage);
    var effects := Appends(reached);
    forall k: nat | k < |effects| ensures IsSafe(adapter, strict, past, Applied(w, effects[..k]), effects[k]) {
      assert effects[..k] == Appends(reached[..k]);
      AppendsWriteLog(w, reached[..k]);
      assert reached[k] == events[k];
      EvaluationEventIsExplained(adapter, w.gates, trace, result, k);
    }
  }

  lemma FreshTraceIsEmpty(log: Log, traceId: string)
    requires forall e :: e in log ==> e.traceId != traceId
    ensures OfTrace(log, traceId) == []
  {
    if OfTrace(log, traceId) != [] {
      OfTraceMembers(log, traceId, OfTrace(log, traceId)[0]);
    }
  }

  /** After an accepted commit of a fresh trace the log of the trace is the whole evaluation. */
  lemma AcceptedCommitHolds(adapter: Adapter, log: Log, trace: DecisionTrace, result: DecisionResult)
    requires forall e :: e in log ==> e.traceId != trace.id
    requires CommitOutcome(log, EventsFor(adapter, trace, result)).status == CommitAccepted
    ensures Holds(adapter, CommitLog(log, EventsFor(adapter, trace, result)), trace, result, [])
  {
    var events := EventsFor(adapter, trace, result);
    AcceptedExactlyWhenNew(log, events);
    FreshTraceIsEmpty(log, trace.id);
    forall e | e in events ensures e.traceId == trace.id {
      var i :| 0 <= i < |events| && events[i] == e;
      EvaluationEventIsExplained(adapter, Gates(map[], map[]), trace, result, i);
    }
    WholeTrace(events, trace.id);
    OfTraceConcat(log, events, trace.id);
    assert [] + events == events && events + [] == events;
  }

  // ---------------------------------------------------------------- dispatching

  function Messages(result: DecisionResult, draw: Draw): seq<RuntimeEvent> {
    if result.status.Confirmed? then [ExecutionEvent(result, draw)] else []
  }

  lemma DispatchingWrites(w: World, result: DecisionResult, draw: Draw)
    ensures Applied(w, Dispatching(result, draw))
         == w.(bus := w.bus + Messages(result, draw), published := w.published + Messages(result, draw))
  {
    if result.status.Confirmed? {
      var m := ExecutionEvent(result, draw);
      AppliedTwo(w, Announce(m), HandOver(m));
      assert Dispatching(result, draw) == [Announce(m)] + [HandOver(m)];
    } else {
      assert w.bus + [] == w.bus && w.published + [] == w.published;
    }
  }

  /** What dispatch needs: a fresh evaluation, recorded first in strict mode. */
  ghost predicate MayDispatch(adapter: Adapter, strict: bool, past: set<Inquiry>, w: World, q: Inquiry) {
    && AtRest(w) && q in past && IsEvaluated(DecisionOf(q), q.draw)
    && IsNewTo(w.bus, RequestOf(q))
    && (DecisionOf(q).status == Confirmed ==> forall id :: id in w.gates.results ==> w.gates.results[id].id != q.draw.stamp.resultId)
    && q.draw.stamp.traceId !in w.traces.byTraceId && q.draw.stamp.resultId !in w.traces.byDecisionId
    && (strict ==> Holds(adapter, w.log, TraceToCommit(q), DecisionOf(q), []))
  }

  lemma DispatchingIsSafe(adapter: Adapter, strict: bool, past: set<Inquiry>, w: World, q: Inquiry)
    requires MayDispatch(adapter, strict, past, w, q)
    ensures AllSafe(adapter, strict, past, w, Dispatching(DecisionOf(q), q.draw))
  {
    if DecisionOf(q).status.Confirmed? {
      var m := RequestOf(q);
      var effects := Dispatching(DecisionOf(q), q.draw);
      assert effects[..0] == [] && effects[..1] == [Announce(m)];
      AppliedOne(w, Announce(m));
      assert IsRequestOf(q, m);
      if strict { assert IsRecordedAs(adapter, q, w.log, m, []); }
      assert IsSafe(adapter, strict, past, Applied(w, effects[..0]), effects[0]);
      assert IsSafe(adapter, strict, past, Applied(w, effects[..1]), effects[1]);
    }
  }

  // ---------------------------------------------------------------- keeping the trace

  /** What keeping needs besides: the flow's own id and the engine's records. */
  ghost predicate MayKeep(adapter: Adapter, strict: bool, past: set<Inquiry>, w: World, q: Inquiry) {
    MayDispatch(adapter, strict, past, w, q) && AllEngineRecords(q.records)
  }

  lemma DispatchedIsKept(adapter: Adapter, strict: bool, past: set<Inquiry>, w: World, q: Inquiry)
    requires MayKeep(adapter, strict, past, w, q)
    ensures IsKept(w.bus + Messages(DecisionOf(q), q.draw), TraceToKeep(q)) && IsLeftBy(past, TraceToKeep(q))
  {
    var bus := w.bus + Messages(DecisionOf(q), q.draw);
    var m := RequestOf(q);
    assert forall n :: n in bus <==> n in w.bus || n in Messages(DecisionOf(q), q.draw);
    assert IsOnBus(bus, DecisionOf(q).traceId) <==> DecisionOf(q).status.Confirmed? by {
      if DecisionOf(q).status.Confirmed? { assert m in bus && m.traceId == DecisionOf(q).traceId; }
    }
  }

  lemma KeptIsArchived(adapter: Adapter, log: Log, q: Inquiry)
    requires DecisionOf(q).executionId.None? && Holds(adapter, log, TraceToCommit(q), DecisionOf(q), [])
    ensures IsArchived(adapter, log, TraceToKeep(q))
  {
    var committed := Undispatched(TraceToKeep(q), q.draw.commitAt);
    assert committed.decisionResults[0] == DecisionOf(q);
    assert committed == TraceToCommit(q);
    assert Holds(adapter, log, committed, committed.decisionResults[0], []);
  }

  lemma RememberingWrites(w: World, signal: Signal, result: DecisionResult)
    ensures Applied(w, Remembering(signal, result))
         == if HasKey(signal) then w.(cache := w.cache[signal.idempotencyKey.value := result]) else w
  {
    if HasKey(signal) {
      AppliedOne(w, Remember(signal.idempotencyKey.value, result));
    }
  }

  lemma RememberingIsSafe(adapter: Adapter, strict: bool, past: set<Inquiry>, w: World, signal: Signal, result: DecisionResult)
    requires IsHonoured(w.bus, result)
    ensures AllSafe(adapter, strict, past, w, Remembering(signal, result))
  {
    assert Applied(w, []) == w;
  }

  /** Once dispatched, the decision is honoured. */
  lemma DispatchedIsHonoured(bus: seq<RuntimeEvent>, result: DecisionResult, draw: Draw)
    ensures IsHonoured(bus + Messages(result, draw), Dispatched(result, draw))
  {
    if result.status.Confirmed? {
      assert ExecutionEvent(result, draw) in bus + Messages(result, draw);
      assert Requests(ExecutionEvent(result, draw), Dispatched(result, draw));
    }
  }

  lemma SavingIsSafe(adapter: Adapter, strict: bool, past: set<Inquiry>, w: World, cache: map<string, DecisionResult>, q: Inquiry)
    requires MayKeep(adapter, strict, past, w, q)
    ensures AllSafe(adapter, strict, past, Applied(w, Dispatching(DecisionOf(q), q.draw)).(cache := cache),
                    [SaveTrace(TraceToKeep(q))])
  {
    DispatchingWrites(w, DecisionOf(q), q.draw);
    DispatchedIsKept(adapter, strict, past, w, q);
    if strict { KeptIsArchived(adapter, w.log, q); }
    OneIsSafe(adapter, strict, past, Applied(w, Dispatching(DecisionOf(q), q.draw)).(cache := cache), SaveTrace(TraceToKeep(q)));
  }

  function ClosingOf(q: Inquiry): seq<Effect> {
    Closing(q.signal, q.flow, DecisionOf(q), q.records, q.draw)
  }

  lemma ClosingIsSafe(adapter: Adapter, strict: bool, past: set<Inquiry>, w: World, q: Inquiry)
    requires MayKeep(adapter, strict, past, w, q)
    ensures AllSafe(adapter, strict, past, w, ClosingOf(q))
  {
    var done := Dispatched(DecisionOf(q), q.draw);
    var first, second := Dispatching(DecisionOf(q), q.draw), Remembering(q.signal, done);
    var dispatched := Applied(w, first);
    DispatchingIsSafe(adapter, strict, past, w, q);
    DispatchingWrites(w, DecisionOf(q), q.draw);
    DispatchedIsHonoured(w.bus, DecisionOf(q), q.draw);
    RememberingIsSafe(adapter, strict, past, dispatched, q.signal, done);
    RememberingWrites(dispatched, q.signal, done);
    SafeConcat(adapter, strict, past, w, first, second);
    AppliedConcat(w, first, second);
    SavingIsSafe(adapter, strict, past, w, Applied(dispatched, second).cache, q);
    SafeConcat(adapter, strict, past, w, first + second, [SaveTrace(TraceToKeep(q))]);
  }

  lemma OneIsSafe(adapter: Adapter, strict: bool, past: set<Inquiry>, w: World, effect: Effect)
    requires IsSafe(adapter, strict, past, w, effect)
    ensures AllSafe(adapter, strict, past, w, [effect])
  {
    assert Applied(w, []) == w;
  }

  // ---------------------------------------------------------------- evaluations

  /** The inquiry is what pure evaluation makes of its signal, flow and draw. */
  ghost predicate IsInquiry(settings: Settings, q: Inquiry) {
    Evaluated(JudgeFor(settings, q.signal), q.signal, q.flow, q.draw.stamp) == Success((q.result, q.records))
  }

  /** What evaluation hands on, with its gate, is a fresh decision with the engine's own records. */
  lemma InquiryIsReady(settings: Settings, q: Inquiry)
    requires IsInquiry(settings, q)
    ensures IsEvaluated(q.result, q.draw) && IsEvaluated(DecisionOf(q), q.draw) && AllEngineRecords(q.records)
  {
    var judge := JudgeFor(settings, q.signal);
    ResultShape(judge, q.signal, q.flow, q.draw.stamp);
    RecordsAreEngineRecords(judge, q.flow, Selected(judge, q.flow).value,
                            ResultsFor(judge, ActiveOf(q.flow.nodes, BoundaryNode)));
  }

  /** The inquiry is ready, and its draw is fresh in the state. */
  ghost predicate IsFreshIn(past: set<Inquiry>, w: World, q: Inquiry) {
    && AtRest(w) && IsFresh(w, q.draw) && q in past
    && IsEvaluated(q.result, q.draw) && IsEvaluated(DecisionOf(q), q.draw) && AllEngineRecords(q.records)
  }

  lemma FreshIsNew(past: set<Inquiry>, w: World, q: Inquiry)
    requires IsFreshIn(past, w, q)
    ensures IsNewTo(w.bus, RequestOf(q)) && !IsOnBus(w.bus, q.draw.stamp.traceId)
  {
  }

  ghost function Committed(adapter: Adapter, w: World, q: Inquiry, outage: Outage): World {
    w.(log := CommitLog(w.log, Reached(EventsOfInquiry(adapter, q), outage)))
  }

  ghost function EventsOfInquiry(adapter: Adapter, q: Inquiry): Log {
    EventsFor(adapter, TraceToCommit(q), DecisionOf(q))
  }

  lemma AcceptedMayKeep(adapter: Adapter, past: set<Inquiry>, w: World, gates: Gates, q: Inquiry)
    requires DecisionOf(q).status == Confirmed ==> gates == w.gates
    requires IsFreshIn(past, w, q) && CommitOutcome(w.log, EventsOfInquiry(adapter, q)).status == CommitAccepted
    ensures MayKeep(adapter, true, past, Committed(adapter, w.(gates := gates), q, None), q)
  {
    FreshIsNew(past, w, q);
    AcceptedCommitHolds(adapter, w.log, TraceToCommit(q), DecisionOf(q));
  }

  lemma ClosingWrites(w: World, q: Inquiry)
    ensures var after := Applied(w, ClosingOf(q));
            && after.bus == w.bus + Messages(DecisionOf(q), q.draw)
            && after.published == w.published + Messages(DecisionOf(q), q.draw)
            && after.traces == Saved(w.traces, TraceToKeep(q))
  {
    var done := Dispatched(DecisionOf(q), q.draw);
    var first, second := Dispatching(DecisionOf(q), q.draw), Remembering(q.signal, done);
    AppliedConcat(w, first + second, [SaveTrace(TraceToKeep(q))]);
    AppliedConcat(w, first, second);
    DispatchingWrites(w, DecisionOf(q), q.draw);
    RememberingWrites(Applied(w, first), q.signal, done);
    AppliedOne(Applied(w, first + second), SaveTrace(TraceToKeep(q)));
  }

  /** The rest after keeping: everything announced is handed over and kept. */
  lemma KeepingRests(w: World, after: World, q: Inquiry)
    requires AtRest(w) && IsEvaluated(DecisionOf(q), q.draw)
    requires after.bus == w.bus + Messages(DecisionOf(q), q.draw)
    requires after.published == w.published + Messages(DecisionOf(q), q.draw)
    requires after.traces == Saved(w.traces, TraceToKeep(q))
    ensures AtRest(after) && IsHonoured(after.bus, Dispatched(DecisionOf(q), q.draw))
  {
    DispatchedIsHonoured(w.bus, DecisionOf(q), q.draw);
  }

  /** The commit phase of strict mode: the gate, then the events. */
  lemma CommittingIsSafe(adapter: Adapter, past: set<Inquiry>, w: World, q: Inquiry, outage: Outage)
    requires IsFreshIn(past, w, q)
    ensures var gated := Applied(w, Opening(q.result, q.draw));
            var commit := Opening(q.result, q.draw) + Appends(Reached(EventsOfInquiry(adapter, q), outage));
            && AllSafe(adapter, true, past, w, commit)
            && Applied(w, commit) == Committed(adapter, gated, q, outage)
            && gated == w.(gates := gated.gates) && (DecisionOf(q).status == Confirmed ==> gated == w)
  {
    var reached := Reached(EventsOfInquiry(adapter, q), outage);
    FreshIsNew(past, w, q);
    OpeningIsSafe(adapter, true, past, w, q.result, q.draw);
    OpeningWrites(w, q.result, q.draw);
    var gated := Applied(w, Opening(q.result, q.draw));
    AppendsAreSafe(adapter, true, past, gated, TraceToCommit(q), DecisionOf(q), outage);
    SafeConcat(adapter, true, past, w, Opening(q.result, q.draw), Appends(reached));
    AppliedConcat(w, Opening(q.result, q.draw), Appends(reached));
    AppendsWriteLog(gated, reached);
  }

  lemma AcceptedClosingIsSafe(adapter: Adapter, past: set<Inquiry>, w: World, gates: Gates, q: Inquiry)
    requires DecisionOf(q).status == Confirmed ==> gates == w.gates
    requires IsFreshIn(past, w, q) && CommitOutcome(w.log, EventsOfInquiry(adapter, q)).status == CommitAccepted
    ensures var committed := Committed(adapter, w.(gates := gates), q, None);
            && AllSafe(adapter, true, past, committed, ClosingOf(q)) && AtRest(Applied(committed, ClosingOf(q)))
            && IsHonoured(Applied(committed, ClosingOf(q)).bus, Dispatched(DecisionOf(q), q.draw))
  {
    AcceptedMayKeep(adapter, past, w, gates, q);
    var committed := Committed(adapter, w.(gates := gates), q, None);
    ClosingIsSafe(adapter, true, past, committed, q);
    ClosingWrites(committed, q);
    KeepingRests(committed, Applied(committed, ClosingOf(q)), q);
  }

  ghost function StrictOf(settings: Settings, adapter: Adapter, w: World, q: Inquiry, outage: Outage): Plan {
    PlanStrict(settings, adapter, w, q.signal, q.flow, q.draw, outage, q.result, q.records)
  }

  /** Every write of a strict evaluation is safe, whether its commit is accepted, refused or broken off. */
  lemma StrictPlanIsSafe(settings: Settings, adapter: Adapter, past: set<Inquiry>, w: World, q: Inquiry, outage: Outage)
    requires IsFreshIn(past, w, q)
    ensures var effects := StrictOf(settings, adapter, w, q, outage).effects;
            AllSafe(adapter, true, past, w, effects) && AtRest(Applied(w, effects))
  {
    var events := EventsOfInquiry(adapter, q);
    var commit := Opening(q.result, q.draw) + Appends(Reached(events, outage));
    CommittingIsSafe(adapter, past, w, q, outage);
    if !Fails(events, outage) && CommitOutcome(w.log, events).status.CommitAccepted? {
      AcceptedClosingIsSafe(adapter, past, w, Applied(w, Opening(q.result, q.draw)).gates, q);
      SafeConcat(adapter, true, past, w, commit, ClosingOf(q));
      AppliedConcat(w, commit, ClosingOf(q));
    }
  }

  lemma AcceptedAnswerIsHonoured(settings: Settings, adapter: Adapter, past: set<Inquiry>, w: World, q: Inquiry, outage: Outage)
    requires IsFreshIn(past, w, q) && !Fails(EventsOfInquiry(adapter, q), outage)
    requires CommitOutcome(w.log, EventsOfInquiry(adapter, q)).status == CommitAccepted
    ensures var plan := StrictOf(settings, adapter, w, q, outage);
            plan.answer.Success? && IsHonoured(Applied(w, plan.effects).bus, plan.answer.value)
  {
    var commit := Opening(q.result, q.draw) + Appends(Reached(EventsOfInquiry(adapter, q), outage));
    CommittingIsSafe(adapter, past, w, q, outage);
    AcceptedClosingIsSafe(adapter, past, w, Applied(w, Opening(q.result, q.draw)).gates, q);
    AppliedConcat(w, commit, ClosingOf(q));
  }

  lemma RefusedAnswerIsHonoured(settings: Settings, adapter: Adapter, past: set<Inquiry>, w: World, q: Inquiry,
                                report: CommitResult)
    requires Sound(adapter, true, past, w)
    ensures IsHonoured(w.bus, AnswerRefused(settings, w, q.signal, DecisionOf(q), report, q.draw))
  {
    if Recovered(w, report.eventIds, q.signal).Some? {
      RecoveredIsHonoured(adapter, true, past, w, report.eventIds, q.signal);
    }
  }

  lemma CommitKeepsSound(adapter: Adapter, past: set<Inquiry>, w: World, q: Inquiry, outage: Outage)
    requires IsFreshIn(past, w, q) && Sound(adapter, true, past, w)
    ensures Sound(adapter, true, past,
                  Applied(w, Opening(q.result, q.draw) + Appends(Reached(EventsOfInquiry(adapter, q), outage))))
  {
    var commit := Opening(q.result, q.draw) + Appends(Reached(EventsOfInquiry(adapter, q), outage));
    CommittingIsSafe(adapter, past, w, q, outage);
    AllWritesKeepSound(adapter, true, past, w, commit);
  }

  /** And its answer is honoured: as dispatched, as recovered, or as an error. */
  lemma StrictAnswerIsHonoured(settings: Settings, adapter: Adapter, past: set<Inquiry>, w: World, q: Inquiry, outage: Outage)
    requires IsFreshIn(past, w, q) && Sound(adapter, true, past, w)
    ensures var plan := StrictOf(settings, adapter, w, q, outage);
            plan.answer.Success? ==> IsHonoured(Applied(w, plan.effects).bus, plan.answer.value)
  {
    var events := EventsOfInquiry(adapter, q);
    if !Fails(events, outage) {
      if CommitOutcome(w.log, events).status.CommitAccepted? {
        AcceptedAnswerIsHonoured(settings, adapter, past, w, q, outage);
      } else {
        CommitKeepsSound(adapter, past, w, q, outage);
        RefusedAnswerIsHonoured(settings, adapter, past, Applied(w, Opening(q.result, q.draw) + Appends(Reached(events, outage))),
                                q, CommitOutcome(w.log, events));
      }
    }
  }

  /** Without a commit gate: dispatch and keep first, the ledger afterwards. */
  lemma SettlingIsSafe(adapter: Adapter, settings: Settings, past: set<Inquiry>, w: World, q: Inquiry, outage: Outage)
    requires MayKeep(adapter, false, past, w, q) && (settings.ledger.None? || settings.ledger == Some(adapter))
    ensures var effects := Settling(settings, q.signal, q.flow, DecisionOf(q), q.records, q.draw, outage);
            && AllSafe(adapter, false, past, w, effects) && AtRest(Applied(w, effects))
            && IsHonoured(Applied(w, effects).bus, Dispatched(DecisionOf(q), q.draw))
  {
    var first, second := Dispatching(DecisionOf(q), q.draw), [SaveTrace(TraceToKeep(q))];
    var third := Recording(settings, TraceToKeep(q), Dispatched(DecisionOf(q), q.draw), outage);
    DispatchingIsSafe(adapter, false, past, w, q);
    DispatchingWrites(w, DecisionOf(q), q.draw);
    SavingIsSafe(adapter, false, past, w, w.cache, q);
    assert Applied(w, first).(cache := w.cache) == Applied(w, first);
    SafeConcat(adapter, false, past, w, first, second);
    AppliedConcat(w, first, second);
    AppliedOne(Applied(w, first), SaveTrace(TraceToKeep(q)));
    KeepingRests(w, Applied(w, first + second), q);
    RecordingIsSafe(adapter, settings, past, Applied(w, first + second), TraceToKeep(q), Dispatched(DecisionOf(q), q.draw), outage);
    SafeConcat(adapter, false, past, w, first + second, third);
    AppliedConcat(w, first + second, third);
  }

  lemma RecordingIsSafe(adapter: Adapter, settings: Settings, past: set<Inquiry>, w: World, trace: DecisionTrace,
                        result: DecisionResult, outage: Outage)
    requires settings.ledger.None? || settings.ledger == Some(adapter)
    ensures AllSafe(adapter, false, past, w, Recording(settings, trace, result, outage))
    ensures Applied(w, Recording(settings, trace, result, outage))
         == w.(log := Applied(w, Recording(settings, trace, result, outage)).log)
  {
    if settings.ledger.Some? {
      AppendsAreSafe(adapter, false, past, w, trace, result, outage);
      AppendsWriteLog(w, Reached(EventsFor(adapter, trace, result), outage));
    }
  }

  ghost function ParallelOf(settings: Settings, q: Inquiry, outage: Outage): Plan {
    PlanParallel(settings, q.signal, q.flow, q.draw, outage, q.result, q.records)
  }

  lemma ParallelPlanIsSafe(settings: Settings, adapter: Adapter, past: set<Inquiry>, w: World, q: Inquiry, outage: Outage)
    requires IsFreshIn(past, w, q) && (settings.ledger.None? || settings.ledger == Some(adapter))
    ensures var plan := ParallelOf(settings, q, outage);
            && AllSafe(adapter, false, past, w, plan.effects) && AtRest(Applied(w, plan.effects))
            && IsHonoured(Applied(w, plan.effects).bus, plan.answer.value)
  {
    FreshIsNew(past, w, q);
    OpeningIsSafe(adapter, false, past, w, q.result, q.draw);
    OpeningWrites(w, q.result, q.draw);
    var gated := Applied(w, Opening(q.result, q.draw));
    SettlingIsSafe(adapter, settings, past, gated, q, outage);
    var settling := Settling(settings, q.signal, q.flow, DecisionOf(q), q.records, q.draw, outage);
    SafeConcat(adapter, false, past, w, Opening(q.result, q.draw), settling);
    AppliedConcat(w, Opening(q.result, q.draw), settling);
  }

  // ---------------------------------------------------------------- resolutions

  lemma ResolutionIsExplained(adapter: Adapter, g: Gates, id: string, r: Resolution, recordedAt: int)
    requires GatesInv(g) && id in g.store && g.store[id].status.GatePending?
    ensures IsExplained(adapter.naming, Settled(g, id, r), RecordedResolution(adapter, Settled(g, id, r), id, r, recordedAt))
  {
    var settled := Settled(g, id, r);
    var event := RecordedResolution(adapter, settled, id, r, recordedAt);
    var key := GateActionKey(settled.store[id].id, ActionText(r.action));
    assert event.eventId == adapter.naming(event.traceId, key);
    assert KeyFits(settled, event.traceId, key);
  }

  lemma ResolvingIsSafe(settings: Settings, adapter: Adapter, strict: bool, past: set<Inquiry>, w: World, id: string, r: Resolution,
                        recordedAt: int, down: bool)
    requires GatesInv(w.gates) && AtRest(w) && id in w.gates.store && w.gates.store[id].status.GatePending?
    requires settings.ledger.None? || settings.ledger == Some(adapter)
    ensures var effects := Resolving(settings, w.gates, id, r, recordedAt, down);
            AllSafe(adapter, strict, past, w, effects) && AtRest(Applied(w, effects))
  {
    var first := SettleGate(id, r);
    AppliedOne(w, first);
    OneIsSafe(adapter, strict, past, w, first);
    if settings.ledger.Some? && !down {
      var event := RecordedResolution(adapter, Settled(w.gates, id, r), id, r, recordedAt);
      ResolutionIsExplained(adapter, w.gates, id, r, recordedAt);
      OneIsSafe(adapter, strict, past, After(w, first), AppendEvent(event));
      SafeConcat(adapter, strict, past, w, [first], [AppendEvent(event)]);
      AppliedTwo(w, first, AppendEvent(event));
    } else {
      assert [first] + [] == [first];
    }
  }
}
