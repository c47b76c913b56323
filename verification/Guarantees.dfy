/** What every run guarantees: execution only after recording, replay, history that stands, one
    resolution per gate, one answer and one execution per idempotency key. */
module Guarantees {
  import opened Basics
  import opened Values
  import opened Decisions
  import opened Evaluation
  import opened LedgerClient
  import opened LedgerAdapter
  import opened CommitProperties
  import opened LedgerProjector
  import opened HumanGates
  import opened EventBus
  import opened TraceStore
  import opened Worlds
  import opened Engine
  import opened Routes
  import opened Safety
  import opened SafePlans
  import opened Runs

  // ---------------------------------------------------------------- execution

  /** The call evaluates to a confirmed decision, and the message requests its execution. */
  ghost predicate IsRequestedBy(settings: Settings, call: Call, m: RuntimeEvent) {
    && call.EvaluateCall? && call.flow.Some?
    && match Evaluated(JudgeFor(settings, call.signal), call.signal, call.flow.value, call.draw.stamp)
       case Failure(_) => false
       case Success((result, _)) =>
         WithGate(result, call.draw).status == Confirmed && m == ExecutionEvent(WithGate(result, call.draw), call.draw)
  }

  /** The log of the trace is exactly the event sequence of what the call evaluates to: the signal, every
      node record, the outcome; only gate resolutions follow. */
  ghost predicate IsRecordedFor(settings: Settings, adapter: Adapter, call: Call, log: Log, later: Log) {
    && call.EvaluateCall? && call.flow.Some?
    && match Evaluated(JudgeFor(settings, call.signal), call.signal, call.flow.value, call.draw.stamp)
       case Failure(_) => false
       case Success((result, records)) =>
         var final := WithGate(result, call.draw);
         Holds(adapter, log, CommitTrace(call.signal, call.flow.value, final, records, call.draw), final, later)
  }

  lemma PastIsOfCalls(settings: Settings, calls: seq<Call>, q: Inquiry) returns (i: nat)
    requires q in PastOf(settings, calls)
    ensures i < |calls| && InquiryOf(settings, calls[i]) == Some(q)
  {
    var k :| 0 <= k < |calls| && InquiryOf(settings, calls[k]) == Some(q);
    i := k;
  }

  lemma InquiryRequests(settings: Settings, call: Call, q: Inquiry, m: RuntimeEvent)
    requires InquiryOf(settings, call) == Some(q) && IsRequestOf(q, m)
    ensures IsRequestedBy(settings, call, m)
  {
  }

  lemma InquiryIsRecorded(settings: Settings, adapter: Adapter, call: Call, q: Inquiry, log: Log, later: Log)
    requires InquiryOf(settings, call) == Some(q) && Holds(adapter, log, TraceToCommit(q), DecisionOf(q), later)
    ensures IsRecordedFor(settings, adapter, call, log, later)
  {
  }

  /** Some call of the run requests this execution, and its whole evaluation is in the ledger. */
  ghost predicate IsAccountedFor(settings: Settings, adapter: Adapter, calls: seq<Call>, log: Log, m: RuntimeEvent) {
    exists i: nat, later ::
      i < |calls| && IsRequestedBy(settings, calls[i], m) && IsRecordedFor(settings, adapter, calls[i], log, later)
  }

  lemma RecordedIsAccountedFor(settings: Settings, adapter: Adapter, calls: seq<Call>, log: Log, m: RuntimeEvent)
    requires IsRecorded(adapter, PastOf(settings, calls), log, m)
    ensures IsAccountedFor(settings, adapter, calls, log, m)
  {
    var q, later :| q in PastOf(settings, calls) && IsRecordedAs(adapter, q, log, m, later);
    var i := PastIsOfCalls(settings, calls, q);
    InquiryRequests(settings, calls[i], q, m);
    InquiryIsRecorded(settings, adapter, calls[i], q, log, later);
  }

  /** In strict mode, at every moment of every run, whatever is on the event bus or handed to the
      publisher was requested by a call of the run that evaluated to a confirmed decision, and the ledger
      holds the whole event sequence of that evaluation; nothing is announced or handed over twice. */
  lemma NothingRunsUnrecorded(settings: Settings, adapter: Adapter, calls: seq<Call>, k: nat)
    requires settings.strict && settings.ledger == Some(adapter) && AllFresh(settings, calls)
    ensures var w := Moment(settings, calls, k);
            && (forall m :: m in w.bus || m in w.published ==> IsAccountedFor(settings, adapter, calls, w.log, m))
            && DistinctMessages(w.bus) && DistinctMessages(w.published) && IsPrefix(w.published, w.bus)
  {
    EveryMomentIsSound(settings, adapter, calls, k);
    SoundIsAccountedFor(settings, adapter, calls, Moment(settings, calls, k));
  }

  lemma SoundIsAccountedFor(settings: Settings, adapter: Adapter, calls: seq<Call>, w: World)
    requires Sound(adapter, true, PastOf(settings, calls), w)
    ensures forall m :: m in w.bus || m in w.published ==> IsAccountedFor(settings, adapter, calls, w.log, m)
    ensures DistinctMessages(w.published)
  {
    assert forall i :: 0 <= i < |w.published| ==> w.published[i] == w.bus[i];
    forall m | m in w.bus || m in w.published ensures IsAccountedFor(settings, adapter, calls, w.log, m) {
      assert m in w.bus;
      RecordedIsAccountedFor(settings, adapter, calls, w.log, m);
    }
  }

  /** The messages on the bus are the requests of the kept confirmed decisions, one each. */
  ghost predicate BusIsKept(bus: seq<RuntimeEvent>, s: Traces) {
    && (forall m :: m in bus ==>
          && m.traceId in s.byTraceId && |s.byTraceId[m.traceId].decisionResults| == 1
          && s.byTraceId[m.traceId].decisionResults[0].status == Confirmed
          && Requests(m, s.byTraceId[m.traceId].decisionResults[0]))
    && (forall id :: id in s.byTraceId ==>
          |s.byTraceId[id].decisionResults| == 1 && IsHonoured(bus, s.byTraceId[id].decisionResults[0]))
  }

  lemma SoundBusIsKept(past: set<Inquiry>, w: World)
    requires TracesSound(past, w.bus, w.traces) && AtRest(w)
    ensures BusIsKept(w.bus, w.traces)
  {
    forall m | m in w.bus
      ensures m.traceId in w.traces.byTraceId && |w.traces.byTraceId[m.traceId].decisionResults| == 1
              && w.traces.byTraceId[m.traceId].decisionResults[0].status == Confirmed
              && Requests(m, w.traces.byTraceId[m.traceId].decisionResults[0])
    {
      assert IsKept(w.bus, w.traces.byTraceId[m.traceId]) && IsOnBus(w.bus, m.traceId);
    }
    forall id | id in w.traces.byTraceId
      ensures |w.traces.byTraceId[id].decisionResults| == 1 && IsHonoured(w.bus, w.traces.byTraceId[id].decisionResults[0])
    {
      assert IsKept(w.bus, w.traces.byTraceId[id]);
    }
  }

  /** Between requests, in either mode: the executions requested are those of the kept confirmed
      decisions, each exactly once and with its execution id; all are handed over. */
  lemma ConfirmedRunOnce(settings: Settings, adapter: Adapter, calls: seq<Call>)
    requires Uses(settings, adapter) && AllFresh(settings, calls)
    ensures var w := WorldAfter(settings, calls);
            w.published == w.bus && DistinctMessages(w.bus) && BusIsKept(w.bus, w.traces)
  {
    RunIsSound(settings, adapter, calls);
    SoundBusIsKept(PastOf(settings, calls), WorldAfter(settings, calls));
  }

  /** And every confirmed result that an evaluation request returns, fresh, cached or recovered, has its
      request on the bus, with the same decision id, execution id and action. */
  lemma ReturnedIsRequested(settings: Settings, adapter: Adapter, calls: seq<Call>, i: nat)
    requires Uses(settings, adapter) && AllFresh(settings, calls) && i < |calls|
    ensures var response := HandlingOf(settings, calls, i).response;
            calls[i].EvaluateCall? && response.Returned? ==>
              IsHonoured(WorldAfter(settings, calls[..i + 1]).bus, response.result)
  {
    FreshPrefix(settings, calls, i + 1);
    FreshPrefix(settings, calls, i);
    assert calls[..i + 1][..i] == calls[..i];
    RunIsSound(settings, adapter, calls[..i]);
    BeforeLastIsSound(settings, adapter, calls[..i + 1]);
    LastCallIsReady(settings, calls[..i + 1]);
    HandlingIsSafe(settings, adapter, PastOf(settings, calls[..i + 1]), WorldAfter(settings, calls[..i]), calls[i]);
    WorldStep(settings, calls, i);
  }

  /** Event ids on the bus are distinct, which is all that following the cursor asks for. */
  lemma EventIdsOnBusAreDistinct(settings: Settings, adapter: Adapter, calls: seq<Call>)
    requires Uses(settings, adapter) && AllFresh(settings, calls)
    ensures DistinctEventIds(WorldAfter(settings, calls).bus)
  {
    RunIsSound(settings, adapter, calls);
  }

  // ---------------------------------------------------------------- replay

  lemma ArchivedReplays(adapter: Adapter, bus: seq<RuntimeEvent>, log: Log, t: DecisionTrace)
    requires IsKept(bus, t) && IsArchived(adapter, log, t)
    ensures ProjectionOf(log, t.id).Projected? && Agrees(ProjectionOf(log, t.id).trace, t, t.decisionResults[0])
  {
    var at, later :| Holds(adapter, log, Undispatched(t, at), Undispatched(t, at).decisionResults[0], later);
    var committed := Undispatched(t, at);
    ProjectionAgrees(adapter, log, committed, committed.decisionResults[0], later);
  }

  /** In strict mode every kept trace can be rebuilt from the ledger, and the two copies agree. */
  lemma KeptTracesReplay(settings: Settings, adapter: Adapter, calls: seq<Call>)
    requires settings.strict && settings.ledger == Some(adapter) && AllFresh(settings, calls)
    ensures var w := WorldAfter(settings, calls);
            forall id :: id in w.traces.byTraceId ==>
              var t := w.traces.byTraceId[id];
              && |t.decisionResults| == 1
              && ProjectionOf(w.log, id).Projected? && Agrees(ProjectionOf(w.log, id).trace, t, t.decisionResults[0])
  {
    RunIsSound(settings, adapter, calls);
    var w := WorldAfter(settings, calls);
    forall id | id in w.traces.byTraceId
      ensures var t := w.traces.byTraceId[id];
              |t.decisionResults| == 1 && ProjectionOf(w.log, id).Projected?
              && Agrees(ProjectionOf(w.log, id).trace, t, t.decisionResults[0])
    {
      ArchivedReplays(adapter, w.bus, w.log, w.traces.byTraceId[id]);
    }
  }

  lemma RecordedEventsAreInLog(adapter: Adapter, log: Log, trace: DecisionTrace, result: DecisionResult, later: Log, i: nat)
    requires Holds(adapter, log, trace, result, later) && i < |EventsFor(adapter, trace, result)|
    ensures EventsFor(adapter, trace, result)[i] in log
  {
    var event := EventsFor(adapter, trace, result)[i];
    assert (EventsFor(adapter, trace, result) + later)[i] == event;
    OfTraceMembers(log, trace.id, event);
  }

  lemma RecordedCommitIsDuplicate(adapter: Adapter, log: Log, trace: DecisionTrace, result: DecisionResult, later: Log)
    requires Holds(adapter, log, trace, result, later)
    ensures var events := EventsFor(adapter, trace, result);
            CommitLog(log, events) == log && CommitOutcome(log, events).status == CommitDuplicate
  {
    var events := EventsFor(adapter, trace, result);
    forall i | 0 <= i < |events| ensures Has(log, events[i].eventId) {
      RecordedEventsAreInLog(adapter, log, trace, result, later, i);
    }
    RepeatedCommitChangesNothing(log, events);
  }

  /** The first event of a recorded evaluation leads to the trace that is found by its decision. */
  lemma FirstEventFindsTrace(adapter: Adapter, w: World, trace: DecisionTrace, result: DecisionResult, later: Log,
                             t: DecisionTrace)
    requires DistinctIds(w.log) && Holds(adapter, w.log, trace, result, later)
    requires result.id in w.traces.byDecisionId && w.traces.byDecisionId[result.id] == t && |t.decisionResults| == 1
    ensures FirstResult(w, IdsOf(EventsFor(adapter, trace, result))) == Some(t.decisionResults[0])
  {
    var events := EventsFor(adapter, trace, result);
    RecordedEventsAreInLog(adapter, w.log, trace, result, later, 0);
    TheEventWithId(w.log, events[0]);
    EveryEventNamesDecision(adapter, trace, result, 0);
    assert IdsOf(events)[0] == events[0].eventId;
  }

  lemma {:induction false} NodeEventsNameDecision(adapter: Adapter, trace: DecisionTrace, result: DecisionResult, records: seq<Record>)
    ensures forall e :: e in NodeEvents(adapter, trace, result, records) ==> e.decisionId == result.id
  {
    if records != [] { NodeEventsNameDecision(adapter, trace, result, records[..|records| - 1]); }
  }

  lemma {:induction false} GateEventsNameDecision(adapter: Adapter, trace: DecisionTrace, result: DecisionResult, gates: seq<GateRequest>)
    ensures forall e :: e in GateEvents(adapter, trace, result, gates) ==> e.decisionId == result.id
  {
    if gates != [] { GateEventsNameDecision(adapter, trace, result, gates[..|gates| - 1]); }
  }

  lemma EveryEventNamesDecision(adapter: Adapter, trace: DecisionTrace, result: DecisionResult, i: nat)
    requires i < |EventsFor(adapter, trace, result)|
    ensures EventsFor(adapter, trace, result)[i].decisionId == result.id
  {
    NodeEventsNameDecision(adapter, trace, result, trace.evaluatedNodes);
    GateEventsNameDecision(adapter, trace, result, trace.humanGateRequests);
  }

  /** Committing the evaluation of a kept trace once more changes nothing, is reported as a duplicate,
      and recovers the kept decision, unless the idempotency key of the signal finds another answer first. */
  lemma RepeatedCommitRecovers(adapter: Adapter, w: World, id: string, at: int, later: Log, signal: Signal)
    requires DistinctIds(w.log) && IndexFits(w.traces) && id in w.traces.byTraceId
    requires |w.traces.byTraceId[id].decisionResults| == 1
    requires w.traces.byTraceId[id].decisionId == Some(w.traces.byTraceId[id].decisionResults[0].id)
    requires Holds(adapter, w.log, Undispatched(w.traces.byTraceId[id], at),
                   Undispatched(w.traces.byTraceId[id], at).decisionResults[0], later)
    ensures var t := w.traces.byTraceId[id];
            var events := EventsFor(adapter, Undispatched(t, at), Undispatched(t, at).decisionResults[0]);
            && CommitLog(w.log, events) == w.log && CommitOutcome(w.log, events).status == CommitDuplicate
            && Recovered(w, CommitOutcome(w.log, events).eventIds, signal)
               == if HasKey(signal) && signal.idempotencyKey.value in w.cache
                  then Some(w.cache[signal.idempotencyKey.value]) else Some(t.decisionResults[0])
  {
    var t := w.traces.byTraceId[id];
    var trace, result := Undispatched(t, at), Undispatched(t, at).decisionResults[0];
    RecordedCommitIsDuplicate(adapter, w.log, trace, result, later);
    FirstEventFindsTrace(adapter, w, trace, result, later, t);
  }

  // ---------------------------------------------------------------- history

  /** What `w` has settled stands in `v`: recorded events, announcements, kept traces and their
      projections, resolved gates. */
  ghost predicate Stands(strict: bool, w: World, v: World) {
    && IsPrefix(w.log, v.log) && IsPrefix(w.bus, v.bus)
    && (forall id :: id in w.traces.byTraceId ==>
          && id in v.traces.byTraceId && v.traces.byTraceId[id] == w.traces.byTraceId[id]
          && (strict ==> ProjectionOf(v.log, id) == ProjectionOf(w.log, id)))
    && (forall id :: id in w.gates.store && id in w.gates.results && !w.gates.store[id].status.GatePending? ==>
          && id in v.gates.store && v.gates.store[id] == w.gates.store[id]
          && id in v.gates.results && v.gates.results[id] == w.gates.results[id])
  }

  lemma StandsTransitive(strict: bool, u: World, v: World, w: World)
    requires Stands(strict, u, v) && Stands(strict, v, w)
    ensures Stands(strict, u, w)
  {
    PrefixTransitive(u.log, v.log, w.log);
    PrefixTransitive(u.bus, v.bus, w.bus);
  }

  /** A gate event leaves no mark on the projection of a trace that has events. */
  lemma GateEventLeavesProjection(log: Log, event: LedgerEvent, id: string)
    requires event.stepType == StepText(HumanStep) && OfTrace(log, id) != []
    ensures ProjectionOf(Appended(log, event), id) == ProjectionOf(log, id)
  {
    if !Has(log, event.eventId) && event.traceId == id {
      OfTraceAppend(log, event, id);
      var events := OfTrace(log, id);
      var start := Partial(None, events[0].occurredAt, [], None);
      AbsorbedConcat(start, events, [event]);
      HumanEventsLeaveNoMark(Absorbed(start, events), [event]);
      assert (events + [event])[0] == events[0];
    } else if !Has(log, event.eventId) {
      OfTraceAppend(log, event, id);
    }
  }

  lemma AppendLeavesProjection(adapter: Adapter, log: Log, event: LedgerEvent, t: DecisionTrace)
    requires IsArchived(adapter, log, t)
    requires event.traceId != t.id || event.stepType == StepText(HumanStep)
    ensures ProjectionOf(Appended(log, event), t.id) == ProjectionOf(log, t.id)
  {
    var at, later :| Holds(adapter, log, Undispatched(t, at), Undispatched(t, at).decisionResults[0], later);
    if event.traceId == t.id {
      GateEventLeavesProjection(log, event, t.id);
    } else if !Has(log, event.eventId) {
      OfTraceAppend(log, event, t.id);
    }
  }

  lemma EffectStands(adapter: Adapter, strict: bool, past: set<Inquiry>, w: World, effect: Effect)
    requires Sound(adapter, strict, past, w) && IsSafe(adapter, strict, past, w, effect)
    ensures Stands(strict, w, After(w, effect))
  {
    if effect.AppendEvent? && strict {
      forall id | id in w.traces.byTraceId
        ensures ProjectionOf(Appended(w.log, effect.event), id) == ProjectionOf(w.log, id)
      {
        AppendLeavesProjection(adapter, w.log, effect.event, w.traces.byTraceId[id]);
      }
    }
  }

  ghost predicate SoundAndStands(adapter: Adapter, strict: bool, past: set<Inquiry>, w: World, v: World) {
    Sound(adapter, strict, past, v) && Stands(strict, w, v)
  }

  lemma WriteStands(adapter: Adapter, strict: bool, past: set<Inquiry>, w: World, effects: seq<Effect>, i: nat)
    requires i < |effects| && AllSafe(adapter, strict, past, w, effects)
    ensures SoundAndStands(adapter, strict, past, w, Applied(w, effects[..i])) ==>
              SoundAndStands(adapter, strict, past, w, Applied(w, effects[..i + 1]))
  {
    var before := Applied(w, effects[..i]);
    assert effects[..i + 1][..i] == effects[..i];
    if SoundAndStands(adapter, strict, past, w, before) {
      EffectKeepsSound(adapter, strict, past, before, effects[i]);
      EffectStands(adapter, strict, past, before, effects[i]);
      StandsTransitive(strict, w, before, After(before, effects[i]));
    }
  }

  lemma WritesStand(adapter: Adapter, strict: bool, past: set<Inquiry>, w: World, effects: seq<Effect>)
    requires Sound(adapter, strict, past, w) && AllSafe(adapter, strict, past, w, effects)
    ensures Stands(strict, w, Applied(w, effects))
  {
    var p := v => SoundAndStands(adapter, strict, past, w, v);
    forall i: nat | i < |effects| && p(Applied(w, effects[..i])) ensures p(Applied(w, effects[..i + 1])) {
      WriteStands(adapter, strict, past, w, effects, i);
    }
    WritesKeep(p, w, effects, |effects|);
    assert effects[..|effects|] == effects;
  }

  lemma HandlingStands(settings: Settings, adapter: Adapter, past: set<Inquiry>, w: World, call: Call)
    requires Uses(settings, adapter) && Sound(adapter, CommitsFirst(settings), past, w) && AtRest(w)
    requires IsReady(settings, past, w, call)
    ensures Stands(CommitsFirst(settings), w, Applied(w, Handled(settings, w, call).effects))
  {
    var effects := Handled(settings, w, call).effects;
    HandlingIsSafe(settings, adapter, past, w, call);
    WritesStand(adapter, CommitsFirst(settings), past, w, effects);
  }

  lemma CallStands(settings: Settings, adapter: Adapter, calls: seq<Call>, n: nat)
    requires Uses(settings, adapter) && AllFresh(settings, calls) && n < |calls|
    ensures Stands(CommitsFirst(settings), WorldAfter(settings, calls[..n]), WorldAfter(settings, calls[..n + 1]))
  {
    FreshPrefix(settings, calls, n + 1);
    FreshPrefix(settings, calls, n);
    assert calls[..n + 1][..n] == calls[..n];
    RunIsSound(settings, adapter, calls[..n]);
    BeforeLastIsSound(settings, adapter, calls[..n + 1]);
    LastCallIsReady(settings, calls[..n + 1]);
    HandlingStands(settings, adapter, PastOf(settings, calls[..n + 1]), WorldAfter(settings, calls[..n]), calls[n]);
    WorldStep(settings, calls, n);
  }

  lemma StandsReflexive(strict: bool, w: World)
    ensures Stands(strict, w, w)
  {
  }

  lemma NextCallStands(settings: Settings, adapter: Adapter, calls: seq<Call>, w: World, n: nat)
    requires Uses(settings, adapter) && AllFresh(settings, calls) && n < |calls|
    requires Stands(CommitsFirst(settings), w, WorldAfter(settings, calls[..n]))
    ensures Stands(CommitsFirst(settings), w, WorldAfter(settings, calls[..n + 1]))
  {
    CallStands(settings, adapter, calls, n);
    StandsTransitive(CommitsFirst(settings), w, WorldAfter(settings, calls[..n]), WorldAfter(settings, calls[..n + 1]));
  }

  /** Whatever a run goes on to do, nothing settled changes: the ledger and the bus only grow, kept
      traces and (in strict mode) their projections stay the same, resolved gates stay resolved. */
  lemma {:induction false} HistoryStands(settings: Settings, adapter: Adapter, calls: seq<Call>, i: nat, j: nat)
    requires Uses(settings, adapter) && AllFresh(settings, calls) && i <= j <= |calls|
    ensures Stands(CommitsFirst(settings), WorldAfter(settings, calls[..i]), WorldAfter(settings, calls[..j]))
  {
    if i == j {
      StandsReflexive(CommitsFirst(settings), WorldAfter(settings, calls[..i]));
    } else {
      HistoryStands(settings, adapter, calls, i, j - 1);
      NextCallStands(settings, adapter, calls, WorldAfter(settings, calls[..i]), j - 1);
    }
  }

  // ---------------------------------------------------------------- gates

  /** In every run, at every moment: a decision that was held at a gate is not announced and not handed
      over, neither while it waits nor after it is approved. */
  lemma EscalatedNeverRuns(settings: Settings, adapter: Adapter, calls: seq<Call>, k: nat)
    requires Uses(settings, adapter) && AllFresh(settings, calls)
    ensures var w := Moment(settings, calls, k);
            forall id, m :: id in w.gates.results && (m in w.bus || m in w.published) ==> m.decisionId != w.gates.results[id].id
  {
    EveryMomentIsSound(settings, adapter, calls, k);
    var w := Moment(settings, calls, k);
    PublishedAreOnBus(PastOf(settings, calls), w.bus, w.published);
  }

  lemma PublishedAreOnBus(past: set<Inquiry>, bus: seq<RuntimeEvent>, published: seq<RuntimeEvent>)
    requires BusSound(past, bus, published)
    ensures forall m :: m in published ==> m in bus
  {
    assert forall i :: 0 <= i < |published| ==> published[i] == bus[i];
  }

  ghost predicate ResolvesGate(naming: Naming, e: LedgerEvent, gateId: Uuid, action: string) {
    e.eventId == naming(e.traceId, GateActionKey(gateId, action))
  }

  lemma ResolutionIsAsTheGate(naming: Naming, g: Gates, e: LedgerEvent, gateId: Uuid, action: string)
    requires IsInjective(naming) && IsExplained(naming, g, e) && ResolvesGate(naming, e, gateId, action)
    ensures gateId in g.store && g.store[gateId].traceId == Some(e.traceId) && g.store[gateId].responseValue == Some(action)
  {
    var key :| e.eventId == naming(e.traceId, key) && KeyFits(g, e.traceId, key);
    assert key == GateActionKey(gateId, action);
  }

  /** The status of a gate and of its decision after an action. */
  ghost predicate IsSettledAs(g: Gates, gateId: Uuid, action: string) {
    && gateId in g.store && gateId in g.results
    && ((action == "approve" && g.store[gateId].status == GateApproved && g.results[gateId].status == Confirmed)
        || (action == "reject" && g.store[gateId].status == GateRejected && g.results[gateId].status == Rejected
            && g.results[gateId].action.None?))
  }

  lemma ResolutionsAgree(naming: Naming, g: Gates, log: Log, gateId: Uuid, e: LedgerEvent, action: string,
                         f: LedgerEvent, other: string)
    requires IsInjective(naming) && GatesInv(g) && LogFits(naming, g, log)
    requires e in log && ResolvesGate(naming, e, gateId, action)
    requires f in log && ResolvesGate(naming, f, gateId, other)
    ensures e == f && action == other
    ensures IsSettledAs(g, gateId, action) && g.store[gateId].traceId == Some(e.traceId)
  {
    ResolutionIsAsTheGate(naming, g, e, gateId, action);
    ResolutionIsAsTheGate(naming, g, f, gateId, other);
    assert InStep(g.store[gateId], g.results[gateId]);
    var i :| 0 <= i < |log| && log[i] == e;
    var j :| 0 <= j < |log| && log[j] == f;
    assert log[i].eventId == log[j].eventId;
  }

  /** At most one event of the log resolves the gate; it stands on the trace of the gate and says what
      the status of the gate and of its decision say. */
  ghost predicate ResolvedOnce(naming: Naming, g: Gates, log: Log, gateId: Uuid) {
    forall e, action, f, other ::
      e in log && ResolvesGate(naming, e, gateId, action) && f in log && ResolvesGate(naming, f, gateId, other) ==>
        && e == f && action == other
        && IsSettledAs(g, gateId, action) && g.store[gateId].traceId == Some(e.traceId)
  }

  lemma SoundGatesResolveOnce(naming: Naming, g: Gates, log: Log, gateId: Uuid)
    requires IsInjective(naming) && GatesInv(g) && LogFits(naming, g, log)
    ensures ResolvedOnce(naming, g, log, gateId)
  {
    forall e, action, f, other |
      e in log && ResolvesGate(naming, e, gateId, action) && f in log && ResolvesGate(naming, f, gateId, other)
      ensures e == f && action == other
              && IsSettledAs(g, gateId, action) && g.store[gateId].traceId == Some(e.traceId)
    {
      ResolutionsAgree(naming, g, log, gateId, e, action, f, other);
    }
  }

  /** So in every run each gate is resolved at most once, in the ledger and in the manager alike. */
  lemma OneResolutionPerGate(settings: Settings, adapter: Adapter, calls: seq<Call>, gateId: Uuid)
    requires Uses(settings, adapter) && IsInjective(adapter.naming) && AllFresh(settings, calls)
    ensures ResolvedOnce(adapter.naming, WorldAfter(settings, calls).gates, WorldAfter(settings, calls).log, gateId)
  {
    RunIsSound(settings, adapter, calls);
    SoundGatesResolveOnce(adapter.naming, WorldAfter(settings, calls).gates, WorldAfter(settings, calls).log, gateId);
  }
}
