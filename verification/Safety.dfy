/** The invariant of the shared state, and the single writes that keep it. */
module Safety {
  import opened Basics
  import opened Values
  import opened Flows
  import opened Decisions
  import opened LedgerClient
  import opened LedgerAdapter
  import opened LedgerProjector
  import opened HumanGates
  import opened EventBus
  import opened TraceStore
  import opened Worlds
  import opened Engine

  // ---------------------------------------------------------------- evaluations

  /** One evaluation: what it was asked, what it drew, and what pure evaluation found. */
  datatype Inquiry = Inquiry(signal: Signal, flow: Flow, draw: Draw, result: DecisionResult, records: seq<Record>)

  /** The decision before dispatch, with its gate if it has one. */
  function DecisionOf(q: Inquiry): DecisionResult {
    WithGate(q.result, q.draw)
  }

  function TraceToCommit(q: Inquiry): DecisionTrace {
    CommitTrace(q.signal, q.flow, DecisionOf(q), q.records, q.draw)
  }

  function TraceToKeep(q: Inquiry): DecisionTrace {
    FinalTrace(q.signal, q.flow, DecisionOf(q), q.records, q.draw)
  }

  function RequestOf(q: Inquiry): RuntimeEvent {
    ExecutionEvent(DecisionOf(q), q.draw)
  }

  // ---------------------------------------------------------------- gates and the log

  /** A resolution event is of a gate resolved in this way, on the trace of the gate. */
  ghost predicate KeyFits(g: Gates, traceId: Uuid, key: StepKey) {
    key.GateActionKey? ==>
      && key.gate in g.store
      && g.store[key.gate].traceId == Some(traceId)
      && g.store[key.gate].responseValue == Some(key.action)
  }

  ghost predicate IsExplained(naming: Naming, g: Gates, event: LedgerEvent) {
    exists key :: event.eventId == naming(event.traceId, key) && KeyFits(g, event.traceId, key)
  }

  ghost predicate LogFits(naming: Naming, g: Gates, log: Log) {
    DistinctIds(log) && forall e :: e in log ==> IsExplained(naming, g, e)
  }

  /** No decision held at a gate is announced. */
  ghost predicate GatesApart(g: Gates, bus: seq<RuntimeEvent>) {
    forall id, m :: id in g.results && m in bus ==> m.decisionId != g.results[id].id
  }

  // ---------------------------------------------------------------- executions

  /** No id is used twice on the bus. */
  ghost predicate IsNewTo(bus: seq<RuntimeEvent>, m: RuntimeEvent) {
    forall n :: n in bus ==>
      n.id != m.id && n.traceId != m.traceId && n.decisionId != m.decisionId && n.executionId != m.executionId
  }

  ghost predicate DistinctMessages(bus: seq<RuntimeEvent>) {
    forall i, j :: 0 <= i < j < |bus| ==>
      && bus[i].id != bus[j].id && bus[i].traceId != bus[j].traceId
      && bus[i].decisionId != bus[j].decisionId && bus[i].executionId != bus[j].executionId
  }

  ghost predicate IsOnBus(bus: seq<RuntimeEvent>, traceId: string) {
    exists m :: m in bus && m.traceId == traceId
  }

  /** The message requests exactly the execution that the decision holds. */
  ghost predicate Requests(m: RuntimeEvent, result: DecisionResult) {
    && m.decisionId == result.id && m.traceId == result.traceId && m.flowId == result.flowId
    && Some(m.executionId) == result.executionId && m.action == result.action
  }

  // ---------------------------------------------------------------- kept traces

  /** A trace as the engine keeps it: one decision, announced exactly when it is confirmed. */
  ghost predicate IsKept(bus: seq<RuntimeEvent>, t: DecisionTrace) {
    && |t.decisionResults| == 1
    && t.decisionResults[0].traceId == t.id
    && t.decisionId == Some(t.decisionResults[0].id)
    && t.signalId.Some? && AllEngineRecords(t.evaluatedNodes)
    && (t.decisionResults[0].status == Confirmed <==> IsOnBus(bus, t.id))
    && forall m :: m in bus && m.traceId == t.id ==> Requests(m, t.decisionResults[0])
  }

  /** Every kept trace is found by its decision, and only kept traces are found. */
  ghost predicate IndexFits(s: Traces) {
    && (forall id :: id in s.byTraceId && s.byTraceId[id].decisionId.Some? ==>
          s.byTraceId[id].decisionId.value in s.byDecisionId
          && s.byDecisionId[s.byTraceId[id].decisionId.value] == s.byTraceId[id])
    && (forall d :: d in s.byDecisionId ==>
          s.byDecisionId[d].id in s.byTraceId && s.byTraceId[s.byDecisionId[d].id] == s.byDecisionId[d])
  }

  // ---------------------------------------------------------------- the ledger comes first

  /** The log of the trace is one whole evaluation, followed by gate resolutions only. */
  ghost predicate Holds(adapter: Adapter, log: Log, trace: DecisionTrace, result: DecisionResult, later: Log) {
    OfTrace(log, trace.id) == EventsFor(adapter, trace, result) + later && AllHuman(later)
  }

  /** The message requests the execution of a confirmed evaluation. */
  ghost predicate IsRequestOf(q: Inquiry, m: RuntimeEvent) {
    DecisionOf(q).status == Confirmed && m == RequestOf(q)
  }

  /** And the ledger holds all of that evaluation: its signal, every node record, its outcome. */
  ghost predicate IsRecordedAs(adapter: Adapter, q: Inquiry, log: Log, m: RuntimeEvent, later: Log) {
    IsRequestOf(q, m) && Holds(adapter, log, TraceToCommit(q), DecisionOf(q), later)
  }

  ghost predicate IsRecorded(adapter: Adapter, past: set<Inquiry>, log: Log, m: RuntimeEvent) {
    exists q, later :: q in past && IsRecordedAs(adapter, q, log, m, later)
  }

  ghost predicate IsRequested(past: set<Inquiry>, m: RuntimeEvent) {
    exists q :: q in past && IsRequestOf(q, m)
  }

  /** The trace is kept as an evaluation left it. */
  ghost predicate IsLeftBy(past: set<Inquiry>, t: DecisionTrace) {
    exists q :: q in past && t == TraceToKeep(q)
  }

  /** A confirmed result has its request on the bus. */
  ghost predicate IsHonoured(bus: seq<RuntimeEvent>, result: DecisionResult) {
    result.status == Confirmed ==> exists m :: m in bus && Requests(m, result)
  }

  /** The kept trace as it was when it was committed: before dispatch. */
  function Undispatched(t: DecisionTrace, at: int): DecisionTrace
    requires |t.decisionResults| == 1
  {
    t.(completedAt := Some(at), decisionResults := [t.decisionResults[0].(executionId := None)])
  }

  ghost predicate IsArchived(adapter: Adapter, log: Log, t: DecisionTrace) {
    && |t.decisionResults| == 1
    && exists at, later :: Holds(adapter, log, Undispatched(t, at), Undispatched(t, at).decisionResults[0], later)
  }

  ghost predicate LedgerFirst(adapter: Adapter, past: set<Inquiry>, w: World) {
    && (forall m :: m in w.bus ==> IsRecorded(adapter, past, w.log, m))
    && (forall id :: id in w.traces.byTraceId ==> IsArchived(adapter, w.log, w.traces.byTraceId[id]))
  }

  // ---------------------------------------------------------------- the invariant

  ghost predicate BusSound(past: set<Inquiry>, bus: seq<RuntimeEvent>, published: seq<RuntimeEvent>) {
    DistinctMessages(bus) && IsPrefix(published, bus) && forall m :: m in bus ==> IsRequested(past, m)
  }

  ghost predicate TracesSound(past: set<Inquiry>, bus: seq<RuntimeEvent>, s: Traces) {
    && TracesInv(s) && IndexFits(s)
    && forall id :: id in s.byTraceId ==> IsKept(bus, s.byTraceId[id]) && IsLeftBy(past, s.byTraceId[id])
  }

  ghost predicate CacheSound(bus: seq<RuntimeEvent>, cache: map<string, DecisionResult>) {
    forall key :: key in cache ==> IsHonoured(bus, cache[key])
  }

  ghost predicate GatesSound(naming: Naming, g: Gates, log: Log, bus: seq<RuntimeEvent>) {
    GatesInv(g) && LogFits(naming, g, log) && GatesApart(g, bus)
  }

  /** `past` are the evaluations made so far; `strict` adds that the ledger comes first. */
  ghost predicate Sound(adapter: Adapter, strict: bool, past: set<Inquiry>, w: World) {
    && GatesSound(adapter.naming, w.gates, w.log, w.bus)
    && BusSound(past, w.bus, w.published)
    && TracesSound(past, w.bus, w.traces)
    && CacheSound(w.bus, w.cache)
    && (strict ==> LedgerFirst(adapter, past, w))
  }

  /** When a write keeps the invariant. */
  ghost predicate IsSafe(adapter: Adapter, strict: bool, past: set<Inquiry>, w: World, effect: Effect) {
    match effect
    case OpenGate(request, held) =>
      && held.status == PendingHuman && request.id !in w.gates.store
      && request == NewRequest(request.id, held, request.requiredRole, request.createdAt)
      && (forall m :: m in w.bus ==> m.decisionId != held.id)
    case SettleGate(id, _) => id in w.gates.store && w.gates.store[id].status.GatePending?
    case AppendEvent(event) =>
      && IsExplained(adapter.naming, w.gates, event)
      && (strict ==> event.stepType == StepText(HumanStep)
                     || (event.traceId !in w.traces.byTraceId && !IsOnBus(w.bus, event.traceId)))
    case Announce(m) =>
      && w.published == w.bus && IsNewTo(w.bus, m) && m.traceId !in w.traces.byTraceId && IsRequested(past, m)
      && (forall id :: id in w.gates.results ==> w.gates.results[id].id != m.decisionId)
      && (strict ==> IsRecorded(adapter, past, w.log, m))
    case HandOver(m) => |w.published| < |w.bus| && w.bus[|w.published|] == m
    case Remember(_, result) => IsHonoured(w.bus, result)
    case SaveTrace(t) =>
      && t.id !in w.traces.byTraceId && IsKept(w.bus, t) && IsLeftBy(past, t)
      && t.decisionId.value !in w.traces.byDecisionId
      && (strict ==> IsArchived(adapter, w.log, t))
  }

  // ---------------------------------------------------------------- each write

  lemma OpeningKeepsLog(naming: Naming, g: Gates, log: Log, request: GateRequest, held: DecisionResult)
    requires LogFits(naming, g, log) && request.id !in g.store
    ensures LogFits(naming, Opened(g, request, held), log)
  {
    forall e | e in log ensures IsExplained(naming, Opened(g, request, held), e) {
      var key :| e.eventId == naming(e.traceId, key) && KeyFits(g, e.traceId, key);
      assert KeyFits(Opened(g, request, held), e.traceId, key);
    }
  }

  lemma SettlingKeepsLog(naming: Naming, g: Gates, log: Log, id: string, r: Resolution)
    requires LogFits(naming, g, log) && GatesInv(g) && id in g.store && g.store[id].status.GatePending?
    ensures LogFits(naming, Settled(g, id, r), log)
  {
    assert InStep(g.store[id], g.results[id]);
    forall e | e in log ensures IsExplained(naming, Settled(g, id, r), e) {
      var key :| e.eventId == naming(e.traceId, key) && KeyFits(g, e.traceId, key);
      assert KeyFits(Settled(g, id, r), e.traceId, key);
    }
  }

  lemma AppendingKeepsLog(naming: Naming, g: Gates, log: Log, event: LedgerEvent)
    requires LogFits(naming, g, log) && IsExplained(naming, g, event)
    ensures LogFits(naming, g, Appended(log, event))
  {
  }

  /** Neither an event of another trace nor a gate event disturbs a recorded evaluation. */
  lemma AppendingKeepsHolds(adapter: Adapter, log: Log, event: LedgerEvent, trace: DecisionTrace, result: DecisionResult,
                            later: Log)
    returns (longer: Log)
    requires Holds(adapter, log, trace, result, later)
    requires event.traceId != trace.id || event.stepType == StepText(HumanStep)
    ensures Holds(adapter, Appended(log, event), trace, result, longer)
  {
    longer := later;
    if !Has(log, event.eventId) {
      OfTraceAppend(log, event, trace.id);
      if event.traceId == trace.id {
        longer := later + [event];
        assert EventsFor(adapter, trace, result) + later + [event] == EventsFor(adapter, trace, result) + longer;
      }
    }
  }

  lemma AppendingKeepsRecorded(adapter: Adapter, past: set<Inquiry>, log: Log, event: LedgerEvent, m: RuntimeEvent)
    requires IsRecorded(adapter, past, log, m)
    requires event.traceId != m.traceId || event.stepType == StepText(HumanStep)
    ensures IsRecorded(adapter, past, Appended(log, event), m)
  {
    var q, later :| q in past && IsRecordedAs(adapter, q, log, m, later);
    var longer := AppendingKeepsHolds(adapter, log, event, TraceToCommit(q), DecisionOf(q), later);
    assert IsRecordedAs(adapter, q, Appended(log, event), m, longer);
  }

  lemma AppendingKeepsArchived(adapter: Adapter, log: Log, event: LedgerEvent, t: DecisionTrace)
    requires IsArchived(adapter, log, t)
    requires event.traceId != t.id || event.stepType == StepText(HumanStep)
    ensures IsArchived(adapter, Appended(log, event), t)
  {
    var at, later :| Holds(adapter, log, Undispatched(t, at), Undispatched(t, at).decisionResults[0], later);
    var longer := AppendingKeepsHolds(adapter, log, event, Undispatched(t, at), Undispatched(t, at).decisionResults[0], later);
  }

  lemma AppendingKeepsLedgerFirst(adapter: Adapter, past: set<Inquiry>, w: World, event: LedgerEvent)
    requires LedgerFirst(adapter, past, w) && TracesInv(w.traces)
    requires event.stepType == StepText(HumanStep)
             || (event.traceId !in w.traces.byTraceId && !IsOnBus(w.bus, event.traceId))
    ensures LedgerFirst(adapter, past, After(w, AppendEvent(event)))
  {
    forall m | m in w.bus ensures IsRecorded(adapter, past, Appended(w.log, event), m) {
      AppendingKeepsRecorded(adapter, past, w.log, event, m);
    }
    forall id | id in w.traces.byTraceId ensures IsArchived(adapter, Appended(w.log, event), w.traces.byTraceId[id]) {
      AppendingKeepsArchived(adapter, w.log, event, w.traces.byTraceId[id]);
    }
  }

  lemma AnnouncingKeepsKept(bus: seq<RuntimeEvent>, m: RuntimeEvent, t: DecisionTrace)
    requires IsKept(bus, t) && m.traceId != t.id
    ensures IsKept(bus + [m], t)
  {
    assert forall n :: n in bus + [m] <==> n in bus || n == m;
  }

  lemma AnnouncingKeepsHonoured(bus: seq<RuntimeEvent>, m: RuntimeEvent, result: DecisionResult)
    requires IsHonoured(bus, result)
    ensures IsHonoured(bus + [m], result)
  {
  }

  lemma AnnouncingKeepsTraces(past: set<Inquiry>, bus: seq<RuntimeEvent>, s: Traces, m: RuntimeEvent)
    requires TracesSound(past, bus, s) && m.traceId !in s.byTraceId
    ensures TracesSound(past, bus + [m], s)
  {
    forall id | id in s.byTraceId ensures IsKept(bus + [m], s.byTraceId[id]) {
      AnnouncingKeepsKept(bus, m, s.byTraceId[id]);
    }
  }

  lemma AnnouncingKeepsBus(past: set<Inquiry>, bus: seq<RuntimeEvent>, m: RuntimeEvent)
    requires BusSound(past, bus, bus) && IsNewTo(bus, m) && IsRequested(past, m)
    ensures BusSound(past, bus + [m], bus)
  {
  }

  lemma AnnouncingKeepsCache(bus: seq<RuntimeEvent>, cache: map<string, DecisionResult>, m: RuntimeEvent)
    requires CacheSound(bus, cache)
    ensures CacheSound(bus + [m], cache)
  {
    forall key | key in cache ensures IsHonoured(bus + [m], cache[key]) {
      AnnouncingKeepsHonoured(bus, m, cache[key]);
    }
  }

  lemma HandingOverKeepsBus(past: set<Inquiry>, bus: seq<RuntimeEvent>, published: seq<RuntimeEvent>, m: RuntimeEvent)
    requires BusSound(past, bus, published) && |published| < |bus| && bus[|published|] == m
    ensures BusSound(past, bus, published + [m])
  {
    assert bus[..|published| + 1] == bus[..|published|] + [m];
  }

  lemma SavingKeepsIndex(s: Traces, bus: seq<RuntimeEvent>, t: DecisionTrace)
    requires IndexFits(s) && IsKept(bus, t) && t.id !in s.byTraceId && t.decisionId.value !in s.byDecisionId
    ensures IndexFits(Saved(s, t))
  {
    assert t.decisionResults[..0] == [];
    assert IndexedByResults(s.byDecisionId, t, t.decisionResults) == s.byDecisionId[t.decisionId.value := t];
  }

  lemma SavingKeepsTraces(past: set<Inquiry>, bus: seq<RuntimeEvent>, s: Traces, t: DecisionTrace)
    requires TracesSound(past, bus, s) && IsKept(bus, t) && IsLeftBy(past, t)
    requires t.id !in s.byTraceId && t.decisionId.value !in s.byDecisionId
    ensures TracesSound(past, bus, Saved(s, t))
  {
    SavingKeepsInv(s, t);
    SavingKeepsIndex(s, bus, t);
    SavedIsKept(past, bus, s, t);
  }

  lemma SavedIsKept(past: set<Inquiry>, bus: seq<RuntimeEvent>, s: Traces, t: DecisionTrace)
    requires forall id :: id in s.byTraceId ==> IsKept(bus, s.byTraceId[id]) && IsLeftBy(past, s.byTraceId[id])
    requires IsKept(bus, t) && IsLeftBy(past, t)
    ensures forall id :: id in Saved(s, t).byTraceId ==>
              IsKept(bus, Saved(s, t).byTraceId[id]) && IsLeftBy(past, Saved(s, t).byTraceId[id])
  {
  }

  lemma OpeningKeepsGates(naming: Naming, g: Gates, log: Log, bus: seq<RuntimeEvent>, request: GateRequest, held: DecisionResult)
    requires GatesSound(naming, g, log, bus) && held.status == PendingHuman && request.id !in g.store
    requires request == NewRequest(request.id, held, request.requiredRole, request.createdAt)
    requires forall m :: m in bus ==> m.decisionId != held.id
    ensures GatesSound(naming, Opened(g, request, held), log, bus)
  {
    OpeningKeepsInv(g, request.id, held, request.requiredRole, request.createdAt);
    OpeningKeepsLog(naming, g, log, request, held);
  }

  lemma SettlingKeepsGates(naming: Naming, g: Gates, log: Log, bus: seq<RuntimeEvent>, id: string, r: Resolution)
    requires GatesSound(naming, g, log, bus) && id in g.store && g.store[id].status.GatePending?
    ensures GatesSound(naming, Settled(g, id, r), log, bus)
  {
    AnsweredIsInStep(g.store[id], g.results[id], r);
    SettlingKeepsLog(naming, g, log, id, r);
  }

  lemma AppendingKeepsGates(naming: Naming, g: Gates, log: Log, bus: seq<RuntimeEvent>, event: LedgerEvent)
    requires GatesSound(naming, g, log, bus) && IsExplained(naming, g, event)
    ensures GatesSound(naming, g, Appended(log, event), bus)
  {
    AppendingKeepsLog(naming, g, log, event);
  }

  lemma AnnouncingKeepsGates(naming: Naming, g: Gates, log: Log, bus: seq<RuntimeEvent>, m: RuntimeEvent)
    requires GatesSound(naming, g, log, bus) && forall id :: id in g.results ==> g.results[id].id != m.decisionId
    ensures GatesSound(naming, g, log, bus + [m])
  {
  }

  /** Every safe write keeps the invariant. */
  lemma EffectKeepsSound(adapter: Adapter, strict: bool, past: set<Inquiry>, w: World, effect: Effect)
    requires Sound(adapter, strict, past, w) && IsSafe(adapter, strict, past, w, effect)
    ensures Sound(adapter, strict, past, After(w, effect))
  {
    match effect {
      case OpenGate(request, held) =>
        OpeningKeepsGates(adapter.naming, w.gates, w.log, w.bus, request, held);
      case SettleGate(id, r) =>
        SettlingKeepsGates(adapter.naming, w.gates, w.log, w.bus, id, r);
      case AppendEvent(event) =>
        AppendingKeepsGates(adapter.naming, w.gates, w.log, w.bus, event);
        if strict { AppendingKeepsLedgerFirst(adapter, past, w, event); }
      case Announce(m) =>
        AnnouncingKeepsGates(adapter.naming, w.gates, w.log, w.bus, m);
        AnnouncingKeepsBus(past, w.bus, m);
        AnnouncingKeepsTraces(past, w.bus, w.traces, m);
        AnnouncingKeepsCache(w.bus, w.cache, m);
      case HandOver(m) => HandingOverKeepsBus(past, w.bus, w.published, m);
      case Remember(_, _) =>
      case SaveTrace(t) => SavingKeepsTraces(past, w.bus, w.traces, t);
    }
  }

  /** More evaluations take nothing away. */
  lemma MorePastKeepsSound(adapter: Adapter, strict: bool, past: set<Inquiry>, more: set<Inquiry>, w: World)
    requires Sound(adapter, strict, past, w) && past <= more
    ensures Sound(adapter, strict, more, w)
  {
    if strict {
      forall m | m in w.bus ensures IsRecorded(adapter, more, w.log, m) {
        var q, later :| q in past && IsRecordedAs(adapter, q, w.log, m, later);
        assert q in more;
      }
    }
  }

  /** What recovery finds is honoured. */
  lemma RecoveredIsHonoured(adapter: Adapter, strict: bool, past: set<Inquiry>, w: World, ids: seq<string>, signal: Signal)
    requires Sound(adapter, strict, past, w) && Recovered(w, ids, signal).Some?
    ensures IsHonoured(w.bus, Recovered(w, ids, signal).value)
  {
    if !(HasKey(signal) && signal.idempotencyKey.value in w.cache) {
      FoundIsHonoured(adapter, strict, past, w, ids);
    }
  }

  lemma {:induction false} FoundIsHonoured(adapter: Adapter, strict: bool, past: set<Inquiry>, w: World, ids: seq<string>)
    requires Sound(adapter, strict, past, w) && FirstResult(w, ids).Some?
    ensures IsHonoured(w.bus, FirstResult(w, ids).value)
  {
    if ResultOfEvent(w, ids[0]).Some? {
      var t := w.traces.byDecisionId[EventWithId(w.log, ids[0]).value.decisionId];
      assert IsKept(w.bus, w.traces.byTraceId[t.id]);
    } else {
      FoundIsHonoured(adapter, strict, past, w, ids[1..]);
    }
  }

  // ---------------------------------------------------------------- sequences of writes

  /** Each write is safe in the state the writes before it leave. */
  ghost predicate AllSafe(adapter: Adapter, strict: bool, past: set<Inquiry>, w: World, effects: seq<Effect>) {
    forall k: nat :: k < |effects| ==> IsSafe(adapter, strict, past, Applied(w, effects[..k]), effects[k])
  }

  lemma ConcatAt(w: World, a: seq<Effect>, b: seq<Effect>, k: nat)
    requires k < |a| + |b|
    ensures if k < |a| then Applied(w, (a + b)[..k]) == Applied(w, a[..k]) && (a + b)[k] == a[k]
            else Applied(w, (a + b)[..k]) == Applied(Applied(w, a), b[..k - |a|]) && (a + b)[k] == b[k - |a|]
  {
    if k < |a| {
      assert (a + b)[..k] == a[..k];
    } else {
      AppliedConcat(w, a, b[..k - |a|]);
      assert (a + b)[..k] == a + b[..k - |a|];
    }
  }

  lemma SafeConcat(adapter: Adapter, strict: bool, past: set<Inquiry>, w: World, a: seq<Effect>, b: seq<Effect>)
    requires AllSafe(adapter, strict, past, w, a) && AllSafe(adapter, strict, past, Applied(w, a), b)
    ensures AllSafe(adapter, strict, past, w, a + b)
  {
    forall k: nat | k < |a + b| ensures IsSafe(adapter, strict, past, Applied(w, (a + b)[..k]), (a + b)[k]) {
      ConcatAt(w, a, b, k);
    }
  }

  lemma {:induction false} WritesKeep(p: World -> bool, w: World, effects: seq<Effect>, k: nat)
    requires k <= |effects| && p(w)
    requires forall i: nat :: i < k && p(Applied(w, effects[..i])) ==> p(Applied(w, effects[..i + 1]))
    ensures p(Applied(w, effects[..k]))
  {
    if k == 0 {
      assert Applied(w, effects[..0]) == w;
    } else {
      WritesKeep(p, w, effects, k - 1);
    }
  }

  lemma SafeWriteKeepsSound(adapter: Adapter, strict: bool, past: set<Inquiry>, w: World, effects: seq<Effect>, i: nat)
    requires i < |effects| && AllSafe(adapter, strict, past, w, effects)
    ensures Sound(adapter, strict, past, Applied(w, effects[..i])) ==> Sound(adapter, strict, past, Applied(w, effects[..i + 1]))
  {
    var before := Applied(w, effects[..i]);
    assert effects[..i + 1][..i] == effects[..i];
    if Sound(adapter, strict, past, before) { EffectKeepsSound(adapter, strict, past, before, effects[i]); }
  }

  /** The invariant holds at every moment of a sequence of safe writes. */
  lemma SafeWritesKeepSound(adapter: Adapter, strict: bool, past: set<Inquiry>, w: World, effects: seq<Effect>, k: nat)
    requires Sound(adapter, strict, past, w) && AllSafe(adapter, strict, past, w, effects) && k <= |effects|
    ensures Sound(adapter, strict, past, Applied(w, effects[..k]))
  {
    var p := v => Sound(adapter, strict, past, v);
    forall i: nat | i < k && p(Applied(w, effects[..i])) ensures p(Applied(w, effects[..i + 1])) {
      SafeWriteKeepsSound(adapter, strict, past, w, effects, i);
    }
    WritesKeep(p, w, effects, k);
  }

  lemma AllWritesKeepSound(adapter: Adapter, strict: bool, past: set<Inquiry>, w: World, effects: seq<Effect>)
    requires Sound(adapter, strict, past, w) && AllSafe(adapter, strict, past, w, effects)
    ensures Sound(adapter, strict, past, Applied(w, effects))
  {
    SafeWritesKeepSound(adapter, strict, past, w, effects, |effects|);
    assert effects[..|effects|] == effects;
  }
}
