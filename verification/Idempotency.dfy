/** Idempotency keys over whole runs: one answer and at most one requested execution per key. */
module Idempotency {
  import opened Basics
  import opened Values
  import opened Flows
  import opened Decisions
  import opened Evaluation
  import opened LedgerClient
  import opened LedgerAdapter
  import opened EventBus
  import opened Worlds
  import opened Engine
  import opened Routes
  import opened Runs
  import opened SafePlans

  // ---------------------------------------------------------------- one answer

  /** What a caller may repeat: an evaluation with a non-empty idempotency key. */
  predicate HasCallKey(call: Call, key: string) {
    call.EvaluateCall? && HasKey(call.signal) && call.signal.idempotencyKey.value == key
  }

  /** Some write changes what the cache holds for the key. */
  ghost predicate Rewrites(effects: seq<Effect>, key: string) {
    exists i: nat :: i < |effects| && effects[i].Remember? && effects[i].key == key
  }

  lemma {:induction false} CacheUntouched(w: World, effects: seq<Effect>, key: string)
    requires !Rewrites(effects, key)
    ensures key in Applied(w, effects).cache <==> key in w.cache
    ensures key in w.cache ==> Applied(w, effects).cache[key] == w.cache[key]
  {
    if effects != [] {
      var n := |effects| - 1;
      assert forall i: nat :: i < n ==> effects[..n][i] == effects[i];
      CacheUntouched(w, effects[..n], key);
    }
  }

  lemma RewritesConcat(a: seq<Effect>, b: seq<Effect>, key: string)
    requires !Rewrites(a, key) && !Rewrites(b, key)
    ensures !Rewrites(a + b, key)
  {
  }

  /** A strict commit opens a gate and appends events, no more. */
  lemma CommitIsQuiet(result: DecisionResult, draw: Draw, events: Log)
    ensures forall i :: 0 <= i < |Opening(result, draw) + Appends(events)| ==>
              (Opening(result, draw) + Appends(events))[i].OpenGate? || (Opening(result, draw) + Appends(events))[i].AppendEvent?
  {
  }

  lemma ClosingTouchesOwnKey(signal: Signal, flow: Flow, result: DecisionResult, records: seq<Record>, draw: Draw, key: string)
    requires !(HasKey(signal) && signal.idempotencyKey.value == key)
    ensures !Rewrites(Closing(signal, flow, result, records, draw), key)
  {
    assert !Rewrites(Dispatching(result, draw), key);
    assert !Rewrites(Remembering(signal, Dispatched(result, draw)), key);
    RewritesConcat(Dispatching(result, draw), Remembering(signal, Dispatched(result, draw)), key);
  }

  lemma StrictTouchesOwnKey(settings: Settings, adapter: Adapter, w: World, signal: Signal, flow: Flow, draw: Draw,
                            outage: Outage, result: DecisionResult, records: seq<Record>, key: string)
    requires !(HasKey(signal) && signal.idempotencyKey.value == key)
    ensures !Rewrites(PlanStrict(settings, adapter, w, signal, flow, draw, outage, result, records).effects, key)
  {
    var final := WithGate(result, draw);
    var reached := Reached(EventsFor(adapter, CommitTrace(signal, flow, final, records, draw), final), outage);
    CommitIsQuiet(result, draw, reached);
    ClosingTouchesOwnKey(signal, flow, final, records, draw, key);
    RewritesConcat(Opening(result, draw) + Appends(reached), Closing(signal, flow, final, records, draw), key);
  }

  lemma ParallelTouchesNoKey(settings: Settings, signal: Signal, flow: Flow, draw: Draw, outage: Outage,
                             result: DecisionResult, records: seq<Record>, key: string)
    ensures !Rewrites(PlanParallel(settings, signal, flow, draw, outage, result, records).effects, key)
  {
    var final := WithGate(result, draw);
    var trace := FinalTrace(signal, flow, final, records, draw);
    var recording := Recording(settings, trace, Dispatched(final, draw), outage);
    RewritesConcat(Dispatching(final, draw), [SaveTrace(trace)], key);
    RewritesConcat(Dispatching(final, draw) + [SaveTrace(trace)], recording, key);
    RewritesConcat(Opening(result, draw), Settling(settings, signal, flow, final, records, draw, outage), key);
  }

  lemma PlanTouchesOwnKey(settings: Settings, w: World, signal: Signal, flow: Flow, draw: Draw, outage: Outage, key: string)
    requires !(HasKey(signal) && signal.idempotencyKey.value == key)
    ensures !Rewrites(Planned(settings, w, signal, flow, draw, outage).effects, key)
  {
    var pure := Evaluated(JudgeFor(settings, signal), signal, flow, draw.stamp);
    if pure.Success? {
      var (result, records) := pure.value;
      if CommitsFirst(settings) {
        StrictTouchesOwnKey(settings, settings.ledger.value, w, signal, flow, draw, outage, result, records, key);
      } else {
        ParallelTouchesNoKey(settings, signal, flow, draw, outage, result, records, key);
      }
    }
  }

  lemma HandlingTouchesOwnKey(settings: Settings, w: World, call: Call, key: string)
    requires !HasCallKey(call, key)
    ensures !Rewrites(Handled(settings, w, call).effects, key)
  {
    if call.EvaluateCall? && call.flow.Some? {
      var plan := Planned(settings, w, call.signal, call.flow.value, call.draw, call.outage);
      PlanTouchesOwnKey(settings, w, call.signal, call.flow.value, call.draw, call.outage, key);
      if plan.answer.Success? {
        RewritesConcat(plan.effects, Remembering(call.signal, plan.answer.value), key);
      }
    }
  }

  /** A key once in the cache stays there with its result. */
  lemma HandlingKeepsCache(settings: Settings, w: World, call: Call, key: string)
    requires key in w.cache
    ensures key in Applied(w, Handled(settings, w, call).effects).cache
    ensures Applied(w, Handled(settings, w, call).effects).cache[key] == w.cache[key]
  {
    if !HasCallKey(call, key) {
      HandlingTouchesOwnKey(settings, w, call, key);
      CacheUntouched(w, Handled(settings, w, call).effects, key);
    }
  }

  /** An answered request leaves its answer under its key. */
  lemma AnswerIsCached(settings: Settings, w: World, call: Call, key: string)
    requires HasCallKey(call, key) && Handled(settings, w, call).response.Returned?
    ensures var cache := Applied(w, Handled(settings, w, call).effects).cache;
            key in cache && cache[key] == Handled(settings, w, call).response.result
  {
    if key !in w.cache {
      var plan := Planned(settings, w, call.signal, call.flow.value, call.draw, call.outage);
      AppliedConcat(w, plan.effects, Remembering(call.signal, plan.answer.value));
      RememberingWrites(Applied(w, plan.effects), call.signal, plan.answer.value);
    }
  }

  /** Before call number `n` the cache holds the result under the key. */
  ghost predicate IsCached(settings: Settings, calls: seq<Call>, key: string, result: DecisionResult, n: nat) {
    n <= |calls| && key in WorldAfter(settings, calls[..n]).cache && WorldAfter(settings, calls[..n]).cache[key] == result
  }

  lemma CacheStandsOnce(settings: Settings, calls: seq<Call>, key: string, result: DecisionResult, n: nat)
    requires n < |calls|
    ensures IsCached(settings, calls, key, result, n) ==> IsCached(settings, calls, key, result, n + 1)
  {
    WorldStep(settings, calls, n);
    if IsCached(settings, calls, key, result, n) {
      HandlingKeepsCache(settings, WorldAfter(settings, calls[..n]), calls[n], key);
    }
  }

  lemma {:induction false} Persists(p: nat -> bool, i: nat, j: nat)
    requires i <= j && p(i) && forall n: nat :: i <= n < j && p(n) ==> p(n + 1)
    ensures p(j)
  {
    if i < j { Persists(p, i, j - 1); }
  }

  lemma CacheStands(settings: Settings, calls: seq<Call>, key: string, result: DecisionResult, i: nat, j: nat)
    requires i <= j <= |calls| && IsCached(settings, calls, key, result, i)
    ensures IsCached(settings, calls, key, result, j)
  {
    var p := (n: nat) => IsCached(settings, calls, key, result, n);
    forall n: nat | i <= n < j && p(n) ensures p(n + 1) { CacheStandsOnce(settings, calls, key, result, n); }
    Persists(p, i, j);
  }

  /** Over every run, in every mode and with any outages: once a request with a key is answered, every
      later request with the key gets that answer and writes nothing. */
  lemma OneAnswerPerKey(settings: Settings, calls: seq<Call>, i: nat, j: nat, key: string)
    requires i < j < |calls| && HasCallKey(calls[i], key) && HasCallKey(calls[j], key)
    ensures HandlingOf(settings, calls, i).response.Returned? ==>
              HandlingOf(settings, calls, j) == Handling([], HandlingOf(settings, calls, i).response)
  {
    if HandlingOf(settings, calls, i).response.Returned? {
      WorldStep(settings, calls, i);
      AnswerIsCached(settings, WorldAfter(settings, calls[..i]), calls[i], key);
      CacheStands(settings, calls, key, HandlingOf(settings, calls, i).response.result, i + 1, j);
    }
  }

  ghost predicate Announces(effects: seq<Effect>) {
    exists i: nat :: i < |effects| && (effects[i].Announce? || effects[i].HandOver?)
  }

  lemma {:induction false} BusUntouched(w: World, effects: seq<Effect>)
    requires !Announces(effects)
    ensures Applied(w, effects).bus == w.bus && Applied(w, effects).published == w.published
  {
    if effects != [] {
      var n := |effects| - 1;
      assert forall i: nat :: i < n ==> effects[..n][i] == effects[i];
      BusUntouched(w, effects[..n]);
    }
  }

  lemma FailedStrictIsQuiet(settings: Settings, adapter: Adapter, w: World, signal: Signal, flow: Flow, draw: Draw,
                            outage: Outage, result: DecisionResult, records: seq<Record>)
    ensures var plan := PlanStrict(settings, adapter, w, signal, flow, draw, outage, result, records);
            plan.answer.Failure? ==> !Announces(plan.effects)
  {
    var final := WithGate(result, draw);
    CommitIsQuiet(result, draw, Reached(EventsFor(adapter, CommitTrace(signal, flow, final, records, draw), final), outage));
  }

  lemma FailedPlanIsQuiet(settings: Settings, w: World, signal: Signal, flow: Flow, draw: Draw, outage: Outage)
    ensures var plan := Planned(settings, w, signal, flow, draw, outage);
            plan.answer.Failure? ==> !Announces(plan.effects)
  {
    var pure := Evaluated(JudgeFor(settings, signal), signal, flow, draw.stamp);
    if pure.Success? && CommitsFirst(settings) {
      FailedStrictIsQuiet(settings, settings.ledger.value, w, signal, flow, draw, outage, pure.value.0, pure.value.1);
    }
  }

  /** Only an answered evaluation announces anything: not one that failed, and not a gate action. */
  lemma FailuresAnnounceNothing(settings: Settings, w: World, call: Call)
    ensures call.GateCall? || Handled(settings, w, call).response.HttpError? ==>
              !Announces(Handled(settings, w, call).effects)
  {
    if call.EvaluateCall? && call.flow.Some? {
      FailedPlanIsQuiet(settings, w, call.signal, call.flow.value, call.draw, call.outage);
    }
  }

  // ---------------------------------------------------------------- one execution

  /** What the writes announce on the bus. */
  function AnnouncedIn(effects: seq<Effect>): seq<RuntimeEvent> {
    if effects == [] then []
    else
      var n := |effects| - 1;
      AnnouncedIn(effects[..n]) + if effects[n].Announce? then [effects[n].message] else []
  }

  /** What the writes hand over to the publisher. */
  function HandedOverIn(effects: seq<Effect>): seq<RuntimeEvent> {
    if effects == [] then []
    else
      var n := |effects| - 1;
      HandedOverIn(effects[..n]) + if effects[n].HandOver? then [effects[n].message] else []
  }

  lemma {:induction false} MessagesConcat(a: seq<Effect>, b: seq<Effect>)
    ensures AnnouncedIn(a + b) == AnnouncedIn(a) + AnnouncedIn(b)
    ensures HandedOverIn(a + b) == HandedOverIn(a) + HandedOverIn(b)
  {
    if b == [] {
      assert a + b == a;
    } else {
      var n := |b| - 1;
      MessagesConcat(a, b[..n]);
      assert (a + b)[..|a| + n] == a + b[..n];
    }
  }

  /** The bus and the publisher grow by exactly these. */
  lemma {:induction false} MessagesGrowBus(w: World, effects: seq<Effect>)
    ensures Applied(w, effects).bus == w.bus + AnnouncedIn(effects)
    ensures Applied(w, effects).published == w.published + HandedOverIn(effects)
  {
    if effects == [] {
      assert w.bus + [] == w.bus && w.published + [] == w.published;
    } else {
      MessagesGrowBus(w, effects[..|effects| - 1]);
    }
  }

  lemma {:induction false} QuietSaysNothing(effects: seq<Effect>)
    requires !Announces(effects)
    ensures AnnouncedIn(effects) == [] && HandedOverIn(effects) == []
  {
    if effects != [] {
      var n := |effects| - 1;
      assert forall i: nat :: i < n ==> effects[..n][i] == effects[i];
      QuietSaysNothing(effects[..n]);
    }
  }

  ghost predicate SaysAtMostOnce(effects: seq<Effect>) {
    |AnnouncedIn(effects)| <= 1 && |HandedOverIn(effects)| <= 1
  }

  lemma QuietThen(a: seq<Effect>, b: seq<Effect>)
    requires !Announces(a) && SaysAtMostOnce(b)
    ensures SaysAtMostOnce(a + b)
  {
    QuietSaysNothing(a);
    MessagesConcat(a, b);
  }

  lemma ThenQuiet(a: seq<Effect>, b: seq<Effect>)
    requires SaysAtMostOnce(a) && !Announces(b)
    ensures SaysAtMostOnce(a + b)
  {
    QuietSaysNothing(b);
    MessagesConcat(a, b);
  }

  lemma DispatchingSaysOnce(result: DecisionResult, draw: Draw)
    ensures SaysAtMostOnce(Dispatching(result, draw))
  {
    if result.status.Confirmed? {
      var m := ExecutionEvent(result, draw);
      assert Dispatching(result, draw) == [Announce(m)] + [HandOver(m)];
      MessagesConcat([Announce(m)], [HandOver(m)]);
      SingleMessages(m);
    }
  }

  lemma SingleMessages(m: RuntimeEvent)
    ensures AnnouncedIn([Announce(m)]) == [m] && HandedOverIn([Announce(m)]) == []
    ensures AnnouncedIn([HandOver(m)]) == [] && HandedOverIn([HandOver(m)]) == [m]
  {
    assert [Announce(m)][..0] == [] && [HandOver(m)][..0] == [];
  }

  lemma ClosingSaysOnce(signal: Signal, flow: Flow, result: DecisionResult, records: seq<Record>, draw: Draw)
    ensures SaysAtMostOnce(Closing(signal, flow, result, records, draw))
  {
    DispatchingSaysOnce(result, draw);
    ThenQuiet(Dispatching(result, draw), Remembering(signal, Dispatched(result, draw)));
    ThenQuiet(Dispatching(result, draw) + Remembering(signal, Dispatched(result, draw)),
              [SaveTrace(FinalTrace(signal, flow, result, records, draw))]);
  }

  lemma CommitSaysNothing(result: DecisionResult, draw: Draw, events: Log)
    ensures !Announces(Opening(result, draw) + Appends(events)) && SaysAtMostOnce(Opening(result, draw) + Appends(events))
  {
    CommitIsQuiet(result, draw, events);
    QuietSaysNothing(Opening(result, draw) + Appends(events));
  }

  lemma StrictSaysOnce(settings: Settings, adapter: Adapter, w: World, signal: Signal, flow: Flow, draw: Draw,
                       outage: Outage, result: DecisionResult, records: seq<Record>)
    ensures SaysAtMostOnce(PlanStrict(settings, adapter, w, signal, flow, draw, outage, result, records).effects)
  {
    var final := WithGate(result, draw);
    var reached := Reached(EventsFor(adapter, CommitTrace(signal, flow, final, records, draw), final), outage);
    var commit := Opening(result, draw) + Appends(reached);
    CommitSaysNothing(result, draw, reached);
    ClosingSaysOnce(signal, flow, final, records, draw);
    QuietThen(commit, Closing(signal, flow, final, records, draw));
  }

  lemma RecordingIsQuiet(settings: Settings, trace: DecisionTrace, result: DecisionResult, outage: Outage)
    ensures !Announces(Recording(settings, trace, result, outage))
  {
  }

  lemma SettlingSaysOnce(settings: Settings, signal: Signal, flow: Flow, result: DecisionResult, records: seq<Record>,
                         draw: Draw, outage: Outage)
    ensures SaysAtMostOnce(Settling(settings, signal, flow, result, records, draw, outage))
  {
    var trace := FinalTrace(signal, flow, result, records, draw);
    DispatchingSaysOnce(result, draw);
    ThenQuiet(Dispatching(result, draw), [SaveTrace(trace)]);
    RecordingIsQuiet(settings, trace, Dispatched(result, draw), outage);
    ThenQuiet(Dispatching(result, draw) + [SaveTrace(trace)], Recording(settings, trace, Dispatched(result, draw), outage));
  }

  lemma ParallelSaysOnce(settings: Settings, signal: Signal, flow: Flow, draw: Draw, outage: Outage,
                         result: DecisionResult, records: seq<Record>)
    ensures SaysAtMostOnce(PlanParallel(settings, signal, flow, draw, outage, result, records).effects)
  {
    SettlingSaysOnce(settings, signal, flow, WithGate(result, draw), records, draw, outage);
    QuietThen(Opening(result, draw), Settling(settings, signal, flow, WithGate(result, draw), records, draw, outage));
  }

  lemma PlanSaysOnce(settings: Settings, w: World, signal: Signal, flow: Flow, draw: Draw, outage: Outage)
    ensures SaysAtMostOnce(Planned(settings, w, signal, flow, draw, outage).effects)
  {
    var pure := Evaluated(JudgeFor(settings, signal), signal, flow, draw.stamp);
    if pure.Success? {
      if CommitsFirst(settings) {
        StrictSaysOnce(settings, settings.ledger.value, w, signal, flow, draw, outage, pure.value.0, pure.value.1);
      } else {
        ParallelSaysOnce(settings, signal, flow, draw, outage, pure.value.0, pure.value.1);
      }
    }
  }

  lemma RememberingIsQuiet(effects: seq<Effect>, signal: Signal, result: DecisionResult)
    requires SaysAtMostOnce(effects)
    ensures SaysAtMostOnce(effects + Remembering(signal, result))
  {
    ThenQuiet(effects, Remembering(signal, result));
  }

  lemma EvaluateRouteSaysOnce(settings: Settings, w: World, signal: Signal, flow: Flow, draw: Draw, outage: Outage)
    ensures SaysAtMostOnce(EvaluateRoute(settings, w, signal, Some(flow), draw, outage).effects)
  {
    var plan := Planned(settings, w, signal, flow, draw, outage);
    PlanSaysOnce(settings, w, signal, flow, draw, outage);
    if plan.answer.Success? {
      RememberingIsQuiet(plan.effects, signal, plan.answer.value);
    } else {
      assert SaysAtMostOnce([]);
    }
  }

  /** No request announces or hands over more than one execution. */
  lemma HandlingSaysOnce(settings: Settings, w: World, call: Call)
    ensures SaysAtMostOnce(Handled(settings, w, call).effects)
  {
    if call.GateCall? {
      FailuresAnnounceNothing(settings, w, call);
      QuietSaysNothing(Handled(settings, w, call).effects);
    } else if call.flow.Some? {
      EvaluateRouteSaysOnce(settings, w, call.signal, call.flow.value, call.draw, call.outage);
    }
  }

  /** Everything that the calls with the key write, over the whole run. */
  ghost function WritesUnder(settings: Settings, calls: seq<Call>, key: string): seq<Effect> {
    if calls == [] then []
    else
      var n := |calls| - 1;
      WritesUnder(settings, calls[..n], key)
      + if HasCallKey(calls[n], key) then HandlingOf(settings, calls, n).effects else []
  }

  ghost predicate IsAnsweredAt(settings: Settings, calls: seq<Call>, key: string, i: nat) {
    i < |calls| && HasCallKey(calls[i], key) && HandlingOf(settings, calls, i).response.Returned?
  }

  lemma AnsweredInPrefix(settings: Settings, calls: seq<Call>, key: string, n: nat, i: nat)
    requires n <= |calls| && i < n
    ensures IsAnsweredAt(settings, calls[..n], key, i) <==> IsAnsweredAt(settings, calls, key, i)
  {
    assert calls[..n][..i] == calls[..i];
  }

  /** As long as no call with the key is answered, none announces anything. */
  lemma {:induction false} UnansweredSayNothing(settings: Settings, calls: seq<Call>, key: string)
    requires forall i: nat :: !IsAnsweredAt(settings, calls, key, i)
    ensures AnnouncedIn(WritesUnder(settings, calls, key)) == [] && HandedOverIn(WritesUnder(settings, calls, key)) == []
  {
    if calls != [] {
      var n := |calls| - 1;
      forall i: nat ensures !IsAnsweredAt(settings, calls[..n], key, i) {
        if i < n { AnsweredInPrefix(settings, calls, key, n, i); }
      }
      UnansweredSayNothing(settings, calls[..n], key);
      if HasCallKey(calls[n], key) {
        assert !IsAnsweredAt(settings, calls, key, n);
        FailuresAnnounceNothing(settings, WorldAfter(settings, calls[..n]), calls[n]);
        QuietSaysNothing(HandlingOf(settings, calls, n).effects);
        MessagesConcat(WritesUnder(settings, calls[..n], key), HandlingOf(settings, calls, n).effects);
      } else {
        assert WritesUnder(settings, calls[..n], key) + [] == WritesUnder(settings, calls[..n], key);
      }
    }
  }

  /** Over every run, in every mode and with any outages: all the requests with one key together announce
      at most one execution and hand over at most one, also when earlier attempts failed. */
  lemma {:induction false} OneExecutionPerKey(settings: Settings, calls: seq<Call>, key: string)
    ensures SaysAtMostOnce(WritesUnder(settings, calls, key))
  {
    if calls != [] {
      var n := |calls| - 1;
      OneExecutionPerKey(settings, calls[..n], key);
      assert WritesUnder(settings, calls[..n], key) + [] == WritesUnder(settings, calls[..n], key);
      if HasCallKey(calls[n], key) {
        LastSaysAtMostTheRest(settings, calls, key);
      }
    }
  }

  lemma LastSaysAtMostTheRest(settings: Settings, calls: seq<Call>, key: string)
    requires calls != [] && HasCallKey(calls[|calls| - 1], key)
    requires SaysAtMostOnce(WritesUnder(settings, calls[..|calls| - 1], key))
    ensures SaysAtMostOnce(WritesUnder(settings, calls, key))
  {
    var n := |calls| - 1;
    MessagesConcat(WritesUnder(settings, calls[..n], key), HandlingOf(settings, calls, n).effects);
    if i: nat :| IsAnsweredAt(settings, calls[..n], key, i) {
      AnsweredInPrefix(settings, calls, key, n, i);
      OneAnswerPerKey(settings, calls, i, n, key);
    } else {
      UnansweredSayNothing(settings, calls[..n], key);
      HandlingSaysOnce(settings, WorldAfter(settings, calls[..n]), calls[n]);
    }
  }
}
