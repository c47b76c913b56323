/** Whole runs: any sequence of requests with fresh ids, each handled as one step, with outages of the
    ledger client at any append. */
module Runs {
  import opened Basics
  import opened Flows
  import opened Decisions
  import opened Evaluation
  import opened LedgerAdapter
  import opened HumanGates
  import opened Worlds
  import opened Engine
  import opened Routes
  import opened Safety
  import opened SafePlans

  datatype Call =
    | EvaluateCall(signal: Signal, flow: Option<Flow>, draw: Draw, outage: Outage)
    | GateCall(requestId: string, roles: Option<seq<string>>, resolution: Resolution, recordedAt: int, down: bool)

  ghost function Handled(settings: Settings, w: World, call: Call): Handling {
    match call
    case EvaluateCall(signal, flow, draw, outage) => EvaluateRoute(settings, w, signal, flow, draw, outage)
    case GateCall(id, roles, r, recordedAt, down) => GateRoute(settings, w, id, roles, r, recordedAt, down)
  }

  ghost function WorldAfter(settings: Settings, calls: seq<Call>): World {
    if calls == [] then EMPTY_WORLD
    else
      var before := WorldAfter(settings, calls[..|calls| - 1]);
      Applied(before, Handled(settings, before, calls[|calls| - 1]).effects)
  }

  /** The handling of call number `i` of the run. */
  ghost function HandlingOf(settings: Settings, calls: seq<Call>, i: nat): Handling
    requires i < |calls|
  {
    Handled(settings, WorldAfter(settings, calls[..i]), calls[i])
  }

  lemma WorldStep(settings: Settings, calls: seq<Call>, i: nat)
    requires i < |calls|
    ensures WorldAfter(settings, calls[..i + 1])
         == Applied(WorldAfter(settings, calls[..i]), HandlingOf(settings, calls, i).effects)
  {
    assert calls[..i + 1][..i] == calls[..i];
  }

  /** Every evaluation draws ids that nothing in the state uses. */
  ghost predicate AllFresh(settings: Settings, calls: seq<Call>) {
    forall i: nat :: i < |calls| && calls[i].EvaluateCall? ==> IsFresh(WorldAfter(settings, calls[..i]), calls[i].draw)
  }

  lemma FreshPrefix(settings: Settings, calls: seq<Call>, n: nat)
    requires AllFresh(settings, calls) && n <= |calls|
    ensures AllFresh(settings, calls[..n])
  {
    forall i: nat | i < n && calls[..n][i].EvaluateCall?
      ensures IsFresh(WorldAfter(settings, calls[..n][..i]), calls[..n][i].draw)
    {
      assert calls[..n][..i] == calls[..i];
    }
  }

  /** The adapter of the settings; without a ledger any adapter will do, as nothing is named. */
  ghost predicate Uses(settings: Settings, adapter: Adapter) {
    settings.ledger.None? || settings.ledger == Some(adapter)
  }

  /** The evaluation a call makes, if it comes to one. */
  ghost function InquiryOf(settings: Settings, call: Call): Option<Inquiry> {
    if call.GateCall? || call.flow.None? then None
    else
      match Evaluated(JudgeFor(settings, call.signal), call.signal, call.flow.value, call.draw.stamp)
      case Failure(_) => None
      case Success((result, records)) => Some(Inquiry(call.signal, call.flow.value, call.draw, result, records))
  }

  /** The evaluations of a run. */
  ghost function PastOf(settings: Settings, calls: seq<Call>): set<Inquiry> {
    set i | 0 <= i < |calls| && InquiryOf(settings, calls[i]).Some? :: InquiryOf(settings, calls[i]).value
  }

  lemma PastGrows(settings: Settings, calls: seq<Call>, n: nat)
    requires n <= |calls|
    ensures PastOf(settings, calls[..n]) <= PastOf(settings, calls)
  {
    forall q | q in PastOf(settings, calls[..n]) ensures q in PastOf(settings, calls) {
      var i :| 0 <= i < n && InquiryOf(settings, calls[..n][i]) == Some(q);
      assert calls[i] == calls[..n][i];
    }
  }

  // ---------------------------------------------------------------- one request

  /** The plan of an evaluation is safe, and its answer is honoured. */
  lemma PlanIsSafe(settings: Settings, adapter: Adapter, past: set<Inquiry>, w: World, q: Inquiry, outage: Outage)
    requires Uses(settings, adapter) && Sound(adapter, CommitsFirst(settings), past, w) && AtRest(w)
    requires IsFresh(w, q.draw) && IsInquiry(settings, q) && q in past
    ensures var plan := Planned(settings, w, q.signal, q.flow, q.draw, outage);
            && AllSafe(adapter, CommitsFirst(settings), past, w, plan.effects) && AtRest(Applied(w, plan.effects))
            && (plan.answer.Success? ==> IsHonoured(Applied(w, plan.effects).bus, plan.answer.value))
  {
    InquiryIsReady(settings, q);
    if CommitsFirst(settings) {
      StrictPlanIsSafe(settings, adapter, past, w, q, outage);
      StrictAnswerIsHonoured(settings, adapter, past, w, q, outage);
    } else {
      ParallelPlanIsSafe(settings, adapter, past, w, q, outage);
    }
  }

  /** What a call needs: fresh ids, and its evaluation counted among those made. */
  ghost predicate IsReady(settings: Settings, past: set<Inquiry>, w: World, call: Call) {
    (call.EvaluateCall? ==> IsFresh(w, call.draw))
    && (InquiryOf(settings, call).Some? ==> InquiryOf(settings, call).value in past)
  }

  lemma EvaluateRouteIsSafe(settings: Settings, adapter: Adapter, past: set<Inquiry>, w: World, call: Call)
    requires Uses(settings, adapter) && Sound(adapter, CommitsFirst(settings), past, w) && AtRest(w)
    requires call.EvaluateCall? && call.flow.Some? && IsReady(settings, past, w, call)
    requires !(HasKey(call.signal) && call.signal.idempotencyKey.value in w.cache)
    ensures var h := EvaluateRoute(settings, w, call.signal, call.flow, call.draw, call.outage);
            && AllSafe(adapter, CommitsFirst(settings), past, w, h.effects) && AtRest(Applied(w, h.effects))
            && (h.response.Returned? ==> IsHonoured(Applied(w, h.effects).bus, h.response.result))
  {
    var plan := Planned(settings, w, call.signal, call.flow.value, call.draw, call.outage);
    if InquiryOf(settings, call).Some? {
      PlanIsSafe(settings, adapter, past, w, InquiryOf(settings, call).value, call.outage);
      if plan.answer.Success? {
        AnswerIsRemembered(adapter, CommitsFirst(settings), past, w, plan, call.signal);
      }
    }
  }

  lemma AnswerIsRemembered(adapter: Adapter, strict: bool, past: set<Inquiry>, w: World, plan: Plan, signal: Signal)
    requires AllSafe(adapter, strict, past, w, plan.effects) && AtRest(Applied(w, plan.effects))
    requires plan.answer.Success? && IsHonoured(Applied(w, plan.effects).bus, plan.answer.value)
    ensures var effects := plan.effects + Remembering(signal, plan.answer.value);
            && AllSafe(adapter, strict, past, w, effects) && AtRest(Applied(w, effects))
            && IsHonoured(Applied(w, effects).bus, plan.answer.value)
  {
    var middle, last := Applied(w, plan.effects), Remembering(signal, plan.answer.value);
    RememberingIsSafe(adapter, strict, past, middle, signal, plan.answer.value);
    RememberingWrites(middle, signal, plan.answer.value);
    SafeConcat(adapter, strict, past, w, plan.effects, last);
    AppliedConcat(w, plan.effects, last);
  }

  /** Every request makes safe writes, ends at rest, and answers an evaluation with an honoured result. */
  lemma HandlingIsSafe(settings: Settings, adapter: Adapter, past: set<Inquiry>, w: World, call: Call)
    requires Uses(settings, adapter) && Sound(adapter, CommitsFirst(settings), past, w) && AtRest(w)
    requires IsReady(settings, past, w, call)
    ensures var h := Handled(settings, w, call);
            && AllSafe(adapter, CommitsFirst(settings), past, w, h.effects) && AtRest(Applied(w, h.effects))
            && (call.EvaluateCall? && h.response.Returned? ==> IsHonoured(Applied(w, h.effects).bus, h.response.result))
  {
    match call {
      case EvaluateCall(signal, flow, draw, outage) =>
        if !(HasKey(signal) && signal.idempotencyKey.value in w.cache) && flow.Some? {
          EvaluateRouteIsSafe(settings, adapter, past, w, call);
        }
      case GateCall(id, roles, r, recordedAt, down) =>
        if Refusal(w.gates, id, roles).None? {
          ResolvingIsSafe(settings, adapter, CommitsFirst(settings), past, w, id, r, recordedAt, down);
        }
    }
  }

  // ---------------------------------------------------------------- every run

  lemma EmptyIsSound(adapter: Adapter, strict: bool, past: set<Inquiry>)
    ensures Sound(adapter, strict, past, EMPTY_WORLD) && AtRest(EMPTY_WORLD)
  {
  }

  lemma LastCallIsReady(settings: Settings, calls: seq<Call>)
    requires AllFresh(settings, calls) && calls != []
    ensures IsReady(settings, PastOf(settings, calls), WorldAfter(settings, calls[..|calls| - 1]), calls[|calls| - 1])
  {
  }

  /** The state before the last call, with the evaluations of the whole run. */
  lemma BeforeLastIsSound(settings: Settings, adapter: Adapter, calls: seq<Call>)
    requires calls != []
    requires Sound(adapter, CommitsFirst(settings), PastOf(settings, calls[..|calls| - 1]),
                   WorldAfter(settings, calls[..|calls| - 1]))
    ensures Sound(adapter, CommitsFirst(settings), PastOf(settings, calls), WorldAfter(settings, calls[..|calls| - 1]))
  {
    PastGrows(settings, calls, |calls| - 1);
    MorePastKeepsSound(adapter, CommitsFirst(settings), PastOf(settings, calls[..|calls| - 1]), PastOf(settings, calls),
                       WorldAfter(settings, calls[..|calls| - 1]));
  }

  /** The first `k` writes, or all of them. */
  function Part(effects: seq<Effect>, k: nat): seq<Effect> {
    effects[..if k < |effects| then k else |effects|]
  }

  lemma HandlingKeepsSound(settings: Settings, adapter: Adapter, past: set<Inquiry>, w: World, call: Call, k: nat)
    requires Uses(settings, adapter) && Sound(adapter, CommitsFirst(settings), past, w) && AtRest(w)
    requires IsReady(settings, past, w, call)
    ensures Sound(adapter, CommitsFirst(settings), past, Applied(w, Part(Handled(settings, w, call).effects, k)))
  {
    var effects := Handled(settings, w, call).effects;
    HandlingIsSafe(settings, adapter, past, w, call);
    SafeWritesKeepSound(adapter, CommitsFirst(settings), past, w, effects, if k < |effects| then k else |effects|);
  }

  lemma {:induction false} RunIsSound(settings: Settings, adapter: Adapter, calls: seq<Call>)
    requires Uses(settings, adapter) && AllFresh(settings, calls)
    ensures Sound(adapter, CommitsFirst(settings), PastOf(settings, calls), WorldAfter(settings, calls))
    ensures AtRest(WorldAfter(settings, calls))
  {
    if calls == [] {
      EmptyIsSound(adapter, CommitsFirst(settings), PastOf(settings, calls));
    } else {
      var n := |calls| - 1;
      var before := WorldAfter(settings, calls[..n]);
      var effects := Handled(settings, before, calls[n]).effects;
      FreshPrefix(settings, calls, n);
      RunIsSound(settings, adapter, calls[..n]);
      BeforeLastIsSound(settings, adapter, calls);
      LastCallIsReady(settings, calls);
      HandlingIsSafe(settings, adapter, PastOf(settings, calls), before, calls[n]);
      HandlingKeepsSound(settings, adapter, PastOf(settings, calls), before, calls[n], |effects|);
      assert Part(effects, |effects|) == effects;
    }
  }

  /** The state during the last call of a run, after the first `k` of its writes, or all of them. */
  ghost function Moment(settings: Settings, calls: seq<Call>, k: nat): World {
    if calls == [] then EMPTY_WORLD
    else Applied(WorldAfter(settings, calls[..|calls| - 1]), Part(HandlingOf(settings, calls, |calls| - 1).effects, k))
  }

  /** The invariant holds not only between requests but after every single write of every run. */
  lemma EveryMomentIsSound(settings: Settings, adapter: Adapter, calls: seq<Call>, k: nat)
    requires Uses(settings, adapter) && AllFresh(settings, calls)
    ensures Sound(adapter, CommitsFirst(settings), PastOf(settings, calls), Moment(settings, calls, k))
  {
    if calls == [] {
      EmptyIsSound(adapter, CommitsFirst(settings), PastOf(settings, calls));
    } else {
      var n := |calls| - 1;
      FreshPrefix(settings, calls, n);
      RunIsSound(settings, adapter, calls[..n]);
      BeforeLastIsSound(settings, adapter, calls);
      LastCallIsReady(settings, calls);
      HandlingKeepsSound(settings, adapter, PastOf(settings, calls), WorldAfter(settings, calls[..n]), calls[n], k);
    }
  }
}
