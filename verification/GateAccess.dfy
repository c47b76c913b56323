/** Who may resolve the gates that the engine opens: anyone, since it never asks for a role. */
module GateAccess {
  import opened Basics
  import opened Values
  import opened Flows
  import opened Decisions
  import opened Evaluation
  import opened LedgerClient
  import opened LedgerAdapter
  import opened HumanGates
  import opened Worlds
  import opened Engine
  import opened Routes
  import opened Runs

  ghost predicate IsOpenToAnyone(g: Gates) {
    forall id :: id in g.store ==> g.store[id].requiredRole.None?
  }

  ghost predicate AsksNoRole(effects: seq<Effect>) {
    forall i :: 0 <= i < |effects| && effects[i].OpenGate? ==> effects[i].request.requiredRole.None?
  }

  lemma {:induction false} WritesKeepOpen(w: World, effects: seq<Effect>)
    requires IsOpenToAnyone(w.gates) && AsksNoRole(effects)
    ensures IsOpenToAnyone(Applied(w, effects).gates)
  {
    if effects != [] {
      var n := |effects| - 1;
      assert forall i :: 0 <= i < n ==> effects[..n][i] == effects[i];
      WritesKeepOpen(w, effects[..n]);
    }
  }

  lemma AsksNoRoleConcat(a: seq<Effect>, b: seq<Effect>)
    requires AsksNoRole(a) && AsksNoRole(b)
    ensures AsksNoRole(a + b)
  {
  }

  lemma CommitAsksNoRole(result: DecisionResult, draw: Draw, events: Log)
    ensures AsksNoRole(Opening(result, draw) + Appends(events))
  {
  }

  lemma ClosingAsksNoRole(signal: Signal, flow: Flow, result: DecisionResult, records: seq<Record>, draw: Draw)
    ensures AsksNoRole(Closing(signal, flow, result, records, draw))
  {
    AsksNoRoleConcat(Dispatching(result, draw), Remembering(signal, Dispatched(result, draw)));
  }

  lemma StrictAsksNoRole(settings: Settings, adapter: Adapter, w: World, signal: Signal, flow: Flow, draw: Draw,
                         outage: Outage, result: DecisionResult, records: seq<Record>)
    ensures AsksNoRole(PlanStrict(settings, adapter, w, signal, flow, draw, outage, result, records).effects)
  {
    var final := WithGate(result, draw);
    var reached := Reached(EventsFor(adapter, CommitTrace(signal, flow, final, records, draw), final), outage);
    CommitAsksNoRole(result, draw, reached);
    ClosingAsksNoRole(signal, flow, final, records, draw);
    AsksNoRoleConcat(Opening(result, draw) + Appends(reached), Closing(signal, flow, final, records, draw));
  }

  lemma RecordingAsksNoRole(settings: Settings, trace: DecisionTrace, result: DecisionResult, outage: Outage)
    ensures AsksNoRole(Recording(settings, trace, result, outage))
  {
  }

  lemma ParallelAsksNoRole(settings: Settings, signal: Signal, flow: Flow, draw: Draw, outage: Outage,
                           result: DecisionResult, records: seq<Record>)
    ensures AsksNoRole(PlanParallel(settings, signal, flow, draw, outage, result, records).effects)
  {
    var final := WithGate(result, draw);
    var trace := FinalTrace(signal, flow, final, records, draw);
    RecordingAsksNoRole(settings, trace, Dispatched(final, draw), outage);
    AsksNoRoleConcat(Dispatching(final, draw), [SaveTrace(trace)]);
    AsksNoRoleConcat(Dispatching(final, draw) + [SaveTrace(trace)], Recording(settings, trace, Dispatched(final, draw), outage));
    AsksNoRoleConcat(Opening(result, draw), Settling(settings, signal, flow, final, records, draw, outage));
  }

  lemma PlanAsksNoRole(settings: Settings, w: World, signal: Signal, flow: Flow, draw: Draw, outage: Outage)
    ensures AsksNoRole(Planned(settings, w, signal, flow, draw, outage).effects)
  {
    var pure := Evaluated(JudgeFor(settings, signal), signal, flow, draw.stamp);
    if pure.Success? {
      if CommitsFirst(settings) {
        StrictAsksNoRole(settings, settings.ledger.value, w, signal, flow, draw, outage, pure.value.0, pure.value.1);
      } else {
        ParallelAsksNoRole(settings, signal, flow, draw, outage, pure.value.0, pure.value.1);
      }
    }
  }

  lemma EvaluateRouteAsksNoRole(settings: Settings, w: World, signal: Signal, flow: Flow, draw: Draw, outage: Outage)
    ensures AsksNoRole(EvaluateRoute(settings, w, signal, Some(flow), draw, outage).effects)
  {
    var plan := Planned(settings, w, signal, flow, draw, outage);
    PlanAsksNoRole(settings, w, signal, flow, draw, outage);
    if plan.answer.Success? { AsksNoRoleConcat(plan.effects, Remembering(signal, plan.answer.value)); }
  }

  lemma HandlingAsksNoRole(settings: Settings, w: World, call: Call)
    ensures AsksNoRole(Handled(settings, w, call).effects)
  {
    if call.EvaluateCall? && call.flow.Some? {
      EvaluateRouteAsksNoRole(settings, w, call.signal, call.flow.value, call.draw, call.outage);
    }
  }

  lemma {:induction false} RunsOpenToAnyone(settings: Settings, calls: seq<Call>)
    ensures IsOpenToAnyone(WorldAfter(settings, calls).gates)
  {
    if calls != [] {
      var n := |calls| - 1;
      RunsOpenToAnyone(settings, calls[..n]);
      HandlingAsksNoRole(settings, WorldAfter(settings, calls[..n]), calls[n]);
      WritesKeepOpen(WorldAfter(settings, calls[..n]), Handled(settings, WorldAfter(settings, calls[..n]), calls[n]).effects);
    }
  }

  lemma OpenGatesRefuseNobody(g: Gates, id: string, roles: Option<seq<string>>)
    requires IsOpenToAnyone(g)
    ensures Refusal(g, id, roles).None? <==> id in g.store && g.store[id].status.GatePending?
    ensures Refusal(g, id, roles) != Some(RoleMissing)
  {
  }

  /** In every run, a resolution is accepted exactly when its gate is known and pending, whoever makes it
      and whatever roles they hold. */
  lemma AnyoneResolves(settings: Settings, calls: seq<Call>, id: string, roles: Option<seq<string>>)
    ensures var g := WorldAfter(settings, calls).gates;
            Refusal(g, id, roles).None? <==> id in g.store && g.store[id].status.GatePending?
  {
    RunsOpenToAnyone(settings, calls);
    OpenGatesRefuseNobody(WorldAfter(settings, calls).gates, id, roles);
  }

  /** So no request of any run is answered with 403. */
  lemma NobodyIsForbidden(settings: Settings, calls: seq<Call>, i: nat)
    requires i < |calls|
    ensures HandlingOf(settings, calls, i).response != HttpError(403)
  {
    if calls[i].GateCall? {
      RunsOpenToAnyone(settings, calls[..i]);
      OpenGatesRefuseNobody(WorldAfter(settings, calls[..i]).gates, calls[i].requestId, calls[i].roles);
    }
  }
}
