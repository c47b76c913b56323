/** How one evaluation ends: when it raises although the flow was validated, and when the ledger
    accepts it. */
module Outcomes {
  import opened Basics
  import opened Values
  import opened Flows
  import opened Decisions
  import opened Boundaries
  import opened Evaluation
  import opened EvaluationRecords
  import opened LedgerClient
  import opened LedgerAdapter
  import opened CommitProperties
  import opened HumanGates
  import opened Worlds
  import opened Engine
  import opened Safety
  import opened SafePlans
  import CE = ConditionEvaluator
  import FlowValidator

  // ---------------------------------------------------------------- raising

  /** Active nodes of a type whose condition holds in the context of the signal. */
  ghost predicate SomeDecisionPasses(settings: Settings, signal: Signal, flow: Flow) {
    exists n :: n in flow.nodes && n.nodeType.DecisionNode? && n.isActive && Passes(JudgeFor(settings, signal), n)
  }

  ghost predicate SomeBoundaryIsInvalid(settings: Settings, flow: Flow) {
    exists n :: n in flow.nodes && n.nodeType.BoundaryNode? && n.isActive && !CE.IsValidSyntax(settings.host, n.condition)
  }

  ghost predicate NoFallbackIsActive(flow: Flow) {
    forall n :: n in flow.nodes && n.nodeType.FallbackNode? ==> !n.isActive
  }

  ghost predicate SomeDecisionIsInvalid(settings: Settings, flow: Flow) {
    exists n :: n in flow.nodes && n.nodeType.DecisionNode? && n.isActive && !CE.IsValidSyntax(settings.host, n.condition)
  }

  /** Any flow raises in exactly three ways: an active decision condition is invalid; an active boundary
      condition is invalid; no decision condition holds and no fallback is active. */
  lemma FlowsRaiseExactlyWhen(settings: Settings, signal: Signal, flow: Flow, stamp: Stamp)
    ensures Evaluated(JudgeFor(settings, signal), signal, flow, stamp).Failure?
       <==> SomeDecisionIsInvalid(settings, flow) || SomeBoundaryIsInvalid(settings, flow)
            || (!SomeDecisionPasses(settings, signal, flow) && NoFallbackIsActive(flow))
  {
    RaisesExactlyWhen(JudgeFor(settings, signal), signal, flow, stamp);
    VerdictsFollowSyntax(settings, signal, flow.nodes);
    SelectedExactlyWhen(JudgeFor(settings, signal), flow);
  }

  /** A flow that the validator accepts can raise in the same ways. Only when conditions are validated is
      the first one shut out; boundary conditions are never validated, and the one fallback that is
      required need not be active. */
  lemma ValidatedFlowsRaiseExactlyWhen(settings: Settings, validateConditions: bool, signal: Signal, flow: Flow, stamp: Stamp)
    requires FlowValidator.Accepted(settings.host, validateConditions, flow)
    ensures Evaluated(JudgeFor(settings, signal), signal, flow, stamp).Failure?
       <==> (!validateConditions && SomeDecisionIsInvalid(settings, flow)) || SomeBoundaryIsInvalid(settings, flow)
            || (!SomeDecisionPasses(settings, signal, flow) && NoFallbackIsActive(flow))
  {
    assert FlowValidator.IsMet(FlowValidator.NodeConditions, settings.host, validateConditions, flow);
    FlowsRaiseExactlyWhen(settings, signal, flow, stamp);
  }

  lemma VerdictsFollowSyntax(settings: Settings, signal: Signal, nodes: seq<Node>)
    ensures forall n :: n in nodes ==>
              (JudgeFor(settings, signal).verdict(n.condition).None? <==> !CE.IsValidSyntax(settings.host, n.condition))
  {
    forall n | n in nodes
      ensures JudgeFor(settings, signal).verdict(n.condition).None? <==> !CE.IsValidSyntax(settings.host, n.condition)
    {
      CE.RaisesExactlyWhenInvalid(settings.host, n.condition, ContextOf(signal));
    }
  }

  lemma SelectedExactlyWhen(judge: Judge, flow: Flow)
    ensures Selected(judge, flow).None?
       <==> (forall n :: n in flow.nodes && n.nodeType.DecisionNode? && n.isActive ==> !Passes(judge, n))
            && (forall n :: n in flow.nodes && n.nodeType.FallbackNode? ==> !n.isActive)
  {
    NothingPasses(judge, ActiveOf(flow.nodes, DecisionNode));
    var fallbacks := ActiveOf(flow.nodes, FallbackNode);
    if fallbacks != [] { assert fallbacks[0] in fallbacks; }
  }

  // ---------------------------------------------------------------- refused commits

  /** A strict evaluation whose commit is refused or broken off changes nothing but the ledger, which
      only grows, and the gates: a gate opened before the commit is left behind. Nothing is announced,
      handed over, cached or kept. */
  lemma UnacceptedCommitLeavesTheRest(settings: Settings, adapter: Adapter, w: World, signal: Signal, flow: Flow, draw: Draw,
                                      outage: Outage, result: DecisionResult, records: seq<Record>)
    requires var final := WithGate(result, draw);
             var events := EventsFor(adapter, CommitTrace(signal, flow, final, records, draw), final);
             Fails(events, outage) || CommitOutcome(w.log, events).status != CommitAccepted
    ensures var v := Applied(w, PlanStrict(settings, adapter, w, signal, flow, draw, outage, result, records).effects);
            && v == w.(gates := v.gates, log := v.log) && IsPrefix(w.log, v.log)
            && v.gates == if result.status == PendingHuman
                          then Opened(w.gates, NewRequest(draw.gateId, result, None, draw.gateAt), result) else w.gates
  {
    var final := WithGate(result, draw);
    var reached := Reached(EventsFor(adapter, CommitTrace(signal, flow, final, records, draw), final), outage);
    AppliedConcat(w, Opening(result, draw), Appends(reached));
    OpeningWrites(w, result, draw);
    AppendsWriteLog(Applied(w, Opening(result, draw)), reached);
    CommitGrowsLog(w.log, reached);
  }

  lemma {:induction false} CommitGrowsLog(log: Log, events: Log)
    ensures IsPrefix(log, CommitLog(log, events))
  {
    if events != [] {
      var n := |events| - 1;
      CommitGrowsLog(log, events[..n]);
      var before := CommitLog(log, events[..n]);
      assert Appended(before, events[n])[..|before|] == before;
    }
  }

  // ---------------------------------------------------------------- accepted commits

  lemma ExplainedIsWellNamed(naming: Naming, g: Gates, log: Log)
    requires LogFits(naming, g, log)
    ensures WellNamed(naming, log)
  {
  }

  /** The commit of a fresh evaluation is accepted exactly when the consulted nodes have distinct ids,
      and is partial otherwise; it is never a duplicate and never failed. */
  lemma FreshCommitOutcome(adapter: Adapter, w: World, judge: Judge, flow: Flow, trace: DecisionTrace, result: DecisionResult)
    requires IsInjective(adapter.naming) && WellNamed(adapter.naming, w.log)
    requires (forall e :: e in w.log ==> e.traceId != trace.id) && |trace.humanGateRequests| <= 1 && trace.signalId.Some?
    requires Selected(judge, flow).Some?
    requires trace.evaluatedNodes
          == RecordsOf(judge, flow, Selected(judge, flow).value, ResultsFor(judge, ActiveOf(flow.nodes, BoundaryNode)))
    ensures CommitOutcome(w.log, EventsFor(adapter, trace, result)).status
         == if Distinct(IdsIn(Consulted(judge, flow))) then CommitAccepted else CommitPartial
  {
    var events := EventsFor(adapter, trace, result);
    FirstCommit(adapter, w.log, trace, result);
    RecordIds(judge, flow);
    var key := SignalKey(trace.signalId.value);
    FreshTraceIsNew(adapter.naming, w.log, trace.id, key);
    assert events[0] == SignalEvents(adapter, trace, result)[0];
    assert events[0].eventId == adapter.naming(trace.id, key);
    NewIsNotDuplicate(w.log, events, 0);
  }

  lemma StrictPlanAnswer(settings: Settings, adapter: Adapter, w: World, signal: Signal, flow: Flow, draw: Draw,
                         result: DecisionResult, records: seq<Record>)
    ensures var final := WithGate(result, draw);
            var events := EventsFor(adapter, CommitTrace(signal, flow, final, records, draw), final);
            var answer := PlanStrict(settings, adapter, w, signal, flow, draw, None, result, records).answer;
            && (CommitOutcome(w.log, events).status == CommitAccepted ==> answer == Success(Dispatched(final, draw)))
            && (CommitOutcome(w.log, events).status == CommitPartial ==>
                  answer == Success(Refused(settings, final, CommitPartial, draw)))
  {
  }

  /** How a strict evaluation with fresh ids ends when the ledger does not fail: as evaluated, with its
      execution if confirmed, exactly when the consulted nodes have distinct ids; else as an error. */
  lemma StrictAnswer(settings: Settings, adapter: Adapter, w: World, signal: Signal, flow: Flow, draw: Draw)
    requires settings.strict && settings.ledger == Some(adapter) && IsInjective(adapter.naming)
    requires LogFits(adapter.naming, w.gates, w.log) && IsFresh(w, draw)
    requires Evaluated(JudgeFor(settings, signal), signal, flow, draw.stamp).Success?
    ensures Selected(JudgeFor(settings, signal), flow).Some?
    ensures var final := WithGate(Evaluated(JudgeFor(settings, signal), signal, flow, draw.stamp).value.0, draw);
            var answer := Planned(settings, w, signal, flow, draw, None).answer;
            if Distinct(IdsIn(Consulted(JudgeFor(settings, signal), flow)))
            then answer == Success(Dispatched(final, draw))
            else answer == Success(Refused(settings, final, CommitPartial, draw))
  {
    var judge := JudgeFor(settings, signal);
    var (result, records) := Evaluated(judge, signal, flow, draw.stamp).value;
    var final := WithGate(result, draw);
    ResultShape(judge, signal, flow, draw.stamp);
    ExplainedIsWellNamed(adapter.naming, w.gates, w.log);
    FreshCommitOutcome(adapter, w, judge, flow, CommitTrace(signal, flow, final, records, draw), final);
    StrictPlanAnswer(settings, adapter, w, signal, flow, draw, result, records);
  }

  /** The answer to a commit that was not accepted: the decision in all but the marks of the error. */
  ghost predicate IsErrorFor(answer: DecisionResult, result: DecisionResult, message: string, at: int) {
    && answer.status == StatusError && answer.state == StateFailed && answer.errorMessage == Some(message)
    && answer.updatedAt == at
    && answer == result.(status := answer.status, state := answer.state, errorMessage := answer.errorMessage,
                         updatedAt := answer.updatedAt)
  }

  /** Where consulted ids repeat, the answer is the error of a partial commit. */
  lemma PartialCommitAnswer(settings: Settings, adapter: Adapter, w: World, signal: Signal, flow: Flow, draw: Draw)
    requires settings.strict && settings.ledger == Some(adapter) && IsInjective(adapter.naming)
    requires LogFits(adapter.naming, w.gates, w.log) && IsFresh(w, draw)
    requires Evaluated(JudgeFor(settings, signal), signal, flow, draw.stamp).Success?
    requires Selected(JudgeFor(settings, signal), flow).Some? ==>
               !Distinct(IdsIn(Consulted(JudgeFor(settings, signal), flow)))
    ensures var final := WithGate(Evaluated(JudgeFor(settings, signal), signal, flow, draw.stamp).value.0, draw);
            var answer := Planned(settings, w, signal, flow, draw, None).answer;
            answer.Success? && IsErrorFor(answer.value, final, settings.refusal(CommitPartial), draw.failAt)
  {
    StrictAnswer(settings, adapter, w, signal, flow, draw);
  }

  lemma UniqueIdsAreAccepted(settings: Settings, adapter: Adapter, w: World, signal: Signal, flow: Flow, draw: Draw)
    requires settings.strict && settings.ledger == Some(adapter) && IsInjective(adapter.naming)
    requires LogFits(adapter.naming, w.gates, w.log) && IsFresh(w, draw)
    requires UniqueIds(flow.nodes) && Evaluated(JudgeFor(settings, signal), signal, flow, draw.stamp).Success?
    ensures var result := Evaluated(JudgeFor(settings, signal), signal, flow, draw.stamp).value.0;
            Planned(settings, w, signal, flow, draw, None).answer == Success(Dispatched(WithGate(result, draw), draw))
  {
    StrictAnswer(settings, adapter, w, signal, flow, draw);
    ConsultedIdsAreDistinct(JudgeFor(settings, signal), flow);
  }

  /** So the ledger accepts every evaluation of a validated flow that does not raise. */
  lemma ValidatedFlowsAreAccepted(settings: Settings, adapter: Adapter, w: World, signal: Signal, flow: Flow, draw: Draw,
                                  validateConditions: bool)
    requires settings.strict && settings.ledger == Some(adapter) && IsInjective(adapter.naming)
    requires LogFits(adapter.naming, w.gates, w.log) && IsFresh(w, draw)
    requires FlowValidator.Accepted(settings.host, validateConditions, flow)
    requires Evaluated(JudgeFor(settings, signal), signal, flow, draw.stamp).Success?
    ensures var result := Evaluated(JudgeFor(settings, signal), signal, flow, draw.stamp).value.0;
            Planned(settings, w, signal, flow, draw, None).answer == Success(Dispatched(WithGate(result, draw), draw))
  {
    assert FlowValidator.IsMet(FlowValidator.UniqueNodeIds, settings.host, validateConditions, flow);
    UniqueIdsAreAccepted(settings, adapter, w, signal, flow, draw);
  }

  // ---------------------------------------------------------------- determinism

  /** The part of a decision that identical inputs must reproduce. */
  ghost predicate SameRouting(a: DecisionResult, b: DecisionResult) {
    && a.selectedNodeId == b.selectedNodeId && a.status == b.status && a.outcome == b.outcome && a.action == b.action
    && a.confidence == b.confidence && a.boundaryResults == b.boundaryResults
    && (a.executionId.Some? <==> b.executionId.Some?) && (a.humanGate.Some? <==> b.humanGate.Some?)
  }

  /** In strict mode the draw is fresh in a state whose log fits; in parallel mode nothing is asked. */
  ghost predicate IsAnsweredFreshly(settings: Settings, w: World, draw: Draw) {
    CommitsFirst(settings) ==>
      && IsInjective(settings.ledger.value.naming) && LogFits(settings.ledger.value.naming, w.gates, w.log)
      && IsFresh(w, draw)
  }

  /** Whether the answer is the decision as evaluated, or the error of a partial commit. */
  ghost predicate IsTaken(settings: Settings, signal: Signal, flow: Flow) {
    CommitsFirst(settings) && Selected(JudgeFor(settings, signal), flow).Some? ==>
      Distinct(IdsIn(Consulted(JudgeFor(settings, signal), flow)))
  }

  lemma FreshAnswer(settings: Settings, w: World, signal: Signal, flow: Flow, draw: Draw)
    requires IsAnsweredFreshly(settings, w, draw)
    ensures Planned(settings, w, signal, flow, draw, None).answer
         == match Evaluated(JudgeFor(settings, signal), signal, flow, draw.stamp)
            case Failure(error) => Failure(EvaluationRaised(error))
            case Success((result, records)) =>
              Success(if IsTaken(settings, signal, flow) then Dispatched(WithGate(result, draw), draw)
                      else Refused(settings, WithGate(result, draw), CommitPartial, draw))
  {
    if CommitsFirst(settings) && Evaluated(JudgeFor(settings, signal), signal, flow, draw.stamp).Success? {
      StrictAnswer(settings, settings.ledger.value, w, signal, flow, draw);
    }
  }

  lemma FinishingKeepsRouting(settings: Settings, result: DecisionResult, s: Stamp, d: Draw, e: Draw)
    requires result.executionId.None? && result.humanGate.None?
    ensures SameRouting(Dispatched(WithGate(result, d), d), Dispatched(WithGate(Restamped(result, s), e), e))
    ensures SameRouting(Refused(settings, WithGate(result, d), CommitPartial, d),
                        Refused(settings, WithGate(Restamped(result, s), e), CommitPartial, e))
  {
  }

  /** Routing determinism: for a signal and a flow, any two states and any two draws of ids and times
      give the same error or decisions with the same routing. */
  lemma RoutingIsDeterministic(settings: Settings, signal: Signal, flow: Flow, w: World, d: Draw, v: World, e: Draw)
    requires IsAnsweredFreshly(settings, w, d) && IsAnsweredFreshly(settings, v, e)
    ensures match (Planned(settings, w, signal, flow, d, None).answer, Planned(settings, v, signal, flow, e, None).answer)
            case (Failure(a), Failure(b)) => a == b
            case (Success(a), Success(b)) => SameRouting(a, b)
            case _ => false
  {
    var judge := JudgeFor(settings, signal);
    FreshAnswer(settings, w, signal, flow, d);
    FreshAnswer(settings, v, signal, flow, e);
    OnlyIdsAndTimesDiffer(judge, signal, flow, d.stamp, e.stamp);
    if Evaluated(judge, signal, flow, d.stamp).Success? {
      ResultShape(judge, signal, flow, d.stamp);
      FinishingKeepsRouting(settings, Evaluated(judge, signal, flow, d.stamp).value.0, e.stamp, d, e);
    }
  }

  // ---------------------------------------------------------------- counting

  /** The number of events that an accepted commit adds to the ledger. */
  lemma AcceptedEventCount(adapter: Adapter, w: World, judge: Judge, signal: Signal, flow: Flow, draw: Draw)
    requires Evaluated(judge, signal, flow, draw.stamp).Success?
    ensures var (result, records) := Evaluated(judge, signal, flow, draw.stamp).value;
            var final := WithGate(result, draw);
            var events := EventsFor(adapter, CommitTrace(signal, flow, final, records, draw), final);
            CommitOutcome(w.log, events).status == CommitAccepted ==>
              |CommitLog(w.log, events)| - |w.log|
              == 2 + |ActiveOf(flow.nodes, DecisionNode)| + |ActiveOf(flow.nodes, BoundaryNode)|
                 + (if result.outcome == Pass then 0 else 1) + (if result.status == PendingHuman then 1 else 0)
  {
    var (result, records) := Evaluated(judge, signal, flow, draw.stamp).value;
    var final := WithGate(result, draw);
    var trace := CommitTrace(signal, flow, final, records, draw);
    ResultShape(judge, signal, flow, draw.stamp);
    EventCount(adapter, judge, flow, trace, final);
    AcceptedExactlyWhenNew(w.log, EventsFor(adapter, trace, final));
  }
}
