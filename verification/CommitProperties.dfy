/** What a commit does to a ledger: when it is accepted, and how interrupted commits converge. */
module CommitProperties {
  import opened Basics
  import opened Values
  import opened Decisions
  import opened LedgerClient
  import opened LedgerAdapter

  // ---------------------------------------------------------------- accepted exactly when new

  ghost predicate NoneIn(log: Log, events: Log) {
    forall i :: 0 <= i < |events| ==> !Has(log, events[i].eventId)
  }

  ghost predicate AllNew(log: Log, events: Log) {
    DistinctIds(events) && NoneIn(log, events)
  }

  lemma AllNewSplits(log: Log, events: Log, n: nat)
    requires |events| == n + 1
    ensures AllNew(log, events) <==> AllNew(log, events[..n]) && !Has(log + events[..n], events[n].eventId)
  {
    HasInConcat(log, events[..n], events[n].eventId);
    assert forall i :: 0 <= i < n ==> events[..n][i] == events[i];
    if Has(events[..n], events[n].eventId) {
      assert !DistinctIds(events);
    }
  }

  /** A commit is accepted, appending every event in order, exactly when the ids are distinct and new
      to the log. */
  lemma {:induction false} AcceptedExactlyWhenNew(log: Log, events: Log)
    ensures CommitOutcome(log, events).status == CommitAccepted <==> AllNew(log, events)
    ensures AllNew(log, events) ==> CommitLog(log, events) == log + events
  {
    AppendsAllExactlyWhenNew(log, events);
  }

  lemma {:induction false} AppendsAllExactlyWhenNew(log: Log, events: Log)
    ensures AppendedCount(log, events) == |events| <==> AllNew(log, events)
    ensures AllNew(log, events) ==> CommitLog(log, events) == log + events
  {
    if events == [] {
      assert log + events == log;
    } else {
      var n := |events| - 1;
      AppendsAllExactlyWhenNew(log, events[..n]);
      AllNewSplits(log, events, n);
      assert log + events == (log + events[..n]) + [events[n]];
    }
  }

  /** A commit of events that are all in the log changes nothing and is reported as a duplicate. */
  lemma {:induction false} RepeatedCommitChangesNothing(log: Log, events: Log)
    requires forall i :: 0 <= i < |events| ==> Has(log, events[i].eventId)
    ensures CommitLog(log, events) == log && AppendedCount(log, events) == 0
    ensures events != [] ==> CommitOutcome(log, events).status == CommitDuplicate
  {
    if events != [] {
      assert forall i :: 0 <= i < |events| - 1 ==> events[..|events| - 1][i] == events[i];
      RepeatedCommitChangesNothing(log, events[..|events| - 1]);
    }
  }

  lemma HasInConcat(a: Log, b: Log, id: string)
    ensures Has(a + b, id) <==> Has(a, id) || Has(b, id)
  {
    if Has(a, id) {
      var i :| 0 <= i < |a| && a[i].eventId == id;
      assert (a + b)[i].eventId == id;
    }
    if Has(b, id) {
      var i :| 0 <= i < |b| && b[i].eventId == id;
      assert (a + b)[|a| + i].eventId == id;
    }
  }

  // ---------------------------------------------------------------- keys of one evaluation

  function NodeIdsOf(records: seq<Record>): (ids: seq<string>)
    ensures |ids| == |records|
    ensures forall i :: 0 <= i < |ids| ==> ids[i] == TextOr(records[i], "node_id", "")
  {
    seq(|records|, i requires 0 <= i < |records| => TextOr(records[i], "node_id", ""))
  }

  function NodeKeysOf(records: seq<Record>): (keys: seq<StepKey>)
    ensures |keys| == |records|
    ensures forall i :: 0 <= i < |keys| ==> keys[i] == NodeKey(NodeIdsOf(records)[i])
  {
    seq(|records|, i requires 0 <= i < |records| => NodeKey(NodeIdsOf(records)[i]))
  }

  function GateKeysOf(gates: seq<GateRequest>): (keys: seq<StepKey>)
    ensures |keys| == |gates|
    ensures forall i :: 0 <= i < |keys| ==> keys[i] == GateKey(gates[i].id)
  {
    seq(|gates|, i requires 0 <= i < |gates| => GateKey(gates[i].id))
  }

  /** The keys of the events of a trace, in the order of the events. */
  function KeysOf(trace: DecisionTrace, result: DecisionResult): seq<StepKey> {
    (if trace.signalId.Some? then [SignalKey(trace.signalId.value)] else [])
    + NodeKeysOf(trace.evaluatedNodes)
    + GateKeysOf(trace.humanGateRequests)
    + [OutcomeKey(result.id)]
  }

  /** Every event belongs to the trace and is named by its key. */
  ghost predicate AreNamed(naming: Naming, traceId: Uuid, events: Log, keys: seq<StepKey>) {
    |events| == |keys|
    && forall i :: 0 <= i < |events| ==> events[i].traceId == traceId && events[i].eventId == naming(traceId, keys[i])
  }

  lemma NamedConcat(naming: Naming, traceId: Uuid, a: Log, k: seq<StepKey>, b: Log, l: seq<StepKey>)
    requires AreNamed(naming, traceId, a, k) && AreNamed(naming, traceId, b, l)
    ensures AreNamed(naming, traceId, a + b, k + l)
  {
  }

  lemma {:induction false} NodeEventsAreNamed(adapter: Adapter, trace: DecisionTrace, result: DecisionResult, records: seq<Record>)
    ensures AreNamed(adapter.naming, trace.id, NodeEvents(adapter, trace, result, records), NodeKeysOf(records))
  {
    if records != [] {
      var n := |records| - 1;
      NodeEventsAreNamed(adapter, trace, result, records[..n]);
      assert NodeKeysOf(records) == NodeKeysOf(records[..n]) + [NodeKey(NodeIdsOf(records)[n])];
    }
  }

  lemma {:induction false} GateEventsAreNamed(adapter: Adapter, trace: DecisionTrace, result: DecisionResult, gates: seq<GateRequest>)
    ensures AreNamed(adapter.naming, trace.id, GateEvents(adapter, trace, result, gates), GateKeysOf(gates))
  {
    if gates != [] {
      var n := |gates| - 1;
      GateEventsAreNamed(adapter, trace, result, gates[..n]);
      assert GateKeysOf(gates) == GateKeysOf(gates[..n]) + [GateKey(gates[n].id)];
    }
  }

  lemma EventsAreNamed(adapter: Adapter, trace: DecisionTrace, result: DecisionResult)
    ensures AreNamed(adapter.naming, trace.id, EventsFor(adapter, trace, result), KeysOf(trace, result))
  {
    var signals := SignalEvents(adapter, trace, result);
    var signalKeys := if trace.signalId.Some? then [SignalKey(trace.signalId.value)] else [];
    var nodes := NodeEvents(adapter, trace, result, trace.evaluatedNodes);
    var gates := GateEvents(adapter, trace, result, trace.humanGateRequests);
    NodeEventsAreNamed(adapter, trace, result, trace.evaluatedNodes);
    GateEventsAreNamed(adapter, trace, result, trace.humanGateRequests);
    NamedConcat(adapter.naming, trace.id, signals, signalKeys, nodes, NodeKeysOf(trace.evaluatedNodes));
    NamedConcat(adapter.naming, trace.id, signals + nodes, signalKeys + NodeKeysOf(trace.evaluatedNodes),
                gates, GateKeysOf(trace.humanGateRequests));
    NamedConcat(adapter.naming, trace.id, signals + nodes + gates,
                signalKeys + NodeKeysOf(trace.evaluatedNodes) + GateKeysOf(trace.humanGateRequests),
                [OutcomeEvent(adapter, trace, result)], [OutcomeKey(result.id)]);
  }

  ghost predicate Apart<T>(a: seq<T>, b: seq<T>) {
    forall x, y :: x in a && y in b ==> x != y
  }

  lemma DistinctConcat<T>(a: seq<T>, b: seq<T>)
    requires Apart(a, b)
    ensures Distinct(a + b) <==> Distinct(a) && Distinct(b)
  {
    var c := a + b;
    if Distinct(c) {
      forall i, j | 0 <= i < j < |a| ensures a[i] != a[j] { assert c[i] != c[j]; }
      forall i, j | 0 <= i < j < |b| ensures b[i] != b[j] { assert c[|a| + i] != c[|a| + j]; }
    }
    if Distinct(a) && Distinct(b) {
      forall i, j | 0 <= i < j < |c| ensures c[i] != c[j] {
        if i < |a| <= j {
          assert c[i] in a && c[j] in b;
        } else if |a| <= i {
          assert b[i - |a|] != b[j - |a|];
        }
      }
    }
  }

  lemma NodeKeysAreDistinct(records: seq<Record>)
    ensures Distinct(NodeKeysOf(records)) <==> Distinct(NodeIdsOf(records))
  {
    var keys, ids := NodeKeysOf(records), NodeIdsOf(records);
    if Distinct(keys) {
      forall i, j | 0 <= i < j < |ids| ensures ids[i] != ids[j] { assert keys[i] != keys[j]; }
    }
  }

  /** With at most one gate, the keys clash only where node records repeat an id. */
  lemma KeysAreDistinct(trace: DecisionTrace, result: DecisionResult)
    requires |trace.humanGateRequests| <= 1
    ensures Distinct(KeysOf(trace, result)) <==> Distinct(NodeIdsOf(trace.evaluatedNodes))
  {
    var signals := if trace.signalId.Some? then [SignalKey(trace.signalId.value)] else [];
    var nodes := NodeKeysOf(trace.evaluatedNodes);
    var gates := GateKeysOf(trace.humanGateRequests);
    NodeKeysAreDistinct(trace.evaluatedNodes);
    assert forall k :: k in signals ==> k.SignalKey?;
    assert forall k :: k in nodes ==> k.NodeKey?;
    assert forall k :: k in gates ==> k.GateKey?;
    DistinctConcat(signals, nodes);
    DistinctConcat(signals + nodes, gates);
    DistinctConcat(signals + nodes + gates, [OutcomeKey(result.id)]);
  }

  lemma EventIdsAreDistinct(adapter: Adapter, trace: DecisionTrace, result: DecisionResult)
    requires IsInjective(adapter.naming) && |trace.humanGateRequests| <= 1
    ensures DistinctIds(EventsFor(adapter, trace, result)) <==> Distinct(NodeIdsOf(trace.evaluatedNodes))
  {
    EventsAreNamed(adapter, trace, result);
    KeysAreDistinct(trace, result);
    var events, keys := EventsFor(adapter, trace, result), KeysOf(trace, result);
    if DistinctIds(events) {
      forall i, j | 0 <= i < j < |keys| ensures keys[i] != keys[j] {
        assert events[i].eventId != events[j].eventId;
      }
    }
    if Distinct(keys) {
      forall i, j | 0 <= i < j < |events| ensures events[i].eventId != events[j].eventId {
        assert keys[i] != keys[j];
      }
    }
  }

  /** Every event in the log has the id its own trace and some step give. */
  ghost predicate WellNamed(naming: Naming, log: Log) {
    forall e :: e in log ==> exists k :: e.eventId == naming(e.traceId, k)
  }

  lemma FreshTraceIsNew(naming: Naming, log: Log, traceId: Uuid, key: StepKey)
    requires IsInjective(naming) && WellNamed(naming, log)
    requires forall e :: e in log ==> e.traceId != traceId
    ensures !Has(log, naming(traceId, key))
  {
  }

  /** A commit for a trace the ledger knows nothing of is accepted exactly when no two node records
      have the same id; then it appends its events, all of them, in order. */
  lemma FirstCommit(adapter: Adapter, log: Log, trace: DecisionTrace, result: DecisionResult)
    requires IsInjective(adapter.naming) && WellNamed(adapter.naming, log)
    requires (forall e :: e in log ==> e.traceId != trace.id) && |trace.humanGateRequests| <= 1
    ensures var events := EventsFor(adapter, trace, result);
            (CommitOutcome(log, events).status == CommitAccepted <==> Distinct(NodeIdsOf(trace.evaluatedNodes)))
            && (Distinct(NodeIdsOf(trace.evaluatedNodes)) ==> CommitLog(log, events) == log + events)
  {
    var events := EventsFor(adapter, trace, result);
    EventsAreNamed(adapter, trace, result);
    forall i | 0 <= i < |events| ensures !Has(log, events[i].eventId) {
      FreshTraceIsNew(adapter.naming, log, trace.id, KeysOf(trace, result)[i]);
    }
    EventIdsAreDistinct(adapter, trace, result);
    AcceptedExactlyWhenNew(log, events);
  }

  // ---------------------------------------------------------------- interrupted commits

  /** A commit attempt: how many events it has handled, what it counted, and how many events of the
      trace the log held when it began. */
  datatype Attempt = Idle | Running(position: nat, appended: nat, duplicates: nat, recorded: nat)

  datatype Retry = Retry(log: Log, attempt: Attempt, reports: seq<CommitStatus>)

  /** `Foreign` is an append that other work makes in between. */
  datatype RetryAction = Start | Step | Crash | Foreign(event: LedgerEvent)

  function Stepped(events: Log, r: Retry): Retry
    requires r.attempt.Running?
  {
    var a := r.attempt;
    if a.position >= |events| then
      Retry(r.log, Idle, r.reports + [StatusFor(a.appended, a.duplicates, 0)])
    else
      var event := events[a.position];
      Retry(Appended(r.log, event),
            if Has(r.log, event.eventId) then Running(a.position + 1, a.appended, a.duplicates + 1, a.recorded)
            else Running(a.position + 1, a.appended + 1, a.duplicates, a.recorded),
            r.reports)
  }

  function RetryNext(traceId: string, events: Log, r: Retry, action: RetryAction): Retry {
    match action
    case Start => if r.attempt.Idle? then r.(attempt := Running(0, 0, 0, |OfTrace(r.log, traceId)|)) else r
    case Step => if r.attempt.Idle? then r else Stepped(events, r)
    case Crash => r.(attempt := Idle)
    case Foreign(e) => r.(log := Appended(r.log, e))
  }

  function RetryRun(traceId: string, events: Log, r: Retry, actions: seq<RetryAction>): Retry {
    if actions == [] then r
    else
      var n := |actions| - 1;
      RetryNext(traceId, events, RetryRun(traceId, events, r, actions[..n]), actions[n])
  }

  /** The events of one commit: one trace, distinct ids. */
  ghost predicate IsCommitBatch(traceId: string, events: Log) {
    events != [] && DistinctIds(events) && forall i :: 0 <= i < |events| ==> events[i].traceId == traceId
  }

  /** Other work does not write for this trace and does not use its ids. */
  ghost predicate IsForeign(traceId: string, events: Log, e: LedgerEvent) {
    e.traceId != traceId && forall i :: 0 <= i < |events| ==> events[i].eventId != e.eventId
  }

  ghost predicate ForeignOnly(traceId: string, events: Log, actions: seq<RetryAction>) {
    forall i :: 0 <= i < |actions| && actions[i].Foreign? ==> IsForeign(traceId, events, actions[i].event)
  }

  /** The first `done` events of the batch, and no others of it, are in the log. */
  ghost predicate Recorded(traceId: string, events: Log, log: Log, done: nat) {
    && done <= |events|
    && OfTrace(log, traceId) == events[..done]
    && forall i :: 0 <= i < |events| ==> (Has(log, events[i].eventId) <==> i < done)
  }

  function Min(a: nat, b: nat): nat {
    if a < b then a else b
  }

  function Max(a: nat, b: nat): nat {
    if a < b then b else a
  }

  /** A running attempt has counted the events it found recorded as duplicates and the others as
      appended; a commit that ran to its end left nothing to append. */
  ghost predicate Counted(events: Log, r: Retry, done: nat) {
    && (r.attempt.Running? ==>
          var a := r.attempt;
          && a.position <= |events|
          && a.duplicates == Min(a.position, a.recorded)
          && a.appended == a.position - a.duplicates
          && done == Max(a.position, a.recorded)
          && (r.reports != [] ==> a.recorded == |events|))
    && (r.reports != [] ==> done == |events|)
    && (forall i :: 0 < i < |r.reports| ==> r.reports[i] == CommitDuplicate)
  }

  ghost predicate RetryInv(traceId: string, events: Log, r: Retry) {
    var done := |OfTrace(r.log, traceId)|;
    Recorded(traceId, events, r.log, done) && Counted(events, r, done)
  }

  lemma ForeignKeepsRecorded(traceId: string, events: Log, log: Log, done: nat, e: LedgerEvent)
    requires Recorded(traceId, events, log, done) && IsForeign(traceId, events, e)
    ensures Recorded(traceId, events, Appended(log, e), done)
  {
    OfTraceAppend(log, e, traceId);
    HasAppend(log, e);
  }

  lemma NextIsRecorded(traceId: string, events: Log, log: Log, done: nat)
    requires IsCommitBatch(traceId, events) && Recorded(traceId, events, log, done) && done < |events|
    ensures Recorded(traceId, events, Appended(log, events[done]), done + 1)
  {
    OfTraceAppend(log, events[done], traceId);
    HasAppend(log, events[done]);
    assert events[..done + 1] == events[..done] + [events[done]];
    forall i | 0 <= i < |events| ensures events[i].eventId == events[done].eventId <==> i == done {}
  }

  lemma StepKeepsInv(traceId: string, events: Log, r: Retry)
    requires IsCommitBatch(traceId, events) && RetryInv(traceId, events, r) && r.attempt.Running?
    ensures RetryInv(traceId, events, Stepped(events, r))
  {
    var done := |OfTrace(r.log, traceId)|;
    if r.attempt.position < |events| && r.attempt.position == done {
      NextIsRecorded(traceId, events, r.log, done);
    }
  }

  lemma {:induction false} RetryRunKeepsInv(traceId: string, events: Log, r: Retry, actions: seq<RetryAction>)
    requires IsCommitBatch(traceId, events) && RetryInv(traceId, events, r) && ForeignOnly(traceId, events, actions)
    ensures RetryInv(traceId, events, RetryRun(traceId, events, r, actions))
  {
    if actions != [] {
      var n := |actions| - 1;
      assert forall i :: 0 <= i < n ==> actions[..n][i] == actions[i];
      RetryRunKeepsInv(traceId, events, r, actions[..n]);
      var before := RetryRun(traceId, events, r, actions[..n]);
      match actions[n] {
        case Foreign(e) =>
          ForeignKeepsRecorded(traceId, events, before.log, |OfTrace(before.log, traceId)|, e);
        case Step =>
          if before.attempt.Running? { StepKeepsInv(traceId, events, before); }
        case _ =>
      }
    }
  }

  /** Crash-retry convergence. However often a commit is interrupted and retried, and whatever other
      traces append in between, the trace's log is at every moment a prefix of the batch, without
      repeats; from the first report on it is the whole batch, and every later report is DUPLICATE. */
  lemma RetriesConverge(traceId: string, events: Log, log: Log, actions: seq<RetryAction>)
    requires IsCommitBatch(traceId, events) && ForeignOnly(traceId, events, actions)
    requires Recorded(traceId, events, log, 0)
    ensures var r := RetryRun(traceId, events, Retry(log, Idle, []), actions);
            && IsPrefix(OfTrace(r.log, traceId), events)
            && (r.reports != [] ==> OfTrace(r.log, traceId) == events)
            && (forall i :: 0 < i < |r.reports| ==> r.reports[i] == CommitDuplicate)
  {
    RetryRunKeepsInv(traceId, events, Retry(log, Idle, []), actions);
  }

  /** What a completing attempt reports: ACCEPTED when it began with nothing recorded, DUPLICATE when
      it began with everything recorded, PARTIAL otherwise. */
  lemma ReportSaysWhatWasFound(traceId: string, events: Log, r: Retry)
    requires IsCommitBatch(traceId, events) && RetryInv(traceId, events, r)
    requires r.attempt.Running? && r.attempt.position == |events|
    ensures Stepped(events, r).reports
         == r.reports + [if r.attempt.recorded == 0 then CommitAccepted
                         else if r.attempt.recorded == |events| then CommitDuplicate
                         else CommitPartial]
  {
  }

  /** The events of an evaluation whose node ids are distinct are such a batch, and every event that
      is named for another trace is foreign to it. */
  lemma EvaluationsAreBatches(adapter: Adapter, trace: DecisionTrace, result: DecisionResult, e: LedgerEvent, key: StepKey)
    requires IsInjective(adapter.naming) && |trace.humanGateRequests| <= 1
    requires Distinct(NodeIdsOf(trace.evaluatedNodes))
    requires e.traceId != trace.id && e.eventId == adapter.naming(e.traceId, key)
    ensures IsCommitBatch(trace.id, EventsFor(adapter, trace, result))
    ensures IsForeign(trace.id, EventsFor(adapter, trace, result), e)
  {
    EventsAreNamed(adapter, trace, result);
    EventIdsAreDistinct(adapter, trace, result);
  }
}
