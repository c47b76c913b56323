/** Ledger events and the in-memory ledger: an append-only log with an id set, an id index and a
    trace index kept beside it. */
module LedgerClient {
  import opened Basics
  import opened Values
  import opened Decisions

  datatype LedgerEvent = LedgerEvent(
    eventId: string,
    schemaVersion: string,
    traceId: Uuid,
    decisionId: Uuid,
    flowId: string,
    flowVersion: string,
    stepType: string,
    stepId: string,
    payload: Record,
    occurredAt: int)

  datatype AppendStatus = AppendAccepted | AppendDuplicate | AppendInvalid

  type Log = seq<LedgerEvent>

  // ---------------------------------------------------------------- views of a log

  predicate Has(log: Log, id: string) {
    exists i :: 0 <= i < |log| && log[i].eventId == id
  }

  ghost predicate DistinctIds(log: Log) {
    forall i, j :: 0 <= i < j < |log| ==> log[i].eventId != log[j].eventId
  }

  /** The events of one trace, in append order. */
  function OfTrace(log: Log, traceId: string): Log {
    if log == [] then []
    else
      var n := |log| - 1;
      var before := OfTrace(log[..n], traceId);
      if log[n].traceId == traceId then before + [log[n]] else before
  }

  /** What one append makes of a log: nothing when the id is known. */
  function Appended(log: Log, event: LedgerEvent): Log {
    if Has(log, event.eventId) then log else log + [event]
  }

  function StatusOf(log: Log, event: LedgerEvent): AppendStatus {
    if Has(log, event.eventId) then AppendDuplicate else AppendAccepted
  }

  lemma HasAppend(log: Log, event: LedgerEvent)
    ensures forall id :: Has(log + [event], id) <==> Has(log, id) || id == event.eventId
  {
    var longer := log + [event];
    assert longer[|log|] == event;
    forall id | Has(log, id) ensures Has(longer, id) {
      var i :| 0 <= i < |log| && log[i].eventId == id;
      assert longer[i] == log[i];
    }
  }

  lemma OfTraceAppend(log: Log, event: LedgerEvent, traceId: string)
    ensures OfTrace(log + [event], traceId)
         == if event.traceId == traceId then OfTrace(log, traceId) + [event] else OfTrace(log, traceId)
  {
    assert (log + [event])[..|log|] == log;
  }

  lemma {:induction false} OfTraceConcat(a: Log, b: Log, traceId: string)
    ensures OfTrace(a + b, traceId) == OfTrace(a, traceId) + OfTrace(b, traceId)
  {
    if b == [] {
      assert a + b == a;
    } else {
      var n := |b| - 1;
      OfTraceConcat(a, b[..n], traceId);
      assert (a + b)[..|a| + n] == a + b[..n];
    }
  }

  lemma {:induction false} OfTraceMembers(log: Log, traceId: string, event: LedgerEvent)
    ensures event in OfTrace(log, traceId) <==> event in log && event.traceId == traceId
  {
    if log != [] {
      var n := |log| - 1;
      OfTraceMembers(log[..n], traceId, event);
      assert log == log[..n] + [log[n]];
    }
  }

  lemma {:induction false} WholeTrace(log: Log, traceId: string)
    requires forall e :: e in log ==> e.traceId == traceId
    ensures OfTrace(log, traceId) == log
  {
    if log != [] {
      var n := |log| - 1;
      assert log == log[..n] + [log[n]];
      assert log[n] in log;
      WholeTrace(log[..n], traceId);
    }
  }

  // ---------------------------------------------------------------- the client

  class LedgerClient {
    var events: Log
    var seenIds: set<string>
    var byEventId: map<string, LedgerEvent>
    var byTraceId: map<string, Log>

    constructor ()
      ensures Valid() && events == []
    {
      events, seenIds, byEventId, byTraceId := [], {}, map[], map[];
    }

    /** Each of the three redundant structures is the corresponding view of the log. */
    ghost predicate Valid()
      reads this
    {
      && DistinctIds(events)
      && (forall id :: id in seenIds <==> Has(events, id))
      && byEventId.Keys == seenIds
      && (forall id :: id in byEventId ==> byEventId[id] in events && byEventId[id].eventId == id)
      && (forall t :: t in byTraceId <==> OfTrace(events, t) != [])
      && (forall t :: t in byTraceId ==> byTraceId[t] == OfTrace(events, t))
    }

    method Append(event: LedgerEvent) returns (status: AppendStatus)
      requires Valid()
      modifies this
      ensures Valid()
      ensures events == Appended(old(events), event) && status == StatusOf(old(events), event)
    {
      if event.eventId in seenIds {
        return AppendDuplicate;
      }
      forall t ensures OfTrace(events + [event], t)
                    == if event.traceId == t then OfTrace(events, t) + [event] else OfTrace(events, t) {
        OfTraceAppend(events, event, t);
      }
      HasAppend(events, event);
      events := events + [event];
      seenIds := seenIds + {event.eventId};
      byEventId := byEventId[event.eventId := event];
      byTraceId := byTraceId[event.traceId :=
        (if event.traceId in byTraceId then byTraceId[event.traceId] else []) + [event]];
      return AppendAccepted;
    }

    method GetByEventId(id: string) returns (r: Option<LedgerEvent>)
      requires Valid()
      ensures r.Some? ==> r.value in events && r.value.eventId == id
      ensures r.None? ==> !Has(events, id)
    {
      if id in byEventId { return Some(byEventId[id]); }
      return None;
    }

    method GetEventsByTraceId(traceId: string) returns (r: Log)
      requires Valid()
      ensures r == OfTrace(events, traceId)
    {
      if traceId in byTraceId { return byTraceId[traceId]; }
      return [];
    }

    method GetEvents() returns (r: Log)
      ensures r == events
    {
      return events;
    }
  }
}
