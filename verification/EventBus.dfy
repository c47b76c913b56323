/** The in-memory event bus and its cursor paging. */
module EventBus {
  import opened Basics
  import opened Values
  import opened Decisions

  /** An EXECUTION_REQUESTED event. */
  datatype RuntimeEvent = RuntimeEvent(
    id: Uuid,
    flowId: string,
    traceId: Uuid,
    decisionId: Uuid,
    executionId: Uuid,
    action: Option<Record>)

  const MAX_LIMIT: int := 1000

  ghost predicate DistinctEventIds(events: seq<RuntimeEvent>) {
    forall i, j :: 0 <= i < j < |events| ==> events[i].id != events[j].id
  }

  /** The position after the first event with the id; 0 when there is none. */
  function StartAfter(events: seq<RuntimeEvent>, sinceId: string): (start: nat)
    ensures start <= |events|
    ensures start > 0 ==> events[start - 1].id == sinceId && forall j :: 0 <= j < start - 1 ==> events[j].id != sinceId
    ensures start == 0 ==> forall j :: 0 <= j < |events| ==> events[j].id != sinceId
  {
    if exists i :: 0 <= i < |events| && events[i].id == sinceId then FirstFrom(events, sinceId, 0) + 1 else 0
  }

  function FirstFrom(events: seq<RuntimeEvent>, id: string, i: nat): (k: nat)
    requires i <= |events| && forall j :: 0 <= j < i ==> events[j].id != id
    requires exists j :: 0 <= j < |events| && events[j].id == id
    ensures k < |events| && events[k].id == id && forall j :: 0 <= j < k ==> events[j].id != id
    decreases |events| - i
  {
    if events[i].id == id then i else FirstFrom(events, id, i + 1)
  }

  /** `s[:n]`, where a negative `n` counts from the end. */
  function Sliced<T>(s: seq<T>, n: int): seq<T> {
    if n >= 0 then s[..if n < |s| then n else |s|]
    else s[..if |s| + n < 0 then 0 else |s| + n]
  }

  function Capped(limit: int): int {
    if limit < MAX_LIMIT then limit else MAX_LIMIT
  }

  /** One page. Without a limit there is no cap. */
  function Page(events: seq<RuntimeEvent>, sinceId: Option<string>, limit: Option<int>): seq<RuntimeEvent> {
    var rest := if sinceId.Some? then events[StartAfter(events, sinceId.value)..] else events;
    if limit.Some? then Sliced(rest, Capped(limit.value)) else rest
  }

  /** The page starts after the first event with the id of the cursor, or at the beginning if there is none. */
  ghost predicate StartsAt(events: seq<RuntimeEvent>, sinceId: Option<string>, start: nat) {
    && start <= |events|
    && (start > 0 ==> sinceId.Some? && events[start - 1].id == sinceId.value)
    && (sinceId.Some? ==> forall j :: 0 <= j < |events| && (start == 0 || j < start - 1) ==> events[j].id != sinceId.value)
  }

  /** What follows, as much of it as is asked for and at most 1000; without a limit all of it. */
  ghost predicate IsPageOf(events: seq<RuntimeEvent>, sinceId: Option<string>, limit: Option<int>, page: seq<RuntimeEvent>) {
    exists start: nat ::
      && StartsAt(events, sinceId, start)
      && IsPrefix(page, events[start..])
      && (limit.None? ==> page == events[start..])
      && (limit.Some? && limit.value >= 1 ==>
            && |page| <= limit.value && |page| <= 1000
            && (page == events[start..] || |page| == limit.value || |page| == 1000))
  }

  lemma PagesFollowCursor(events: seq<RuntimeEvent>, sinceId: Option<string>, limit: Option<int>)
    ensures IsPageOf(events, sinceId, limit, Page(events, sinceId, limit))
  {
    var start := if sinceId.Some? then StartAfter(events, sinceId.value) else 0;
    assert events[0..] == events;
    assert StartsAt(events, sinceId, start);
  }

  /** A page asked for with a limit of at least 1 has at most 1000 events. Without a limit it has at most
      1000 exactly when no more than these follow the cursor: then nothing caps it. */
  lemma OnlyLimitsCapPages(events: seq<RuntimeEvent>, sinceId: Option<string>, limit: Option<int>)
    ensures limit.Some? && limit.value >= 1 ==> |Page(events, sinceId, limit)| <= 1000
    ensures limit.None? ==>
              (|Page(events, sinceId, limit)| <= 1000
               <==> |events| - (if sinceId.Some? then StartAfter(events, sinceId.value) else 0) <= 1000)
  {
  }

  class EventBus {
    var events: seq<RuntimeEvent>

    constructor ()
      ensures events == []
    {
      events := [];
    }

    method Publish(event: RuntimeEvent)
      modifies this
      ensures events == old(events) + [event]
    {
      events := events + [event];
    }

    method GetEvents(sinceId: Option<string>, limit: Option<int>) returns (page: seq<RuntimeEvent>)
      ensures page == Page(events, sinceId, limit)
      ensures IsPageOf(events, sinceId, limit, page)
    {
      page := events;
      if sinceId.Some? {
        var start := 0;
        for i := 0 to |events|
          invariant start == 0 && forall j :: 0 <= j < i ==> events[j].id != sinceId.value
        {
          if events[i].id == sinceId.value {
            start := i + 1;
            break;
          }
        }
        page := events[start..];
      }
      if limit.Some? {
        page := Sliced(page, Capped(limit.value));
      }
      PagesFollowCursor(events, sinceId, limit);
    }
  }

  /** The sink for events handed over to the orchestrator. */
  class ExecutionPublisher {
    var sent: seq<RuntimeEvent>

    constructor ()
      ensures sent == []
    {
      sent := [];
    }

    method Publish(event: RuntimeEvent)
      modifies this
      ensures sent == old(sent) + [event]
    {
      sent := sent + [event];
    }
  }

  // ---------------------------------------------------------------- following the cursor

  /** A reader that passes the id of the last event received as the next cursor. */
  datatype Reading = Reading(log: seq<RuntimeEvent>, received: seq<RuntimeEvent>)

  datatype ReadAction = PublishEvent(event: RuntimeEvent) | Fetch

  function CursorOf(received: seq<RuntimeEvent>): Option<string> {
    if received == [] then None else Some(received[|received| - 1].id)
  }

  function ReadNext(r: Reading, limit: int, action: ReadAction): Reading {
    match action
    case PublishEvent(e) => r.(log := r.log + [e])
    case Fetch => r.(received := r.received + Page(r.log, CursorOf(r.received), Some(limit)))
  }

  function ReadRun(r: Reading, limit: int, actions: seq<ReadAction>): Reading {
    if actions == [] then r
    else
      var n := |actions| - 1;
      ReadNext(ReadRun(r, limit, actions[..n]), limit, actions[n])
  }

  function FetchCount(actions: seq<ReadAction>): nat {
    if actions == [] then 0
    else FetchCount(actions[..|actions| - 1]) + if actions[|actions| - 1].Fetch? then 1 else 0
  }

  /** A fetch continues exactly where the last one ended. */
  lemma FetchContinues(r: Reading, limit: int)
    requires limit >= 1 && IsPrefix(r.received, r.log) && DistinctEventIds(r.log)
    ensures var next := ReadNext(r, limit, Fetch);
            IsPrefix(next.received, next.log)
            && |next.received| == if |r.received| + Capped(limit) < |r.log| then |r.received| + Capped(limit) else |r.log|
  {
    var k := |r.received|;
    assert forall i :: 0 <= i < k ==> r.received[i] == r.log[i];
    if k > 0 {
      var start := StartAfter(r.log, r.received[k - 1].id);
      assert r.log[k - 1].id == r.received[k - 1].id;
      assert start == k;
    }
    var page := Page(r.log, CursorOf(r.received), Some(limit));
    assert page == Sliced(r.log[k..], Capped(limit));
    assert r.log[..k] + page == r.log[..k + |page|];
  }

  lemma PrefixesAreDistinct(a: seq<RuntimeEvent>, b: seq<RuntimeEvent>)
    requires IsPrefix(a, b) && DistinctEventIds(b)
    ensures DistinctEventIds(a)
  {
    assert forall i :: 0 <= i < |a| ==> a[i] == b[i];
  }

  lemma PublishKeepsPrefix(r: Reading, limit: int, e: RuntimeEvent)
    requires IsPrefix(r.received, r.log)
    ensures IsPrefix(r.received, ReadNext(r, limit, PublishEvent(e)).log)
    ensures IsPrefix(r.log, ReadNext(r, limit, PublishEvent(e)).log)
  {
  }

  /** Whatever is published in between, a reader that follows the cursor with any limit of at least 1
      holds a prefix of the log: every event once, in publication order. Each fetch brings at least
      one event, until the reader has all that were there when it began. */
  lemma {:induction false} ReaderHoldsPrefix(log: seq<RuntimeEvent>, limit: int, actions: seq<ReadAction>)
    requires limit >= 1 && DistinctEventIds(ReadRun(Reading(log, []), limit, actions).log)
    ensures var r := ReadRun(Reading(log, []), limit, actions);
            IsPrefix(r.received, r.log) && |log| <= |r.log|
            && (FetchCount(actions) <= |r.received| || |log| <= |r.received|)
  {
    if actions != [] {
      var n := |actions| - 1;
      var before := ReadRun(Reading(log, []), limit, actions[..n]);
      var after := ReadNext(before, limit, actions[n]);
      assert IsPrefix(before.log, after.log);
      PrefixesAreDistinct(before.log, after.log);
      ReaderHoldsPrefix(log, limit, actions[..n]);
      match actions[n] {
        case Fetch => FetchContinues(before, limit);
        case PublishEvent(e) => PublishKeepsPrefix(before, limit, e);
      }
    }
  }
}
