/** The trace store with its two indexes, the idempotency store, and trace paging. */
module TraceStore {
  import opened Basics
  import opened Decisions

  /** The traces in the order of the dictionary: by first save; saving again keeps the place. */
  datatype Traces = Traces(order: seq<string>, byTraceId: map<string, DecisionTrace>, byDecisionId: map<string, DecisionTrace>)

  function IndexedByResults(index: map<string, DecisionTrace>, trace: DecisionTrace, results: seq<DecisionResult>)
    : map<string, DecisionTrace>
  {
    if results == [] then index
    else
      var n := |results| - 1;
      IndexedByResults(index, trace, results[..n])[results[n].id := trace]
  }

  function Saved(s: Traces, trace: DecisionTrace): Traces {
    var index := IndexedByResults(s.byDecisionId, trace, trace.decisionResults);
    Traces(
      if trace.id in s.byTraceId then s.order else s.order + [trace.id],
      s.byTraceId[trace.id := trace],
      if trace.decisionId.Some? then index[trace.decisionId.value := trace] else index)
  }

  /** The trace is filed under the decision: as its own or as that of one of its results. */
  ghost predicate Mentions(t: DecisionTrace, decisionId: string) {
    t.decisionId == Some(decisionId) || exists i :: 0 <= i < |t.decisionResults| && t.decisionResults[i].id == decisionId
  }

  /** Both dictionaries hold what they are asked for, and every kept trace is found by each decision it
      mentions. */
  ghost predicate TracesInv(s: Traces) {
    && (forall id :: id in s.byTraceId <==> id in s.order)
    && Distinct(s.order)
    && (forall id :: id in s.byTraceId ==> s.byTraceId[id].id == id)
    && (forall d :: d in s.byDecisionId ==> Mentions(s.byDecisionId[d], d) && s.byDecisionId[d].id in s.byTraceId)
    && (forall id, d :: id in s.byTraceId && Mentions(s.byTraceId[id], d) ==> d in s.byDecisionId)
  }

  lemma {:induction false} IndexedByResultsHolds(index: map<string, DecisionTrace>, trace: DecisionTrace,
                                                 results: seq<DecisionResult>, d: string)
    ensures var named := exists i :: 0 <= i < |results| && results[i].id == d;
            && (d in IndexedByResults(index, trace, results) <==> d in index || named)
            && (d in IndexedByResults(index, trace, results) ==>
                  IndexedByResults(index, trace, results)[d] == if named then trace else index[d])
  {
    if results != [] {
      var n := |results| - 1;
      IndexedByResultsHolds(index, trace, results[..n], d);
      assert forall i :: 0 <= i < n ==> results[..n][i] == results[i];
    }
  }

  /** What is saved is found, by its id and by every decision it mentions; all else is found as before. */
  lemma SavedIsFound(s: Traces, trace: DecisionTrace, id: string, d: string)
    ensures var after := Saved(s, trace);
            && (id in after.byTraceId <==> id == trace.id || id in s.byTraceId)
            && (id in after.byTraceId ==> after.byTraceId[id] == if id == trace.id then trace else s.byTraceId[id])
            && (d in after.byDecisionId <==> Mentions(trace, d) || d in s.byDecisionId)
            && (d in after.byDecisionId ==>
                  after.byDecisionId[d] == if Mentions(trace, d) then trace else s.byDecisionId[d])
            && IsPrefix(s.order, after.order)
  {
    IndexedByResultsHolds(s.byDecisionId, trace, trace.decisionResults, d);
  }

  lemma SavingKeepsInv(s: Traces, trace: DecisionTrace)
    requires TracesInv(s)
    ensures TracesInv(Saved(s, trace))
  {
    var after := Saved(s, trace);
    forall d | d in after.byDecisionId
      ensures Mentions(after.byDecisionId[d], d) && after.byDecisionId[d].id in after.byTraceId
    {
      SavedIsFound(s, trace, trace.id, d);
    }
    forall id, d | id in after.byTraceId && Mentions(after.byTraceId[id], d) ensures d in after.byDecisionId {
      SavedIsFound(s, trace, id, d);
    }
  }

  // ---------------------------------------------------------------- newest first

  function InsertRecent(t: DecisionTrace, sorted: seq<DecisionTrace>): seq<DecisionTrace> {
    if sorted == [] || t.startedAt >= sorted[0].startedAt then [t] + sorted
    else [sorted[0]] + InsertRecent(t, sorted[1..])
  }

  /** The stable sort by falling started_at. */
  function NewestFirst(ts: seq<DecisionTrace>): seq<DecisionTrace> {
    if ts == [] then [] else InsertRecent(ts[0], NewestFirst(ts[1..]))
  }

  ghost predicate FallingStart(ts: seq<DecisionTrace>) {
    forall i, j :: 0 <= i < j < |ts| ==> ts[i].startedAt >= ts[j].startedAt
  }

  function StartedAt(ts: seq<DecisionTrace>, at: int): seq<DecisionTrace> {
    if ts == [] then []
    else if ts[0].startedAt == at then [ts[0]] + StartedAt(ts[1..], at)
    else StartedAt(ts[1..], at)
  }

  lemma {:induction false} InsertRecentKeepsOrder(t: DecisionTrace, sorted: seq<DecisionTrace>)
    requires FallingStart(sorted)
    ensures FallingStart(InsertRecent(t, sorted)) && |InsertRecent(t, sorted)| == |sorted| + 1
    ensures forall x :: x in InsertRecent(t, sorted) <==> x == t || x in sorted
    ensures forall at :: StartedAt(InsertRecent(t, sorted), at)
                      == if at == t.startedAt then [t] + StartedAt(sorted, at) else StartedAt(sorted, at)
  {
    if sorted == [] || t.startedAt >= sorted[0].startedAt {
      assert ([t] + sorted)[1..] == sorted;
    } else {
      InsertRecentKeepsOrder(t, sorted[1..]);
      var rest := InsertRecent(t, sorted[1..]);
      assert ([sorted[0]] + rest)[1..] == rest;
      forall j | 0 <= j < |rest| ensures rest[j].startedAt <= sorted[0].startedAt { assert rest[j] in rest; }
    }
  }

  /** Newest first, and traces of one start time in the order of their first save. */
  lemma {:induction false} NewestFirstIsStableSort(ts: seq<DecisionTrace>)
    ensures FallingStart(NewestFirst(ts)) && |NewestFirst(ts)| == |ts|
    ensures forall at :: StartedAt(NewestFirst(ts), at) == StartedAt(ts, at)
  {
    if ts != [] {
      NewestFirstIsStableSort(ts[1..]);
      InsertRecentKeepsOrder(ts[0], NewestFirst(ts[1..]));
    }
  }

  const RECENT_CAP: int := 10000
  const PAGE_CAP: int := 1000

  function MinInt(a: int, b: int): int {
    if a < b then a else b
  }

  function InOrder(s: Traces, order: seq<string>): (ts: seq<DecisionTrace>)
    requires forall id :: id in order ==> id in s.byTraceId
    ensures |ts| == |order|
  {
    seq(|order|, i requires 0 <= i < |order| => s.byTraceId[order[i]])
  }

  function Recent(sorted: seq<DecisionTrace>, limit: nat): seq<DecisionTrace> {
    sorted[..MinInt(MinInt(limit, RECENT_CAP), |sorted|)]
  }

  /** A page of the trace list: the newest `limit + offset` traces without the first `offset`. */
  function TracePage(sorted: seq<DecisionTrace>, limit: nat, offset: nat): seq<DecisionTrace> {
    var window := Recent(sorted, MinInt(limit, PAGE_CAP) + offset);
    window[MinInt(offset, |window|)..]
  }

  /** The first `k` pages at offsets 0, L, 2L, ... */
  function Pages(sorted: seq<DecisionTrace>, limit: nat, k: nat): seq<DecisionTrace> {
    if k == 0 then [] else Pages(sorted, limit, k - 1) + TracePage(sorted, limit, (k - 1) * limit)
  }

  /** Pages of any size from 1 to 1000 read one after the other give the newest traces, none twice
      and none skipped, up to the newest 10 000; all pages after those are empty. */
  lemma {:induction false} PagesAreExact(sorted: seq<DecisionTrace>, limit: nat, k: nat)
    requires 1 <= limit <= PAGE_CAP
    ensures Pages(sorted, limit, k) == sorted[..MinInt(k * limit, MinInt(|sorted|, RECENT_CAP))]
  {
    if k > 0 {
      PagesAreExact(sorted, limit, k - 1);
      assert k * limit == (k - 1) * limit + limit;
      PageIsSlice(sorted, limit, (k - 1) * limit);
    }
  }

  lemma PageIsSlice(sorted: seq<DecisionTrace>, limit: nat, offset: nat)
    requires 1 <= limit <= PAGE_CAP
    ensures var total := MinInt(|sorted|, RECENT_CAP);
            sorted[..MinInt(offset, total)] + TracePage(sorted, limit, offset) == sorted[..MinInt(offset + limit, total)]
  {
    var total := MinInt(|sorted|, RECENT_CAP);
    var window := Recent(sorted, limit + offset);
    assert window == sorted[..MinInt(offset + limit, total)];
    assert window[MinInt(offset, |window|)..] == sorted[MinInt(offset, total)..MinInt(offset + limit, total)];
  }

  // ---------------------------------------------------------------- what a listing shows

  /** `a` was saved for the first time before `b` was. */
  ghost predicate SavedBefore(order: seq<string>, a: string, b: string) {
    exists i, j :: 0 <= i < j < |order| && order[i] == a && order[j] == b
  }

  /** The newer trace comes first; of two that started at the same time, the one saved first. */
  ghost predicate ComesFirst(order: seq<string>, a: DecisionTrace, b: DecisionTrace) {
    a.startedAt > b.startedAt || (a.startedAt == b.startedAt && SavedBefore(order, a.id, b.id))
  }

  /** The ids of the kept traces that come before this one. */
  ghost function Ahead(s: Traces, t: DecisionTrace): set<string> {
    set id | id in s.byTraceId && ComesFirst(s.order, s.byTraceId[id], t)
  }

  /** The kept trace that exactly `k` others come before. */
  ghost predicate IsKeptAt(s: Traces, t: DecisionTrace, k: nat) {
    t.id in s.byTraceId && s.byTraceId[t.id] == t && |Ahead(s, t)| == k
  }

  ghost predicate AllComeFirst(order: seq<string>, ts: seq<DecisionTrace>) {
    forall i, j :: 0 <= i < j < |ts| ==> ComesFirst(order, ts[i], ts[j])
  }

  lemma {:induction false} InsertRecentComesFirst(order: seq<string>, t: DecisionTrace, sorted: seq<DecisionTrace>)
    requires AllComeFirst(order, sorted) && forall x :: x in sorted ==> SavedBefore(order, t.id, x.id)
    ensures AllComeFirst(order, InsertRecent(t, sorted))
    ensures forall x :: x in InsertRecent(t, sorted) <==> x == t || x in sorted
    ensures |InsertRecent(t, sorted)| == |sorted| + 1
  {
    if sorted == [] || t.startedAt >= sorted[0].startedAt {
      forall j | 0 <= j < |sorted| ensures ComesFirst(order, t, sorted[j]) {
        assert sorted[j] in sorted;
        if j > 0 { assert ComesFirst(order, sorted[0], sorted[j]); }
      }
    } else {
      assert forall x :: x in sorted[1..] ==> x in sorted;
      InsertRecentComesFirst(order, t, sorted[1..]);
      var rest := InsertRecent(t, sorted[1..]);
      forall j | 0 <= j < |rest| ensures ComesFirst(order, sorted[0], rest[j]) {
        assert rest[j] in rest;
        if rest[j] in sorted[1..] {
          var i :| 0 <= i < |sorted[1..]| && sorted[1..][i] == rest[j];
          assert ComesFirst(order, sorted[0], sorted[i + 1]);
        }
      }
      assert sorted == [sorted[0]] + sorted[1..];
    }
  }

  ghost predicate InSavedOrder(order: seq<string>, ts: seq<DecisionTrace>) {
    forall i, j :: 0 <= i < j < |ts| ==> SavedBefore(order, ts[i].id, ts[j].id)
  }

  lemma {:induction false} NewestFirstComesFirst(order: seq<string>, ts: seq<DecisionTrace>)
    requires InSavedOrder(order, ts)
    ensures AllComeFirst(order, NewestFirst(ts)) && |NewestFirst(ts)| == |ts|
    ensures forall x :: x in NewestFirst(ts) <==> x in ts
  {
    if ts != [] {
      assert InSavedOrder(order, ts[1..]) by {
        forall i, j | 0 <= i < j < |ts| - 1 ensures SavedBefore(order, ts[1..][i].id, ts[1..][j].id) {
          assert SavedBefore(order, ts[i + 1].id, ts[j + 1].id);
        }
      }
      NewestFirstComesFirst(order, ts[1..]);
      forall x | x in NewestFirst(ts[1..]) ensures SavedBefore(order, ts[0].id, x.id) {
        var i :| 0 <= i < |ts[1..]| && ts[1..][i] == x;
        assert SavedBefore(order, ts[0].id, ts[i + 1].id);
      }
      InsertRecentComesFirst(order, ts[0], NewestFirst(ts[1..]));
      assert ts == [ts[0]] + ts[1..];
    }
  }

  /** All kept traces, the ones that come first in front. */
  function Listing(s: Traces): seq<DecisionTrace>
    requires forall id :: id in s.order ==> id in s.byTraceId
  {
    NewestFirst(InOrder(s, s.order))
  }

  lemma InOrderIsComplete(s: Traces)
    requires TracesInv(s)
    ensures InSavedOrder(s.order, InOrder(s, s.order))
    ensures forall t: DecisionTrace :: t in InOrder(s, s.order) <==> t.id in s.byTraceId && s.byTraceId[t.id] == t
  {
    var ts := InOrder(s, s.order);
    forall i, j | 0 <= i < j < |ts| ensures SavedBefore(s.order, ts[i].id, ts[j].id) {
      assert s.order[i] in s.order && s.order[j] in s.order;
      assert s.order[i] == ts[i].id && s.order[j] == ts[j].id;
    }
    forall t: DecisionTrace | t.id in s.byTraceId && s.byTraceId[t.id] == t ensures t in ts {
      var i :| 0 <= i < |s.order| && s.order[i] == t.id;
      assert ts[i] == t;
    }
    forall t | t in ts ensures t.id in s.byTraceId && s.byTraceId[t.id] == t {
      var i :| 0 <= i < |ts| && ts[i] == t;
      assert s.order[i] in s.order;
    }
  }

  lemma ListingIsComplete(s: Traces)
    requires TracesInv(s)
    ensures AllComeFirst(s.order, Listing(s)) && |Listing(s)| == |s.order|
    ensures forall t: DecisionTrace :: t in Listing(s) <==> t.id in s.byTraceId && s.byTraceId[t.id] == t
  {
    InOrderIsComplete(s);
    NewestFirstComesFirst(s.order, InOrder(s, s.order));
  }

  lemma ComesFirstIsStrict(order: seq<string>, a: DecisionTrace, b: DecisionTrace)
    requires Distinct(order) && ComesFirst(order, a, b)
    ensures !ComesFirst(order, b, a) && a != b
  {
  }

  ghost function IdsBefore(ts: seq<DecisionTrace>, k: nat): set<string>
    requires k <= |ts|
  {
    if k == 0 then {} else IdsBefore(ts, k - 1) + {ts[k - 1].id}
  }

  lemma {:induction false} IdsBeforeMembers(ts: seq<DecisionTrace>, k: nat, id: string)
    requires k <= |ts|
    ensures id in IdsBefore(ts, k) <==> exists i :: 0 <= i < k && ts[i].id == id
  {
    if k > 0 { IdsBeforeMembers(ts, k - 1, id); }
  }

  lemma {:induction false} CountBefore(ts: seq<DecisionTrace>, k: nat)
    requires k <= |ts| && forall i, j :: 0 <= i < j < |ts| ==> ts[i].id != ts[j].id
    ensures |IdsBefore(ts, k)| == k
  {
    if k > 0 {
      CountBefore(ts, k - 1);
      IdsBeforeMembers(ts, k - 1, ts[k - 1].id);
    }
  }

  lemma ListedIdsDiffer(s: Traces, i: nat, j: nat)
    requires TracesInv(s) && i < j < |Listing(s)|
    ensures Listing(s)[i].id != Listing(s)[j].id
  {
    ListingIsComplete(s);
    var ts := Listing(s);
    assert ts[i] in ts && ts[j] in ts;
    ComesFirstIsStrict(s.order, ts[i], ts[j]);
  }

  lemma AheadIsBefore(s: Traces, k: nat, j: nat)
    requires TracesInv(s) && k < |Listing(s)| && j < |Listing(s)|
    ensures ComesFirst(s.order, Listing(s)[j], Listing(s)[k]) <==> j < k
  {
    ListingIsComplete(s);
    var ts := Listing(s);
    if k < j {
      ComesFirstIsStrict(s.order, ts[k], ts[j]);
    } else if ComesFirst(s.order, ts[j], ts[k]) {
      ComesFirstIsStrict(s.order, ts[j], ts[k]);
    }
  }

  lemma AheadAreListedBefore(s: Traces, k: nat, id: string)
    requires TracesInv(s) && k < |Listing(s)|
    ensures id in Ahead(s, Listing(s)[k]) <==> id in IdsBefore(Listing(s), k)
  {
    ListingIsComplete(s);
    var ts := Listing(s);
    IdsBeforeMembers(ts, k, id);
    if id in Ahead(s, ts[k]) {
      assert s.byTraceId[id] in ts;
      var j :| 0 <= j < |ts| && ts[j] == s.byTraceId[id];
      AheadIsBefore(s, k, j);
    }
    if i :| 0 <= i < k && ts[i].id == id {
      assert ts[i] in ts;
      AheadIsBefore(s, k, i);
    }
  }

  /** As many kept traces come before the one at place `k` of the listing as there are places before it. */
  lemma PlaceCounts(s: Traces, k: nat)
    requires TracesInv(s) && k < |Listing(s)|
    ensures IsKeptAt(s, Listing(s)[k], k)
  {
    ListingIsComplete(s);
    var ts := Listing(s);
    assert ts[k] in ts;
    forall id ensures id in Ahead(s, ts[k]) <==> id in IdsBefore(ts, k) { AheadAreListedBefore(s, k, id); }
    assert Ahead(s, ts[k]) == IdsBefore(ts, k);
    forall i, j | 0 <= i < j < |ts| ensures ts[i].id != ts[j].id { ListedIdsDiffer(s, i, j); }
    CountBefore(ts, k);
  }

  lemma KeptIsListed(s: Traces, t: DecisionTrace, k: nat)
    requires TracesInv(s) && IsKeptAt(s, t, k)
    ensures k < |s.order| == |Listing(s)| && Listing(s)[k] == t
  {
    ListingIsComplete(s);
    assert t in Listing(s);
    var m :| 0 <= m < |Listing(s)| && Listing(s)[m] == t;
    PlaceCounts(s, m);
  }

  /** Two kept traces with different numbers of traces before them are different, and stand in the order
      of these numbers: the newer first, and of two with one start time the one saved first. */
  lemma NumbersTellOrder(s: Traces, a: DecisionTrace, i: nat, b: DecisionTrace, j: nat)
    requires TracesInv(s) && IsKeptAt(s, a, i) && IsKeptAt(s, b, j)
    ensures i < j <==> ComesFirst(s.order, a, b)
    ensures i == j <==> a.id == b.id
  {
    KeptIsListed(s, a, i);
    KeptIsListed(s, b, j);
    AheadIsBefore(s, j, i);
  }

  /** What a list of traces numbered from 0 leaves out is no newer: each kept trace is in it, or comes after
      all that are; a list as long as there are kept traces leaves nothing out. */
  lemma ListsTheNewest(s: Traces, r: seq<DecisionTrace>, id: string)
    requires TracesInv(s) && id in s.byTraceId && forall k :: 0 <= k < |r| ==> IsKeptAt(s, r[k], k)
    ensures s.byTraceId[id] in r || (|r| < |s.order| && forall k :: 0 <= k < |r| ==> ComesFirst(s.order, r[k], s.byTraceId[id]))
    ensures forall i, j :: 0 <= i < j < |r| ==> r[i].id != r[j].id && ComesFirst(s.order, r[i], r[j])
  {
    ListingIsComplete(s);
    var t := s.byTraceId[id];
    assert t in Listing(s);
    var m :| 0 <= m < |Listing(s)| && Listing(s)[m] == t;
    PlaceCounts(s, m);
    if m < |r| {
      NumbersTellOrder(s, r[m], m, t, m);
    } else {
      forall k | 0 <= k < |r| ensures ComesFirst(s.order, r[k], t) { NumbersTellOrder(s, r[k], k, t, m); }
    }
    forall i, j | 0 <= i < j < |r| ensures r[i].id != r[j].id && ComesFirst(s.order, r[i], r[j]) {
      NumbersTellOrder(s, r[i], i, r[j], j);
    }
  }

  /** A page: at most `limit` and at most 1000 of the newest 10000 kept traces, those that `offset` and more
      come before; fewer only where these end. */
  ghost predicate IsPage(s: Traces, page: seq<DecisionTrace>, limit: nat, offset: nat) {
    && |page| <= limit && |page| <= 1000
    && (page != [] ==> offset + |page| <= |s.order| && offset + |page| <= 10000)
    && (|page| < limit && |page| < 1000 ==> offset + |page| >= |s.order| || offset + |page| >= 10000)
    && forall k :: 0 <= k < |page| ==> IsKeptAt(s, page[k], offset + k)
  }

  /** Where page number `p` starts: 0, L, 2L, ... */
  function StartOf(limit: nat, p: nat): nat {
    if p == 0 then 0 else StartOf(limit, p - 1) + limit
  }

  lemma {:induction false} StartsAreApart(limit: nat, p: nat, q: nat)
    requires p < q
    ensures StartOf(limit, p) + limit <= StartOf(limit, q)
  {
    if p < q - 1 { StartsAreApart(limit, p, q - 1); }
  }

  lemma {:induction false} PageOf(limit: nat, k: nat) returns (p: nat, x: nat)
    requires limit >= 1
    ensures x < limit && k == StartOf(limit, p) + x
  {
    if k == 0 {
      p, x := 0, 0;
    } else {
      p, x := PageOf(limit, k - 1);
      if x + 1 < limit { x := x + 1; } else { p, x := p + 1, 0; }
    }
  }

  /** The pages at 0, L, 2L, ... show each of the newest 10000 kept traces on one page, at one place. */
  lemma PagesShowEachOnce(s: Traces, limit: nat, pages: nat -> seq<DecisionTrace>, t: DecisionTrace, k: nat)
    returns (p: nat, x: nat)
    requires TracesInv(s) && 1 <= limit <= 1000 && forall q: nat :: IsPage(s, pages(q), limit, StartOf(limit, q))
    requires IsKeptAt(s, t, k) && k < 10000
    ensures x < |pages(p)| && pages(p)[x] == t
    ensures forall q: nat, y: nat :: y < |pages(q)| && pages(q)[y].id == t.id ==> q == p && y == x
  {
    p, x := PageOf(limit, k);
    KeptIsListed(s, t, k);
    assert IsPage(s, pages(p), limit, StartOf(limit, p));
    KeptIsListed(s, pages(p)[x], k);
    forall q: nat, y: nat | y < |pages(q)| && pages(q)[y].id == t.id ensures q == p && y == x {
      assert IsPage(s, pages(q), limit, StartOf(limit, q));
      NumbersTellOrder(s, pages(q)[y], StartOf(limit, q) + y, t, k);
      if q < p { StartsAreApart(limit, q, p); }
      if p < q { StartsAreApart(limit, p, q); }
    }
  }

  // ---------------------------------------------------------------- the stores

  class TraceStore {
    var order: seq<string>
    var byTraceId: map<string, DecisionTrace>
    var byDecisionId: map<string, DecisionTrace>

    constructor ()
      ensures Value() == Traces([], map[], map[]) && Valid()
    {
      order, byTraceId, byDecisionId := [], map[], map[];
    }

    ghost function Value(): Traces
      reads this
    {
      Traces(order, byTraceId, byDecisionId)
    }

    ghost predicate Valid()
      reads this
    {
      TracesInv(Value())
    }

    method Save(trace: DecisionTrace)
      requires Valid()
      modifies this
      ensures Valid() && Value() == Saved(old(Value()), trace)
    {
      ghost var before, after := Value(), Saved(Value(), trace);
      if trace.id !in byTraceId { order := order + [trace.id]; }
      byTraceId := byTraceId[trace.id := trace];
      for i := 0 to |trace.decisionResults|
        invariant order == after.order && byTraceId == after.byTraceId
        invariant byDecisionId == IndexedByResults(before.byDecisionId, trace, trace.decisionResults[..i])
      {
        assert trace.decisionResults[..i + 1][..i] == trace.decisionResults[..i];
        byDecisionId := byDecisionId[trace.decisionResults[i].id := trace];
      }
      assert trace.decisionResults[..|trace.decisionResults|] == trace.decisionResults;
      if trace.decisionId.Some? { byDecisionId := byDecisionId[trace.decisionId.value := trace]; }
      SavingKeepsInv(before, trace);
    }

    /** The kept trace of this id; none exactly when no trace with the id was saved. */
    method Get(traceId: string) returns (r: Option<DecisionTrace>)
      requires Valid()
      ensures r.None? <==> traceId !in order
      ensures r.Some? ==> r.value.id == traceId && traceId in byTraceId && r.value == byTraceId[traceId]
    {
      return if traceId in byTraceId then Some(byTraceId[traceId]) else None;
    }

    /** A trace that mentions the decision; none only when no kept trace does. */
    method GetByDecisionId(decisionId: string) returns (r: Option<DecisionTrace>)
      requires Valid()
      ensures r.Some? ==> Mentions(r.value, decisionId) && r.value.id in order
      ensures r.None? ==> forall id :: id in byTraceId ==> !Mentions(byTraceId[id], decisionId)
      ensures r == if decisionId in byDecisionId then Some(byDecisionId[decisionId]) else None
    {
      return if decisionId in byDecisionId then Some(byDecisionId[decisionId]) else None;
    }

    method ListRecent(limit: nat) returns (r: seq<DecisionTrace>)
      requires Valid()
      ensures r == Recent(Listing(Value()), limit)
      ensures |r| <= limit && |r| <= |order| && |r| <= 10000 && |r| in {limit, |order|, 10000}
      ensures forall k :: 0 <= k < |r| ==> IsKeptAt(Value(), r[k], k)
    {
      var sorted := Listing(Traces(order, byTraceId, byDecisionId));
      ListingIsComplete(Value());
      forall k | 0 <= k < |sorted| ensures IsKeptAt(Value(), sorted[k], k) { PlaceCounts(Value(), k); }
      return sorted[..MinInt(MinInt(limit, RECENT_CAP), |sorted|)];
    }

    method ListTraces(limit: nat, offset: nat) returns (page: seq<DecisionTrace>)
      requires Valid()
      ensures page == TracePage(Listing(Value()), limit, offset)
      ensures IsPage(Value(), page, limit, offset)
    {
      var effective := MinInt(limit, PAGE_CAP);
      var all := ListRecent(effective + offset);
      assert TracePage(Listing(Value()), limit, offset) == all[MinInt(offset, |all|)..];
      return all[MinInt(offset, |all|)..MinInt(offset + effective, |all|)];
    }
  }

  class IdempotencyStore {
    var store: map<string, DecisionResult>

    constructor ()
      ensures store == map[]
    {
      store := map[];
    }

    method Get(key: string) returns (r: Option<DecisionResult>)
      ensures r == if key in store then Some(store[key]) else None
    {
      return if key in store then Some(store[key]) else None;
    }

    method Set(key: string, result: DecisionResult)
      modifies this
      ensures store == old(store)[key := result]
    {
      store := store[key := result];
    }
  }
}
