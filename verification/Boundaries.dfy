/** Boundary rules: every active boundary is evaluated, the triggered ones are ordered by severity,
    and the effect of the first one adjusts the decision. */
module Boundaries {
  import opened Basics
  import opened Values
  import opened Flows
  import opened Decisions

  const SEVERITY_ORDER: map<string, nat> := map["critical" := 4, "high" := 3, "medium" := 2, "low" := 1]

  function Rank(severity: string): nat {
    if severity in SEVERITY_ORDER then SEVERITY_ORDER[severity] else 0
  }

  /** -1 for a result that is not triggered. */
  function Weight(b: BoundaryResult): int {
    if b.triggered then Rank(b.severity) else -1
  }

  /** `text or default`. */
  function OrElse(text: Option<string>, default: string): string {
    if text.None? || text.value == "" then default else text.value
  }

  /** The fixed messages of the engine, and what they mention. */
  datatype Reason =
    | BoundaryTriggered(boundaryId: string, effect: string)
    | BoundaryNotMet(boundaryId: string)
    | ConditionMatched
    | ConditionNotMatched
    | FallbackSelected

  /** How a condition text fares in the context at hand (None is a ConditionEvaluationError), and
      how a reason is worded. */
  datatype Judge = Judge(verdict: Option<string> -> Option<bool>, wording: Reason -> string)

  function ResultFor(judge: Judge, node: Node, triggered: bool): BoundaryResult {
    var effect := OrElse(node.effect, "allow");
    BoundaryResult(
      node.id, triggered, OrElse(node.severity, "low"), effect, node.action,
      judge.wording(if triggered then BoundaryTriggered(node.id, effect) else BoundaryNotMet(node.id)))
  }

  predicate AllJudged(judge: Judge, nodes: seq<Node>) {
    forall n :: n in nodes ==> judge.verdict(n.condition).Some?
  }

  predicate Passes(judge: Judge, node: Node) {
    judge.verdict(node.condition) == Some(true)
  }

  function ResultsFor(judge: Judge, nodes: seq<Node>): (r: seq<BoundaryResult>)
    ensures |r| == |nodes|
  {
    if nodes == [] then []
    else
      var n := |nodes| - 1;
      ResultsFor(judge, nodes[..n]) + [ResultFor(judge, nodes[n], Passes(judge, nodes[n]))]
  }

  /** The triggered results, in declaration order. */
  function Triggered(rs: seq<BoundaryResult>): seq<BoundaryResult> {
    if rs == [] then []
    else if rs[0].triggered then [rs[0]] + Triggered(rs[1..])
    else Triggered(rs[1..])
  }

  // ---------------------------------------------------------------- the dominant boundary

  function Weights(rs: seq<BoundaryResult>): (ws: seq<int>)
    ensures |ws| == |rs|
    ensures forall i :: 0 <= i < |ws| ==> ws[i] == Weight(rs[i])
  {
    seq(|rs|, i requires 0 <= i < |rs| => Weight(rs[i]))
  }

  /** The leftmost greatest weight, and it belongs to a triggered result. */
  ghost predicate IsPeak(ws: seq<int>, i: nat) {
    i < |ws| && ws[i] >= 0
    && forall j :: 0 <= j < |ws| ==> ws[j] <= ws[i] && (j < i ==> ws[j] < ws[i])
  }

  /** Result `i` is triggered, no triggered result ranks higher, and none of its rank comes before it. */
  ghost predicate Dominates(rs: seq<BoundaryResult>, i: nat) {
    IsPeak(Weights(rs), i)
  }

  lemma DominantIsUnique(rs: seq<BoundaryResult>, i: nat, j: nat)
    requires Dominates(rs, i) && Dominates(rs, j)
    ensures i == j
  {
  }

  /** The position of the dominant result; None when nothing is triggered. */
  ghost function Dominant(rs: seq<BoundaryResult>): (d: Option<nat>)
    ensures d.Some? ==> d.value < |rs| && Dominates(rs, d.value)
  {
    if exists i: nat :: Dominates(rs, i) then var i: nat :| Dominates(rs, i); Some(i) else None
  }

  lemma DominantIs(rs: seq<BoundaryResult>, i: nat)
    requires Dominates(rs, i)
    ensures Dominant(rs) == Some(i)
  {
    DominantIsUnique(rs, i, Dominant(rs).value);
  }

  lemma {:induction false} SomethingDominates(ws: seq<int>, k: nat) returns (i: nat)
    requires k < |ws| && ws[k] >= 0
    ensures IsPeak(ws, i)
  {
    i := k;
    var j := 0;
    while j < |ws|
      invariant 0 <= j <= |ws| && i < |ws| && ws[i] >= ws[k]
      invariant forall m :: 0 <= m < j ==> ws[m] <= ws[i] && (m < i ==> ws[m] < ws[i])
      invariant i < j || (i == k && j <= k)
    {
      if ws[j] > ws[i] || (ws[j] == ws[i] && j < i) { i := j; }
      j := j + 1;
    }
  }

  function Inserted<T>(s: seq<T>, i: nat, x: T): (r: seq<T>)
    requires i <= |s|
    ensures |r| == |s| + 1
    ensures forall j :: 0 <= j < |r| ==> r[j] == if j < i then s[j] else if j == i then x else s[j - 1]
  {
    s[..i] + [x] + s[i..]
  }

  /** A weight inserted at position `i` becomes the peak when it beats the old peak at `d`, or
      equals it and comes first; otherwise the old peak remains. */
  lemma PeakAfterInsertion(ws: seq<int>, d: nat, i: nat, w: int)
    requires i <= |ws| && IsPeak(ws, d)
    ensures IsPeak(Inserted(ws, i, w),
                   if w > ws[d] || (w == ws[d] && i <= d) then i else if i <= d then d + 1 else d)
  {
    var longer := Inserted(ws, i, w);
    assert longer[i] == w;
    assert longer[if i <= d then d + 1 else d] == ws[d];
  }

  lemma WeightsAfterInsertion(rs: seq<BoundaryResult>, i: nat, b: BoundaryResult)
    requires i <= |rs|
    ensures Weights(Inserted(rs, i, b)) == Inserted(Weights(rs), i, Weight(b))
  {
  }

  /** Where the dominant result is after one more boundary is declared at position `i`: at `i` when
      the new one outranks the old dominant one, or equals it in rank and is declared before it. */
  lemma InsertionMovesDominant(rs: seq<BoundaryResult>, d: nat, i: nat, b: BoundaryResult)
    requires i <= |rs| && Dominates(rs, d)
    ensures Dominates(Inserted(rs, i, b), if Beats(rs, d, i, b) then i else if i <= d then d + 1 else d)
  {
    WeightsAfterInsertion(rs, i, b);
    PeakAfterInsertion(Weights(rs), d, i, Weight(b));
  }

  ghost predicate Beats(rs: seq<BoundaryResult>, d: nat, i: nat, b: BoundaryResult)
    requires d < |rs|
  {
    Weight(b) > Weights(rs)[d] || (Weight(b) == Weights(rs)[d] && i <= d)
  }

  lemma InsertionIntoNothing(rs: seq<BoundaryResult>, i: nat, b: BoundaryResult)
    requires i <= |rs| && Dominant(rs).None?
    ensures if b.triggered then Dominates(Inserted(rs, i, b), i) else Dominant(Inserted(rs, i, b)).None?
  {
    WeightsAfterInsertion(rs, i, b);
    forall k | 0 <= k < |rs| ensures Weights(rs)[k] < 0 {
      if Weights(rs)[k] >= 0 {
        var p := SomethingDominates(Weights(rs), k);
        assert Dominates(rs, p);
      }
    }
  }

  /** One more boundary takes over exactly when it is triggered and nothing was, or it beats the
      dominant one. */
  ghost predicate TakesOver(rs: seq<BoundaryResult>, i: nat, b: BoundaryResult) {
    if Dominant(rs).None? then b.triggered else Beats(rs, Dominant(rs).value, i, b)
  }

  lemma DominantAfterInsertion(rs: seq<BoundaryResult>, i: nat, b: BoundaryResult)
    requires i <= |rs|
    ensures Dominant(Inserted(rs, i, b))
         == if TakesOver(rs, i, b) then Some(i)
            else if Dominant(rs).Some? && i <= Dominant(rs).value then Some(Dominant(rs).value + 1)
            else Dominant(rs)
  {
    var longer := Inserted(rs, i, b);
    if Dominant(rs).None? {
      InsertionIntoNothing(rs, i, b);
      if b.triggered { DominantIs(longer, i); }
    } else {
      var d := Dominant(rs).value;
      InsertionMovesDominant(rs, d, i, b);
      DominantIs(longer, if Beats(rs, d, i, b) then i else if i <= d then d + 1 else d);
    }
  }

  // ---------------------------------------------------------------- the stable sort

  ghost predicate SortedDown(s: seq<BoundaryResult>) {
    forall i, j :: 0 <= i < j < |s| ==> Rank(s[i].severity) >= Rank(s[j].severity)
  }

  function OfRank(s: seq<BoundaryResult>, k: nat): seq<BoundaryResult> {
    if s == [] then []
    else if Rank(s[0].severity) == k then [s[0]] + OfRank(s[1..], k)
    else OfRank(s[1..], k)
  }

  /** `t` holds the results of `s` by falling rank, those of one rank in their order in `s`. */
  ghost predicate IsStableSort(s: seq<BoundaryResult>, t: seq<BoundaryResult>) {
    SortedDown(t) && forall k :: OfRank(t, k) == OfRank(s, k)
  }

  function InsertBefore(b: BoundaryResult, s: seq<BoundaryResult>): seq<BoundaryResult> {
    if s == [] || Rank(b.severity) >= Rank(s[0].severity) then [b] + s
    else [s[0]] + InsertBefore(b, s[1..])
  }

  lemma {:induction false} InsertKeepsOrder(b: BoundaryResult, s: seq<BoundaryResult>)
    requires SortedDown(s)
    ensures SortedDown(InsertBefore(b, s))
    ensures forall x :: x in InsertBefore(b, s) <==> x == b || x in s
    ensures forall k :: OfRank(InsertBefore(b, s), k) == if k == Rank(b.severity) then [b] + OfRank(s, k) else OfRank(s, k)
  {
    if s == [] || Rank(b.severity) >= Rank(s[0].severity) {
      assert ([b] + s)[1..] == s;
    } else {
      InsertKeepsOrder(b, s[1..]);
      var rest := InsertBefore(b, s[1..]);
      assert ([s[0]] + rest)[1..] == rest;
      forall j | 0 <= j < |rest| ensures Rank(rest[j].severity) <= Rank(s[0].severity) {
        assert rest[j] in rest;
      }
    }
  }

  method StableSort(s: seq<BoundaryResult>) returns (t: seq<BoundaryResult>)
    ensures IsStableSort(s, t)
  {
    t := [];
    var i := |s|;
    while i > 0
      invariant 0 <= i <= |s| && IsStableSort(s[i..], t)
    {
      i := i - 1;
      InsertKeepsOrder(s[i], t);
      assert s[i..][1..] == s[i + 1..];
      t := InsertBefore(s[i], t);
    }
    assert s[0..] == s;
  }

  lemma {:induction false} RankOccurs(s: seq<BoundaryResult>, k: nat)
    requires OfRank(s, k) != []
    ensures exists i :: 0 <= i < |s| && Rank(s[i].severity) == k
  {
    if Rank(s[0].severity) != k {
      RankOccurs(s[1..], k);
      var i :| 0 <= i < |s| - 1 && Rank(s[1..][i].severity) == k;
      assert Rank(s[i + 1].severity) == k;
    }
  }

  lemma {:induction false} TriggeredHasRank(rs: seq<BoundaryResult>, i: nat)
    requires i < |rs| && rs[i].triggered
    ensures OfRank(Triggered(rs), Rank(rs[i].severity)) != []
  {
    if i > 0 {
      TriggeredHasRank(rs[1..], i - 1);
      assert Triggered(rs)[if rs[0].triggered then 1 else 0..] == Triggered(rs[1..]);
    }
  }

  /** The first triggered result of a rank is the first one of that rank in declaration order. */
  lemma {:induction false} FirstOfRank(rs: seq<BoundaryResult>, k: nat) returns (i: nat)
    requires OfRank(Triggered(rs), k) != []
    ensures i < |rs| && rs[i] == OfRank(Triggered(rs), k)[0] && Weight(rs[i]) == k
    ensures forall j :: 0 <= j < i ==> Weight(rs[j]) != k
  {
    i := 0;
    if Weight(rs[0]) != k {
      if rs[0].triggered {
        assert Triggered(rs)[0] == rs[0] && Triggered(rs)[1..] == Triggered(rs[1..]);
      }
      var rest := FirstOfRank(rs[1..], k);
      i := rest + 1;
      forall j | 0 <= j < i ensures Weight(rs[j]) != k {
        if j > 0 { assert rs[j] == rs[1..][j - 1]; }
      }
    } else {
      assert Triggered(rs)[0] == rs[0];
    }
  }

  lemma NoneTriggered(rs: seq<BoundaryResult>)
    requires Triggered(rs) == []
    ensures Dominant(rs).None?
  {
    forall j | 0 <= j < |rs| ensures !rs[j].triggered {
      if rs[j].triggered { TriggeredHasRank(rs, j); }
    }
    assert forall j :: 0 <= j < |rs| ==> Weights(rs)[j] < 0;
  }

  /** Whatever stable sort is used, its head is the dominant result. */
  lemma HeadDominates(rs: seq<BoundaryResult>, t: seq<BoundaryResult>)
    requires IsStableSort(Triggered(rs), t) && Triggered(rs) != []
    ensures t != [] && Dominant(rs).Some? && t[0] == rs[Dominant(rs).value]
  {
    assert OfRank(t, Rank(Triggered(rs)[0].severity)) != [];
    var k := Rank(t[0].severity);
    assert OfRank(t, k)[0] == t[0];
    var d := FirstOfRank(rs, k);
    forall j | 0 <= j < |rs| ensures Weight(rs[j]) <= k {
      if rs[j].triggered {
        TriggeredHasRank(rs, j);
        RankOccurs(t, Rank(rs[j].severity));
      }
    }
    assert Dominates(rs, d);
    DominantIs(rs, d);
  }

  // ---------------------------------------------------------------- effects

  function ApplyEffect(result: DecisionResult, b: BoundaryResult): DecisionResult {
    if b.effect == "block" then result.(status := Blocked, action := None)
    else if b.effect == "override" || b.effect == "redirect" then
      result.(action := b.action, selectedNodeId := b.boundaryId)
    else if b.effect == "escalate" then result.(status := PendingHuman, selectedNodeId := b.boundaryId)
    else result
  }

  /** The decision after all boundaries have been heard. */
  ghost function Adjusted(result: DecisionResult, rs: seq<BoundaryResult>): DecisionResult {
    var d := Dominant(rs);
    (if d.None? then result else ApplyEffect(result, rs[d.value])).(boundaryResults := rs)
  }

  /** The adjusted decision and all boundary results; None is a ConditionEvaluationError. */
  ghost function Heard(judge: Judge, boundaries: seq<Node>, result: DecisionResult)
    : Option<(DecisionResult, seq<BoundaryResult>)>
  {
    var rs := ResultsFor(judge, boundaries);
    if AllJudged(judge, boundaries) then Some((Adjusted(result, rs), rs)) else None
  }

  // ---------------------------------------------------------------- severities as texts

  ghost predicate SomeTriggered(rs: seq<BoundaryResult>, severity: string) {
    exists i :: 0 <= i < |rs| && rs[i].triggered && rs[i].severity == severity
  }

  ghost predicate IsFirstTriggered(rs: seq<BoundaryResult>, i: nat, severity: string) {
    && i < |rs| && rs[i].triggered && rs[i].severity == severity
    && forall j :: 0 <= j < i ==> !(rs[j].triggered && rs[j].severity == severity)
  }

  /** The first triggered critical result decides; failing that the first high one, then medium, then low;
      and any other only when none of these is triggered. */
  ghost predicate Decides(rs: seq<BoundaryResult>, i: nat) {
    if SomeTriggered(rs, "critical") then IsFirstTriggered(rs, i, "critical")
    else if SomeTriggered(rs, "high") then IsFirstTriggered(rs, i, "high")
    else if SomeTriggered(rs, "medium") then IsFirstTriggered(rs, i, "medium")
    else if SomeTriggered(rs, "low") then IsFirstTriggered(rs, i, "low")
    else i < |rs| && rs[i].triggered && forall j :: 0 <= j < i ==> !rs[j].triggered
  }

  lemma RanksOfTexts(severity: string)
    ensures Rank(severity) == if severity == "critical" then 4 else if severity == "high" then 3
                              else if severity == "medium" then 2 else if severity == "low" then 1 else 0
  {
  }

  lemma DominantDecides(rs: seq<BoundaryResult>, i: nat)
    requires Dominates(rs, i)
    ensures Decides(rs, i)
  {
    forall j | 0 <= j < |rs|
      ensures Weights(rs)[j] == if rs[j].triggered then Rank(rs[j].severity) else -1
    {
      RanksOfTexts(rs[j].severity);
    }
  }

  lemma DecidingIsUnique(rs: seq<BoundaryResult>, i: nat, j: nat)
    requires Decides(rs, i) && Decides(rs, j)
    ensures i == j
  {
  }

  lemma DecidingIsDominant(rs: seq<BoundaryResult>, i: nat)
    requires Decides(rs, i)
    ensures Dominant(rs) == Some(i)
  {
    assert rs[i].triggered;
    assert Weights(rs)[i] >= 0;
    var d := SomethingDominates(Weights(rs), i);
    assert Dominates(rs, d);
    DominantDecides(rs, d);
    DecidingIsUnique(rs, i, d);
    DominantIs(rs, d);
  }

  /** Block takes the action away; override and redirect put the boundary's action and id in the place of
      the node's; escalate asks a human, at the boundary; any other effect changes nothing. */
  ghost predicate HasEffect(before: DecisionResult, effect: string, action: Option<Record>, id: string, after: DecisionResult) {
    && (effect == "block" ==> after == before.(status := Blocked, action := None))
    && (effect == "override" || effect == "redirect" ==> after == before.(action := action, selectedNodeId := id))
    && (effect == "escalate" ==> after == before.(status := PendingHuman, selectedNodeId := id))
    && (effect !in {"block", "override", "redirect", "escalate"} ==> after == before)
  }

  ghost predicate IsUnderEffect(before: DecisionResult, b: BoundaryResult, after: DecisionResult) {
    HasEffect(before, b.effect, b.action, b.boundaryId, after)
  }

  /** Of all triggered boundaries, the deciding one has its effect on the decision, and no other has any;
      with none triggered the decision stays. */
  ghost predicate IsDecided(before: DecisionResult, rs: seq<BoundaryResult>, after: DecisionResult) {
    && (forall i: nat :: Decides(rs, i) ==> IsUnderEffect(before, rs[i], after))
    && ((forall i :: 0 <= i < |rs| ==> !rs[i].triggered) ==> after == before)
    && ((exists i :: 0 <= i < |rs| && rs[i].triggered) ==> exists i: nat :: Decides(rs, i))
  }

  lemma EffectTexts(result: DecisionResult, b: BoundaryResult)
    ensures IsUnderEffect(result, b, ApplyEffect(result, b))
  {
    assert "block"[0] == 'b' && "override"[0] == 'o' && "redirect"[0] == 'r' && "escalate"[0] == 'e';
  }

  lemma AdjustedIsDecided(result: DecisionResult, rs: seq<BoundaryResult>)
    ensures IsDecided(result.(boundaryResults := rs), rs, Adjusted(result, rs))
  {
    forall i: nat | Decides(rs, i) ensures IsUnderEffect(result.(boundaryResults := rs), rs[i], Adjusted(result, rs)) {
      DecidingIsDominant(rs, i);
      EffectTexts(result.(boundaryResults := rs), rs[i]);
    }
    if exists i :: 0 <= i < |rs| && rs[i].triggered {
      var i :| 0 <= i < |rs| && rs[i].triggered;
      assert Weights(rs)[i] >= 0;
      var d := SomethingDominates(Weights(rs), i);
      assert Dominates(rs, d);
      DominantDecides(rs, d);
    } else {
      assert forall i :: 0 <= i < |rs| ==> Weights(rs)[i] < 0;
    }
  }

  method EvaluateAll(judge: Judge, boundaries: seq<Node>) returns (r: Option<seq<BoundaryResult>>)
    ensures r == if AllJudged(judge, boundaries) then Some(ResultsFor(judge, boundaries)) else None
  {
    r := Some([]);
    for i := 0 to |boundaries|
      invariant r == Some(ResultsFor(judge, boundaries[..i]))
      invariant AllJudged(judge, boundaries[..i])
    {
      ghost var heard := boundaries[..i + 1];
      assert heard[..i] == boundaries[..i] && heard == boundaries[..i] + [boundaries[i]];
      var triggered := judge.verdict(boundaries[i].condition);
      if triggered.None? { return None; }
      r := Some(r.value + [ResultFor(judge, boundaries[i], triggered.value)]);
    }
    assert boundaries[..|boundaries|] == boundaries;
  }

  method Apply(judge: Judge, nodes: seq<Node>, result: DecisionResult)
    returns (r: Option<(DecisionResult, seq<BoundaryResult>)>)
    ensures r == Heard(judge, ActiveOf(nodes, BoundaryNode), result)
    ensures r.Some? ==> IsDecided(result.(boundaryResults := r.value.1), r.value.1, r.value.0)
  {
    var results := EvaluateAll(judge, ActiveOf(nodes, BoundaryNode));
    if results.None? { return None; }
    var all := results.value;
    AdjustedIsDecided(result, all);
    var triggered := Triggered(all);
    if triggered == [] {
      NoneTriggered(all);
      return Some((result.(boundaryResults := all), all));
    }
    triggered := StableSort(triggered);
    HeadDominates(all, triggered);
    var updated := ApplyEffect(result, triggered[0]);
    return Some((updated.(boundaryResults := all), all));
  }

  /** A boundary that does not take over leaves the decision as it is, apart from being listed;
      read from right to left, so does deleting one that is not dominant. */
  lemma LosingBoundaryChangesNothing(result: DecisionResult, rs: seq<BoundaryResult>, i: nat, b: BoundaryResult)
    requires i <= |rs| && !TakesOver(rs, i, b)
    ensures Adjusted(result, Inserted(rs, i, b)).(boundaryResults := rs) == Adjusted(result, rs)
  {
    DominantAfterInsertion(rs, i, b);
    var longer := Inserted(rs, i, b);
    if Dominant(rs).Some? {
      assert longer[Dominant(longer).value] == rs[Dominant(rs).value];
    }
  }

  /** A confirmed decision stays confirmed exactly when the dominant effect is neither block nor escalate. */
  lemma ConfirmedSurvives(result: DecisionResult, rs: seq<BoundaryResult>)
    requires result.status == Confirmed
    ensures Adjusted(result, rs).status == Confirmed
       <==> forall i: nat :: Dominates(rs, i) ==> rs[i].effect != "block" && rs[i].effect != "escalate"
  {
    var d := Dominant(rs);
    if d.Some? {
      assert Dominates(rs, d.value);
      forall i: nat | Dominates(rs, i) ensures i == d.value { DominantIsUnique(rs, i, d.value); }
    }
  }
}
