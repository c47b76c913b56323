/** What an evaluation decides, told by the places of nodes in the flow: which node the decision rests on,
    and which boundary has its say. */
module Choices {
  import opened Basics
  import opened Flows
  import opened Decisions
  import opened Boundaries
  import opened Evaluation
  import opened FlowChanges

  // ---------------------------------------------------------------- places

  /** The active node of the type at place `p`. */
  ghost predicate IsActiveAt(flow: Flow, t: NodeType, p: nat) {
    p < |flow.nodes| && flow.nodes[p].nodeType == t && flow.nodes[p].isActive
  }

  /** It is active and its condition holds. */
  ghost predicate HoldsAt(judge: Judge, flow: Flow, t: NodeType, p: nat) {
    IsActiveAt(flow, t, p) && judge.verdict(flow.nodes[p].condition) == Some(true)
  }

  /** The decision that counts: the first that holds or, under the priority strategy, the first of the
      highest priority among those that hold. */
  ghost predicate IsMatchAt(judge: Judge, flow: Flow, p: nat) {
    && HoldsAt(judge, flow, DecisionNode, p)
    && forall q: nat :: HoldsAt(judge, flow, DecisionNode, q) ==>
         if flow.strategy == Some("priority")
         then flow.nodes[q].priority <= flow.nodes[p].priority && (q < p ==> flow.nodes[q].priority < flow.nodes[p].priority)
         else p <= q
  }

  ghost predicate IsFallbackAt(judge: Judge, flow: Flow, p: nat) {
    && (forall q: nat :: !HoldsAt(judge, flow, DecisionNode, q))
    && IsActiveAt(flow, FallbackNode, p) && forall q: nat :: IsActiveAt(flow, FallbackNode, q) ==> p <= q
  }

  // ---------------------------------------------------------------- finding them

  lemma EmbedsSnoc(at: seq<nat>, s: seq<Node>, t: seq<Node>, x: Node)
    requires Embeds(at, s, t)
    ensures Embeds(at, s, t + [x]) && Embeds(at + [|t|], s + [x], t + [x])
  {
  }

  function Active(t: NodeType): Node -> bool {
    (n: Node) => n.nodeType == t && n.isActive
  }

  function Holding(judge: Judge): Node -> bool {
    (n: Node) => Passes(judge, n)
  }

  /** `at` holds the places of the nodes with the property. */
  ghost predicate ListsPlaces(at: seq<nat>, nodes: seq<Node>, p: Node -> bool) {
    forall i: nat :: i in at <==> i < |nodes| && p(nodes[i])
  }

  lemma ListsSnoc(at: seq<nat>, nodes: seq<Node>, p: Node -> bool, x: Node)
    requires ListsPlaces(at, nodes, p)
    ensures ListsPlaces(if p(x) then at + [|nodes|] else at, nodes + [x], p)
  {
    var longer := at + [|nodes|];
    assert forall i: nat :: i in longer <==> i in at || i == |nodes|;
    forall i: nat
      ensures i < |nodes + [x]| && p((nodes + [x])[i]) <==> (i < |nodes| && p(nodes[i])) || (i == |nodes| && p(x))
    {
    }
  }

  function Filtered(nodes: seq<Node>, p: Node -> bool): seq<Node> {
    if nodes == [] then []
    else
      var before := Filtered(nodes[..|nodes| - 1], p);
      if p(nodes[|nodes| - 1]) then before + [nodes[|nodes| - 1]] else before
  }

  function Places(nodes: seq<Node>, p: Node -> bool): seq<nat> {
    if nodes == [] then []
    else
      var before := Places(nodes[..|nodes| - 1], p);
      if p(nodes[|nodes| - 1]) then before + [|nodes| - 1] else before
  }

  lemma {:induction false} FilteredEmbeds(nodes: seq<Node>, p: Node -> bool)
    ensures Embeds(Places(nodes, p), Filtered(nodes, p), nodes)
  {
    if nodes != [] {
      var before, x := nodes[..|nodes| - 1], nodes[|nodes| - 1];
      FilteredEmbeds(before, p);
      EmbedsSnoc(Places(before, p), Filtered(before, p), before, x);
      assert before + [x] == nodes;
    }
  }

  lemma {:induction false} PlacesAreListed(nodes: seq<Node>, p: Node -> bool)
    ensures ListsPlaces(Places(nodes, p), nodes, p)
  {
    if nodes != [] {
      var before, x := nodes[..|nodes| - 1], nodes[|nodes| - 1];
      PlacesAreListed(before, p);
      ListsSnoc(Places(before, p), before, p, x);
      assert before + [x] == nodes;
    }
  }

  lemma ActiveOfSnoc(nodes: seq<Node>, x: Node, t: NodeType)
    ensures ActiveOf(nodes + [x], t) == if Active(t)(x) then ActiveOf(nodes, t) + [x] else ActiveOf(nodes, t)
  {
    ActiveOfConcat(nodes, [x], t);
    ActiveOfOne(x, t);
  }

  lemma FilteredSnoc(nodes: seq<Node>, x: Node, p: Node -> bool)
    ensures Filtered(nodes + [x], p) == if p(x) then Filtered(nodes, p) + [x] else Filtered(nodes, p)
  {
    assert (nodes + [x])[..|nodes|] == nodes;
  }

  lemma {:induction false} ActiveAreFiltered(nodes: seq<Node>, t: NodeType)
    ensures ActiveOf(nodes, t) == Filtered(nodes, Active(t))
  {
    if nodes != [] {
      var before, x := nodes[..|nodes| - 1], nodes[|nodes| - 1];
      assert nodes == before + [x];
      ActiveAreFiltered(before, t);
      ActiveOfSnoc(before, x, t);
      FilteredSnoc(before, x, Active(t));
    }
  }

  lemma {:induction false} PassingAreFiltered(judge: Judge, nodes: seq<Node>)
    ensures Passing(judge, nodes) == Filtered(nodes, Holding(judge))
  {
    if nodes != [] {
      PassingAreFiltered(judge, nodes[..|nodes| - 1]);
    }
  }

  lemma ActiveAreAt(nodes: seq<Node>, t: NodeType) returns (at: seq<nat>)
    ensures Embeds(at, ActiveOf(nodes, t), nodes) && ListsPlaces(at, nodes, Active(t))
  {
    at := Places(nodes, Active(t));
    ActiveAreFiltered(nodes, t);
    FilteredEmbeds(nodes, Active(t));
    PlacesAreListed(nodes, Active(t));
  }

  lemma PassingAreAt(judge: Judge, nodes: seq<Node>) returns (at: seq<nat>)
    ensures Embeds(at, Passing(judge, nodes), nodes) && ListsPlaces(at, nodes, Holding(judge))
  {
    at := Places(nodes, Holding(judge));
    PassingAreFiltered(judge, nodes);
    FilteredEmbeds(nodes, Holding(judge));
    PlacesAreListed(nodes, Holding(judge));
  }

  /** The places `outer` of `s` in `t`, at the places `inner` of `r` in `s`. */
  function Through(outer: seq<nat>, inner: seq<nat>): (at: seq<nat>)
    requires forall i :: 0 <= i < |inner| ==> inner[i] < |outer|
    ensures |at| == |inner| && forall i :: 0 <= i < |at| ==> at[i] == outer[inner[i]]
  {
    seq(|inner|, i requires 0 <= i < |inner| => outer[inner[i]])
  }

  lemma EmbedsThrough(outer: seq<nat>, inner: seq<nat>, r: seq<Node>, s: seq<Node>, t: seq<Node>)
    requires Embeds(outer, s, t) && Embeds(inner, r, s)
    ensures Embeds(Through(outer, inner), r, t)
  {
  }

  lemma ListsThrough(outer: seq<nat>, inner: seq<nat>, s: seq<Node>, t: seq<Node>, p: Node -> bool, q: Node -> bool)
    requires Embeds(outer, s, t) && ListsPlaces(outer, t, p) && ListsPlaces(inner, s, q)
    requires forall i :: 0 <= i < |inner| ==> inner[i] < |outer|
    ensures forall i: nat :: i in Through(outer, inner) <==> i < |t| && p(t[i]) && q(t[i])
  {
    var at := Through(outer, inner);
    forall i: nat | i < |t| && p(t[i]) && q(t[i]) ensures i in at {
      assert i in outer;
      var k :| 0 <= k < |outer| && outer[k] == i;
      assert s[k] == t[i] && k in inner;
      var j :| 0 <= j < |inner| && inner[j] == k;
      assert at[j] == i;
    }
    forall i: nat | i in at ensures i < |t| && p(t[i]) && q(t[i]) {
      var j :| 0 <= j < |at| && at[j] == i;
      assert inner[j] in inner && outer[inner[j]] in outer;
      assert s[inner[j]] == t[i];
    }
  }

  lemma CandidatesAreAt(judge: Judge, flow: Flow) returns (at: seq<nat>)
    ensures Embeds(at, Passing(judge, ActiveOf(flow.nodes, DecisionNode)), flow.nodes)
    ensures forall p: nat :: p in at <==> HoldsAt(judge, flow, DecisionNode, p)
  {
    var s := ActiveOf(flow.nodes, DecisionNode);
    var outer := ActiveAreAt(flow.nodes, DecisionNode);
    var inner := PassingAreAt(judge, s);
    EmbedsThrough(outer, inner, Passing(judge, s), s, flow.nodes);
    ListsThrough(outer, inner, s, flow.nodes, Active(DecisionNode), Holding(judge));
    at := Through(outer, inner);
  }

  /** The decision rests on the first match. */
  lemma FirstMatchIsSelected(judge: Judge, flow: Flow) returns (p: nat)
    requires flow.strategy != Some("priority") && Passing(judge, ActiveOf(flow.nodes, DecisionNode)) != []
    ensures IsMatchAt(judge, flow, p) && Selected(judge, flow) == Some(Selection(flow.nodes[p], true))
  {
    var at := CandidatesAreAt(judge, flow);
    p := at[0];
    assert p in at;
    forall q: nat | HoldsAt(judge, flow, DecisionNode, q) ensures p <= q {
      var i :| 0 <= i < |at| && at[i] == q;
    }
  }

  lemma HighestIsSelected(judge: Judge, flow: Flow) returns (p: nat)
    requires flow.strategy == Some("priority") && UniqueIds(flow.nodes)
    requires Passing(judge, ActiveOf(flow.nodes, DecisionNode)) != []
    ensures IsMatchAt(judge, flow, p) && Selected(judge, flow) == Some(Selection(flow.nodes[p], true))
  {
    var passing := Passing(judge, ActiveOf(flow.nodes, DecisionNode));
    var at := CandidatesAreAt(judge, flow);
    PriorityPicksLeftmostHighest(flow.nodes, passing, at);
    var k := BestIndex(flow.nodes, passing);
    p := at[k];
    assert p in at;
    forall q: nat | HoldsAt(judge, flow, DecisionNode, q)
      ensures flow.nodes[q].priority <= flow.nodes[p].priority && (q < p ==> flow.nodes[q].priority < flow.nodes[p].priority)
    {
      HighestIsLeftmost(flow.nodes, passing, at, k, q);
    }
  }

  lemma HighestIsLeftmost(nodes: seq<Node>, s: seq<Node>, at: seq<nat>, k: nat, q: nat)
    requires Embeds(at, s, nodes) && IsLeftmostHighest(s, k) && q in at
    ensures nodes[q].priority <= nodes[at[k]].priority && (q < at[k] ==> nodes[q].priority < nodes[at[k]].priority)
  {
    var i :| 0 <= i < |at| && at[i] == q;
    assert s[i] == nodes[q] && s[k] == nodes[at[k]];
    assert k < i ==> at[k] < at[i];
  }

  lemma FallbackIsSelected(judge: Judge, flow: Flow) returns (p: nat)
    requires Passing(judge, ActiveOf(flow.nodes, DecisionNode)) == [] && Selected(judge, flow).Some?
    ensures IsFallbackAt(judge, flow, p) && Selected(judge, flow) == Some(Selection(flow.nodes[p], false))
  {
    var at := ActiveAreAt(flow.nodes, FallbackNode);
    p := at[0];
    assert p in at;
    forall q: nat | IsActiveAt(flow, FallbackNode, q) ensures p <= q {
      var i :| 0 <= i < |at| && at[i] == q;
    }
    var none := CandidatesAreAt(judge, flow);
    assert none == [];
  }

  // ---------------------------------------------------------------- the decision before boundaries

  /** The decision rests on the node at `p`: its id and its action, as a match or as a fallback. */
  ghost predicate RestsOn(judge: Judge, flow: Flow, p: nat, initial: DecisionResult) {
    && p < |flow.nodes| && initial.selectedNodeId == flow.nodes[p].id && initial.action == flow.nodes[p].action
    && if exists q: nat :: HoldsAt(judge, flow, DecisionNode, q)
       then IsMatchAt(judge, flow, p) && initial.status == Confirmed && initial.outcome == Pass
       else IsFallbackAt(judge, flow, p) && initial.status == Fallback && initial.outcome == Fail
  }

  /** Unless node ids repeat under the priority strategy. */
  lemma InitialRestsOn(judge: Judge, signal: Signal, flow: Flow, stamp: Stamp) returns (p: nat)
    requires Selected(judge, flow).Some? && (flow.strategy == Some("priority") ==> UniqueIds(flow.nodes))
    ensures RestsOn(judge, flow, p, InitialResult(judge, signal, flow, Selected(judge, flow).value, stamp))
  {
    if Passing(judge, ActiveOf(flow.nodes, DecisionNode)) == [] {
      p := FallbackIsSelected(judge, flow);
    } else if flow.strategy == Some("priority") {
      p := HighestIsSelected(judge, flow);
    } else {
      p := FirstMatchIsSelected(judge, flow);
    }
  }

  lemma {:induction false} PlacesAreCounted(at: seq<nat>, places: set<nat>)
    requires forall i, j :: 0 <= i < j < |at| ==> at[i] < at[j]
    requires forall p: nat :: p in places <==> p in at
    ensures |places| == |at|
  {
    if at == [] {
      assert places == {};
    } else {
      var n := |at| - 1;
      assert at[n] in at;
      assert forall p: nat :: p in at[..n] <==> p in at && p != at[n];
      PlacesAreCounted(at[..n], places - {at[n]});
    }
  }

  /** A decision tells how many conditions were evaluated and how many held. */
  lemma CountsMean(judge: Judge, signal: Signal, flow: Flow, stamp: Stamp, active: set<nat>, holding: set<nat>)
    requires Evaluated(judge, signal, flow, stamp).Success?
    requires forall p: nat :: p in active <==> IsActiveAt(flow, DecisionNode, p)
    requires forall p: nat :: p in holding <==> HoldsAt(judge, flow, DecisionNode, p)
    ensures var result := Evaluated(judge, signal, flow, stamp).value.0;
            result.conditionsEvaluated == |active| && result.conditionsPassed == |holding|
  {
    ActiveAreCounted(flow, active);
    CandidatesAreCounted(judge, flow, holding);
    EvaluationCounts(judge, signal, flow, stamp);
  }

  lemma ActiveAreCounted(flow: Flow, active: set<nat>)
    requires forall p: nat :: p in active <==> IsActiveAt(flow, DecisionNode, p)
    ensures |ActiveOf(flow.nodes, DecisionNode)| == |active|
  {
    var at := ActiveAreAt(flow.nodes, DecisionNode);
    PlacesAreCounted(at, active);
  }

  lemma CandidatesAreCounted(judge: Judge, flow: Flow, holding: set<nat>)
    requires forall p: nat :: p in holding <==> HoldsAt(judge, flow, DecisionNode, p)
    ensures |Passing(judge, ActiveOf(flow.nodes, DecisionNode))| == |holding|
  {
    var at := CandidatesAreAt(judge, flow);
    PlacesAreCounted(at, holding);
  }

  lemma EvaluationCounts(judge: Judge, signal: Signal, flow: Flow, stamp: Stamp)
    requires Evaluated(judge, signal, flow, stamp).Success?
    ensures var result := Evaluated(judge, signal, flow, stamp).value.0;
            && result.conditionsEvaluated == |ActiveOf(flow.nodes, DecisionNode)|
            && result.conditionsPassed == |Passing(judge, ActiveOf(flow.nodes, DecisionNode))|
  {
    var initial := InitialResult(judge, signal, flow, Selected(judge, flow).value, stamp);
    AdjustedKeepsCounts(initial, ResultsFor(judge, ActiveOf(flow.nodes, BoundaryNode)));
  }

  lemma AdjustedKeepsCounts(result: DecisionResult, rs: seq<BoundaryResult>)
    ensures Adjusted(result, rs).conditionsEvaluated == result.conditionsEvaluated
    ensures Adjusted(result, rs).conditionsPassed == result.conditionsPassed
  {
  }

  // ---------------------------------------------------------------- boundaries

  /** The severity of a boundary is "low" unless it says otherwise, and its effect "allow". */
  function SeverityText(n: Node): string {
    match n.severity
    case None => "low"
    case Some(text) => if |text| == 0 then "low" else text
  }

  function EffectText(n: Node): string {
    match n.effect
    case None => "allow"
    case Some(text) => if |text| == 0 then "allow" else text
  }

  /** The boundary at `q` is triggered and of this severity. */
  ghost predicate RaisesAt(judge: Judge, flow: Flow, q: nat, severity: string) {
    HoldsAt(judge, flow, BoundaryNode, q) && SeverityText(flow.nodes[q]) == severity
  }

  ghost predicate IsRaised(judge: Judge, flow: Flow, severity: string) {
    exists q: nat :: RaisesAt(judge, flow, q, severity)
  }

  ghost predicate IsFirstRaisedAt(judge: Judge, flow: Flow, q: nat, severity: string) {
    RaisesAt(judge, flow, q, severity) && forall r: nat :: RaisesAt(judge, flow, r, severity) ==> q <= r
  }

  /** The boundary that has its say: the first critical one that is triggered; failing that the first high
      one, then medium, then low, then the first of all. */
  ghost predicate DecidesAt(judge: Judge, flow: Flow, q: nat) {
    if IsRaised(judge, flow, "critical") then IsFirstRaisedAt(judge, flow, q, "critical")
    else if IsRaised(judge, flow, "high") then IsFirstRaisedAt(judge, flow, q, "high")
    else if IsRaised(judge, flow, "medium") then IsFirstRaisedAt(judge, flow, q, "medium")
    else if IsRaised(judge, flow, "low") then IsFirstRaisedAt(judge, flow, q, "low")
    else HoldsAt(judge, flow, BoundaryNode, q) && forall r: nat :: HoldsAt(judge, flow, BoundaryNode, r) ==> q <= r
  }

  lemma {:induction false} ResultsAreOfNodes(judge: Judge, nodes: seq<Node>, k: nat)
    requires k < |nodes|
    ensures ResultsFor(judge, nodes)[k] == ResultFor(judge, nodes[k], Passes(judge, nodes[k]))
  {
    if k < |nodes| - 1 { ResultsAreOfNodes(judge, nodes[..|nodes| - 1], k); }
  }

  /** The result at `k` tells what the boundary at its place in the flow says. */
  ghost predicate TellsOf(judge: Judge, flow: Flow, b: BoundaryResult, q: nat) {
    && IsActiveAt(flow, BoundaryNode, q)
    && b.boundaryId == flow.nodes[q].id && b.action == flow.nodes[q].action
    && (b.triggered <==> HoldsAt(judge, flow, BoundaryNode, q))
    && b.severity == SeverityText(flow.nodes[q]) && b.effect == EffectText(flow.nodes[q])
  }

  /** There is one result for each active boundary, in the order of the flow. */
  ghost predicate TellOfAll(judge: Judge, flow: Flow, rs: seq<BoundaryResult>, at: seq<nat>) {
    && |rs| == |at|
    && (forall k :: 0 <= k < |rs| ==> TellsOf(judge, flow, rs[k], at[k]))
    && (forall i, j :: 0 <= i < j < |at| ==> at[i] < at[j])
    && (forall q: nat :: IsActiveAt(flow, BoundaryNode, q) ==> q in at)
  }

  lemma ResultsTellOfAll(judge: Judge, flow: Flow) returns (at: seq<nat>)
    ensures TellOfAll(judge, flow, ResultsFor(judge, ActiveOf(flow.nodes, BoundaryNode)), at)
  {
    var boundaries := ActiveOf(flow.nodes, BoundaryNode);
    at := ActiveAreAt(flow.nodes, BoundaryNode);
    var rs := ResultsFor(judge, boundaries);
    forall k | 0 <= k < |rs| ensures TellsOf(judge, flow, rs[k], at[k]) {
      ResultsAreOfNodes(judge, boundaries, k);
      assert at[k] in at;
    }
  }

  lemma RaisedIsTriggered(judge: Judge, flow: Flow, rs: seq<BoundaryResult>, at: seq<nat>, severity: string)
    requires TellOfAll(judge, flow, rs, at)
    ensures SomeTriggered(rs, severity) <==> IsRaised(judge, flow, severity)
    ensures forall k: nat :: k < |rs| ==> (IsFirstRaisedAt(judge, flow, at[k], severity) <==> IsFirstTriggered(rs, k, severity))
  {
    if SomeTriggered(rs, severity) {
      var k :| 0 <= k < |rs| && rs[k].triggered && rs[k].severity == severity;
      assert RaisesAt(judge, flow, at[k], severity);
    }
    if IsRaised(judge, flow, severity) {
      var q: nat :| RaisesAt(judge, flow, q, severity);
      var k :| 0 <= k < |at| && at[k] == q;
      assert rs[k].triggered && rs[k].severity == severity;
    }
    forall k: nat | k < |rs|
      ensures IsFirstRaisedAt(judge, flow, at[k], severity) <==> IsFirstTriggered(rs, k, severity)
    {
      FirstRaisedIsFirstTriggered(judge, flow, rs, at, severity, k);
    }
  }

  lemma FirstRaisedIsFirstTriggered(judge: Judge, flow: Flow, rs: seq<BoundaryResult>, at: seq<nat>, severity: string, k: nat)
    requires TellOfAll(judge, flow, rs, at) && k < |rs|
    ensures IsFirstRaisedAt(judge, flow, at[k], severity) <==> IsFirstTriggered(rs, k, severity)
  {
    if IsFirstRaisedAt(judge, flow, at[k], severity) {
      forall j | 0 <= j < k ensures !(rs[j].triggered && rs[j].severity == severity) {
        assert at[j] < at[k];
        assert !RaisesAt(judge, flow, at[j], severity);
      }
    }
    if IsFirstTriggered(rs, k, severity) {
      forall r: nat | RaisesAt(judge, flow, r, severity) ensures at[k] <= r {
        var j :| 0 <= j < |at| && at[j] == r;
        assert rs[j].triggered && rs[j].severity == severity;
      }
    }
  }

  lemma DecidingPlaceDecides(judge: Judge, flow: Flow, rs: seq<BoundaryResult>, at: seq<nat>, k: nat)
    requires TellOfAll(judge, flow, rs, at) && k < |rs|
    ensures Decides(rs, k) <==> DecidesAt(judge, flow, at[k])
  {
    RaisedIsTriggered(judge, flow, rs, at, "critical");
    RaisedIsTriggered(judge, flow, rs, at, "high");
    RaisedIsTriggered(judge, flow, rs, at, "medium");
    RaisedIsTriggered(judge, flow, rs, at, "low");
    FirstOfAll(judge, flow, rs, at, k);
  }

  lemma FirstOfAll(judge: Judge, flow: Flow, rs: seq<BoundaryResult>, at: seq<nat>, k: nat)
    requires TellOfAll(judge, flow, rs, at) && k < |rs|
    ensures (rs[k].triggered && forall j :: 0 <= j < k ==> !rs[j].triggered)
       <==> (HoldsAt(judge, flow, BoundaryNode, at[k])
             && forall r: nat :: HoldsAt(judge, flow, BoundaryNode, r) ==> at[k] <= r)
  {
    if rs[k].triggered && forall j :: 0 <= j < k ==> !rs[j].triggered {
      forall r: nat | HoldsAt(judge, flow, BoundaryNode, r) ensures at[k] <= r {
        var j :| 0 <= j < |at| && at[j] == r;
        assert rs[j].triggered;
      }
    }
    if HoldsAt(judge, flow, BoundaryNode, at[k]) && forall r: nat :: HoldsAt(judge, flow, BoundaryNode, r) ==> at[k] <= r {
      forall j | 0 <= j < k ensures !rs[j].triggered {
        assert at[j] < at[k];
        assert !HoldsAt(judge, flow, BoundaryNode, at[j]);
      }
    }
  }

  /** The boundaries' say over a decision: that of the deciding one, if any is triggered. */
  ghost predicate IsDecidedAt(judge: Judge, flow: Flow, before: DecisionResult, after: DecisionResult) {
    && ((forall q: nat :: !HoldsAt(judge, flow, BoundaryNode, q)) ==> after == before)
    && ((exists q: nat :: HoldsAt(judge, flow, BoundaryNode, q)) ==> exists q: nat :: DecidesAt(judge, flow, q))
    && forall q: nat :: DecidesAt(judge, flow, q) ==>
         HasEffect(before, EffectText(flow.nodes[q]), flow.nodes[q].action, flow.nodes[q].id, after)
  }

  lemma SomePlaceDecides(judge: Judge, flow: Flow, rs: seq<BoundaryResult>, at: seq<nat>, q: nat)
    requires TellOfAll(judge, flow, rs, at) && HoldsAt(judge, flow, BoundaryNode, q)
    requires (exists i :: 0 <= i < |rs| && rs[i].triggered) ==> exists i: nat :: Decides(rs, i)
    ensures exists r: nat :: DecidesAt(judge, flow, r)
  {
    var k :| 0 <= k < |at| && at[k] == q;
    assert rs[k].triggered;
    var i: nat :| Decides(rs, i);
    DecidingPlaceDecides(judge, flow, rs, at, i);
  }

  lemma NothingHoldsNothingTriggered(judge: Judge, flow: Flow, rs: seq<BoundaryResult>, at: seq<nat>)
    requires TellOfAll(judge, flow, rs, at) && forall q: nat :: !HoldsAt(judge, flow, BoundaryNode, q)
    ensures forall i :: 0 <= i < |rs| ==> !rs[i].triggered
  {
    forall k | 0 <= k < |rs| ensures !rs[k].triggered { assert !HoldsAt(judge, flow, BoundaryNode, at[k]); }
  }

  lemma DecidingPlaceHasResult(judge: Judge, flow: Flow, rs: seq<BoundaryResult>, at: seq<nat>, q: nat) returns (k: nat)
    requires TellOfAll(judge, flow, rs, at) && DecidesAt(judge, flow, q)
    ensures k < |rs| && Decides(rs, k) && TellsOf(judge, flow, rs[k], q)
  {
    assert IsActiveAt(flow, BoundaryNode, q);
    k :| 0 <= k < |at| && at[k] == q;
    DecidingPlaceDecides(judge, flow, rs, at, k);
  }

  lemma DecidingPlaceHasEffect(judge: Judge, flow: Flow, before: DecisionResult, rs: seq<BoundaryResult>, at: seq<nat>,
                               after: DecisionResult, q: nat)
    requires TellOfAll(judge, flow, rs, at) && IsDecided(before, rs, after) && DecidesAt(judge, flow, q)
    ensures HasEffect(before, EffectText(flow.nodes[q]), flow.nodes[q].action, flow.nodes[q].id, after)
  {
    var k := DecidingPlaceHasResult(judge, flow, rs, at, q);
    assert IsUnderEffect(before, rs[k], after);
  }

  lemma EffectsAtPlaces(judge: Judge, flow: Flow, before: DecisionResult, rs: seq<BoundaryResult>, at: seq<nat>,
                        after: DecisionResult)
    requires TellOfAll(judge, flow, rs, at) && IsDecided(before, rs, after)
    ensures forall q: nat :: DecidesAt(judge, flow, q) ==>
              HasEffect(before, EffectText(flow.nodes[q]), flow.nodes[q].action, flow.nodes[q].id, after)
  {
    forall q: nat | DecidesAt(judge, flow, q)
      ensures HasEffect(before, EffectText(flow.nodes[q]), flow.nodes[q].action, flow.nodes[q].id, after)
    {
      DecidingPlaceHasEffect(judge, flow, before, rs, at, after, q);
    }
  }

  lemma SomePlaceDecidesIfAnyHolds(judge: Judge, flow: Flow, before: DecisionResult, rs: seq<BoundaryResult>, at: seq<nat>,
                                   after: DecisionResult)
    requires TellOfAll(judge, flow, rs, at) && IsDecided(before, rs, after)
    ensures (exists q: nat :: HoldsAt(judge, flow, BoundaryNode, q)) ==> exists q: nat :: DecidesAt(judge, flow, q)
  {
    if q: nat :| HoldsAt(judge, flow, BoundaryNode, q) {
      SomePlaceDecides(judge, flow, rs, at, q);
    }
  }

  lemma DecidedAtPlaces(judge: Judge, flow: Flow, before: DecisionResult, rs: seq<BoundaryResult>, at: seq<nat>,
                        after: DecisionResult)
    requires TellOfAll(judge, flow, rs, at) && IsDecided(before, rs, after)
    ensures IsDecidedAt(judge, flow, before, after)
  {
    EffectsAtPlaces(judge, flow, before, rs, at, after);
    SomePlaceDecidesIfAnyHolds(judge, flow, before, rs, at, after);
    if forall q: nat :: !HoldsAt(judge, flow, BoundaryNode, q) {
      NothingHoldsNothingTriggered(judge, flow, rs, at);
    }
  }

  // ---------------------------------------------------------------- the decision

  /** What an evaluation decides. It rests on the first decision node that holds, or under the priority
      strategy the first of the highest priority, or if none holds the first active fallback; and the most
      severe boundary that is triggered, the first of its severity, has its effect on it. Only where node
      ids repeat under the priority strategy is the node not told. */
  lemma DecisionMeans(judge: Judge, signal: Signal, flow: Flow, stamp: Stamp) returns (p: nat, before: DecisionResult)
    requires Evaluated(judge, signal, flow, stamp).Success?
    requires flow.strategy == Some("priority") ==> UniqueIds(flow.nodes)
    ensures RestsOn(judge, flow, p, before)
    ensures IsDecidedAt(judge, flow, before, Evaluated(judge, signal, flow, stamp).value.0)
  {
    p := InitialRestsOn(judge, signal, flow, stamp);
    var initial := InitialResult(judge, signal, flow, Selected(judge, flow).value, stamp);
    var rs := ResultsFor(judge, ActiveOf(flow.nodes, BoundaryNode));
    var at := ResultsTellOfAll(judge, flow);
    before := initial.(boundaryResults := rs);
    AdjustedIsDecided(initial, rs);
    DecidedAtPlaces(judge, flow, before, rs, at, Adjusted(initial, rs));
  }

  /** Without boundaries that hold, the id and the action are those of that node. */
  lemma UndisturbedDecision(judge: Judge, signal: Signal, flow: Flow, stamp: Stamp, p: nat)
    requires Evaluated(judge, signal, flow, stamp).Success?
    requires flow.strategy == Some("priority") ==> UniqueIds(flow.nodes)
    requires forall q: nat :: !HoldsAt(judge, flow, BoundaryNode, q)
    requires IsMatchAt(judge, flow, p) || IsFallbackAt(judge, flow, p)
    ensures var result := Evaluated(judge, signal, flow, stamp).value.0;
            result.selectedNodeId == flow.nodes[p].id && result.action == flow.nodes[p].action
            && result.status == if IsMatchAt(judge, flow, p) then Confirmed else Fallback
  {
    var at, before := DecisionMeans(judge, signal, flow, stamp);
    assert at == p;
  }
}
