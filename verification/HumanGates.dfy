/** Human gates: opened pending, resolved at most once by someone who holds the required role. */
module HumanGates {
  import opened Basics
  import opened Decisions
  import opened LedgerAdapter

  datatype GateError = GateNotFound | GateNotPending | RoleMissing

  /** The two dictionaries of the manager: requests and the decisions they hold up. */
  datatype Gates = Gates(store: map<string, GateRequest>, results: map<string, DecisionResult>)

  function NewRequest(id: Uuid, result: DecisionResult, requiredRole: Option<string>, now: int): GateRequest {
    GateRequest(id, result.flowId, Some(result.id), Some(result.traceId), result.selectedNodeId, requiredRole,
                GatePending, None, None, None, now)
  }

  function Opened(g: Gates, request: GateRequest, result: DecisionResult): Gates {
    Gates(g.store[request.id := request], g.results[request.id := result])
  }

  /** Why a resolution is refused, if it is. */
  function Refusal(g: Gates, requestId: string, roles: Option<seq<string>>): Option<GateError> {
    if requestId !in g.store then Some(GateNotFound)
    else if !g.store[requestId].status.GatePending? then Some(GateNotPending)
    else if g.store[requestId].requiredRole.Some?
            && (roles.None? || g.store[requestId].requiredRole.value !in roles.value) then Some(RoleMissing)
    else None
  }

  function Answered(request: GateRequest, r: Resolution): GateRequest {
    request.(status := if r.action.Approve? then GateApproved else GateRejected,
             responseValue := Some(ActionText(r.action)), responseNote := r.comment, respondedAt := Some(r.at))
  }

  function Released(result: DecisionResult, r: Resolution): DecisionResult {
    if r.action.Approve? then result.(state := StateConfirmed, status := Confirmed, updatedAt := r.at)
    else result.(state := StateRejected, status := Rejected, action := None, updatedAt := r.at)
  }

  function Settled(g: Gates, requestId: string, r: Resolution): Gates
    requires requestId in g.store && requestId in g.results
  {
    Gates(g.store[requestId := Answered(g.store[requestId], r)],
          g.results[requestId := Released(g.results[requestId], r)])
  }

  // ---------------------------------------------------------------- the invariant

  /** The request and the decision under one key tell the same story. */
  ghost predicate InStep(request: GateRequest, result: DecisionResult) {
    && request.traceId == Some(result.traceId) && request.decisionId == Some(result.id)
    && (request.respondedAt.None? <==> request.status.GatePending?)
    && match request.status
       case GatePending => result.status == PendingHuman && request.responseValue.None?
       case GateApproved => result.status == Confirmed && request.responseValue == Some("approve")
       case GateRejected => result.status == Rejected && result.action.None? && request.responseValue == Some("reject")
       case _ => false
  }

  /** Every request is kept under its id, and together with a decision. */
  ghost predicate KeysMatch(g: Gates) {
    g.store.Keys == g.results.Keys && forall id :: id in g.store ==> g.store[id].id == id
  }

  ghost predicate GatesInv(g: Gates) {
    KeysMatch(g) && forall id :: id in g.store ==> InStep(g.store[id], g.results[id])
  }

  lemma OpeningKeepsInv(g: Gates, id: Uuid, result: DecisionResult, requiredRole: Option<string>, now: int)
    requires GatesInv(g) && result.status == PendingHuman
    ensures GatesInv(Opened(g, NewRequest(id, result, requiredRole, now), result))
  {
  }

  lemma AnsweredIsInStep(request: GateRequest, result: DecisionResult, r: Resolution)
    requires InStep(request, result)
    ensures InStep(Answered(request, r), Released(result, r))
  {
  }

  /** A resolution is allowed exactly for a pending gate whose required role, if any, is held; it
      moves that gate and no other, and keeps requests and decisions in step. */
  lemma SettlingKeepsInv(g: Gates, requestId: string, roles: Option<seq<string>>, r: Resolution)
    requires GatesInv(g) && Refusal(g, requestId, roles).None?
    ensures GatesInv(Settled(g, requestId, r))
    ensures g.store[requestId].status == GatePending && Settled(g, requestId, r).store[requestId].status != GatePending
    ensures forall id :: id in g.store && id != requestId ==>
              Settled(g, requestId, r).store[id] == g.store[id] && Settled(g, requestId, r).results[id] == g.results[id]
  {
    AnsweredIsInStep(g.store[requestId], g.results[requestId], r);
  }

  // ---------------------------------------------------------------- runs of the manager

  /** Any caller's use of the manager: gates with or without a required role, resolutions by anybody. */
  datatype ManagerCall =
    | OpenCall(id: Uuid, held: DecisionResult, requiredRole: Option<string>, now: int)
    | ResolveCall(requestId: string, roles: Option<seq<string>>, resolution: Resolution)

  /** The manager accepts the resolution. */
  ghost predicate Resolves(g: Gates, call: ManagerCall, id: string) {
    call.ResolveCall? && call.requestId == id && Refusal(g, id, call.roles).None? && id in g.results
  }

  ghost function GateNext(g: Gates, call: ManagerCall): Gates {
    match call
    case OpenCall(id, held, requiredRole, now) => Opened(g, NewRequest(id, held, requiredRole, now), held)
    case ResolveCall(id, _, r) => if Resolves(g, call, id) then Settled(g, id, r) else g
  }

  ghost function GateRun(calls: seq<ManagerCall>): Gates {
    if calls == [] then Gates(map[], map[]) else GateNext(GateRun(calls[..|calls| - 1]), calls[|calls| - 1])
  }

  ghost predicate OpensFresh(calls: seq<ManagerCall>) {
    forall i: nat {:trigger GateRun(calls[..i])} ::
      i < |calls| && calls[i].OpenCall? ==> calls[i].id !in GateRun(calls[..i]).store
  }

  /** Call number `i` resolves the gate, made by a holder of the role the gate requires. */
  ghost predicate IsResolvedAt(calls: seq<ManagerCall>, i: nat, id: string, request: GateRequest) {
    && i < |calls| && Resolves(GateRun(calls[..i]), calls[i], id)
    && request == Answered(GateRun(calls[..i]).store[id], calls[i].resolution)
    && (request.requiredRole.Some? ==> calls[i].roles.Some? && request.requiredRole.value in calls[i].roles.value)
  }

  lemma OpensFreshPrefix(calls: seq<ManagerCall>, n: nat)
    requires OpensFresh(calls) && n <= |calls|
    ensures OpensFresh(calls[..n])
  {
    forall i: nat | i < n && calls[..n][i].OpenCall? ensures calls[..n][i].id !in GateRun(calls[..n][..i]).store {
      assert calls[..n][..i] == calls[..i];
    }
  }

  /** Over every run, with any required roles: a gate that is no longer pending was resolved by a call
      of a holder of its role, and is as that call left it. */
  lemma {:induction false} ResolverHeldRole(calls: seq<ManagerCall>, id: string) returns (i: nat)
    requires OpensFresh(calls) && id in GateRun(calls).store && !GateRun(calls).store[id].status.GatePending?
    ensures IsResolvedAt(calls, i, id, GateRun(calls).store[id])
  {
    var n := |calls| - 1;
    var before := GateRun(calls[..n]);
    OpensFreshPrefix(calls, n);
    if Resolves(before, calls[n], id) {
      i := n;
    } else {
      i := ResolverHeldRole(calls[..n], id);
      assert calls[..n][..i] == calls[..i];
    }
  }

  lemma NextStaysResolved(g: Gates, call: ManagerCall, id: string)
    requires id in g.store && !g.store[id].status.GatePending?
    requires call.OpenCall? ==> call.id !in g.store
    ensures id in GateNext(g, call).store && !GateNext(g, call).store[id].status.GatePending?
  {
  }

  lemma ResolvingSettles(g: Gates, call: ManagerCall, id: string)
    requires Resolves(g, call, id)
    ensures id in GateNext(g, call).store && !GateNext(g, call).store[id].status.GatePending?
  {
  }

  lemma GateRunStep(calls: seq<ManagerCall>, n: nat)
    requires n < |calls|
    ensures GateRun(calls[..n + 1]) == GateNext(GateRun(calls[..n]), calls[n])
  {
    assert calls[..n + 1][..n] == calls[..n];
  }

  lemma {:induction false} RunKeeps(p: Gates -> bool, calls: seq<ManagerCall>, i: nat, n: nat)
    requires i <= n <= |calls| && p(GateRun(calls[..i]))
    requires forall k: nat :: i <= k < n && p(GateRun(calls[..k])) ==> p(GateNext(GateRun(calls[..k]), calls[k]))
    ensures p(GateRun(calls[..n]))
    decreases n
  {
    if i < n {
      RunKeeps(p, calls, i, n - 1);
      GateRunStep(calls, n - 1);
    }
  }

  lemma ResolvedStaysResolved(calls: seq<ManagerCall>, i: nat, n: nat, id: string)
    requires OpensFresh(calls) && i < n <= |calls| && Resolves(GateRun(calls[..i]), calls[i], id)
    ensures id in GateRun(calls[..n]).store && !GateRun(calls[..n]).store[id].status.GatePending?
  {
    var p := (g: Gates) => id in g.store && !g.store[id].status.GatePending?;
    GateRunStep(calls, i);
    ResolvingSettles(GateRun(calls[..i]), calls[i], id);
    forall k: nat | i < k < n && p(GateRun(calls[..k])) ensures p(GateNext(GateRun(calls[..k]), calls[k])) {
      NextStaysResolved(GateRun(calls[..k]), calls[k], id);
    }
    RunKeeps(p, calls, i + 1, n);
  }

  /** And at most one call of a run resolves a gate. */
  lemma OneCallResolves(calls: seq<ManagerCall>, i: nat, j: nat, id: string)
    requires OpensFresh(calls) && i < j < |calls| && Resolves(GateRun(calls[..i]), calls[i], id)
    ensures !Resolves(GateRun(calls[..j]), calls[j], id)
  {
    ResolvedStaysResolved(calls, i, j, id);
  }

  /** As long as only pending decisions are held, the statuses of gates and decisions match throughout. */
  lemma {:induction false} RunKeepsInv(calls: seq<ManagerCall>)
    requires forall i :: 0 <= i < |calls| && calls[i].OpenCall? ==> calls[i].held.status == PendingHuman
    ensures GatesInv(GateRun(calls))
  {
    if calls != [] {
      var n := |calls| - 1;
      assert forall i :: 0 <= i < n ==> calls[..n][i] == calls[i];
      RunKeepsInv(calls[..n]);
      var before := GateRun(calls[..n]);
      match calls[n] {
        case OpenCall(id, held, requiredRole, now) => OpeningKeepsInv(before, id, held, requiredRole, now);
        case ResolveCall(id, roles, r) =>
          if Resolves(before, calls[n], id) { SettlingKeepsInv(before, id, roles, r); }
      }
    }
  }

  // ---------------------------------------------------------------- what becomes of a held decision

  /** `now` is `before` in all but state, status, action and time of update. */
  ghost predicate IsSameCase(before: DecisionResult, now: DecisionResult) {
    now == before.(state := now.state, status := now.status, action := now.action, updatedAt := now.updatedAt)
  }

  /** What resolving makes of a decision: approved it keeps its action, rejected it has none. */
  ghost predicate IsResolvedAs(before: DecisionResult, action: GateAction, now: DecisionResult) {
    && IsSameCase(before, now)
    && (action.Approve? ==> now.state == StateConfirmed && now.status == Confirmed && now.action == before.action)
    && (action.Reject? ==> now.state == StateRejected && now.status == Rejected && now.action.None?)
  }

  /** What resolving makes of a gate. */
  ghost predicate IsAnsweredAs(before: GateRequest, r: Resolution, now: GateRequest) {
    && now == before.(status := now.status, responseValue := now.responseValue, responseNote := r.comment,
                      respondedAt := Some(r.at))
    && (r.action.Approve? ==> now.status == GateApproved && now.responseValue == Some("approve"))
    && (r.action.Reject? ==> now.status == GateRejected && now.responseValue == Some("reject"))
  }

  /** The gate and the decision under it, told from the call that opened the gate. */
  ghost predicate IsCaseOf(request: GateRequest, now: DecisionResult, opening: ManagerCall)
    requires opening.OpenCall?
  {
    var held := opening.held;
    && request.id == opening.id && request.flowId == held.flowId && request.nodeId == held.selectedNodeId
    && request.decisionId == Some(held.id) && request.traceId == Some(held.traceId)
    && request.requiredRole == opening.requiredRole && request.createdAt == opening.now
    && match request.status
       case GatePending => now == held
       case GateApproved => IsResolvedAs(held, Approve, now)
       case GateRejected => IsResolvedAs(held, Reject, now)
       case _ => false
  }

  ghost predicate IsOpenedAt(calls: seq<ManagerCall>, i: nat, id: string) {
    && i < |calls| && calls[i].OpenCall? && calls[i].id == id
    && forall j :: i < j < |calls| && calls[j].OpenCall? ==> calls[j].id != id
  }

  lemma SettlingResolves(request: GateRequest, before: DecisionResult, r: Resolution, opening: ManagerCall)
    requires opening.OpenCall? && IsCaseOf(request, before, opening) && request.status.GatePending?
    ensures IsCaseOf(Answered(request, r), Released(before, r), opening)
  {
  }

  /** Over every run, whoever calls: the decision under a gate is the one that the gate was last opened with,
      untouched while the gate is pending; approved it has the same action, rejected it has none, and all
      that is not state, status, action or time of update is as it was. */
  lemma {:induction false} HeldDecisionStands(calls: seq<ManagerCall>, id: string) returns (i: nat)
    requires id in GateRun(calls).store
    ensures IsOpenedAt(calls, i, id) && id in GateRun(calls).results
    ensures IsCaseOf(GateRun(calls).store[id], GateRun(calls).results[id], calls[i])
  {
    var n := |calls| - 1;
    var before := GateRun(calls[..n]);
    if calls[n].OpenCall? && calls[n].id == id {
      i := n;
    } else {
      i := HeldDecisionStands(calls[..n], id);
      if Resolves(before, calls[n], id) {
        SettlingResolves(before.store[id], before.results[id], calls[n].resolution, calls[i]);
      }
    }
  }

  // ---------------------------------------------------------------- the manager

  class HumanGateManager {
    var store: map<string, GateRequest>
    var results: map<string, DecisionResult>

    constructor ()
      ensures Value() == Gates(map[], map[]) && Valid()
    {
      store, results := map[], map[];
    }

    ghost function Value(): Gates
      reads this
    {
      Gates(store, results)
    }

    ghost predicate Valid()
      reads this
    {
      KeysMatch(Value())
    }

    /** `id` is the fresh UUID of the request. A decision of any status can be held; the statuses of
        gates and decisions match as long as only pending ones are. */
    method CreateRequest(id: Uuid, result: DecisionResult, requiredRole: Option<string>, now: int)
      returns (request: GateRequest)
      requires Valid()
      modifies this
      ensures Valid()
      ensures old(GatesInv(Value())) && result.status == PendingHuman ==> GatesInv(Value())
      ensures request == NewRequest(id, result, requiredRole, now)
      ensures Value() == Opened(old(Value()), request, result)
      ensures store == old(store)[id := request] && results == old(results)[id := result]
      ensures request.status == GatePending && request.respondedAt.None? && request.responseValue.None?
      ensures IsCaseOf(request, result, OpenCall(id, result, requiredRole, now))
    {
      if GatesInv(Value()) && result.status == PendingHuman { OpeningKeepsInv(Value(), id, result, requiredRole, now); }
      request := NewRequest(id, result, requiredRole, now);
      store := store[request.id := request];
      results := results[request.id := result];
    }

    /** approve and reject: a refused call changes nothing. */
    method Resolve(requestId: string, roles: Option<seq<string>>, r: Resolution) returns (out: Result<DecisionResult, GateError>)
      requires Valid()
      modifies this
      ensures Valid()
      ensures old(GatesInv(Value())) ==> GatesInv(Value())
      ensures old(Refusal(Value(), requestId, roles)).Some? ==>
                out == Failure(old(Refusal(Value(), requestId, roles)).value) && Value() == old(Value())
      ensures old(Refusal(Value(), requestId, roles)).None? ==>
                Value() == Settled(old(Value()), requestId, r) && out == Success(results[requestId])
      ensures out == Failure(GateNotFound) <==> requestId !in old(store)
      ensures out == Failure(GateNotPending) <==> requestId in old(store) && old(store)[requestId].status != GatePending
      ensures out == Failure(RoleMissing) <==>
                && requestId in old(store) && old(store)[requestId].status == GatePending
                && old(store)[requestId].requiredRole.Some?
                && (roles.None? || old(store)[requestId].requiredRole.value !in roles.value)
      ensures out.Failure? ==> store == old(store) && results == old(results)
      ensures out.Success? ==>
                && IsResolvedAs(old(results)[requestId], r.action, out.value) && out.value.updatedAt == r.at
                && results == old(results)[requestId := out.value]
                && store == old(store)[requestId := store[requestId]]
                && IsAnsweredAs(old(store)[requestId], r, store[requestId])
    {
      if requestId !in store { return Failure(GateNotFound); }
      var request := store[requestId];
      if !request.status.GatePending? { return Failure(GateNotPending); }
      if request.requiredRole.Some? && (roles.None? || request.requiredRole.value !in roles.value) {
        return Failure(RoleMissing);
      }
      if GatesInv(Value()) { SettlingKeepsInv(Value(), requestId, roles, r); }
      store := store[requestId := Answered(request, r)];
      results := results[requestId := Released(results[requestId], r)];
      return Success(results[requestId]);
    }

    method GetRequest(requestId: string) returns (r: Option<GateRequest>)
      ensures r == if requestId in store then Some(store[requestId]) else None
    {
      return if requestId in store then Some(store[requestId]) else None;
    }
  }
}
