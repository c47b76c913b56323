/** The shared state of the runtime and the single writes that change it. */
module Worlds {
  import opened Decisions
  import opened LedgerClient
  import opened LedgerAdapter
  import opened HumanGates
  import opened EventBus
  import opened TraceStore

  /** `bus` is the event bus, `published` what was handed to the execution publisher, `cache` the
      idempotency store. */
  datatype World = World(
    gates: Gates,
    log: Log,
    bus: seq<RuntimeEvent>,
    published: seq<RuntimeEvent>,
    cache: map<string, DecisionResult>,
    traces: Traces)

  const EMPTY_WORLD: World := World(Gates(map[], map[]), [], [], [], map[], Traces([], map[], map[]))

  datatype Effect =
    | OpenGate(request: GateRequest, held: DecisionResult)
    | SettleGate(requestId: string, resolution: Resolution)
    | AppendEvent(event: LedgerEvent)
    | Announce(message: RuntimeEvent)
    | HandOver(message: RuntimeEvent)
    | Remember(key: string, result: DecisionResult)
    | SaveTrace(trace: DecisionTrace)

  function After(w: World, effect: Effect): World {
    match effect
    case OpenGate(request, held) => w.(gates := Opened(w.gates, request, held))
    case SettleGate(id, r) =>
      if id in w.gates.store && id in w.gates.results then w.(gates := Settled(w.gates, id, r)) else w
    case AppendEvent(event) => w.(log := Appended(w.log, event))
    case Announce(message) => w.(bus := w.bus + [message])
    case HandOver(message) => w.(published := w.published + [message])
    case Remember(key, result) => w.(cache := w.cache[key := result])
    case SaveTrace(trace) => w.(traces := Saved(w.traces, trace))
  }

  function Applied(w: World, effects: seq<Effect>): World {
    if effects == [] then w
    else
      var n := |effects| - 1;
      After(Applied(w, effects[..n]), effects[n])
  }

  lemma {:induction false} AppliedConcat(w: World, a: seq<Effect>, b: seq<Effect>)
    ensures Applied(w, a + b) == Applied(Applied(w, a), b)
  {
    if b == [] {
      assert a + b == a;
    } else {
      var n := |b| - 1;
      AppliedConcat(w, a, b[..n]);
      assert (a + b)[..|a| + n] == a + b[..n];
    }
  }

  lemma AppliedOne(w: World, effect: Effect)
    ensures Applied(w, [effect]) == After(w, effect)
  {
    assert [effect][..0] == [];
    assert Applied(w, []) == w;
  }

  lemma AppliedTwo(w: World, first: Effect, second: Effect)
    ensures Applied(w, [first] + [second]) == After(After(w, first), second)
  {
    AppliedOne(w, first);
    assert ([first] + [second])[..1] == [first];
  }

  function Appends(events: Log): (effects: seq<Effect>)
    ensures |effects| == |events|
    ensures forall i :: 0 <= i < |events| ==> effects[i] == AppendEvent(events[i])
  {
    seq(|events|, i requires 0 <= i < |events| => AppendEvent(events[i]))
  }

  lemma {:induction false} AppendsWriteLog(w: World, events: Log)
    ensures Applied(w, Appends(events)) == w.(log := CommitLog(w.log, events))
  {
    if events != [] {
      var n := |events| - 1;
      AppendsWriteLog(w, events[..n]);
      assert Appends(events)[..n] == Appends(events[..n]);
    }
  }
}
