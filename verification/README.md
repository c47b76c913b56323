# Decision Runtime Core: a verified model

Decision Runtime Core evaluates a signal against a flow, lets boundary rules adjust the decision,
suspends it at a human gate if a boundary escalates it, commits it to an append-only ledger and only
then announces it for execution. This project models that path from the condition text to the whole run
of requests, and proves what it keeps. `dafny verify dfyconfig.toml` checks everything.

## How the model is built

Objects that the program updates in place are classes with the same fields (`LedgerClient`,
`PostgresLedgerClient`, `HumanGateManager`, `TraceStore`, `IdempotencyStore`, `EventBus`, `CycleSearch`,
`DecisionRuntimeEngine`, `Application`); loops are methods with invariants; each method is proved equal to
a specification function on values, and the properties are proved of those functions. What these functions
mean is proved in turn without them: in terms of the values of operands (`ConditionMeaning`), of the places of
nodes in a flow (`Choices`), of the severity texts (`Boundaries`), of the calls of a run (`HumanGates`), of
the number of traces ahead (`TraceStore`), and of the stores before and after a request (`EndStates`).

| files | what they hold |
|---|---|
| `Values`, `Conditions`, `ConditionMeaning`, `Literals`, `ConditionEvaluator` | the condition language: values, checker, evaluator, what each operator means, literal rewriting |
| `Flows`, `FlowGraph`, `FlowValidator` | flows, reachability and cycle search, load-time rules |
| `Decisions`, `Boundaries`, `Evaluation`, `Choices`, `EvaluationRecords`, `FlowChanges` | signals and decisions, boundary rules, evaluation without side effects, what it decides in terms of the flow, what it records, what changes of a flow do to it |
| `LedgerClient`, `PostgresLedger`, `PostgresVerdicts` | the in-memory ledger; the hash-chained table under interleaved transactions, and how each append ends |
| `LedgerAdapter`, `CommitProperties`, `PostgresRetries`, `LedgerProjector` | events of a trace, commit and retry, concurrent retries over the interleaved table, replay |
| `HumanGates`, `EventBus`, `TraceStore` | gates, bus and cursor, trace and idempotency stores, paging |
| `Worlds`, `Engine`, `Routes` | the shared state and its single writes, the pipeline, the requests |
| `Safety`, `SafePlans`, `Runs`, `Guarantees`, `Idempotency`, `GateAccess`, `Outcomes`, `EndStates` | the invariant, every planned write is safe, whole runs and their theorems, what each request leaves |
| `Witnesses` | concrete inputs for what the program does not promise |

A request is handled as one step, since the handlers do not await. Its specification is the list of single
writes it makes (`Engine.Planned`, `Routes.EvaluateRoute`, `Routes.GateRoute`) and its response. `Safety`
says when a single write keeps the invariant; `SafePlans` shows that every write of every request is safe
in the state the writes before it leave. So the invariant holds after every single write of every run,
with the ledger client raising at any append: the methods of `LedgerAdapter`, `Engine` and `Routes` take
the point at which it raises as a parameter. The engine notes every write where it makes it, in a ghost
sequence; each method is proved to have made exactly the planned writes in the planned order.

Assumptions, all of them parameters: the parser, the white-space test and the word-character test
(`ConditionEvaluator.Host`); the digest of the hash chain, any function (`PostgresLedger.Digest`); event
ids, any injective function of trace id and step (`LedgerAdapter.Naming`; `NameTextIsInjective` shows that
the text they are derived from is injective); message wordings; fresh ids (`SafePlans.IsFresh`) and clock
readings (`Engine.Draw`); the point at which the ledger client raises (`LedgerAdapter.Outage`). The in-memory
stores and the execution publisher do not raise.

## Where the code differs from what one might expect

The model follows the code. Behind each of these is the theorem it names; where a promise fails, the
theorem says exactly when, or a second one gives an input.

- A flow that the validator accepts can still raise. Flows are loaded without validating conditions
  (flow_registry.py:29), so an invalid decision condition is one way; and even with conditions validated,
  boundary conditions are not, and the one fallback that is required need not be active. The exact condition
  is `Outcomes.ValidatedFlowsRaiseExactlyWhen`; an accepted flow for each way is in
  `Witnesses.InvalidDecisionRaises`, `Witnesses.InvalidBoundaryRaises`, `Witnesses.InactiveFallbackRaises`.
- In strict mode a gate is created before the commit, so a refused or failed commit leaves a gate behind
  (`Outcomes.UnacceptedCommitLeavesTheRest`). An accepted flow does it when the ledger client raises
  (`Witnesses.OutageLeavesGate`); a commit is refused only for a flow that repeats a node id, which the
  validator does not accept (`Outcomes.ValidatedFlowsAreAccepted`, `Witnesses.RefusedCommitLeavesGate`).
- With fresh trace ids a commit is never a duplicate, so the recovery of a prior result is never reached
  (`Outcomes.FreshCommitOutcome`); were a recorded evaluation committed again, recovery would be right
  (`Guarantees.RepeatedCommitRecovers`). A refused commit of a fresh trace is always a partial one, and its
  error answer is what the idempotency key returns from then on (`Idempotency.OneAnswerPerKey` covers every
  answer).
- Approving a gate answers with a confirmed decision and requests no execution
  (`Idempotency.FailuresAnnounceNothing`), and nothing else ever requests one for it
  (`Guarantees.EscalatedNeverRuns`).
- The engine never passes a required role, so the gates it opens can be resolved by anyone, and 403 is never
  answered (`GateAccess.AnyoneResolves`, `GateAccess.NobodyIsForbidden`, for every run). That the manager
  enforces a role when there is one is `HumanGates.ResolverHeldRole`.
- When two Postgres appends of one event overlap, the later one raises instead of reporting a duplicate
  (`PostgresVerdicts.OverlappingDuplicateRaises` runs them), although the comment promises a duplicate
  without writing. `PostgresVerdicts.VerdictsAreExact` says exactly when an append is a duplicate, is rolled
  back or commits.
- The event hash covers seven fields; payload, flow id, flow version and times are not bound by the chain
  (`PostgresLedger.OtherFieldsAreNotBound`, `PostgresLedger.PayloadCanBeReplaced`).
- Fallback records become outcome events, so a replayed trace does not list them as nodes
  (`LedgerProjector.ProjectionAgrees`).
- A quoted `true`, `false` or `null` is rewritten like an unquoted one: exactly when the text has a literal
  as a word (`Literals.UnchangedExactlyWithoutLiterals`), so `'true'` becomes `'True'`
  (`Literals.QuotedLiteralIsRewritten`).
- Where node ids repeat, nodes that are not evaluated can decide a tie
  (`Evaluation.PriorityIsLeftmostExactlyWhen`, `FlowChanges.RepeatedIdsMatter`).
- The documentation of the event bus says that it returns up to 1000 events; without a limit it returns all
  that follow the cursor, so more exactly when more follow (`EventBus.OnlyLimitsCapPages`).

## Model

| member | source | states |
|---|---|---|
| Conditions.CheckIsExact | backend/app/runtime/condition_evaluator.py:95-126 | the checker accepts a tree exactly when every node of it, at any depth, is whitelisted, names are context variables and attributes are not dunder |
| ConditionMeaning.AttributesAccepted | backend/app/runtime/condition_evaluator.py:118-123 | an attribute is accepted unless it begins with two underscores |
| ConditionMeaning.OperatorsAccepted | backend/app/runtime/condition_evaluator.py:34-56 | the eight comparison operators other than `is` and `is not` are accepted |
| Conditions.EvalCompare | backend/app/runtime/condition_evaluator.py:180-187 | the comparison loop computes the value of the chain |
| Conditions.EvalOperands | backend/app/runtime/condition_evaluator.py:158-171 | the operand loop computes the value of `and` and `or` |
| ConditionMeaning.AndMeansAll | backend/app/runtime/condition_evaluator.py:158-163 | for accepted operands in any context, `and` is True exactly when every operand holds, and else False |
| ConditionMeaning.OrMeansSome | backend/app/runtime/condition_evaluator.py:164-168 | `or` is True exactly when some operand holds, and else False |
| ConditionMeaning.NotMeansOpposite | backend/app/runtime/condition_evaluator.py:173-178 | `not` holds exactly when its operand does not, also when that is missing |
| ConditionMeaning.HoldsExactlyUnlessEmpty | backend/app/runtime/condition_evaluator.py:238-243 | what does not hold: missing, None, False, 0, and the empty text, list and dictionary, and nothing else |
| ConditionMeaning.NumbersCompare | backend/app/runtime/condition_evaluator.py:209-224 | the six order and equality operators on numbers are those of the real numbers, True and False counting as 1 and 0 |
| ConditionMeaning.TimesCompare | backend/app/runtime/condition_evaluator.py:209-224 | and on times those of points in time |
| ConditionMeaning.TextsCompare | backend/app/runtime/condition_evaluator.py:209-224 | texts are ordered by their first differing character, an initial part coming first; equal exactly when the same |
| ConditionMeaning.ListsCompare | backend/app/runtime/condition_evaluator.py:209-224 | lists are ordered by their first differing items, else by length; equal when item by item equal |
| ConditionMeaning.DictionariesCompare | backend/app/runtime/condition_evaluator.py:214-215 | dictionaries are equal when they have the same keys and equal values |
| ConditionMeaning.DifferentKindsNeverCompare | backend/app/runtime/condition_evaluator.py:213-234 | values of different kinds are unequal and unordered: a TypeError makes the comparison false |
| ConditionMeaning.MissingNeverCompares | backend/app/runtime/condition_evaluator.py:211-212 | a comparison with a missing side is false |
| ConditionMeaning.NegatedOperators | backend/app/runtime/condition_evaluator.py:213-234 | `!=` is the opposite of `==`, and `not in` of `in` where the right side can contain the left one |
| ConditionMeaning.MembershipMeans | backend/app/runtime/condition_evaluator.py:226-229 | `in` finds parts of a text, items of a list, keys of a dictionary |
| ConditionMeaning.AcceptedVariablesArePresent | backend/app/runtime/condition_evaluator.py:30-32 | the variables the checker accepts are exactly those every signal gives a value |
| ConditionMeaning.VariablesAreFields | backend/app/runtime/engine.py:355-363 | type, source, confidence and created_at are the fields of the signal they are named after |
| ConditionMeaning.PayloadFieldIsRead | backend/app/runtime/condition_evaluator.py:195-207 | payload.key is the field of the payload, or missing |
| ConditionMeaning.ThresholdsMean | backend/flows/manufacturing_quality_flow.yaml:26 | a condition of this form holds for a signal exactly when its confidence is at least the one number and the payload field is there, is a number and is below the other |
| ConditionMeaning.ThresholdTextMeans | backend/app/runtime/condition_evaluator.py:264-299 | so does every text that is parsed as such a tree, from the text to the verdict |
| Conditions.AcceptedNeverRaises | backend/app/runtime/condition_evaluator.py:134-243 | an accepted tree reaches no error branch in any context |
| Conditions.ChainIsConjunction | backend/app/runtime/condition_evaluator.py:180-187 | a chained comparison holds exactly when all neighbouring comparisons hold (section 6.10 of the Python Language Reference) |
| Conditions.OnlyPathsMatter | backend/app/runtime/condition_evaluator.py:155-207 | contexts that agree on the maximal paths of a condition give it the same value |
| Conditions.AddingKeysIsMonotone | backend/app/runtime/condition_evaluator.py:155-243 | adding keys at any depth, also inside lists, never turns a `not`-free condition from true to false whose operands are constants or paths that are missing or hold no dictionary |
| Conditions.MonotonicityNeedsBothRestrictions | backend/app/runtime/condition_evaluator.py:173-229 | each of the two restrictions is needed: a negation and a `not in` on a dictionary lose their truth when a key is added |
| Literals.Substitute | backend/app/runtime/condition_evaluator.py:59-87 | one whole-word substitution pass renames exactly the maximal word runs equal to the literal |
| Literals.Normalize | backend/app/runtime/condition_evaluator.py:78-87 | the three passes in sequence compute one simultaneous renaming of word runs |
| Literals.ThreePassesAreOne | backend/app/runtime/condition_evaluator.py:84-86 | three passes over any text equal one simultaneous pass |
| Literals.PassesCompose | backend/app/runtime/condition_evaluator.py:84-86 | passes compose whenever the first writes word characters only |
| Literals.NormalizationIsIdempotent | backend/app/runtime/condition_evaluator.py:78-87 | normalising twice is normalising once |
| Literals.UnchangedExactlyWithoutLiterals | backend/app/runtime/condition_evaluator.py:78-87 | a text is left as it is exactly when no maximal word run is a literal |
| Literals.LiteralsBecomeConstants | backend/app/runtime/condition_evaluator.py:78-87 | the words true, false and null become True, False and None; any other word stays |
| Literals.QuotedLiteralIsRewritten | backend/app/runtime/condition_evaluator.py:78-87 | the text `'true'` becomes `'True'` wherever a quote is not a word character |
| ConditionEvaluator.Evaluate | backend/app/runtime/condition_evaluator.py:264-299 | blank conditions hold; otherwise normalise, parse, check, evaluate, coerce, or raise |
| ConditionEvaluator.StripDropsOuterSpace | backend/app/runtime/condition_evaluator.py:281-284 | stripping drops white space at both ends and nothing else |
| ConditionEvaluator.BlankHolds | backend/app/runtime/condition_evaluator.py:281-284 | a condition is blank, and then holds, exactly when there is none or it is all white space |
| ConditionEvaluator.PaddingChangesNothing | backend/app/runtime/condition_evaluator.py:281-284 | white space around a condition changes nothing |
| ConditionEvaluator.LoneWordIsParsed | backend/app/runtime/condition_evaluator.py:284-288 | a condition of one word reaches the parser as that word, a literal as the constant |
| ConditionEvaluator.RaisesExactlyWhenInvalid | backend/app/runtime/condition_evaluator.py:264-317 | evaluation raises in a context exactly when validate_syntax rejects the text, whatever the context |
| FlowGraph.BuildAdjacency | backend/app/registry/flow_validator.py:200-206 | the adjacency table represents the edges that leave declared nodes |
| FlowGraph.FindReachable | backend/app/registry/flow_validator.py:200-217 | the search with duplicates in its queue ends and returns exactly the nodes a directed path joins to the entry |
| FlowGraph.CycleSearch.Dfs | backend/app/registry/flow_validator.py:229-243 | the recursive search ends; it finds a cycle, or finishes the node and leaves the stack as it was |
| FlowGraph.HasCycle | backend/app/registry/flow_validator.py:219-245 | True exactly when the edge graph has a directed cycle; False comes with a topological ranking |
| FlowGraph.RankedGraphsAreAcyclic | backend/app/registry/flow_validator.py:219-245 | a graph with a rank that falls along every edge has no directed cycle |
| FlowGraph.CompleteSearchRanks | backend/app/registry/flow_validator.py:219-245 | a search that finished every node yields such a ranking |
| FlowValidator.CheckUniqueNodeIds | backend/app/registry/flow_validator.py:60-67 | accepts exactly the flows without repeated node ids |
| FlowValidator.CheckEdgeReferences | backend/app/registry/flow_validator.py:92-104 | accepts exactly when both ends of every edge are declared |
| FlowValidator.CheckExactlyOneFallback | backend/app/registry/flow_validator.py:106-111 | accepts exactly when one node, active or not, is a fallback |
| FlowValidator.CheckNoOrphanNodes | backend/app/registry/flow_validator.py:113-122 | accepts exactly when every node without a fallback's id is reachable by a directed path |
| FlowValidator.CheckContractNodes | backend/app/registry/flow_validator.py:133-149 | accepts exactly when each decision, boundary and fallback node passes the inline contract check |
| FlowValidator.CheckNodeConditions | backend/app/registry/flow_validator.py:151-172 | accepts exactly when the conditions of decision nodes, not of boundary nodes, are valid |
| FlowValidator.CheckEdgeConditions | backend/app/registry/flow_validator.py:174-194 | accepts exactly when all edge conditions are valid |
| FlowValidator.Validate | backend/app/registry/flow_validator.py:34-48 | reports the first broken rule in checking order, or the flow meets all; without allow_cycles an accepted flow has a rank that falls along every declared edge |
| Boundaries.EvaluateAll | backend/app/runtime/boundary_engine.py:66-92 | every active boundary is evaluated in declaration order, or an invalid condition raises |
| Boundaries.StableSort | backend/app/runtime/boundary_engine.py:102 | the sort orders by falling rank and keeps the declaration order within a rank |
| Boundaries.HeadDominates | backend/app/runtime/boundary_engine.py:94-105 | the head of any stable reverse sort is the leftmost triggered boundary of greatest rank |
| Boundaries.DominantAfterInsertion | backend/app/runtime/boundary_engine.py:94-105 | where the dominant boundary is after one more is declared at any position |
| Boundaries.LosingBoundaryChangesNothing | backend/app/runtime/boundary_engine.py:94-108 | a boundary of lower rank, or of equal rank declared later, leaves status, action and selected node as they are, inserted or deleted |
| FlowChanges.LosingBoundaryNodeChangesNothing | backend/app/runtime/boundary_engine.py:66-108 | declaring such a boundary node anywhere in any flow, or deleting it, changes nothing of the evaluated decision but the listed results; under the priority strategy its own id must be new, since a repeated one moves a place in the id table |
| Boundaries.ConfirmedSurvives | backend/app/runtime/boundary_engine.py:124-170 | a confirmed decision stays confirmed exactly when the dominant effect is neither block nor escalate |
| Boundaries.Apply | backend/app/runtime/boundary_engine.py:47-108 | evaluate all, sort, apply the head: the decision as the boundary that decides by the text of its severity leaves it |
| Boundaries.AdjustedIsDecided | backend/app/runtime/boundary_engine.py:26-170 | the first triggered critical boundary decides, failing that the first high one, then medium, then low, then any; block blocks and clears the action, override and redirect put action and id, escalate asks a human at the boundary, anything else changes nothing |
| Evaluation.Resolve | backend/app/runtime/engine.py:365-395 | the candidate that `max` by (priority, -index) finds, or the first match |
| Evaluation.PriorityPicksLeftmostHighest | backend/app/runtime/engine.py:382-392 | with unique ids the priority strategy picks the leftmost candidate of highest priority |
| Evaluation.PriorityIsLeftmostExactlyWhen | backend/app/runtime/engine.py:382-392 | for any nodes, it does so exactly when no rival of the same priority has an earlier place in the id table |
| Evaluation.RepeatedIdsMisleadPriority | backend/app/runtime/engine.py:383-392 | with a repeated id it can pick another: the id table holds the last position |
| Evaluation.GetFallback | backend/app/runtime/engine.py:397-409 | the first active fallback, or none |
| Evaluation.EvaluateDecisions | backend/app/runtime/engine.py:231-256 | matches, records and counters of the loop over active decision nodes |
| Evaluation.AppendBoundaryRecords | backend/app/runtime/engine.py:300-311 | one record per boundary result, with the condition of the boundary table |
| Evaluation.PureEvaluate | backend/app/runtime/engine.py:211-313 | result and records of an evaluation, or why it raises |
| Choices.DecisionMeans | backend/app/runtime/engine.py:211-409 | told by places in the flow: the decision has id and action of the first decision node that holds, or of the first of highest priority, or of the first active fallback, and then the effect of the first boundary of the greatest severity |
| Choices.UndisturbedDecision | backend/app/runtime/engine.py:365-409 | with no boundary triggered, id, action and status are those of that node |
| Choices.CountsMean | backend/app/runtime/engine.py:231-256 | the decision counts the active decision nodes and those that hold |
| Evaluation.OnlyActiveNodesMatter | backend/app/runtime/engine.py:211-313 | for two flows with unique node ids: evaluation depends only on the active decision, boundary and fallback nodes, each kind in order, and the strategy |
| FlowChanges.RepeatedIdsMatter | backend/app/runtime/engine.py:382-392 | without unique ids it does not: a start node that repeats an id hands a tie to the other candidate |
| Evaluation.RaisesExactlyWhen | backend/app/runtime/engine.py:211-270 | when evaluation raises, and which error comes first |
| EvaluationRecords.ResultShape | backend/app/runtime/engine.py:258-313 | the fields of every evaluated decision; it is passed exactly when some decision condition held |
| EvaluationRecords.OnlyIdsAndTimesDiffer | backend/app/runtime/engine.py:4-7 | two evaluations of a signal against a flow give the same records and results that differ in fresh ids and times only, or the same error |
| EvaluationRecords.RecordIds | backend/app/runtime/engine.py:250-311 | one record for each active decision, the chosen fallback and each active boundary, in this order |
| EvaluationRecords.RecordsTell | backend/app/runtime/engine.py:250-311 | each record has id and type of its node and says whether its condition held |
| EvaluationRecords.BoundaryRecordsTellConditions | backend/app/runtime/engine.py:300-311 | with unique ids the record of a boundary has its own condition |
| EvaluationRecords.ConsultedIdsAreDistinct | backend/app/registry/flow_validator.py:60-67 | unique node ids make the record ids pairwise distinct |
| EvaluationRecords.EventCount | backend/app/integrations/runtime_ledger_adapter.py:218-313 | 2 + active decisions + active boundaries + fallback + gate events |
| EvaluationRecords.NewIsNotDuplicate | backend/app/integrations/runtime_ledger_adapter.py:127-134 | a commit with any new event is not reported as a duplicate |
| LedgerClient.LedgerClient.Append | backend/app/integrations/ledger_client.py:62-81 | appends unless the id is known; id set, id index and trace index stay the views of the log |
| LedgerClient.LedgerClient.GetByEventId | backend/app/integrations/ledger_client.py:83-85 | the event of the log with the id, none exactly when no event has it |
| LedgerClient.LedgerClient.GetEventsByTraceId | backend/app/integrations/ledger_client.py:87-89 | the subsequence of the log for the trace |
| LedgerClient.OfTraceConcat | backend/app/integrations/ledger_client.py:76-89 | the trace view distributes over appending |
| PostgresLedger.NextKeepsInv | backend/app/integrations/postgres_ledger_client.py:66-159 | each statement of each transaction keeps the chain invariant and removes no row |
| PostgresLedger.EveryInterleavingKeepsChains | backend/app/integrations/postgres_ledger_client.py:66-159 | under every interleaving and connection failure: rows 1..n per trace, each prev_hash the hash before, unique event ids, rows one to one with committed appends |
| PostgresLedger.EmptyDatabaseIsChained | docs/sql/ledger_events.sql:63-64 | the empty table meets the invariant |
| PostgresLedger.OvertakenAppendFails | backend/app/integrations/postgres_ledger_client.py:77-159 | an append overtaken by another one of the same event after its duplicate check can only fail |
| PostgresVerdicts.InsertAllowedExactlyWhen | backend/app/integrations/postgres_ledger_client.py:107-153 | the constraints let an insert through exactly when its event is new and the number it read is still the next |
| PostgresVerdicts.VerdictsAreExact | backend/app/integrations/postgres_ledger_client.py:66-159 | under every interleaving: a duplicate exactly when the event was committed before the check; rolled back exactly when the connection broke, or the event was committed after the check, or another row of the trace after the number was read; committed exactly otherwise, once it came to the insert |
| PostgresVerdicts.SomebodyProgresses | backend/app/integrations/postgres_ledger_client.py:66-159 | an append that rolls back over a working connection was overtaken by one that committed |
| PostgresVerdicts.OverlappingDuplicateRaises | backend/app/integrations/postgres_ledger_client.py:77-159 | a run in which two appends of one event overlap: the second rolls back although the event is recorded |
| PostgresRetries.MoveKeepsInv | backend/app/integrations/postgres_ledger_client.py:66-159 | each statement of each append and each step of each attempt keeps: the table holds the first events of the batch, no attempt is ahead of it, no begun append skips one |
| PostgresRetries.ConcurrentRetriesConverge | backend/app/integrations/runtime_ledger_adapter.py:98-142 | any number of attempts at one batch at the same time, broken off and begun anew, over interleaved transactions: the rows of the trace are always a hash-linked prefix of the batch in order, and the whole batch once one attempt has had every append return |
| PostgresRetries.UndisturbedAttemptCompletes | backend/app/integrations/runtime_ledger_adapter.py:98-142 | from every such state, an attempt that runs alone from then on gets the whole batch recorded |
| PostgresLedger.LastHashBindsChain | backend/app/integrations/postgres_ledger_client.py:246-267 | chains that end in one hash agree in length and in every hashed field of every row, or exhibit a collision |
| PostgresLedger.CanonicalCovers | backend/app/integrations/postgres_ledger_client.py:246-267 | the hashed record of a row covers these seven fields and no other |
| PostgresLedger.OtherFieldsAreNotBound | backend/app/integrations/postgres_ledger_client.py:257-265 | fields outside the canonical record can be replaced without breaking the chain |
| PostgresLedger.PayloadCanBeReplaced | backend/app/integrations/postgres_ledger_client.py:257-265 | the payload of any row of any chain can be replaced by any other, and all hashes still fit |
| PostgresLedger.SequentialInsertIsAllowed | docs/sql/ledger_events.sql:63-64 | with no overlap the uniqueness constraints never reject an append |
| PostgresLedger.PostgresLedgerClient.Append | backend/app/integrations/postgres_ledger_client.py:66-159 | used sequentially it refines the in-memory ledger: same status, same log |
| PostgresLedger.PostgresLedgerClient.GetByEventId | backend/app/integrations/postgres_ledger_client.py:161-174 | same lookup by id as the in-memory ledger |
| PostgresLedger.PostgresLedgerClient.GetEventsByTraceId | backend/app/integrations/postgres_ledger_client.py:176-189 | ordering by sequence_no gives the per-trace append order |
| LedgerAdapter.KeyTextIsInjective | backend/app/integrations/runtime_ledger_adapter.py:187-294 | distinct steps have distinct key texts, whatever the node ids contain |
| LedgerAdapter.NameTextIsInjective | backend/app/integrations/runtime_ledger_adapter.py:316-318 | distinct (trace, step) pairs have distinct name texts |
| LedgerAdapter.NameTextNames | backend/app/integrations/runtime_ledger_adapter.py:316-318 | the name text is an injective naming, so the premise of the theorems below can be met |
| LedgerAdapter.BuildEvents | backend/app/integrations/runtime_ledger_adapter.py:218-313 | signal, node records in order, gates, outcome |
| LedgerAdapter.AppendEach | backend/app/integrations/runtime_ledger_adapter.py:110-142 | the commit loop: resulting log, counts, ids and status |
| LedgerAdapter.AppendAll | backend/app/integrations/runtime_ledger_adapter.py:115-116 | when the client raises, the appends before that are done and there is no report |
| LedgerAdapter.Commit | backend/app/integrations/runtime_ledger_adapter.py:98-142 | commit builds the events and appends each once, up to where the client raises |
| LedgerAdapter.AppendHumanGateEvent | backend/app/integrations/runtime_ledger_adapter.py:144-208 | the resolution event and its status |
| CommitProperties.AcceptedExactlyWhenNew | backend/app/integrations/runtime_ledger_adapter.py:115-134 | ACCEPTED exactly when all ids are distinct and new; then the log grows by the events in order |
| CommitProperties.RepeatedCommitChangesNothing | backend/app/integrations/runtime_ledger_adapter.py:103-134 | committing events that are all recorded is DUPLICATE and writes nothing |
| CommitProperties.KeysAreDistinct | backend/app/integrations/runtime_ledger_adapter.py:218-313 | the keys of one evaluation clash exactly when node records repeat an id |
| CommitProperties.EventIdsAreDistinct | backend/app/integrations/runtime_ledger_adapter.py:218-318 | so do the event ids |
| CommitProperties.FirstCommit | backend/app/integrations/runtime_ledger_adapter.py:98-142 | the commit of a fresh trace is ACCEPTED exactly when no two records share an id |
| CommitProperties.RetryRunKeepsInv | backend/app/integrations/runtime_ledger_adapter.py:98-142 | the invariant of interrupted and retried commits with foreign appends in between |
| CommitProperties.RetriesConverge | backend/app/integrations/runtime_ledger_adapter.py:98-142 | the trace's log is always a prefix of the batch, the whole batch from the first report on, and later reports are DUPLICATE |
| CommitProperties.ReportSaysWhatWasFound | backend/app/integrations/runtime_ledger_adapter.py:127-134 | a completing attempt reports ACCEPTED, PARTIAL or DUPLICATE by how much was recorded when it began |
| CommitProperties.EvaluationsAreBatches | backend/app/integrations/runtime_ledger_adapter.py:218-318 | evaluations with distinct record ids meet the premises of retry convergence |
| LedgerProjector.Project | backend/app/integrations/ledger_projector.py:48-116 | the fold over the trace's events computes the projection |
| LedgerProjector.OutcomeReadsBack | backend/app/integrations/ledger_projector.py:119-154 | status, outcome, confidence and selected node survive the outcome payload |
| LedgerProjector.OutcomeIsSpelled | backend/app/integrations/runtime_ledger_adapter.py:296-313 | the outcome payload names the decision and spells how it ended |
| LedgerProjector.EventsTell | backend/app/integrations/runtime_ledger_adapter.py:218-313 | which event stands where, with its step type and step id; a node event has the type of its node, a fallback that of an outcome, and the record as payload |
| LedgerProjector.EventsAreOf | backend/app/integrations/runtime_ledger_adapter.py:218-313 | all events of an evaluation name its trace, decision, flow, flow version and schema |
| LedgerProjector.EventTimes | backend/app/integrations/runtime_ledger_adapter.py:218-313 | when each event occurred |
| LedgerProjector.ProjectionExists | backend/app/integrations/ledger_projector.py:48-116 | a trace is unknown exactly when no event is of it; it is completed and has its decision exactly when there is an outcome |
| LedgerProjector.HumanEventsLeaveNoMark | backend/app/integrations/ledger_projector.py:68-91 | gate events do not change the fold |
| LedgerProjector.EvaluationAbsorbs | backend/app/integrations/ledger_projector.py:61-91 | what the events of one evaluation leave in the fold |
| LedgerProjector.ProjectionAgrees | backend/app/integrations/ledger_projector.py:48-154 | projecting a committed trace, with gate resolutions after it, agrees with the trace on all that the ledger records |
| HumanGates.OpeningKeepsInv | backend/app/runtime/human_gate_manager.py:61-91 | opening a gate keeps requests and held decisions in step |
| HumanGates.SettlingKeepsInv | backend/app/runtime/human_gate_manager.py:93-184 | a resolution moves one pending gate and no other, and keeps gate and decision status matching |
| HumanGates.RunKeepsInv | backend/app/runtime/human_gate_manager.py:61-184 | over every run of the manager with any required roles that holds pending decisions only, gate and decision statuses match |
| HumanGates.ResolverHeldRole | backend/app/runtime/human_gate_manager.py:93-220 | over every run with any required roles, a gate that is no longer pending was resolved by a holder of its role and is as that call left it |
| HumanGates.OneCallResolves | backend/app/runtime/human_gate_manager.py:93-211 | at most one call of a run resolves a gate |
| HumanGates.HeldDecisionStands | backend/app/runtime/human_gate_manager.py:61-184 | over every run: the decision under a gate is the one it was opened with, untouched while pending; approved it keeps its action, rejected it has none, and all but state, status, action and time of update is as it was |
| HumanGates.HumanGateManager.CreateRequest | backend/app/runtime/human_gate_manager.py:61-91 | stores the pending request and its decision, of any status, under one key; gate and decision statuses keep matching when only pending decisions are held |
| HumanGates.HumanGateManager.Resolve | backend/app/runtime/human_gate_manager.py:93-220 | approve and reject: which refusal comes when, and then nothing changes; otherwise this gate is answered, its decision confirmed with its action or rejected without one, and no other entry is touched |
| HumanGates.HumanGateManager.GetRequest | backend/app/runtime/human_gate_manager.py:186-204 | the stored request, if any |
| EventBus.EventBus.Publish | backend/app/integrations/event_bus.py:28-30 | appends |
| EventBus.EventBus.GetEvents | backend/app/integrations/event_bus.py:32-59 | the page after the first event with the cursor id, from the start when unknown, limit capped at 1000 |
| EventBus.PagesFollowCursor | backend/app/integrations/event_bus.py:46-59 | a page starts after the first event with the id of the cursor, or at the beginning, and has as many events as asked for, at most 1000 |
| EventBus.OnlyLimitsCapPages | backend/app/integrations/event_bus.py:32-59 | a page with a limit of at least 1 has at most 1000 events; without one exactly when no more than 1000 follow the cursor |
| EventBus.FetchContinues | backend/app/integrations/event_bus.py:46-59 | a fetch continues exactly where the last one ended |
| EventBus.ReaderHoldsPrefix | backend/app/integrations/event_bus.py:32-59 | a reader that follows the cursor holds a prefix of the log whatever is published meanwhile, and gets to the end |
| TraceStore.TraceStore.Save | backend/app/runtime/trace_store.py:34-45 | both indexes after a save |
| TraceStore.SavedIsFound | backend/app/runtime/trace_store.py:34-69 | what is saved is found by its id and by every decision it mentions; everything else is found as before |
| TraceStore.SavingKeepsInv | backend/app/runtime/trace_store.py:34-45 | both indexes stay true to the saved traces |
| TraceStore.TraceStore.Get | backend/app/runtime/trace_store.py:47-56 | the kept trace with this id, none exactly when no trace of the id was saved |
| TraceStore.TraceStore.GetByDecisionId | backend/app/runtime/trace_store.py:58-69 | a trace that mentions the decision, none only when no kept trace does |
| TraceStore.TraceStore.ListRecent | backend/app/runtime/trace_store.py:71-86 | the kept traces that 0, 1, 2, ... kept traces come before, newer before older and else first saved before later, as many as asked for and at most 10000 |
| TraceStore.TraceStore.ListTraces | backend/app/routes/runtime.py:632-645 | the kept traces that `offset` and more come before, at most 1000, and none past the newest 10000 |
| TraceStore.ListsTheNewest | backend/app/runtime/trace_store.py:79-86 | such a list names no trace twice, is in order, and what it leaves out comes after all of it; it leaves nothing out if it is as long as the store |
| TraceStore.NumbersTellOrder | backend/app/runtime/trace_store.py:80-86 | the number of traces before a trace tells its place: the newer first, of equal start times the one saved first |
| TraceStore.PagesShowEachOnce | backend/app/routes/runtime.py:642-645 | pages at 0, L, 2L, ... show each of the newest 10000 kept traces on one page, at one place |
| TraceStore.NewestFirstIsStableSort | backend/app/runtime/trace_store.py:80-86 | falling started_at, ties in order of first save, nothing lost |
| TraceStore.PagesAreExact | backend/app/routes/runtime.py:642-645 | pages at 0, L, 2L, ... concatenate to the newest min(n, 10 000) traces, none twice, none skipped |
| TraceStore.IdempotencyStore.Get | backend/app/runtime/idempotency_store.py:16-18 | the cached result, if any |
| TraceStore.IdempotencyStore.Set | backend/app/runtime/idempotency_store.py:20-22 | stores or overwrites |
| Engine.DecisionRuntimeEngine.OpenGate | backend/app/runtime/engine.py:105-110 | a pending decision opens a gate and carries it |
| Engine.DecisionRuntimeEngine.RecoverPriorResult | backend/app/runtime/engine.py:319-353 | the idempotency store first, then the first event whose decision has a kept trace with a result |
| Engine.DecisionRuntimeEngine.CommitStrictly | backend/app/runtime/engine.py:112-132 | the commit gate: its writes, and whether it raises, lets through, or refuses with which answer |
| Engine.DecisionRuntimeEngine.Dispatch | backend/app/runtime/engine.py:134-160 | a confirmed decision gets its execution id, is announced and handed over |
| Engine.DecisionRuntimeEngine.Close | backend/app/runtime/engine.py:134-179 | after an accepted commit: dispatch, remember, keep, in this order |
| Engine.DecisionRuntimeEngine.CommitAfterwards | backend/app/runtime/engine.py:180-185 | the parallel commit after the trace is kept; a client that raises is swallowed |
| Engine.DecisionRuntimeEngine.Evaluate | backend/app/runtime/engine.py:74-187 | the whole pipeline makes exactly the planned writes on all stores, in the planned order, and gives the planned answer, wherever the ledger client raises |
| Engine.DecisionRuntimeEngine.Simulate | backend/app/runtime/engine.py:189-205 | the same evaluation, and no store is written |
| Routes.Application.Evaluate | backend/app/routes/runtime.py:185-234 | cached answer, 404, 400, 500 also for a raising ledger, or evaluation whose answer is cached under the key |
| Routes.Application.ResolveGate | backend/app/routes/runtime.py:411-551 | 404, 409, 403, or settlement and its ledger event; a raising ledger is 500 in strict mode and swallowed otherwise |
| EndStates.EvaluationLeaves | backend/app/runtime/engine.py:103-187 | either mode, nothing failing: the state of all stores after an evaluation request - gate, ledger events, announcement, cached answer, kept trace - and its answer, each told field by field |
| EndStates.EvaluationResponses | backend/app/routes/runtime.py:200-234 | when an evaluation request is answered 404, 400, 500 or with a decision |
| EndStates.RefusalResponses | backend/app/routes/runtime.py:468-551 | 404, 409 and 403 of a gate action, each with its cause, and nothing changes |
| EndStates.ResolutionResponse | backend/app/routes/runtime.py:411-551 | an accepted gate action: gate and decision settled, its event in the ledger with action and actor, nothing else changed, the resolved decision or 500 as response |
| Safety.EffectKeepsSound | backend/app/runtime/engine.py:103-185 | every single write that meets its condition keeps the invariant of all stores together |
| Safety.SafeWritesKeepSound | backend/app/runtime/engine.py:103-185 | so does every initial part of a sequence of them |
| SafePlans.AcceptedCommitHolds | backend/app/integrations/runtime_ledger_adapter.py:98-142 | after an accepted commit the log of a fresh trace is the whole event sequence and nothing else |
| SafePlans.StrictPlanIsSafe | backend/app/runtime/engine.py:103-187 | each write of a strict evaluation is safe where it comes, with the commit accepted, refused or broken off at any append |
| SafePlans.ParallelPlanIsSafe | backend/app/runtime/engine.py:134-187 | the same without a commit gate |
| SafePlans.ResolvingIsSafe | backend/app/routes/runtime.py:411-462 | settling a gate and recording it are safe, also when the ledger fails in between |
| Runs.HandlingIsSafe | backend/app/routes/runtime.py:185-551 | every request makes safe writes only and ends with everything announced handed over and kept |
| Runs.RunIsSound | backend/app/routes/runtime.py:185-551 | the invariant holds after every run of requests with fresh ids |
| Runs.EveryMomentIsSound | backend/app/runtime/engine.py:103-187 | and after every single write inside the last request |
| Guarantees.NothingRunsUnrecorded | backend/app/runtime/engine.py:112-185 | strict mode, at every moment of every run: all that is announced or handed over is the request of a call that evaluated to a confirmed decision, and the log of its trace is exactly the event sequence of that evaluation, then gate resolutions only; nothing is announced twice |
| Guarantees.ConfirmedRunOnce | backend/app/runtime/engine.py:134-179 | the requested executions are those of the kept confirmed decisions, each once, with the execution id of the kept result |
| Guarantees.ReturnedIsRequested | backend/app/routes/runtime.py:200-234 | every confirmed result that an evaluation request returns, fresh, cached or recovered, has its request on the bus with the same decision id, execution id and action |
| Guarantees.EventIdsOnBusAreDistinct | backend/app/runtime/engine.py:144-157 | event ids on the bus are distinct in every run |
| Guarantees.KeptTracesReplay | backend/app/integrations/ledger_projector.py:48-154 | strict mode: every kept trace can be projected from the ledger and the two copies agree |
| Guarantees.RepeatedCommitRecovers | backend/app/runtime/engine.py:118-122 | committing the evaluation of a kept trace again is DUPLICATE, changes nothing and recovers the kept decision, or the answer cached under the key |
| Guarantees.GateEventLeavesProjection | backend/app/integrations/ledger_projector.py:68-91 | a gate event leaves the projection of a recorded trace as it is |
| Guarantees.HistoryStands | backend/app/runtime/engine.py:103-187 | over any continuation of a run: ledger and bus only grow, kept traces and their projections stay, resolved gates stay as they are |
| Guarantees.OneResolutionPerGate | backend/app/integrations/runtime_ledger_adapter.py:144-208 | in every run the ledger holds at most one resolution event per gate, on its trace, agreeing with gate and decision status |
| Guarantees.EscalatedNeverRuns | backend/app/runtime/engine.py:105-160 | any mode, at every moment of every run: a decision held at a gate is never announced or handed over, neither before nor after it is approved |
| GateAccess.AnyoneResolves | backend/app/runtime/engine.py:105-110 | in every run, in any mode: a resolution is accepted exactly when its gate is known and pending, whatever roles the caller holds |
| GateAccess.NobodyIsForbidden | backend/app/routes/runtime.py:468-551 | no request of any run is answered with 403 |
| Idempotency.FailuresAnnounceNothing | backend/app/routes/runtime.py:222-229 | failed requests and gate actions announce nothing |
| Idempotency.OneAnswerPerKey | backend/app/routes/runtime.py:200-234 | any mode, any outages: after the first answer to an idempotency key every later request with it gets that answer and writes nothing |
| Idempotency.HandlingSaysOnce | backend/app/runtime/engine.py:134-160 | no request announces or hands over more than one execution |
| Idempotency.MessagesGrowBus | backend/app/runtime/engine.py:155-160 | bus and publisher grow by exactly what the writes announce and hand over |
| Idempotency.OneExecutionPerKey | backend/app/routes/runtime.py:200-234 | any mode, any outages: all the requests of a run with one key together announce at most one execution and hand over at most one, also after failed attempts |
| Outcomes.FlowsRaiseExactlyWhen | backend/app/runtime/engine.py:211-313 | any flow raises exactly when an active decision or boundary condition is invalid, or nothing passes and no fallback is active |
| Outcomes.ValidatedFlowsRaiseExactlyWhen | backend/app/registry/flow_validator.py:106-172 | exactly when a flow accepted with or without validated conditions raises |
| Witnesses.InvalidDecisionRaises | backend/app/registry/flow_registry.py:29 | a flow accepted as the registry validates it, with an active fallback, that raises for every signal |
| Witnesses.InvalidBoundaryRaises | backend/app/registry/flow_validator.py:151-172 | a flow accepted with validated conditions whose boundary condition raises for every signal |
| Witnesses.InactiveFallbackRaises | backend/app/registry/flow_validator.py:106-111 | a flow accepted with validated conditions whose inactive fallback raises for every signal |
| Witnesses.NothingParses | backend/app/runtime/condition_evaluator.py:264-299 | the premise of the first two can be met |
| Outcomes.UnacceptedCommitLeavesTheRest | backend/app/runtime/engine.py:112-132 | a commit refused or broken off leaves bus, publisher, trace store and idempotency store as they were |
| Witnesses.RefusedCommitLeavesGate | backend/app/runtime/engine.py:105-132 | a flow with a repeated id and an escalating boundary: its commit is refused, its gate stays pending in the manager, nothing else is written but the ledger |
| Witnesses.OutageLeavesGate | backend/app/runtime/engine.py:105-132 | a flow that the validator accepts: with the ledger raising at the first append the request fails, and all that is left is a pending gate |
| Outcomes.FreshCommitOutcome | backend/app/integrations/runtime_ledger_adapter.py:98-142 | a fresh evaluation's commit is accepted exactly when the consulted nodes have distinct ids, else partial, never duplicate or failed |
| Outcomes.StrictAnswer | backend/app/runtime/engine.py:112-187 | the answer of a strict evaluation with fresh ids, in both cases |
| Outcomes.PartialCommitAnswer | backend/app/runtime/engine.py:112-132 | where consulted ids repeat, the answer is the decision marked as failed, with the message of a partial commit |
| Outcomes.ValidatedFlowsAreAccepted | backend/app/registry/flow_validator.py:60-67 | the ledger accepts every evaluation of a validated flow that does not raise |
| Outcomes.RoutingIsDeterministic | backend/app/runtime/engine.py:4-7 | any two states and draws give the same error or decisions with the same node, status, outcome and action |
| Outcomes.AcceptedEventCount | backend/app/integrations/runtime_ledger_adapter.py:218-313 | how many events an accepted commit adds |

## Left out

- UUIDs: a UUID is any text of 36 characters; other spellings that the UUID parser accepts are not modelled.
- Event ids: the name-based UUID (section 5.5 of RFC 9562) is any injective naming, so collisions of its hash are not modelled.
- Values: NaN, infinities, bytes, ellipsis, sets, and times with and without zone side by side are not values of the model; numbers are reals.
- Python's recursion limit, its parser and the text of error messages.
- Unknown node types and non-integer priorities cannot be written in the model's flow type, so those two checks are left out; the contract check is an attribute of the node.
- Node records whose node_id is not a text, and outcome payloads whose confidence is a text that spells a number: the engine writes neither.
- FlowValidator.CheckContractNodes: takes the outcome of the inline contract check as an attribute of the node, because the check itself is one test for a non-blank type and a version pattern.
- An engine built without gate manager, stores or bus: the routes always supply them. The publisher is a sink that does not raise; Kafka delivery is not part of this model.
- Idempotency.OneExecutionPerKey: does not cover a publisher that raises after the event bus has the event, because the claim is for publishers that do not raise.
- Guarantees.KeptTracesReplay: is stated for strict mode only, because in parallel mode the ledger may miss events of a kept trace.
- Two requests running at the same time on several threads or processes, except for the Postgres table, whose transactions are interleaved statement by statement.
- Derived and constant fields of decisions (contract ids, signals used, canonical payload), explanations, statistics, comparison, metrics, health probes, settings, authentication and the registry: single-pass or plumbing members.
- Redis, Kafka, psycopg2 and YAML loading; the order of PostgresLedgerClient.get_events, which its created_at column does not determine.
