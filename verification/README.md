# A verified model of the GRIEFER detection pipeline

This project models, in Dafny, the part of the GRIEFER security platform that turns
telemetry into judgements, and proves what that part is meant to guarantee.

| module | what it models |
|---|---|
| `Entity`, `GraphView`, `Graph` | typed entities, upserts, and the Security Graph kept as two mirrored indexes |
| `Reach`, `BlastSpec`, `BfsTrace` | what a blast radius is, without an algorithm, and why the breadth-first walk computes it |
| `Normalization` | which events are let in, their canonical form, and the guard on their labels |
| `Projector`, `Inventory` | the two ways entities and edges get into the graph |
| `Findings`, `Risk`, `RiskTheorems`, `Saturation`, `EvidenceCategories` | the risk score and what it may and may not do |
| `Threshold`, `HitHistory` | the truncated sliding-window hit counter behind stateful rules, alone and in whole runs |
| `Incidents`, `Merging`, `Correlation`, `Subjects` | the correlation engine, from rules to saved incidents, and whom an incident is about |
| `EngineRuns`, `GraphRuns`, `Determinism`, `Pipeline` | whole runs: store, project, correlate, with failures |
| `Slices`, `Audit`, `Pages`, `Store`, `Isolation` | the in-memory store, its copies, its listings, and callers that keep and rewrite every record |
| `Policy`, `ActionEvaluation`, `Ledger` | policy verdicts, proposed actions, and their audit trail over whole runs |
| `RateLimit` | the console's login attempt limiter |
| `Revision` | the byte stream that identifies a policy revision |
| `Order`, `Sums`, `Scale` | orders and sorting, finite sums, and the saturating curve |

## How it is modelled

What the program keeps in structs and maps that it updates in place is a class with
those fields: graph nodes, edges and the graph, incidents, audit entries, actions, the
store, the engine, the limiter. In the records the store keeps and hands out, slices, maps
and pointers are references to cells of their own, nested ones included, and a struct copy
shares them: what a deep copy has to replace is replaced one by one. Each method is proved against a function or predicate on
values, and the theorems are about those; a run is a sequence of such steps from the
empty state. `Pipeline.Service.Serve` and `Ledger.Serve` show that the methods, driven by
arbitrary requests, really make such runs, so the run theorems hold of them.

Go maps are ranged over in an arbitrary order (`:|` on the remaining keys), so whatever
is proved does not depend on that order. `sort.Slice` is an unstable sort by a comparison
function; only sortedness and permutation are used.

Time is an integer, with 0 for the zero time. Identifiers are strings; generated ones are
parameters that are only assumed new. Rule matching is any predicate on events. The
policy's answer is any document, or no answer. Failing storage calls are parameters.

`1 - exp(-x)` is any function that is 0 at 0, never falls, and stays in [0, 1) on the
non-negative reals (`Scale.Curve`, inhabited by `x / (1 + x)`); scores are reals, rounded
as `math.Round` rounds non-negative numbers.

## Where the code and its own comments differ

The model follows the code.

- The score comment says 100 is never reached (internal/risk/score.go:10-12). Only the
  value before rounding stays below it. `Saturation.NineReachHundred` reports 100 for one
  certain critical finding in each of the nine categories, on every curve that is at least
  1 - 1/(1 + x + x^2/2 + x^3/6 + x^4/24), as 1 - exp(-x) is; `Saturation.NeverHundredFails`
  exhibits such a curve. `Saturation.HundredExactlyFrom` is the exact condition on the
  weight: 100 from 55 times the point where the curve reaches 0.995 upward (for the
  exponential, 55 times the natural logarithm of 200), and nowhere below.
- Only genuine expansion is said to feed the blast weight (internal/graph/graph.go:296-302),
  but known seeds count as well, each at full weight (`Reach.SeedsCountInFull`). The comment
  holds exactly when no seed is a known entity (`Reach.ExpansionAloneIff`);
  `Reach.LoneSeedCounts` is a graph with one known seed that is the whole estimate.
- The threshold counter has only a lower time bound (internal/correlation/engine.go:159-166),
  so hits later than the current event count too. `Threshold.ExactIffInOrder` says for which
  histories that never matters; `Threshold.OutOfOrderMisses` is a history where it does in the
  other direction.
- `EntityID` followed by `SplitEntityID` is not always the identity: a key that is blank after
  trimming gives an identifier that does not split. `Entity.SplitUndoesEntityID` is the exact
  condition.
- A threshold counter is keyed by the subject, a bar and the rule id (internal/correlation/engine.go:155).
  Rule loading does not forbid a bar in a rule id. Over all events, the counters of two rules
  stay apart exactly when neither id ends with a bar and the other (`HitHistory.CountersApartIff`);
  the theorems about runs ask this of the threshold rules and no more. Where it fails, one
  subject's hit can make another rule fire on another subject's first (`HitHistory.HitKeysCollide`).
- Unattributed events are said never to be merged into someone else's incident
  (internal/correlation/engine.go:176-187). An actor type allows it exactly when, without
  case and up to its first colon, it is "unattributed" (`Subjects.ActorMeetsSourceIff`); the
  types of the event schema do not, so there the promise holds (`Subjects.SchemaSubjects`).
- An event identifier is forgotten when its event is evicted, so a replay is accepted again;
  `Store.MemoryStore.SaveEvent` says exactly when.

## Model

| member | source | states |
|---|---|---|
| Entity.RankGovernsWeight | internal/graph/entity.go:58-80 | the weight and rank scales agree in both directions and only "critical" is at the top, so an upsert that never lowers a rank never lowers a weight or loses a critical asset |
| Entity.SplitUndoesEntityID | internal/graph/entity.go:123-141 | splitting a built identifier gives back the type and the canonical key exactly when something is left of the key after trimming, and otherwise reports it malformed |
| Entity.EntityIDInjective | internal/graph/entity.go:120-127 | two typed keys share a node exactly when type and canonical key agree |
| GraphView.RunGrows | internal/graph/graph.go:45-120 | no run of upserts ever drops an entity or edge, lowers a criticality, a last-seen time or an observed flag, or loses edge evidence |
| GraphView.ReachableGraphsWellFormed | internal/graph/graph.go:87-124 | in every graph built by upserts each edge has two different named ends, first seen no later than last seen, and at most 50 distinct evidence ids |
| Graph.Graph.UpsertEntity | internal/graph/graph.go:39-83 | the graph becomes exactly the old one with this entity merged in, indexes still mirrored, edges untouched |
| Graph.Graph.UpsertEdge | internal/graph/graph.go:87-120 | the graph becomes exactly the old one with this edge recorded, found from both ends; a degenerate edge changes nothing |
| Graph.Graph.NeighbourSteps | internal/graph/graph.go:358-382 | the steps from a node are exactly the edges touching it, one for each direction in which a relation joins it to a neighbour, sorted by neighbour and relation, whatever order the two index maps are ranged over |
| Graph.Graph.EstimateBlastRadius | internal/graph/graph.go:252-356 | the bounded breadth-first walk terminates and returns exactly the blast radius specified without an algorithm: each entity within the hop limit, its shortest distance, the predecessor and relation it came by, order, score, critical count and furthest hop |
| BlastSpec.BlastUnique | internal/graph/graph.go:266-278 | the specification has one answer: seed order, repeated seeds and map iteration order cannot change the list, its provenance or its scores |
| BlastSpec.ListedOnce | internal/graph/graph.go:331-339 | no entity is listed twice |
| BlastSpec.ProvenanceListed | internal/graph/graph.go:308-329 | every non-seed was reached from a listed node one hop nearer, joined to it by the relation named |
| Reach.BallIsWalks | internal/graph/graph.go:252-330 | an entity is within n steps exactly when some walk of at most n undirected steps through known entities leads to it from a seed |
| Reach.SeedsCountInFull | internal/graph/graph.go:285-304 | the blast weight is the expansion beyond the seeds plus every known seed at full weight |
| Reach.ExpansionAloneIff | internal/graph/graph.go:296-302 | only expansion feeds the estimate if and only if no seed is a known entity |
| Reach.LoneSeedCounts | internal/graph/graph.go:296-302 | on a graph of one critical account that is the seed, the weight is 20 and the expansion 0 |
| Reach.BlastRadiusMonotone | internal/graph/graph.go:252-356 | on a grown graph from more seeds, everything reached is still reached in no more hops, and weight, score and critical count never fall |
| Reach.BlastRadiusMonotoneAlongRuns | internal/graph/graph.go:45-120 | the same along any sequence of upserts, weighted sum included |
| BfsTrace.VisitsBall | internal/graph/graph.go:266-329 | when the queue runs empty the visited nodes are exactly those within the hop limit: nothing unreachable, nothing missed |
| BfsTrace.ExactHops | internal/graph/graph.go:285-329 | the hop count at which a node was queued is its shortest distance |
| BfsTrace.ChainIsLeastWalk | internal/graph/graph.go:305-329 | the predecessor chain of a visited node is its shortest walk, and the lexicographically first among the shortest |
| Normalization.Normalize | internal/events/normalize.go:46-111 | exactly the events timed within the window are let in, each other is refused for the first reason that applies, and what is let in has its canonical form and its reserved labels reported in order |
| Normalization.Sanitize | internal/events/guard.go:56-76 | exactly the reserved labels are removed, whatever order the map is ranged over, and listed strictly ascending |
| Normalization.NormalizingTwice | internal/events/normalize.go:57-111 | normalizing a normalized event changes nothing |
| Normalization.GuardIsCaseBlind | internal/events/guard.go:48-89 | no spelling of a reserved key passes the guard in another case, and every other label passes unchanged |
| Normalization.GuardKeepsRelation | internal/graph/projector.go:117-144 | normalization never changes whether the graph records access or an attempt |
| Projector.Project | internal/graph/projector.go:13-112 | projecting an event makes exactly the upserts of its actor, network, device, session, target and cloud parts, in that order |
| Projector.ProjectionProgress | internal/graph/projector.go:13-112 | projection loses nothing, leaves no edge without both ends, keeps the graph well formed, and afterwards every identifier the event refers to is an entity |
| Projector.EntityIDsForEvent | internal/graph/projector.go:199-257 | the identifiers are distinct, never blank, and exactly those of the actor and session, network, device, target and cloud resource the event names |
| Inventory.ApplyInventory | internal/graph/inventory.go:49-82 | the first offending entity or edge is the one reported, and exactly what precedes it has been merged |
| Inventory.InventoryProgress | internal/graph/inventory.go:52-82 | an inventory, also one refused halfway, only adds to the graph and never leaves an edge to an undeclared entity |
| Risk.Assess | internal/risk/score.go:80-139 | the loops over findings and over the category map compute the score defined by per-category maxima, counts and a sum over the set of categories, whatever order the map is ranged over |
| Risk.AggregateConfidence | internal/risk/score.go:157-176 | the loop computes the noisy-or of each category's best confidence, capped and rounded, in any order |
| Risk.SeverityFollowsScore | internal/risk/score.go:141-155 | severity never falls as the score rises |
| RiskTheorems.AssessMonotone | internal/risk/score.go:4-12 | adding findings, raising a severity or confidence, a larger blast score or a critical asset never lowers score, severity, confidence or category count, all within range |
| RiskTheorems.AddingFindings | internal/risk/score.go:4-12 | adding findings anywhere in the list never lowers score or confidence |
| RiskTheorems.OrderFree | internal/risk/score.go:80-139 | permuting the findings changes nothing reported |
| RiskTheorems.AssessInRange | internal/risk/score.go:125-139 | every score is within 0 and 100 and every confidence within 0 and 0.95 |
| RiskTheorems.ReachesHundred | internal/risk/score.go:125-131 | the reported score is 100 exactly when the curve reaches 0.995 at the weight over 55, while the unrounded value always stays below 100 |
| RiskTheorems.AllNineReportHundred | internal/risk/score.go:10-12 | one certain critical finding in each of nine categories weighs exactly 439.2 |
| Saturation.NineReachHundred | internal/risk/score.go:10-12 | that input reports 100 on every curve no lower than the exponential bound, so the declared requirement fails |
| Saturation.NeverHundredFails | internal/risk/score.go:10-12 | a saturating curve and that input, with a reported score of 100 |
| Saturation.HundredExactlyFrom | internal/risk/score.go:125-131 | an input reports 100 if and only if its raw weight is at least 55 times the point from which the curve is at 0.995 or above |
| Saturation.HyperbolaStartsAt199 | internal/risk/score.go:125-131 | a saturating curve with such a point, at 199 |
| Saturation.HundredFrom396 | internal/risk/score.go:125-131 | on every curve no lower than the exponential bound, a raw weight of 396 or more reports 100 |
| RiskTheorems.RepetitionBounded | internal/risk/score.go:178-186 | however often one category repeats it contributes less than one and a half times its strongest finding, and confidence stays that of the most confident one |
| RiskTheorems.CorroborationWins | internal/risk/score.go:93-131 | two categories of at least that strength never score lower than one category repeated, under the same blast inputs |
| EvidenceCategories.SortCategories | internal/incidents/model.go:124-130 | the in-place insertion sort sorts and permutes |
| EvidenceCategories.DistinctCategories | internal/incidents/model.go:110-122 | the list holds exactly the finding categories, strictly ascending |
| EvidenceCategories.CategoryCountAgrees | internal/incidents/model.go:110-122 | its length is the category count risk scoring reports |
| Threshold.RecordHit | internal/correlation/engine.go:152-174 | compacting in place and cutting to the rule's count leaves exactly the newest hits not before the cutoff |
| Threshold.StoredIsSuffix | internal/correlation/engine.go:152-174 | for arrivals in order, what is stored is the suffix of the whole history that is both in the window and among the last count |
| Threshold.ExactInOrder | internal/correlation/engine.go:152-174 | for arrivals in order, the truncated counter fires exactly when the full history has enough hits in the window |
| Threshold.SoundInAnyOrder | internal/correlation/engine.go:152-174 | in any order, at most count hits are stored, and firing still means count recorded hits not before the cutoff |
| Threshold.ExactIffInOrder | internal/correlation/engine.go:152-174 | a history is counted exactly at every prefix under every valid threshold if and only if its times never descend |
| Threshold.DescentBreaksExactness | internal/correlation/engine.go:159-166 | every descent in a history has a valid threshold that fires there although too few hits lie in its window |
| Threshold.OutOfOrderMisses | internal/correlation/engine.go:167-173 | a history on which the counter stays silent although enough hits lie in the window |
| Merging.MergeFinding | internal/correlation/engine.go:237-268 | the first finding of the same rule absorbs the new one, or it is appended; nothing else of the incident changes |
| Merging.MergedAllKeeps | internal/correlation/engine.go:237-268 | merging never yields two findings of one rule, and every earlier finding lives on with at least its events, entities and span |
| Merging.MergedAllOK | internal/correlation/engine.go:25-31 | findings keep distinct event ids, at most 100, all accepted, within the incident's span |
| Merging.AccumulatesCovers | internal/correlation/engine.go:237-268 | accumulated findings dominate the earlier ones in the sense the score is monotone in |
| Correlation.Engine.ThresholdMet | internal/correlation/engine.go:152-174 | only the counter kept under this subject and rule changes, to the compacted hits, and the answer is whether they reach the count |
| HitHistory.HitKeyInjective | internal/correlation/engine.go:155 | the counters of two rules, neither of whose ids is the other behind a bar, are the same exactly when subject and rule are |
| HitHistory.CountersApartIff | internal/correlation/engine.go:152-157 | over all events, two rules never share a counter across subjects or ids if and only if neither id ends with a bar and the other |
| HitHistory.SharedCounterFires | internal/correlation/engine.go:152-174 | where the keys of two rules meet, a hit of one subject and rule makes the other rule fire on the first hit of another subject, which alone it would not |
| HitHistory.HitKeysCollide | internal/correlation/engine.go:122-187 | two accounts and two loadable rules with one hit each, on which that happens |
| HitHistory.HitsAreHistory | internal/correlation/engine.go:122-174 | along every run, with other subjects, failing calls and failing saves in between, a counter holds what the threshold machine stores of the whole history of its subject and rule |
| HitHistory.FindingRestsOnHits | internal/correlation/engine.go:122-174 | in every run a threshold rule fires on an event exactly when it matches and its hits so far meet the threshold; it then rests on that many recorded hits of its own, none older than the window, and in time order on the ideal count |
| Subjects.SubjectsAreIdentities | internal/correlation/engine.go:176-187 | with no colon in the types and no actor type that passes for a missing one, two events have the same subject exactly when they have the same identity without regard to case, or both have none and come from the same source |
| Subjects.SchemaSubjects | internal/correlation/engine.go:176-187 | that holds of all events with the schema's types: an unattributed event never shares a subject with an identity or another source |
| Subjects.ActorMeetsSourceIff | internal/correlation/engine.go:176-187 | some actor of a type shares a subject with some unattributed source if and only if the type, without case and up to its first colon, is "unattributed" |
| Subjects.SourcesApartIff | internal/correlation/engine.go:176-187 | sources of two types never share a subject if and only if neither type is the other cut at a colon |
| Subjects.ActorsApartIff | internal/events/event.go:154-161 | actors of two types never share a subject, but for case, if and only if neither type is the other cut at a colon, again but for case |
| Correlation.Engine.EvaluateRules | internal/correlation/engine.go:122-150 | the findings and counters are those of running every matching rule in order |
| Correlation.Engine.Recompute | internal/correlation/engine.go:270-330 | blast radius, score, severity and confidence are exactly those of the sorted findings on the current graph, and evidence gains the event unless present or full |
| Correlation.Engine.MergeIntoIncident | internal/correlation/engine.go:190-235 | the event goes to the subject's open, unexpired, retrievable, unclosed incident or to a new one; routing and store change together, or not at all when saving fails |
| Correlation.Engine.Process | internal/correlation/engine.go:107-120 | one call is one step of the run model: new counters, and either nothing else or one saved incident |
| EngineRuns.StepKeeps | internal/correlation/engine.go:190-330 | any ingest step, other graph writer or lifecycle change keeps every incident in order and bounded by what its findings score on the current graph, and leaves no saved incident less serious |
| EngineRuns.ReachableWorlds | internal/correlation/engine.go:190-373 | in every reachable state each incident has at most one finding per rule, bounded distinct event ids that were accepted by the store, strictly ordered evidence, a span covering its findings, and each subject's open incident is its own |
| EngineRuns.RiskNeverFalls | internal/risk/score.go:4-12 | along every run, whatever is interleaved and whichever saves fail, a later version of an incident never has a lower risk score, confidence, severity, blast score or critical count, and keeps its subject, findings and evidence |
| EngineRuns.SupersededIsFinal | internal/correlation/engine.go:190-235 | once its subject has moved on to another incident no event ever changes an incident again |
| EngineRuns.RoutingIsHistory | internal/correlation/engine.go:230-232 | a subject is routed to the incident its last saved event produced, as of that event's time |
| EngineRuns.AbsorbedWithinWindow | internal/correlation/engine.go:190-202 | an event changes a saved incident only if it is the one its subject's last save produced, within the window of that save, the store answered and it was not closed |
| Determinism.ScoreIsPure | internal/correlation/engine.go:270-273 | two incidents with the same findings in any order, derived on the same graph, have the same score, severity, confidence and blast radius |
| Determinism.TakesOnce | internal/correlation/engine.go:270-330 | from a reachable state a step on given inputs has one outcome: the same state, and the same incident whenever one is built |
| GraphRuns.RunsStayGrounded | internal/graph/projector.go:13-112 | in every reachable state of a run whose other graph writes are inventory loads, no edge dangles, the graph is well formed, and every entity a saved finding names is in it |
| Pipeline.Service.Ingest | internal/api/service.go:155-247 | exactly the events timed outside the window are refused; the canonical form of any other is stored before anything else is tried; a refused or unstored event changes nothing, a stored one is projected and then correlated or not, as one step of the run model |
| Pipeline.Service.Serve | internal/api/service.go:136-259 | serving any requests in order, inventories and calls that fail after some of their rules included, is a run of the model ending in the state the service is in, with a closed, well-formed graph that knows every entity a saved finding names |
| Store.MemoryStore.SaveEvent | internal/storage/memory.go:55-86 | the events held are the newest of those accepted, the id set exactly theirs and distinct; an id still held is a no-op, a blank one an error |
| Store.MemoryStore.ListEvents | internal/storage/memory.go:88-115 | a page is the requested stretch of the events newest first, with the full total |
| Store.MemoryStore.SaveIncident | internal/storage/memory.go:124-137 | the incident's value is stored under its id in records of the store's own, nested slices included; a blank id is an error that changes nothing |
| Store.MemoryStore.GetIncident | internal/storage/memory.go:139-148 | a record saying what is held, new down to its innermost slices, or none |
| Incidents.Incident.DeepCopy | internal/storage/memory.go:364-383 | the copy says the same and shares nothing: findings, the id slices inside each, evidence and reachable entities are all new |
| Audit.Action.DeepCopy | internal/storage/memory.go:385-405 | the copy says the same and shares nothing: decision, its reasons, effect, its entities and execution time are all new |
| Store.MemoryStore.ListIncidents | internal/storage/memory.go:150-193 | a page of new records, sharing nothing with each other or anyone, from the one listing of the incidents that match, with the full total |
| Store.IncidentListingUnique | internal/storage/memory.go:166-176 | most recently active first and then by id leaves only one order |
| Store.MemoryStore.SaveActionWithAudit | internal/storage/memory.go:214-243 | the action and all its entries are written, numbered on from the log's length, or nothing is; creation order and the numbers the caller's entries get are exact; it fails exactly for a nil entry or a blank id |
| Store.MemoryStore.Append | internal/storage/memory.go:291-310 | the log is extended by one copy numbered one more than its length, and the caller's entry gets that number |
| Store.MemoryStore.GetAction | internal/storage/memory.go:245-254 | a record saying what is held, new down to its innermost slices, or none |
| Store.MemoryStore.ListActions | internal/storage/memory.go:256-289 | a page of new records, sharing nothing with each other or anyone, of one incident's actions or of all, newest first |
| Store.MemoryStore.List | internal/storage/memory.go:337-362 | a page of new records of the audit log in insertion order |
| Pages.PagesTile | internal/storage/store.go:50-60 | stepping the offset by the clamped limit, the concatenated pages are a prefix of the listing and in the end all of it, each record once |
| Isolation.Interleave | internal/storage/memory.go:124-405 | for any script of store calls, listings included, in which the caller keeps every entry, incident and action it made, passed in or got back and rewrites any of them through every slice, map and pointer between any two calls, the store and all those records are exactly where value semantics says |
| Isolation.StepsOnce | internal/storage/memory.go:150-193 | that value semantics has one outcome for each script |
| Isolation.OnlySavesWrite | internal/audit/audit.go:99-107 | along any such script the audit log only extends, and what is stored changes through saves and appends alone |
| Policy.DecisionIffWellFormed | internal/policy/kernel.go:116-154 | exactly the documents with a known effect, a consistent allow flag and a reason become decisions, unchanged |
| Policy.KernelIsSafe | internal/policy/embedded.go:100-131 | a decision allows only for a well-formed allow, and anything going wrong is a fail-closed deny with a reason |
| ActionEvaluation.Evaluator.ApplyDecision | internal/api/service.go:533-565 | the action becomes what the decision makes of it; an effect is computed only for an allow in simulate mode |
| ActionEvaluation.Evaluator.PersistEvaluation | internal/api/service.go:500-531 | the action and every prepared entry are written as one unit, or nothing when the store fails |
| ActionEvaluation.Evaluator.EvaluateAction | internal/api/service.go:303-477 | one evaluation stores and answers what the specification says for each path: unknown action, bad mode, incident missing or unreadable, and judged |
| Ledger.SimulatedIff | internal/api/service.go:354-456 | an action ends up simulated exactly when it is in the catalog, asks for simulation, names a known incident, and the policy document is a well-formed allow |
| Ledger.AppliedSound | internal/api/service.go:533-565 | a consistent decision simulates only in simulate mode, denies whenever it failed closed, and never executes |
| Ledger.EveryPathLeavesATrace | internal/api/service.go:307-311 | every evaluation that reaches the store leaves an audit entry about its action, also when it was refused or its incident does not exist; one that does not reach it leaves nothing |
| Ledger.LedgerAgrees | internal/api/service.go:354-477 | in every reachable state, for any policy answers and failing writes, a stored rejected action has exactly one response.rejected entry, every other exactly two adjacent entries with equal result and the verb for its status, the result is "allowed" iff simulated, a fail-closed decision is denied and recorded as unavailable or timed out, nothing is ever executed, and sequence numbers are dense |
| Ledger.NothingIsRewritten | internal/audit/audit.go:99-107 | along every run a stored action keeps its decision and the log only grows |
| Ledger.RecordAudit | internal/api/service.go:269-282 | an entry from elsewhere is appended exactly when it has an action and an outcome and the write succeeds |
| Ledger.Serve | internal/api/service.go:303-477 | evaluating proposals and recording other entries in any order on an empty store is a run of the ledger model |
| RateLimit.Limiter.Sweep | console/lib/ratelimit.ts:28-34 | exactly the records past both their block and their window are deleted |
| RateLimit.Limiter.BlockedFor | console/lib/ratelimit.ts:36-41 | the remaining block in seconds, rounded up, and 0 exactly when the caller may try |
| RateLimit.Limiter.RecordFailure | console/lib/ratelimit.ts:43-59 | the table after a failure: swept, dropped when full, restarted when the window has passed, blocked at the eighth |
| RateLimit.FifteenPerWindow | console/lib/ratelimit.ts:18-59 | when each failure of a key is recorded only while it is not blocked, no half-open window of fifteen minutes holds more than fifteen of them |
| RateLimit.FifteenAttained | console/lib/ratelimit.ts:18-59 | a run in which a window holds fifteen, so the bound is exact |
| RateLimit.FailureKeepsBlocks | console/lib/ratelimit.ts:28-59 | neither a failure of any key nor the sweep it triggers shortens any block |
| RateLimit.RunConsistent | console/lib/ratelimit.ts:43-59 | in every run a block end is either 0 or a full block after the record's first failure |
| RateLimit.BlocksRunTheirCourse | console/lib/ratelimit.ts:28-64 | whatever happens afterwards short of that key succeeding, at no later instant is less of a block left |
| Revision.Revision | policies/policies.go:56-93 | the bytes hashed are the encoding of the non-test sources in path order, whatever order the walk visits them in; unavailable exactly when the walk or a read fails |
| Revision.DecodeUndoesEncode | policies/policies.go:74-91 | a decoder recovers the path and content list from the stream |
| Revision.EncodeInjective | policies/policies.go:74-91 | different lists give different streams |
| Revision.StreamIdentifiesSources | policies/policies.go:47-91 | two trees hash the same bytes exactly when their policy sources agree, path by path and byte by byte |

## Left out

- Floating-point rounding: scores are reals; summation order over Go maps could move the last bit, which the model does not see.
- The exponential: only the properties of `1 - exp(-x)` listed above and, in `Saturation`, its polynomial lower bound are used, so scores in between are not computed.
- Concurrent calls: engine runs are sequential, because the store is read and written outside the engine's lock; mutexes, metrics and logging are not modelled.
- Slices outside the records of the store: graph nodes and edges, events, rules and the engine's intermediate lists are values, so sharing among those is not modelled (a finding's entity ids, for one, are a single slice for all findings of an event until the incident is saved).
- Entity.SplitUndoesEntityID: trimming and lower-casing cover ASCII, because Unicode case and space tables are not modelled.
- Entity.EntityIDInjective: the canonical key is the ASCII one, for the same reason.
- Correlation.Engine.Recompute: entity references, techniques, recommended actions and the title are not rebuilt, because incidents here do not carry them.
- Incidents.Incident.DeepCopy: the copies of entity references, techniques and recommended actions, for the same reason.
- Pipeline.Service.Ingest: decoding, publishing and the audit entries of ingestion are not modelled, because a run is about what is stored, charted and correlated.
- Pipeline.Service.Serve: the same audit entries and the event bus.
- Normalization.Normalize: trimming and the change of case cover ASCII, the event is a value and not updated in place, and the fields the rest of the model does not read (event type, schema version, receipt time, correlation id, destination address, the quarantined keys it reports) are left out of the event.
- ActionEvaluation.Evaluator.EvaluateAction: the target, the entities affected and the policy's answer are parameters, so the policy input is not built; numeric audit details are not rendered.
- Stored events: they are values, so a caller mutating the labels of an event it stored is not modelled.
- Time zones, wrap-around of durations and clocks that run differently within one call: one instant per call.
- Rule loading, field extraction and matching: a rule is any predicate on events. Schema validation is not modelled.
- The Rego policy, both engines' transport and JSON: the verdict is any document or no answer.
- Titles, descriptions, techniques, recommended actions, entity references, finding ids, evidence summaries and blast-radius summaries of incidents: presentation.
- Quoting of special characters in the reasons of refused actions.
- Neighbours, Entities, Size and CountEvents: simple listings of what the graph and the store hold.
- SaveAction on its own: nothing calls it; `Store.MemoryStore.SaveActionWithAudit` covers the write.
- The PostgreSQL store, the event bus, HTTP handlers, configuration, the console's pages and sessions, and the hash function applied to the revision stream.
- The gap between the login route's block check and the recorded failure: the bound is for the check and the record as one step.
