# MemXplore memory store: a verified model

MemXplore keeps agent memory in SQLite. A memory is a chain of immutable versions, each with
a valid-time and a system-time interval. Versions are derived from other versions, and a
lexical and an embedding index follow the version table. A durable job queue and a worker
form memories from observations. Subjects are exported and imported as bundles. Recall fuses
two candidate lists and selects under a token budget.

This project models those parts in Dafny and proves what they keep.

| files | what they hold |
| --- | --- |
| `Ordering`, `Ids`, `Graph`, `Domain` | sorted listings, ids, reachability and acyclicity, scopes, payloads and the flow rule |
| `Database`, `Captures` | the tables as one snapshot, the store object that holds them, storing observations and episodes |
| `Lifecycle`, `Purge`, `Working`, `Embeddings`, `Recall` | the store's transactions and the recall filter |
| `ApplyEffects`, `StoreEffects`, `RecallRules`, `RunEffects` | when each transaction is accepted and what it stores, and the filter's rules, in plain terms |
| `GraphInvariant`, `ChainInvariant`, `IndexInvariant`, `TaskInvariant`, `OpenInvariant`, `ContentInvariant`, `MutationShape`, `Authorship`, `SchemaInvariant` | what each transaction keeps |
| `Runs`, `Supersession`, `LostHistory`, `PurgeProofs` | every run of the store; what a supersede step and a purge do |
| `CycleCheck`, `Bundles`, `BundleDefects`, `Canonical` | the bundle checker, the defects it refuses, and the sorted form |
| `Portable`, `PortableExport`, `PortableProofs`, `ExportSuccess`, `ImportEffects`, `PortableRuns` | export, import, the round trip, and when they succeed |
| `Jobs`, `JobRuns` | the leased queue, and every run of it |
| `Formation`, `Worker`, `ExactlyOnce`, `Attempts`, `FormationSuccess`, `FormationRuns`, `Daemon` | formation, the worker protocol, exactly-once effects, one attempt and when it succeeds, the worker loop |
| `Ranking`, `Selection` | fusion ranking, greedy selection, the trace validator, grouping |

Each SQL transaction is a method on the store object. It is proved against a function of the
tables before it, and the lemmas are about those functions: what they keep, when they accept,
and what they leave, said without them. A refused transaction leaves the tables as they were. `WITH RECURSIVE` queries are work-list loops proved equal to
reachability. `Runs` folds the same functions over any list of steps from empty tables, and
`Worker` over any interleaving of attempts. `Daemon` shows that the worker loop is such an
interleaving.

What the model takes as given:

- Times are integers. `formatTime` (internal/adapters/sqlite/records.go:133-135) drops
  trailing zeros of the fraction, so SQL's text order is time order only for stamps of equal
  fraction width (section 5.1 of RFC 3339). The model assumes that.
- Hashed ids (`lifecycleID`, `deterministicID`) are constructors applied to what is hashed, so
  they are injective. Ids are compared by one fixed total order.
- A transaction is atomic, and two transactions run one after the other.
- Scores are reals, embedding coordinates whole multiples of 2^-149, texts sequences of
  characters, and a candidate carries its text already in lower case with its spaces collapsed.
- The embedding provider, the clock and the choice of the next action are inputs.

Where the code differs from what is written about it, the model follows the code:

- docs/lifecycle.md calls archive and forget reversible by policy. No step makes a memory
  active again: in any run it stays as it is until a purge removes it
  (`Runs.InactiveUntilPurged`), and in runs without imports it does not return after that
  either (`Runs.NeverRecalledAgain`).
- docs/lifecycle.md promises that a superseded version can still be recovered at its own
  times. That holds exactly when the head was current and the new start does not fall inside
  its valid interval (`Supersession.PastKeptIff`). A stale version is hidden at all times, and
  superseding it makes it visible again (`Supersession.StaleHeadReappears`). Both failing cases
  are reached (`LostHistory`). Of the whole store, history is kept exactly when besides no
  current version is hidden by the step (`Supersession.HistoryKeptIff`).
- internal/daemon/formation.go:100 speaks of three attempts. Only reported failures are
  limited. Attempts exceed the limit exactly when a running job that had used it up is taken
  over after its lease expired (`JobRuns.AttemptsExceedIff`), which crashes can repeat without
  bound (`JobRuns.AttemptsUnbounded`).
- internal/adapters/sqlite/jobs.go:108 speaks of the current lease owner. A lease is held by a
  worker name, and every worker of internal/daemon/formation.go:80 has the same one
  (`JobRuns.FencedByName`, `JobRuns.SharedNameIsNotFenced`).

Three further findings about the code:

- The export of a native run succeeds exactly when what is shown refers only to what is stored
  and shown, and no shown working set was last written before it was made
  (`PortableRuns.ExportSucceedsInRuns`). The recall switch
  (internal/adapters/sqlite/working.go:37-53) takes any time, so an early one blocks exports.
- A purge, in either mode, blocks later exports of the subject exactly when a shown version that
  stays has a parent in a deleted memory (`PortableRuns.PurgeKeepsExportIff`).
- Lexical ranking gives a version that is only in the semantic list rank 0, so that it would be
  worth `1 / k`, more than the first lexical hit (internal/application/retrieval.go:410-411).
  `Ranking.LexicalMonotone` counts ranks so; callers pass no semantic list in that mode.

## Model

| member | source | states |
|---|---|---|
| Graph.Closure | internal/adapters/sqlite/purge.go:119-160 | A recursive query's work list holds the seeds and exactly what is reachable from them. |
| Graph.Descendants | internal/adapters/sqlite/lifecycle.go:377-390 | The recursive query from one version collects exactly its strict descendants. |
| Graph.FreshSink | internal/adapters/sqlite/lifecycle.go:286-291 | Edges into a fresh version add no cycle, reach nothing from it, and leave reachability between old versions as it was. |
| Graph.AcyclicUnion | internal/adapters/sqlite/portable.go:425-432 | Two acyclic graphs on separate versions stay acyclic together. |
| Domain.FlowChecksAgree | internal/adapters/sqlite/lifecycle.go:318-329 | The store's sequence of refusals and the bundle checker's rule accept the same pairs of scopes. |
| Domain.FlowTransitive | internal/application/portable.go:246-260 | Allowed flows compose. |
| Domain.TextParts | internal/application/formation_job.go:29-40 | The indexed text holds claim and statement, or goal and progress, whole and in order, or the lesson. |
| Database.Store.Commit | internal/adapters/sqlite/lifecycle.go:78-80 | A committed transaction's tables become the store's tables. |
| Lifecycle.CheckDependencies | internal/adapters/sqlite/lifecycle.go:300-348 | Accepts exactly the distinct, existing, flow-allowed parents that are neither the target version nor derived from it. |
| Lifecycle.LoadCurrent | internal/adapters/sqlite/lifecycle.go:428-439 | Finds the version whose number is the memory's current one, if any. |
| Lifecycle.MarkDescendantsStale | internal/adapters/sqlite/lifecycle.go:377-390 | Turns exactly the current strict descendants stale. |
| Lifecycle.InsertVersionRows | internal/adapters/sqlite/lifecycle.go:266-298 | Adds the version row, one edge for each parent, and one index row with the payload's text. |
| Lifecycle.RunCreate | internal/adapters/sqlite/lifecycle.go:84-122 | A create with each of its refusals, in the code's order. |
| Lifecycle.RunEvolution | internal/adapters/sqlite/lifecycle.go:124-193 | An update or consolidation: refusals, close, stale marking, insert, advance. |
| Lifecycle.RunConflict | internal/adapters/sqlite/lifecycle.go:195-225 | A conflicting sibling memory under the group of the current head. |
| Lifecycle.RunState | internal/adapters/sqlite/lifecycle.go:227-264 | Archive and forget, with the index removal of forget. |
| Lifecycle.ApplyProposal | internal/adapters/sqlite/lifecycle.go:32-82 | One application: the whole new tables and answer, or an error and the old tables; a logged proposal is answered without writing. |
| ApplyEffects.CreateAcceptedIff | internal/adapters/sqlite/lifecycle.go:84-122 | A new create is accepted if and only if it is addressed, authorized, well-formed and grounded in stored references, its parents may flow to it, and its ids are free. |
| ApplyEffects.CreateStores | internal/adapters/sqlite/lifecycle.go:98-121 | An accepted create stores the scope, function, payload, provenance, parents and valid time it asked for, as version one of an active memory, and leaves every other row as it was. |
| ApplyEffects.EvolutionAcceptedIff | internal/adapters/sqlite/lifecycle.go:124-193 | A new update or consolidation is accepted if and only if its target has a head that may be written, and payload, parents, group, time and ids are in order. |
| ApplyEffects.EvolutionStores | internal/adapters/sqlite/lifecycle.go:175-192 | An accepted supersede or rebuild stores its own payload, provenance, parents and valid time under the next number, names exactly the old head, and moves only the target. |
| ApplyEffects.ConflictStores | internal/adapters/sqlite/lifecycle.go:195-225 | An accepted conflict stores what it asked for as version one of a sibling with the target's scope and function, under one group with the target's head. |
| ApplyEffects.StateAcceptedIff | internal/adapters/sqlite/lifecycle.go:227-243 | A new archive or forget is accepted if and only if its body is empty and its target has a head it may write. |
| ApplyEffects.ArchiveStores | internal/adapters/sqlite/lifecycle.go:238-250 | An accepted archive leaves the memory and its head archived and keeps both indexes. |
| ApplyEffects.ForgetStores | internal/adapters/sqlite/lifecycle.go:251-260 | An accepted forget leaves them forgotten and drops exactly the memory's index rows and embeddings. |
| ApplyEffects.OperationLogged | internal/adapters/sqlite/lifecycle.go:70-76 | The operation is logged with the action, actor, written memory, proposal and time. |
| ApplyEffects.AnsweredInScope | internal/adapters/sqlite/lifecycle.go:350-356 | Whatever is answered, written or replayed, lies in the caller's namespace, owner and subject. |
| ApplyEffects.ReplayAnsweredIff | internal/adapters/sqlite/lifecycle.go:44-51 | A logged proposal is answered if and only if its target still has a head in the caller's scope. |
| GraphInvariant.GraphApply | internal/adapters/sqlite/lifecycle.go:286-348 | Applying any proposal keeps the graph acyclic, among existing versions and within the flow rule. |
| GraphInvariant.GraphPurge | internal/adapters/sqlite/purge.go:65-117 | So does a purge in either mode. |
| GraphInvariant.AncestorsMayFlow | internal/application/portable.go:246-260 | Under the invariant an ancestor may flow to a descendant at any distance. |
| ChainInvariant.ChainApply | internal/adapters/sqlite/lifecycle.go:84-264 | Applying any proposal keeps every chain whole: numbers 1 to current without gap or repeat, system times end to end and increasing, states agreeing with the memory's. |
| ChainInvariant.ChainPurge | internal/adapters/sqlite/purge.go:65-117 | A purge keeps chains whole. |
| ChainInvariant.ChainExpire | internal/adapters/sqlite/working.go:83-102 | The expiry sweep keeps chains whole. |
| ChainInvariant.IntervalsOrdered | internal/adapters/sqlite/lifecycle.go:157-189 | In one chain an earlier version's system time has ended when a later one's begins, however far apart they are. |
| ChainInvariant.OneVersionInForce | internal/adapters/sqlite/retrieval.go:94-97 | At one system time at most one version of a memory is in force. |
| IndexInvariant.IndexApply | internal/adapters/sqlite/lifecycle.go:245-297 | Applying any proposal keeps both indexes in agreement with the versions. |
| IndexInvariant.IndexPurge | internal/adapters/sqlite/purge.go:87-96 | So does a purge. |
| IndexInvariant.IndexPutEmbedding | internal/adapters/sqlite/embeddings.go:16-55 | So does storing an embedding. |
| IndexInvariant.SearchableHasOneRow | internal/adapters/sqlite/lifecycle.go:292-297 | A version of an active memory, unless forgotten itself, has exactly one index row, with its text. |
| IndexInvariant.ForgottenIsUnindexed | internal/adapters/sqlite/lifecycle.go:251-260 | A forgotten memory has no index row and no embedding. |
| IndexInvariant.EmbeddingMatchesVersion | internal/adapters/sqlite/embeddings.go:20-50 | An embedding belongs to a stored version of a memory that is not forgotten, and was computed from its text. |
| Embeddings.IndexedContent | internal/adapters/sqlite/embeddings.go:20-27 | Finds the text of the first index row of a version. |
| Embeddings.SquaredNorm | internal/adapters/sqlite/embeddings.go:28-39 | The sum of squares is zero exactly for the zero vector. |
| Embeddings.Put | internal/adapters/sqlite/embeddings.go:16-55 | Stores an embedding exactly when it is complete, indexed, of the indexed text and not zero. |
| Captures.StoreEpisode | internal/adapters/sqlite/experiential.go:13-63 | An episode and its outcomes are stored together or not at all. |
| WorkingSets.StoreWorkingSet | internal/adapters/sqlite/working.go:14-34 | Stores a valid set as active unless its id or its task is taken. |
| WorkingSets.SetWorkingGlobalRecall | internal/adapters/sqlite/working.go:37-53 | Switches the one active set of a task, or refuses. |
| WorkingSets.ExpireWorkingSets | internal/adapters/sqlite/working.go:56-113 | The sweep's loop over sets equals expiring them all at once, and answers with their ids in order. |
| WorkingSets.ExpireOneMore | internal/adapters/sqlite/working.go:83-102 | Expiring one more set after others is expiring them together. |
| StoreEffects.ObservationStored | internal/adapters/sqlite/records.go:15-49 | An observation is stored as it is under a free id and never replaces one. |
| StoreEffects.EpisodeStored | internal/adapters/sqlite/experiential.go:13-63 | When an episode is accepted, exactly, and that it and its outcomes are then stored as they are. |
| StoreEffects.SetStored | internal/adapters/sqlite/working.go:14-34 | When a working set is accepted, exactly, and that it is then stored active. |
| StoreEffects.SwitchAcceptedIff | internal/adapters/sqlite/working.go:37-53 | The switch is accepted if and only if the task has an active set. |
| StoreEffects.RecallSwitched | internal/adapters/sqlite/working.go:37-53 | It turns global recall of that one set on or off and touches no other. |
| StoreEffects.SweepClosesDue | internal/adapters/sqlite/working.go:56-102 | A set expires if and only if it was active and due; after the sweep no active set is due. |
| StoreEffects.SweepArchivesTask | internal/adapters/sqlite/working.go:83-102 | A memory is archived if and only if it is working memory of a set that was due. |
| StoreEffects.SweepArchivesHeads | internal/adapters/sqlite/working.go:83-102 | Of those memories the heads are archived, and nothing else of any version changes. |
| StoreEffects.SweepAnswersDue | internal/adapters/sqlite/working.go:61-82 | The ids answered are exactly the sets that were active and due, in order. |
| StoreEffects.EmbeddingStored | internal/adapters/sqlite/embeddings.go:16-55 | When an embedding of an indexed version is accepted, exactly, and that exactly its row is then written. |
| RunEffects.SweepInRun | internal/adapters/sqlite/working.go:56-113 | After any run and a sweep no active set is due. |
| RunEffects.SwitchInRun | internal/adapters/sqlite/working.go:37-53 | After any run the switch sets global recall of the task's active set as asked. |
| RecallRules.SameScopesAsExport | internal/adapters/sqlite/retrieval.go:75-93 | Recall and export admit the same scopes under the same access. |
| RecallRules.ScopeRule | internal/adapters/sqlite/retrieval.go:75-93 | No scope of another namespace or subject passes, private ones need their owner, and the others their grant. |
| RecallRules.InForceRule | internal/adapters/sqlite/retrieval.go:94-99 | A version is recalled if and only if its memory passes and it is current or superseded and within both intervals. |
| RecallRules.MemoryRule | internal/adapters/sqlite/retrieval.go:75-127 | A memory passes if and only if scope, state and function admit it, and the gate when it is working memory. |
| RecallRules.WorkingRule | internal/adapters/sqlite/retrieval.go:100-112 | Working memory passes the gate if and only if its task's set is active and not expired, and recall is in the task or both opt into global recall. |
| RecallRules.NoSetNoRecall | internal/adapters/sqlite/retrieval.go:100-112 | Without a set for its task working memory is never recalled. |
| TaskInvariant.TasksApply | internal/adapters/sqlite/working.go:115-137 | Every active working memory keeps an active set for its task when a proposal is applied. |
| TaskInvariant.TasksExpire | internal/adapters/sqlite/working.go:83-102 | The sweep closes a set together with all active memory of its task. |
| TaskInvariant.SweepInvisible | internal/adapters/sqlite/retrieval.go:100-112 | A sweep at a time changes no recall whose system time is not before it. |
| OpenInvariant.OpenApply | internal/adapters/sqlite/working.go:115-137 | Every version of active working memory began while a set of its task was open that still is; applying a proposal keeps that. |
| OpenInvariant.OpenExpire | internal/adapters/sqlite/working.go:83-102 | The sweep keeps it: a set that closes takes the active memory of its task with it. |
| MutationShape.ShapeMutation | internal/adapters/sqlite/lifecycle.go:55-69 | A proposal adds memories and versions only under its own ids, keeps scopes and functions, reactivates nothing, and writes no other table. |
| Authorship.AuthorsApply | internal/adapters/sqlite/lifecycle.go:404-426 | Every memory, version and operation target stays traceable to a logged proposal. |
| Authorship.AnswerIsHead | internal/adapters/sqlite/lifecycle.go:55-81 | The rows answered are the memory and its head as committed. |
| Authorship.ReplayIdempotent | internal/adapters/sqlite/lifecycle.go:44-51 | Applying again changes nothing and answers with the same rows and operation. |
| Authorship.ReplayNeverWrites | internal/adapters/sqlite/lifecycle.go:44-51 | In any state a replay writes nothing; once its target is gone it is refused. |
| Purge.PurgeTargets | internal/adapters/sqlite/purge.go:119-160 | Collects each memory of the tree once, the target first, and the derived versions of other memories. |
| Purge.PurgeRows | internal/adapters/sqlite/purge.go:60-100 | Deletes the target or its tree with everything that hangs on it, and counts the versions that go. |
| Purge.Run | internal/adapters/sqlite/purge.go:40-117 | A purge with its refusals, its receipt and the whole new tables. |
| PurgeProofs.NamespaceDropsNothing | internal/adapters/sqlite/purge.go:119-134 | The query's namespace filter drops no version that descends from the target. |
| PurgeProofs.CascadeExact | internal/adapters/sqlite/purge.go:74-100 | A cascade deletes a memory if and only if it owns a version of the target or one derived from it. |
| PurgeProofs.SurvivorsAreClean | internal/adapters/sqlite/purge.go:74-100 | No surviving version descends from the purged memory. |
| PurgeProofs.SurvivorsKeepRows | internal/adapters/sqlite/purge.go:87-96 | Surviving memories and versions keep their rows, a surviving memory all its versions, and surviving versions the edges between them. |
| PurgeProofs.NoResidue | internal/adapters/sqlite/purge.go:87-96 | No index row, embedding or edge names a deleted version, in either mode. |
| PurgeProofs.ReceiptCounts | internal/adapters/sqlite/purge.go:79-109 | The receipt's count is the drop in the version table. |
| PurgeProofs.MarkStaleExact | internal/adapters/sqlite/purge.go:60-73 | Mark-stale deletes the target alone and turns exactly its current descendants stale. |
| PurgeProofs.PurgeSucceedsIff | internal/adapters/sqlite/purge.go:40-64 | A complete request succeeds if and only if the target has a version in that namespace and the receipt id is free. |
| PurgeProofs.PurgeLeavesReceipt | internal/adapters/sqlite/purge.go:101-109 | On success the receipt is stored beside the old ones with the request's namespace, target, actor and time, and counts the versions that went. |
| PurgeProofs.CascadeEffect | internal/adapters/sqlite/purge.go:74-100 | After a successful cascade exactly the memories owning a version of the target or one derived from it are gone. |
| PurgeProofs.MarkStaleEffect | internal/adapters/sqlite/purge.go:60-73 | After a successful mark-stale only the target is gone and no surviving descendant is current. |
| Supersession.DescendantsKept | internal/adapters/sqlite/lifecycle.go:330-344 | The new version is no descendant of the closed one, and old descendants stay what they were. |
| Supersession.StaleExactly | internal/adapters/sqlite/lifecycle.go:377-390 | Exactly the current descendants of the closed version become stale; other rows keep everything. |
| Supersession.NoCurrentDescendant | internal/adapters/sqlite/lifecycle.go:148-173 | After the step nothing derived from the closed version is current. |
| Supersession.ParentsUntouched | internal/adapters/sqlite/lifecycle.go:148-173 | The step changes no parent of the version it inserts. |
| Supersession.PastUnchanged | internal/adapters/sqlite/lifecycle.go:160-171 | Before the step's system time, superseding a current head changes recall of the memory at exactly the points the narrowed valid interval gives up. |
| Supersession.NewVersionRecall | internal/adapters/sqlite/lifecycle.go:175-182 | When the new version is recalled, exactly. |
| Supersession.OldVersionsEnd | internal/adapters/sqlite/lifecycle.go:160-171 | From the step's system time on, no older version of the memory is recalled. |
| Supersession.OthersLoseOnlyStale | internal/adapters/sqlite/lifecycle.go:377-390 | Recall of other memories loses exactly the versions that became stale. |
| Supersession.CurrentHeadHidesNothingNew | internal/adapters/sqlite/retrieval.go:94-97 | Superseding a current head makes no old version visible where it was not. |
| Supersession.StaleHeadReappears | internal/adapters/sqlite/lifecycle.go:160-171 | Superseding a stale head makes it visible again at the start of its own intervals. |
| Supersession.NothingReappearsIffCurrent | internal/adapters/sqlite/lifecycle.go:160-171 | For memory of every function, nothing reappears if and only if the head was current. |
| Supersession.PastKeptIff | internal/adapters/sqlite/lifecycle.go:160-171 | Every earlier recall of the memory is kept if and only if the head was current and the new start does not cut its valid interval short. |
| Supersession.HistoryKeptIff | internal/adapters/sqlite/lifecycle.go:160-173 | Every earlier recall of the store is kept if and only if, besides, the step hides no current version that began before it. |
| Supersession.StartFilterPasses | internal/adapters/sqlite/retrieval.go:100-112 | The start of each version of an active memory is a point at which some recall admits the memory, working memory included. |
| Supersession.RecallIsUnique | internal/adapters/sqlite/retrieval.go:94-97 | Recall sees at most one version of a memory at one point of both axes. |
| SchemaInvariant.SchemaApply | internal/adapters/sqlite/migrations/0001_initial.sql:46-75 | A proposal keeps the foreign keys and unique indexes. |
| Runs.EveryRunIsSound | internal/adapters/sqlite/lifecycle.go:286-348 | In every state reached by any steps, imports included, the graph is acyclic and flow-allowed, the schema holds, no version names a parent twice, and both indexes agree with the versions. |
| Runs.VisibilityNeverWidens | internal/application/portable.go:246-260 | In every reachable state an ancestor may flow to each of its descendants. |
| Runs.SweepInvisibleInRuns | internal/adapters/sqlite/working.go:56-113 | In every reachable state the sweep is invisible to recall from its own time on. |
| Runs.RoundTripInRuns | internal/adapters/sqlite/portable.go:282-325 | Between any two reachable stores, export, import, export is the identity where keys are free and the subject is unknown. |
| Runs.EveryNativeRunIsKempt | internal/adapters/sqlite/lifecycle.go:84-264 | In every run without imports, besides, chains are whole, tasks are open and makers are logged. |
| Runs.OneVersionPerMemory | internal/adapters/sqlite/retrieval.go:94-97 | After every such run recall sees at most one version of a memory at one point. |
| Runs.ActiveVersionHasOneRow | internal/adapters/sqlite/lifecycle.go:292-297 | After every run without imports each version of an active memory has exactly one index row, with its text. |
| Runs.RecallableIsIndexed | internal/adapters/sqlite/retrieval.go:18-44 | In every reachable state a recallable version is indexed once, under its own text and namespace. |
| Runs.IndexesAgreeInRuns | internal/adapters/sqlite/embeddings.go:20-50 | In every reachable state index rows and embeddings belong to stored versions and have their texts, and a forgotten memory is in neither index. |
| Runs.NeverRecalledAgain | internal/adapters/sqlite/lifecycle.go:227-264 | In runs without imports a memory once archived, forgotten or purged is never recalled again. |
| Runs.InactiveUntilPurged | internal/adapters/sqlite/lifecycle.go:227-264 | In every run, imports included, a memory that is not active stays so until a purge removes it. |
| Runs.RecalledAgainOnlyAfterPurge | internal/adapters/sqlite/retrieval.go:90-97 | In every run a memory once archived or forgotten is recalled again only after a purge removed it in between. |
| Runs.PurgedStaysRefused | internal/adapters/sqlite/lifecycle.go:404-426 | Once a logged proposal's target is purged, every later replay is refused. |
| Runs.AppliedOnce | internal/adapters/sqlite/lifecycle.go:44-51 | A logged proposal never writes again and keeps its operation. |
| Runs.PastKeptInRuns | internal/adapters/sqlite/lifecycle.go:160-171 | In every run without imports the two conditions of a supersede step hold with nothing assumed of the tables. |
| Runs.HistoryKeptInRuns | internal/adapters/sqlite/lifecycle.go:160-173 | So does the condition for the history of the whole store. |
| LostHistory.StaleHeadIsReached | internal/adapters/sqlite/lifecycle.go:148-173 | A run of three steps reaches a store whose next update supersedes a stale head, which reappears. |
| LostHistory.NarrowedHeadIsReached | internal/adapters/sqlite/lifecycle.go:160-171 | A run of one step reaches a store whose next update cuts a current head short and loses a point of its history. |
| CycleCheck.Checker.Visit | internal/application/portable.go:268-284 | One depth-first visit: a reported cycle exists, and otherwise the visited versions have visited parents and lie on no cycle. |
| CycleCheck.ValidateDependencyGraph | internal/application/portable.go:262-292 | Terminates on every map and reports a cycle if and only if there is one, in any visiting order. |
| Bundles.ValidateEpisodes | internal/application/portable.go:89-122 | Accepts exactly the episodes with known observations, own outcomes and distinct ids. |
| Bundles.ValidateMemory | internal/application/portable.go:148-187 | Accepts exactly a memory with distinct version numbers, one of them current, and well-formed versions. |
| Bundles.ValidateReferences | internal/application/portable.go:189-238 | Accepts exactly when every reference of every version is answered in the bundle and flows are allowed. |
| Bundles.Validate | internal/application/portable.go:61-244 | Accepts exactly the self-contained, authorized, acyclic bundles. |
| BundleDefects.ValidIffNotDefective | internal/application/portable.go:61-244 | A bundle passes the check if and only if it has none of the defects, each told in terms of its rows. |
| BundleDefects.DefectiveIsRefused | internal/adapters/sqlite/portable.go:282-290 | An import refuses a bundle as invalid if and only if it has a defect. |
| BundleDefects.UnprovenIsRefused | internal/application/portable.go:169-171 | A version without provenance keeps its bundle out of every store. |
| Canonical.Sort | internal/application/portable.go:341-363 | A sort is an ordered permutation. |
| Canonical.SortSubjectExport | internal/application/portable.go:341-363 | Puts every section and its nested lists in order. |
| Canonical.SortedFormUnique | internal/application/portable.go:340-373 | A bundle without repeated ids has one sorted form. |
| Canonical.OrderDoesNotMatter | internal/application/portable.go:340-363 | Bundles listing the same things in other orders have the same sorted form. |
| Portable.ExportUnique | internal/adapters/sqlite/portable.go:29-69 | The tables, the access and the time determine the export. |
| Portable.InsertRows | internal/adapters/sqlite/portable.go:354-424 | Inserting rows one by one succeeds exactly when their keys are distinct and free. |
| Portable.InsertEdges | internal/adapters/sqlite/portable.go:425-432 | Inserting edges succeeds exactly when no version names a parent twice. |
| Portable.ImportSubjectRows | internal/adapters/sqlite/portable.go:354-443 | Succeeds exactly when every key is free, and leaves exactly the bundle's rows, edges and index rows added. |
| Portable.ImportSubject | internal/adapters/sqlite/portable.go:282-325 | Sorts, checks and imports; a dry run or a refusal leaves the tables as they were. |
| PortableExport.ExportEpisodes | internal/adapters/sqlite/portable.go:209-279 | Lists exactly the cited episodes with exactly their cited outcomes, and fails only if one is missing. |
| PortableExport.ExportSubject | internal/adapters/sqlite/portable.go:29-69 | Answers with the one bundle of the visible rows if it is valid, and fails only if it is not; over the tables of a native run it succeeds exactly when what is shown refers only to what is stored and shown. |
| PortableProofs.EdgesChecked | internal/application/portable.go:181-183 | The edges an import inserts are those the cycle check saw. |
| PortableProofs.GraphImport | internal/adapters/sqlite/portable.go:425-432 | An import keeps the whole graph acyclic and flow-allowed. |
| PortableProofs.SchemaImport | internal/adapters/sqlite/portable.go:465-475 | The foreign-key check after an import finds nothing, and no unique index breaks. |
| PortableProofs.IndexImport | internal/adapters/sqlite/portable.go:433-439 | An import keeps both indexes in agreement with the versions. |
| PortableProofs.ExportInsertable | internal/adapters/sqlite/portable.go:354-443 | A valid export is insertable wherever it shares no key. |
| PortableProofs.ExportIsSorted | internal/application/portable.go:341-363 | Sorting an export changes nothing. |
| PortableProofs.RoundTrip | internal/adapters/sqlite/portable.go:282-325 | Export, import, export gives the same bundle and no other. |
| ContentInvariant.ContentApply | internal/adapters/sqlite/lifecycle.go:300-375 | Applying any proposal keeps payloads fitting their memories, what versions refer to stored, provenance never empty, and stored parents linked by edges. |
| ContentInvariant.ContentPurge | internal/adapters/sqlite/purge.go:65-117 | So does a purge, which removes whole memories. |
| ContentInvariant.ContentExpire | internal/adapters/sqlite/working.go:83-102 | So does the sweep. |
| ExportSuccess.MemoriesPass | internal/application/portable.go:148-187 | The memories of an export always pass the check: numbers, times, heads, payloads and provenance are in order. |
| ExportSuccess.ExportedChain | internal/adapters/sqlite/portable.go:178-207 | An exported memory lists its whole chain, version i + 1 at place i, up to the current one. |
| ExportSuccess.GraphPasses | internal/application/portable.go:241-243 | With every parent shown, the exported dependencies close no cycle. |
| ExportSuccess.ExportExists | internal/adapters/sqlite/portable.go:29-69 | Where evidence is stored, the visible rows of a subject always make a bundle. |
| ExportSuccess.ExportSucceedsIff | internal/adapters/sqlite/portable.go:29-69 | An export is valid if and only if what is shown refers only to what is stored and shown, and no shown set is dated before it was made. |
| ImportEffects.ImportAcceptedIff | internal/adapters/sqlite/portable.go:354-443 | An import is accepted if and only if its bundle has no defect, meets no id or task of the store, has each task once, and no version names a parent twice. |
| ImportEffects.ImportStores | internal/adapters/sqlite/portable.go:354-443 | It then stores every row as it is, an edge for each derivation and an index row for each version not forgotten, and leaves all other rows alone. |
| PortableRuns.EveryNativeRunHasContent | internal/adapters/sqlite/lifecycle.go:300-375 | After every run without imports payloads fit, references are stored, provenance is never empty and stored parents are linked. |
| PortableRuns.ExportSucceedsInRuns | internal/adapters/sqlite/portable.go:29-69 | After every run without imports, exactly when the export succeeds, as a condition on the tables. |
| PortableRuns.SelfContainedComesBack | internal/adapters/sqlite/portable.go:282-325 | A subject that refers only to itself is exported, taken by any store that does not know it, and exported again as the same bundle. |
| PortableRuns.OneMemoryComesBack | internal/adapters/sqlite/portable.go:282-325 | A run of two steps whose export is a valid bundle with a memory that goes into an empty store and comes back. |
| PortableRuns.PurgeKeepsExportIff | internal/adapters/sqlite/purge.go:60-100 | After a purge the subject can still be exported if and only if no shown version that stays has a parent in a deleted memory. |
| RunEffects.ImportInRun | internal/adapters/sqlite/portable.go:282-325 | After any run an import stores its bundle, or leaves the tables alone, exactly as those conditions say. |
| Jobs.Queue.EnqueueObservation | internal/adapters/sqlite/jobs.go:21-77 | Captures observation and job together; a held key answers with its holder and captures nothing. |
| Jobs.Queue.Claim | internal/adapters/sqlite/jobs.go:80-106 | Leases the oldest ready job and touches no other. |
| Jobs.Queue.Complete | internal/adapters/sqlite/jobs.go:109-123 | Succeeds exactly under a live lease of that worker name. |
| Jobs.Queue.Fail | internal/adapters/sqlite/jobs.go:126-141 | Gives the job back with backoff, or fails it at the limit, exactly under a live lease. |
| Jobs.OldestUnique | internal/adapters/sqlite/jobs.go:87-93 | The claim order has one least ready job. |
| JobRuns.SettledForever | internal/adapters/sqlite/jobs.go:109-141 | In every run a succeeded or failed job's row never changes again. |
| JobRuns.OneCompletion | internal/adapters/sqlite/jobs.go:109-123 | At most one completion of a job is ever accepted. |
| JobRuns.CompletionIsFinal | internal/adapters/sqlite/jobs.go:109-123 | After it the result stays and no claim or finish is accepted. |
| JobRuns.RunningUnderLatestClaim | internal/adapters/sqlite/jobs.go:84-98 | A running job runs under the lease of its latest claim. |
| JobRuns.LeaseCheckExact | internal/adapters/sqlite/jobs.go:113-118 | The lease check passes if and only if the latest claim was made under that name, has not expired and was not finished. |
| JobRuns.FinishedByLatestClaimant | internal/adapters/sqlite/jobs.go:109-141 | Every accepted finish comes from the latest claimant within its lease. |
| JobRuns.ReclaimedOnlyIfFree | internal/adapters/sqlite/jobs.go:87-93 | A job is claimed again only after its lease expired, or after its holder gave it back and the backoff passed. |
| JobRuns.FencedByName | internal/adapters/sqlite/jobs.go:117 | After a reclaim the first worker's completion is accepted if and only if the two workers share a name. |
| JobRuns.ReclaimedCannotFinish | internal/adapters/sqlite/jobs.go:109-141 | With distinct names a worker whose job was reclaimed can neither complete nor fail it. |
| JobRuns.SharedNameIsNotFenced | internal/daemon/formation.go:80 | A run in which an expired attempt's completion is accepted under the shared name. |
| JobRuns.RequeuesWithinAttempts | internal/adapters/sqlite/jobs.go:126-141 | Every requeue used up an attempt of its own. |
| JobRuns.RetriesBounded | internal/adapters/sqlite/jobs.go:126-141 | With limits of at most M a job is requeued at most M - 1 times. |
| JobRuns.AttemptsCounted | internal/adapters/sqlite/jobs.go:84-141 | At every point of a run attempts are the requeues, the takeovers of expired leases, and one for a job that is not queued. |
| JobRuns.ClaimExceedsLimit | internal/adapters/sqlite/jobs.go:84-93 | With failures limited to M, a claim takes attempts past M if and only if it takes over a running job that has used M up. |
| JobRuns.AttemptsExceedIff | internal/daemon/formation.go:100-117 | Over a whole run attempts exceed M if and only if a running job that had used M up was taken over. |
| JobRuns.AttemptsBounded | internal/daemon/formation.go:100-117 | Attempts exceed M by at most the number of takeovers; without one they stay within M. |
| JobRuns.AttemptsUnbounded | internal/adapters/sqlite/jobs.go:87-93 | Crashes and reclaims drive attempts past any bound. |
| JobRuns.KeysStayUnique | internal/adapters/sqlite/jobs.go:49-64 | In every run no two jobs hold one idempotency key. |
| JobRuns.EnqueueWrites | internal/adapters/sqlite/jobs.go:21-77 | A job is enqueued if and only if its request is complete and its id and key are free; it waits until its time, untried, with what was asked for. |
| JobRuns.ClaimWrites | internal/adapters/sqlite/jobs.go:84-98 | A claim counts an attempt and gives exactly its worker a lease from now. |
| JobRuns.FinishWrites | internal/adapters/sqlite/jobs.go:109-141 | A completion stores its result; a failure its code, and another try after the backoff while attempts are left. |
| JobRuns.ClaimTakesOldest | internal/adapters/sqlite/jobs.go:84-93 | The job a claim takes is ready, and no ready job was due before it, or made before it, or has a lesser id. |
| Formation.ProposalWellFormed | internal/strategy/formation/formation.go:67-109 | A formed proposal is never refused for its form, and when one is formed. |
| Formation.ProposalIdsDistinct | internal/strategy/formation/formation.go:97-98 | Different observations or functions never share a proposal or a memory. |
| ExactlyOnce.InvHolds | internal/daemon/formation.go:124-179 | In every interleaving attempts, jobs and tables stay in agreement. |
| ExactlyOnce.AnswerNamesMemory | internal/adapters/sqlite/lifecycle.go:44-51 | A formed proposal is answered with its own memory, applied or replayed. |
| ExactlyOnce.AppliedAtMostOnce | internal/adapters/sqlite/lifecycle.go:71-81 | Over every interleaving a proposal's operation is logged at most once. |
| ExactlyOnce.BornAtMostOnce | internal/adapters/sqlite/lifecycle.go:98-121 | Over every interleaving a memory is inserted at most once. |
| ExactlyOnce.FormedExactlyOnce | internal/daemon/formation.go:101-179 | Whatever crashes, errors, reclaims and retries interleave, a generator-free job makes at most one memory and one operation; a succeeded job made exactly one, and its result names it. |
| Attempts.AttemptIsRun | internal/daemon/formation.go:124-179 | One pass of the worker is a run of the protocol. |
| Attempts.AttemptResolves | internal/daemon/formation.go:101-122 | A pass that keeps its lease changes its own job only, and settles it or gives it back. |
| FormationSuccess.ProposalCarries | internal/strategy/formation/formation.go:67-152 | The formed proposal asks for exactly what the observation says, with the observation as its only source. |
| FormationSuccess.PlannedIffOrdinary | internal/daemon/formation.go:124-150 | An attempt goes on if and only if the job is generator-free over a stored observation of its own scope and namespace, with a task for working memory. |
| FormationSuccess.OrdinaryJobSucceeds | internal/daemon/formation.go:124-179 | An ordinary job over what can be formed, within its lease, ends succeeded with an active memory in scope whose head carries the observation, indexed, embedded and with its episode or working set stored. |
| FormationSuccess.OtherJobFails | internal/daemon/formation.go:101-140 | An attempt at any other job stores nothing, completes nothing, and gives the job back or fails it at the limit. |
| FormationRuns.FirstJobIsFormed | internal/daemon/formation.go:101-179 | From an empty store: capture, claim and attempt within the lease make the memory of any observation, and the job says so. |
| FormationRuns.RetryCompletes | internal/daemon/formation.go:124-179 | A later attempt at a job whose proposal was already applied writes no memory and completes the job with the one that is there. |
| Daemon.FormationWorker.Prepare | internal/daemon/formation.go:124-153 | Loads, forms and ensures references, as the protocol's first actions. |
| Daemon.FormationWorker.StoreReference | internal/daemon/formation.go:181-230 | Creates the missing episode or working set, or reports that it could not. |
| Daemon.FormationWorker.ApplyPlan | internal/daemon/formation.go:154-158 | Applies the proposal under the job's scope, as the protocol's action does. |
| Daemon.FormationWorker.Embed | internal/daemon/formation.go:159-174 | Embeds the answered text, as the protocol's action does. |
| Daemon.FormationWorker.ProcessOne | internal/daemon/formation.go:101-122 | Claims the oldest ready job and leaves what one attempt leaves: an ordinary job that can be formed ends completed with its memory stored, one whose observation is missing or out of scope stores nothing and is not completed. |
| Daemon.FormationWorker.Drain | internal/daemon/formation.go:77-98 | Terminates; at a fixed clock handles each ready job exactly once, in order of availability, creation and id, and resolves each. |
| Ranking.TrustInRange | internal/application/retrieval.go:497-515 | Trust of an accepted payload lies between 0 and 1. |
| Ranking.RankCandidates | internal/application/retrieval.go:380-439 | The result lists every fused candidate in order of total, trust and id. |
| Ranking.RankingCanonical | internal/application/retrieval.go:404-438 | The result does not depend on the map's iteration order. |
| Ranking.BestFirst | internal/application/retrieval.go:429-437 | Totals fall along the result; of equal totals trust falls, and of equal trust the ids rise. |
| Ranking.EachVersionOnce | internal/application/retrieval.go:380-439 | Every listed version appears exactly once. |
| Ranking.HybridMonotone | internal/application/retrieval.go:416-426 | In hybrid mode a version ahead of another in every list that has the other, with at least its trust, ranks strictly before it. |
| Ranking.LexicalMonotone | internal/application/retrieval.go:408-411 | In lexical mode a version with a lesser lexical rank and at least the trust comes strictly before. |
| Ranking.SemanticMonotone | internal/application/retrieval.go:412-415 | In semantic mode a version with the higher score and at least the trust comes strictly before; one without a score totals 0. |
| Ranking.EntriesExplained | internal/application/retrieval.go:380-439 | Every entry keeps its payload's trust and lexical score, and in hybrid mode the sum of what its places are worth. |
| Ranking.TrustOnlyBreaksNearTies | internal/application/retrieval.go:416-426 | Trust lifts a version past another only where their fused scores lie within a thousandth. |
| Ranking.ListedOnce | internal/application/retrieval.go:383-403 | With distinct ids a version's rank and score are those of its one place in the list. |
| Ranking.TrustOrder | internal/application/retrieval.go:497-515 | At equal confidence observed is trusted over asserted over inferred over unknown over contested. |
| Ranking.SurerIsTrustedMore | internal/application/retrieval.go:497-515 | At equal status the greater confidence is trusted more, and none at all counts as full. |
| Ranking.TrustAcrossFunctions | internal/application/retrieval.go:497-515 | A lesson is trusted like a sure assertion, and working memory between that and a sure inference. |
| Selection.EstimateTokens | internal/application/retrieval.go:597-603 | A quarter of the characters rounded up, at least one. |
| Selection.SelectCandidates | internal/application/retrieval.go:441-475 | Every trace row records the first holder of its key and the greedy choice; items and tokens used are those selected, within the budget. |
| Selection.LeftOutForAReason | internal/application/retrieval.go:453 | What is left out is a duplicate or would overflow the budget that remains at the end. |
| Selection.DuplicateNamesFirst | internal/application/retrieval.go:448-452 | A duplicate names the first earlier candidate of its key. |
| Selection.SelectedKeysDistinct | internal/application/retrieval.go:448-453 | No two selected candidates share a key. |
| Selection.KeysAgree | internal/application/retrieval.go:605-611 | Two candidates share a key exactly when their function and normalized text agree, or without text their version. |
| Selection.ItemsAreSelectedRows | internal/application/retrieval.go:462-472 | The items are exactly the selected rows, in order, each with its row's ids and tokens. |
| Selection.UsedIsSumOfItems | internal/application/retrieval.go:453-474 | The tokens reported as used are the sum over the items returned. |
| Selection.ValidateTrace | internal/domain/trace.go:128-161 | The validator's walk accepts exactly the traces whose rows and token sum are in order. |
| Selection.SelectionPassesValidator | internal/domain/trace.go:128-161 | What selection leaves passes the validator. |
| Selection.GroupIdsAgree | internal/application/retrieval.go:481-485 | Two items share a group id exactly when they share a conflict group, or a memory outside any. |
| Selection.GroupRecallItems | internal/application/retrieval.go:477-495 | One group for each id in order of first item, with that id's items in order. |
| Selection.GroupsPartition | internal/application/retrieval.go:477-495 | Every item is in one group, with exactly the items that share its id. |
| Selection.GroupKeepsOrder | internal/application/retrieval.go:477-495 | A group holds its items in the order they came in. |
| Selection.GroupsByFirstItem | internal/application/retrieval.go:477-495 | The groups come in the order of their first items. |

## Left out

- Lifecycle.ApplyProposal: payloads are decoded values; JSON decoding, taxonomy, strategy ids and hashes, and the field formats checked by Validate methods are not modelled.
- Lifecycle.InsertVersionRows: the version checks before the insert are made on the proposal (`ValidCreate`, `ValidEvolution`), not a second time on the row.
- Captures.StoreEpisode: the content of task and evidence is any text.
- Embeddings.Put: the index lookup and the upsert are one step, where the code runs two statements; the digest of the text is the text itself, and non-finite coordinates do not occur.
- ExactlyOnce.FormedExactlyOnce: jobs in assisted mode fail here, because a generator's output differs between retries.
- Daemon.FormationWorker.ProcessOne: the tables always answer here; statements that return an error are among the actions of `Worker` only.
- Formation.ProposalIdsDistinct: the strategy hash and the encoded payload inside the id are stood for by the function and the observation that determine them.
- Ranking.RankCandidates: scores are reals without rounding, so ties that only rounding makes do not occur; the auto mode is resolved before ranking.
- Selection.SelectCandidates: lower-casing and white-space collapsing of text are inputs; provenance, payload and score parts of an item are not carried along, except trust.
- Selection.ValidateTrace: the header checks of a trace (ids, times, owners, strategy hash) are not modelled, and of the formats of ids only that they are not empty.
- Bundles.Validate: field formats, text lengths and label sets checked by the domain types are not modelled.
- Bundles.ValidateEpisodes: task content and the fields of an outcome other than its episode are not checked.
- Portable.ImportSubject: the backup before an import and the database check after it are not modelled.
- Canonical.Sort: the library sort is an insertion sort; only its being an ordered permutation is used.
- Jobs.Queue.EnqueueObservation: event receipts and the polling Wait are not modelled.
- Jobs.Queue.Fail: a failed job keeps the error code only, not the message.
- Purge.Run: artifact references and usage feedback rows, which a purge also removes, and the WAL checkpoint are not modelled.
- Chains of imported data: the bundle check promises neither gapless numbers nor agreeing states, so the chain, task and maker invariants are proved for runs without imports.
- PutMemory (internal/adapters/sqlite/records.go:52-65): only tests call it, and it skips the dependency checks.
- Zero timestamps: the checks that a time is set do not apply to integer times.
- Backups, migrations, FTS5 matching and BM25, cosine scoring, SQLite's own concurrency: outside this model.
- HTTP, MCP, CLI, SDK, telemetry, tokens and authentication: outside this model.
- Model-assisted evolution, query rewriting, reranking and answer synthesis: outputs of a generator.
