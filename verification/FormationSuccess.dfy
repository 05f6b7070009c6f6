// An ordinary job succeeds: under plain conditions on the job and the tables, one attempt ends
// with the job completed and a memory stored that carries the observation. Any other job ends
// with nothing stored. Both are said without the functions that the attempt is made of.
module FormationSuccess {
  import opened Ids
  import opened Graph
  import opened Domain
  import opened Database
  import opened Lifecycle
  import opened Embeddings
  import opened WorkingSets
  import opened Bundles
  import opened Captures
  import opened ContentInvariant
  import opened IndexInvariant
  import opened MutationShape
  import opened ApplyEffects
  import opened StoreEffects
  import opened Jobs
  import opened Formation
  import opened Runs
  import opened Worker
  import opened Attempts

  // ----- Which jobs are ordinary -----

  /** A generator-free job over a stored observation of its own scope, with a task when working memory is asked for. */
  predicate OrdinaryJob(db: Db, namespace: Id, payload: JobPayload) {
    && payload.FormationPayload?
    && payload.mode == GeneratorFree
    && payload.observation in db.observations
    && db.observations[payload.observation].scope == payload.applyScope
    && payload.applyScope.namespace == namespace
    && namespace != NO_ID
    && (payload.memoryFunction == Working ==> payload.applyScope.context != NO_ID)
  }

  /** What the memory refers to can still be created at these times. */
  predicate ReferenceFree(db: Db, payload: JobPayload, o: Observation, clock: Clock)
    requires payload.FormationPayload?
  {
    match payload.memoryFunction
    case Factual => true
    case Experiential =>
      && payload.observation != NO_ID && o.scope.actor != NO_ID
      && EpisodeIdOf(payload.observation) !in db.episodes && OutcomeIdOf(payload.observation) !in db.outcomes
    case Working =>
      && WorkingSetIdOf(o.scope) !in db.workingSets
      && (forall w :: w in db.workingSets && db.workingSets[w].task == o.scope.context ==>
           db.workingSets[w].scope.namespace != o.scope.namespace)
      && o.capturedAt <= clock.refer
      && (payload.workingExpiresAt.Some? ==>
           o.capturedAt < payload.workingExpiresAt.value && clock.apply < payload.workingExpiresAt.value)
  }

  /** What the memory refers to is there and usable, as after an earlier attempt or for another memory of the task. */
  predicate ReferenceReady(db: Db, payload: JobPayload, o: Observation, clock: Clock)
    requires payload.FormationPayload?
  {
    match payload.memoryFunction
    case Factual => true
    case Experiential =>
      var (e, x) := (EpisodeIdOf(payload.observation), OutcomeIdOf(payload.observation));
      && e in db.episodes
      && db.episodes[e].namespace == o.scope.namespace && db.episodes[e].subject == o.scope.subject
      && x in db.outcomes && db.outcomes[x].episode == e
    case Working =>
      var w := WorkingSetIdOf(o.scope);
      && w in db.workingSets
      && db.workingSets[w].scope.namespace == o.scope.namespace && db.workingSets[w].task == o.scope.context
      && db.workingSets[w].state == SetActive
      && (db.workingSets[w].expiresAt.Some? ==> clock.apply < db.workingSets[w].expiresAt.value)
  }

  /** No provider, or one that answers every text with a vector that can be stored. */
  ghost predicate Embeds(provider: Option<Provider>) {
    provider.Some? ==>
      && provider.value.identity.provider != "" && provider.value.identity.model != ""
      && forall text :: text != "" ==>
        && provider.value.vector(text).Some?
        && 0 < |provider.value.vector(text).value| <= 16384
        && exists i :: 0 <= i < |provider.value.vector(text).value| && provider.value.vector(text).value[i] != 0
  }

  /** Nothing was formed from this observation yet, and what is formed can be stored now. */
  predicate Formable(db: Db, payload: JobPayload, clock: Clock)
    requires payload.FormationPayload? && payload.observation in db.observations
  {
    var (o, p) := (db.observations[payload.observation], ProposalIdOf(payload.observation, payload.memoryFunction));
    && o.content != ""
    && o.scope.actor != NO_ID
    && p !in db.operations && MemoryIdOf(p) !in db.memories && VersionIdOf(p) !in db.versions
    && (ReferenceFree(db, payload, o, clock) || ReferenceReady(db, payload, o, clock))
  }

  // ----- What success means -----

  /** The payload says what the observation says, for this function. */
  predicate Carries(payload: Payload, f: MemoryFunction, id: Id, o: Observation) {
    match f
    case Factual =>
      && payload.FactualPayload?
      && payload.claimSubject == o.scope.subject && payload.claim == "observed-content" && payload.statement == o.content
      && payload.epistemic == (match o.evidenceClass case Trusted => Observed case Policy => Observed case Untrusted => Asserted)
      && payload.confidence == None
    case Experiential =>
      && payload.ExperientialPayload?
      && payload.lesson == o.content
      && payload.evidence == [LessonEvidence(EpisodeIdOf(id), [OutcomeIdOf(id)])]
    case Working =>
      && payload.WorkingPayload?
      && payload.workingSet == WorkingSetIdOf(o.scope) && payload.task == o.scope.context
      && payload.goal == (if o.goal == "" then o.content else o.goal) && payload.progress == o.content
      && payload.compactedFrom == [id]
  }

  /** What the memory refers to is stored as the observation and the job ask for it. */
  predicate ReferenceHolds(db: Db, payload: JobPayload, id: Id, o: Observation)
    requires payload.FormationPayload?
  {
    match payload.memoryFunction
    case Factual => true
    case Experiential =>
      var (e, x) := (EpisodeIdOf(id), OutcomeIdOf(id));
      && e in db.episodes && x in db.outcomes
      && db.episodes[e].namespace == o.scope.namespace && db.episodes[e].subject == o.scope.subject
      && db.episodes[e].task == o.content && db.episodes[e].observations == [id]
      && db.episodes[e].startedAt < db.episodes[e].endedAt == o.capturedAt
      && db.outcomes[x].episode == e && db.outcomes[x].source == o.scope.actor
      && db.outcomes[x].evidence == o.content && db.outcomes[x].observedAt == o.capturedAt
    case Working =>
      var w := WorkingSetIdOf(o.scope);
      && w in db.workingSets
      && db.workingSets[w].scope == o.scope && db.workingSets[w].task == o.scope.context
      && db.workingSets[w].goal == (if o.goal == "" then o.content else o.goal)
      && db.workingSets[w].globalRecall == payload.workingGlobalRecall && db.workingSets[w].expiresAt == payload.workingExpiresAt
      && db.workingSets[w].createdAt == o.capturedAt && db.workingSets[w].state == SetActive
  }

  predicate EndsWith(text: string, tail: string) {
    |tail| <= |text| && text[|text| - |tail|..] == tail
  }

  /** The text that is indexed and embedded ends with what was observed. */
  lemma TextCarries(payload: Payload, f: MemoryFunction, id: Id, o: Observation)
    requires Carries(payload, f, id, o)
    ensures EndsWith(MemoryText(payload), o.content)
  {
  }

  /** An active memory in the observation's scope whose head carries the observation and names it as its source. */
  ghost predicate FormedIn(db: Db, memory: Id, version: Id, f: MemoryFunction, id: Id, o: Observation) {
    && IsHead(db, memory, version)
    && db.memories[memory].scope == o.scope && db.memories[memory].memoryFunction == f
    && db.memories[memory].state == MemoryActive
    && db.versions[version].state == VersionCurrent
    && Carries(db.versions[version].payload, f, id, o)
    && db.versions[version].provenance == [id]
    && exists row :: RowOf(db.index, version, row) && EndsWith(db.index.rows[row].text, o.content)
  }

  predicate EmbeddedIn(db: Db, version: Id, provider: Option<Provider>) {
    provider.Some? ==> EmbeddingKey(version, provider.value.identity.provider, provider.value.identity.model) in db.embeddings
  }

  // ----- The proposal -----

  /** The proposal formed from an observation asks for exactly what the observation says. */
  lemma ProposalCarries(f: MemoryFunction, id: Id, o: Observation)
    ensures var r := Propose(f, id, o); r.Success? ==>
      && r.value.id == ProposalIdOf(id, f) && r.value.namespace == o.scope.namespace && r.value.observations == [id]
      && r.value.action == Create && r.value.target == NO_ID && r.value.createdAt == o.capturedAt
      && r.value.body.CreateBody?
      && var c := r.value.body.create;
        && c.scope == o.scope && c.memoryFunction == f && Carries(c.payload, f, id, o)
        && c.provenance == [id] && c.derivedFrom == [] && c.conflictGroup == NO_ID && c.validTime == None
  {
  }

  /** An attempt goes on with a plan if and only if its job is ordinary. */
  lemma PlannedIffOrdinary(db: Db, a: Attempt)
    ensures PlanFor(db, a).Some? <==> OrdinaryJob(db, a.namespace, a.payload)
    ensures PlanFor(db, a).Some? ==>
      && PlanFor(db, a).value.observation == db.observations[a.payload.observation]
      && Propose(a.payload.memoryFunction, a.payload.observation, db.observations[a.payload.observation]) == Success(PlanFor(db, a).value.proposal)
  {
    if a.payload.FormationPayload? && a.payload.observation in db.observations {
      ProposalWellFormed(a.payload.memoryFunction, a.payload.observation, db.observations[a.payload.observation]);
    }
  }

  // ----- The references -----

  ghost predicate PlanCarries(a: Attempt, plan: Plan) {
    && a.payload.FormationPayload?
    && var p := plan.proposal;
      && p.id == ProposalIdOf(a.payload.observation, a.payload.memoryFunction)
      && p.id != NO_ID && p.namespace != NO_ID && p.namespace == plan.observation.scope.namespace && p.observations != []
      && p.action == Create && p.target == NO_ID
      && p.body.CreateBody?
      && p.body.create.scope == plan.observation.scope && p.body.create.memoryFunction == a.payload.memoryFunction
      && Carries(p.body.create.payload, a.payload.memoryFunction, a.payload.observation, plan.observation)
      && p.body.create.provenance == [a.payload.observation] && p.body.create.derivedFrom == [] && p.body.create.validTime == None
  }

  lemma EpisodeCreated(db: Db, a: Attempt, plan: Plan, clock: Clock)
    requires PlanCarries(a, plan) && a.payload.memoryFunction == Experiential
    requires ReferenceFree(db, a.payload, plan.observation, clock)
    ensures var step := ReferenceStep(a, plan, clock.refer);
      && step.EpisodeStep?
      && Accepted(db, step)
      && Grounded(Runs.Next(db, step), plan.observation.scope, Experiential, clock.apply, plan.proposal.body.create.payload)
      && ReferenceHolds(Runs.Next(db, step), a.payload, a.payload.observation, plan.observation)
  {
    var (id, o) := (a.payload.observation, plan.observation);
    EpisodeStored(db, EpisodeIdOf(id), NewEpisode(id, o), NewOutcomes(id, o));
    var outcome := NewOutcomes(id, o)[0];
    assert outcome in NewOutcomes(id, o);
  }

  /** A set that opens its task from now until after the memory is applied. */
  lemma NewSetFits(db: Db, payload: JobPayload, o: Observation, goal: string, clock: Clock)
    requires payload.FormationPayload? && payload.memoryFunction == Working && o.scope.context != NO_ID
    requires ReferenceFree(db, payload, o, clock)
    ensures var r := PutWorkingSet(db, WorkingSetIdOf(o.scope), NewSet(payload, o, goal, clock.refer));
      && r.Success?
      && var set_ := NewSet(payload, o, goal, clock.refer).(state := SetActive);
        && r.value == db.(workingSets := db.workingSets[WorkingSetIdOf(o.scope) := set_])
        && set_.scope.namespace == o.scope.namespace && set_.task == o.scope.context && set_.state == SetActive
        && (set_.expiresAt.Some? ==> clock.apply < set_.expiresAt.value)
  {
    SetStored(db, WorkingSetIdOf(o.scope), NewSet(payload, o, goal, clock.refer));
  }

  lemma WorkingGrounded(db: Db, scope: Scope, at: int, payload: Payload, set_: WorkingSet)
    requires payload.WorkingPayload? && payload.task == scope.context
    requires payload.workingSet in db.workingSets && db.workingSets[payload.workingSet] == set_
    requires set_.scope.namespace == scope.namespace && set_.task == scope.context && set_.state == SetActive
    requires set_.expiresAt.Some? ==> at < set_.expiresAt.value
    ensures Grounded(db, scope, Working, at, payload)
  {
  }

  lemma SetCreated(db: Db, a: Attempt, plan: Plan, clock: Clock)
    requires PlanCarries(a, plan) && a.payload.memoryFunction == Working && plan.observation.scope.context != NO_ID
    requires ReferenceFree(db, a.payload, plan.observation, clock)
    ensures var step := ReferenceStep(a, plan, clock.refer);
      && step.WorkingSetStep?
      && Accepted(db, step)
      && Grounded(Runs.Next(db, step), plan.observation.scope, Working, clock.apply, plan.proposal.body.create.payload)
      && ReferenceHolds(Runs.Next(db, step), a.payload, a.payload.observation, plan.observation)
  {
    var (o, payload) := (plan.observation, plan.proposal.body.create.payload);
    NewSetFits(db, a.payload, o, payload.goal, clock);
    var r := PutWorkingSet(db, WorkingSetIdOf(o.scope), NewSet(a.payload, o, payload.goal, clock.refer));
    WorkingGrounded(r.value, o.scope, clock.apply, payload, r.value.workingSets[WorkingSetIdOf(o.scope)]);
  }

  /** After the references are ensured the plan stands, its payload is grounded, and no memory was touched. */
  ghost predicate ReadyToApply(db: Db, s: Sys, jobs: JobTable, a: Attempt, plan: Plan, clock: Clock) {
    && PlanCarries(a, plan)
    && s.jobs == jobs
    && s.attempts == [a.(phase := Referenced(plan))]
    && SameGraph(db, s.db)
    && Sound(s.db)
    && Grounded(s.db, plan.observation.scope, a.payload.memoryFunction, clock.apply, plan.proposal.body.create.payload)
    && (ReferenceFree(db, a.payload, plan.observation, clock) ==> ReferenceHolds(s.db, a.payload, a.payload.observation, plan.observation))
  }

  lemma ReferenceCreated(db: Db, a: Attempt, plan: Plan, clock: Clock)
    requires Sound(db) && PlanCarries(a, plan) && ReferenceMissing(db, plan.proposal)
    requires a.payload.memoryFunction == Working ==> plan.observation.scope.context != NO_ID
    requires ReferenceFree(db, a.payload, plan.observation, clock) || ReferenceReady(db, a.payload, plan.observation, clock)
    ensures var step := ReferenceStep(a, plan, clock.refer);
      && Accepted(db, step)
      && SameGraph(db, Runs.Next(db, step)) && Sound(Runs.Next(db, step))
      && Grounded(Runs.Next(db, step), plan.observation.scope, a.payload.memoryFunction, clock.apply, plan.proposal.body.create.payload)
      && ReferenceHolds(Runs.Next(db, step), a.payload, a.payload.observation, plan.observation)
  {
    var step := ReferenceStep(a, plan, clock.refer);
    if a.payload.memoryFunction == Experiential {
      EpisodeCreated(db, a, plan, clock);
    } else {
      SetCreated(db, a, plan, clock);
    }
    AsideStep(db, step);
    SoundStep(db, step);
  }

  lemma ReferredIs(db: Db, jobs: JobTable, a: Attempt, plan: Plan, now: int)
    requires a.phase == Unreferenced(plan) && a.payload.FormationPayload? && Accepted(db, ReferenceStep(a, plan, now))
    ensures DoRefer(Sys(db, jobs, [a]), 0, now)
         == Sys(Runs.Next(db, ReferenceStep(a, plan, now)), jobs, [a.(phase := Referenced(plan))])
  {
  }

  lemma ReferencesEnsured(db: Db, jobs: JobTable, a: Attempt, plan: Plan, clock: Clock)
    requires Sound(db) && PlanCarries(a, plan) && a.phase == Planned(plan)
    requires a.payload.memoryFunction == Working ==> plan.observation.scope.context != NO_ID
    requires ReferenceFree(db, a.payload, plan.observation, clock) || ReferenceReady(db, a.payload, plan.observation, clock)
    ensures ReadyToApply(db, DoRefer(DoCheck(Sys(db, jobs, [a]), 0), 0, clock.refer), jobs, a, plan, clock)
  {
    var checked := DoCheck(Sys(db, jobs, [a]), 0);
    if ReferenceMissing(db, plan.proposal) {
      var missing := a.(phase := Unreferenced(plan));
      assert checked == Sys(db, jobs, [missing]);
      ReferenceCreated(db, missing, plan, clock);
      ReferredIs(db, jobs, missing, plan, clock.refer);
    } else {
      assert checked == Sys(db, jobs, [a.(phase := Referenced(plan))]);
      ReadyIsGrounded(db, a, plan, clock);
    }
  }

  lemma ReadyIsGrounded(db: Db, a: Attempt, plan: Plan, clock: Clock)
    requires PlanCarries(a, plan) && !ReferenceMissing(db, plan.proposal)
    requires ReferenceFree(db, a.payload, plan.observation, clock) || ReferenceReady(db, a.payload, plan.observation, clock)
    ensures Grounded(db, plan.observation.scope, a.payload.memoryFunction, clock.apply, plan.proposal.body.create.payload)
  {
  }

  // ----- Applying -----

  /** The answered rows are the formed memory, and it is in the tables and in the index. */
  ghost predicate AnsweredOk(s: Sys, jobs: JobTable, a: Attempt, plan: Plan) {
    && a.payload.FormationPayload?
    && s.jobs == jobs
    && |s.attempts| == 1
    && s.attempts[0].phase.Answered?
    && var answer := s.attempts[0].phase.answer;
      && s.attempts == [a.(phase := Answered(plan, answer))]
      && AnswerStored(s.db, a.payload.memoryFunction, a.payload.observation, plan.observation, answer)
  }

  ghost predicate AnswerStored(db: Db, f: MemoryFunction, id: Id, o: Observation, answer: Applied) {
    && Sound(db)
    && FormedIn(db, answer.rows.memoryId, answer.rows.versionId, f, id, o)
    && answer.rows.version == db.versions[answer.rows.versionId]
    && answer.rows.versionId != NO_ID
    && exists row :: RowOf(db.index, answer.rows.versionId, row) && db.index.rows[row].text == MemoryText(answer.rows.version.payload)
  }

  /** A create whose rows hold what an observation's plan asks for leaves the formed memory. */
  lemma RowsAreFormed(db: Db, after: Db, a: Attempt, plan: Plan, rows: Rows, now: int)
    requires PlanCarries(a, plan) && HoldsCreate(plan.proposal, rows, now) && AddsOneMemory(db, after, rows)
    ensures FormedIn(after, rows.memoryId, rows.versionId, a.payload.memoryFunction, a.payload.observation, plan.observation)
    ensures rows.version == after.versions[rows.versionId]
    ensures RowOf(after.index, rows.versionId, db.index.next)
    ensures after.index.rows[db.index.next].text == MemoryText(rows.version.payload)
  {
    TextCarries(rows.version.payload, a.payload.memoryFunction, a.payload.observation, plan.observation);
    assert RowOf(after.index, rows.versionId, db.index.next);
  }

  lemma CreateFormed(db: Db, a: Attempt, plan: Plan, now: int)
    requires PlanCarries(a, plan) && a.payload.applyScope == plan.observation.scope && a.payload.applyScope.actor != NO_ID
    requires plan.proposal.id !in db.operations
    requires MemoryIdOf(plan.proposal.id) !in db.memories && VersionIdOf(plan.proposal.id) !in db.versions
    requires Grounded(db, plan.observation.scope, a.payload.memoryFunction, now, plan.proposal.body.create.payload)
    ensures var (p, scope) := (plan.proposal, a.payload.applyScope);
      var r := Apply(db, p, Some(scope), scope.actor, now);
      && r.Committed?
      && r.applied.operation.actor == scope.actor
      && FormedIn(r.db, r.applied.rows.memoryId, r.applied.rows.versionId, a.payload.memoryFunction, a.payload.observation, plan.observation)
      && r.applied.rows.version == r.db.versions[r.applied.rows.versionId]
      && r.applied.rows.versionId != NO_ID
      && RowOf(r.db.index, r.applied.rows.versionId, db.index.next)
      && r.db.index.rows[db.index.next].text == MemoryText(r.applied.rows.version.payload)
  {
    var (p, scope) := (plan.proposal, a.payload.applyScope);
    assert ParentsSound(db, scope, None, []);
    CreateAcceptedIff(db, p, Some(scope), scope.actor, now);
    CreateStores(db, p, Some(scope), scope.actor, now);
    OperationLogged(db, p, Some(scope), scope.actor, now);
    var r := Apply(db, p, Some(scope), scope.actor, now);
    FreshVersionNamed(db, p, Some(scope), scope.actor, now);
    RowsAreFormed(db, r.db, a, plan, r.applied.rows, now);
  }

  lemma FreshVersionNamed(db: Db, p: Proposal, authorized: Option<Scope>, actor: Id, at: int)
    requires p.action == Create && p.id !in db.operations && Apply(db, p, authorized, actor, at).Committed?
    ensures Apply(db, p, authorized, actor, at).applied.rows.versionId != NO_ID
  {
  }

  lemma AppliedIsNext(db: Db, p: Proposal, authorized: Option<Scope>, actor: Id, at: int)
    requires Apply(db, p, authorized, actor, at).Committed?
    ensures Runs.Next(db, ApplyStep(p, authorized, actor, at)) == Apply(db, p, authorized, actor, at).db
  {
  }

  lemma Answers(db: Db, a: Attempt, plan: Plan, now: int)
    requires Sound(db) && PlanCarries(a, plan)
    requires a.payload.applyScope == plan.observation.scope && a.payload.applyScope.actor != NO_ID
    requires plan.proposal.id !in db.operations
    requires MemoryIdOf(plan.proposal.id) !in db.memories && VersionIdOf(plan.proposal.id) !in db.versions
    requires Grounded(db, plan.observation.scope, a.payload.memoryFunction, now, plan.proposal.body.create.payload)
    ensures Answer(db, a, plan.proposal, now).Some?
    ensures AnswerStored(Runs.Next(db, ApplyStepOf(a, plan, now)), a.payload.memoryFunction, a.payload.observation,
                         plan.observation, Answer(db, a, plan.proposal, now).value)
  {
    var scope := a.payload.applyScope;
    CreateFormed(db, a, plan, now);
    SoundApply(db, plan.proposal, Some(scope), scope.actor, now);
    AppliedIsNext(db, plan.proposal, Some(scope), scope.actor, now);
  }

  lemma AppliedIs(db: Db, jobs: JobTable, a: Attempt, plan: Plan, now: int)
    requires a.phase == Referenced(plan) && a.payload.FormationPayload? && Answer(db, a, plan.proposal, now).Some?
    ensures DoApply(Sys(db, jobs, [a]), 0, now)
         == Sys(Runs.Next(db, ApplyStepOf(a, plan, now)), jobs,
                [a.(phase := Answered(plan, Answer(db, a, plan.proposal, now).value))])
  {
  }

  lemma Applies(db: Db, s: Sys, jobs: JobTable, a: Attempt, plan: Plan, clock: Clock)
    requires ReadyToApply(db, s, jobs, a, plan, clock)
    requires a.payload.applyScope == plan.observation.scope && a.payload.applyScope.actor != NO_ID
    requires plan.proposal.id !in db.operations
    requires MemoryIdOf(plan.proposal.id) !in db.memories && VersionIdOf(plan.proposal.id) !in db.versions
    ensures AnsweredOk(DoApply(s, 0, clock.apply), jobs, a, plan)
  {
    var ready := a.(phase := Referenced(plan));
    assert s == Sys(s.db, jobs, [ready]);
    Answers(s.db, ready, plan, clock.apply);
    AppliedIs(s.db, jobs, ready, plan, clock.apply);
  }

  // ----- Embedding and completing -----

  ghost predicate FinishingOk(s: Sys, jobs: JobTable, a: Attempt, plan: Plan, provider: Option<Provider>) {
    && a.payload.FormationPayload?
    && s.jobs == jobs
    && |s.attempts| == 1
    && s.attempts[0].phase.Finishing?
    && var answer := s.attempts[0].phase.answer;
      && s.attempts == [a.(phase := Finishing(plan, answer))]
      && FormedIn(s.db, answer.rows.memoryId, answer.rows.versionId, a.payload.memoryFunction, a.payload.observation, plan.observation)
      && EmbeddedIn(s.db, answer.rows.versionId, provider)
  }

  lemma EmbedAccepted(s: Sys, answer: Applied, a: Attempt, plan: Plan, identity: Embedder, vector: seq<int>, now: int)
    requires a.payload.FormationPayload? && plan.observation.content != "" && Sound(s.db)
    requires FormedIn(s.db, answer.rows.memoryId, answer.rows.versionId, a.payload.memoryFunction, a.payload.observation, plan.observation)
    requires answer.rows.version == s.db.versions[answer.rows.versionId] && answer.rows.versionId != NO_ID
    requires exists row :: RowOf(s.db.index, answer.rows.versionId, row) && s.db.index.rows[row].text == MemoryText(answer.rows.version.payload)
    requires identity.provider != "" && identity.model != ""
    requires 0 < |vector| <= 16384 && exists i :: 0 <= i < |vector| && vector[i] != 0
    ensures var step := EmbedStepOf(answer, identity, vector, now);
      && Accepted(s.db, step)
      && Runs.Next(s.db, step) == s.db.(embeddings := Runs.Next(s.db, step).embeddings)
      && EmbeddingKey(answer.rows.versionId, identity.provider, identity.model) in Runs.Next(s.db, step).embeddings
  {
    var text := MemoryText(answer.rows.version.payload);
    TextCarries(answer.rows.version.payload, a.payload.memoryFunction, a.payload.observation, plan.observation);
    var row :| RowOf(s.db.index, answer.rows.versionId, row) && s.db.index.rows[row].text == text;
    EmbeddingStored(s.db, EmbeddingKey(answer.rows.versionId, identity.provider, identity.model), text, vector, now, row);
  }

  lemma EmbeddingsKeepFormed(db: Db, embeddings: map<EmbeddingKey, Embedding>, memory: Id, version: Id, f: MemoryFunction, id: Id, o: Observation)
    requires FormedIn(db, memory, version, f, id, o)
    ensures FormedIn(db.(embeddings := embeddings), memory, version, f, id, o)
  {
    var row :| RowOf(db.index, version, row) && EndsWith(db.index.rows[row].text, o.content);
  }

  lemma EmbedsAnswer(s: Sys, jobs: JobTable, a: Attempt, plan: Plan, provider: Option<Provider>, now: int)
    requires a.payload.FormationPayload? && AnsweredOk(s, jobs, a, plan) && Embeds(provider) && plan.observation.content != ""
    ensures FinishingOk(Embedded(s, 0, provider, now), jobs, a, plan, provider)
  {
    if provider.Some? {
      var answer, identity := s.attempts[0].phase.answer, provider.value.identity;
      var text := MemoryText(answer.rows.version.payload);
      TextCarries(answer.rows.version.payload, a.payload.memoryFunction, a.payload.observation, plan.observation);
      var vector := provider.value.vector(text).value;
      EmbedAccepted(s, answer, a, plan, identity, vector, now);
      EmbeddingsKeepFormed(s.db, Runs.Next(s.db, EmbedStepOf(answer, identity, vector, now)).embeddings, answer.rows.memoryId,
                           answer.rows.versionId, a.payload.memoryFunction, a.payload.observation, plan.observation);
    }
  }

  /** The job is completed with a result that names the formed memory, which is in the tables. */
  ghost predicate SucceedsWith(db: Db, jobs: JobTable, id: Id, f: MemoryFunction, observation: Id, o: Observation, provider: Option<Provider>) {
    && id in jobs
    && jobs[id].state == Succeeded
    && jobs[id].result.Some?
    && jobs[id].result.value.proposal == ProposalIdOf(observation, f)
    && jobs[id].result.value.operation == Derived(OperationKind, ProposalIdOf(observation, f), NO_ID)
    && FormedIn(db, jobs[id].result.value.memory, jobs[id].result.value.version, f, observation, o)
    && EmbeddedIn(db, jobs[id].result.value.version, provider)
  }

  lemma Completes(s: Sys, jobs: JobTable, a: Attempt, plan: Plan, provider: Option<Provider>, now: int)
    requires FinishingOk(s, jobs, a, plan, provider) && a.payload.FormationPayload?
    requires plan.proposal.id == ProposalIdOf(a.payload.observation, a.payload.memoryFunction)
    requires a.job != NO_ID && a.worker != "" && HoldsLease(jobs, a.job, a.worker, now)
    ensures var after := DoFail(DoComplete(s, 0, now), 0, FAILURE_CODE, now);
      SucceedsWith(after.db, after.jobs, a.job, a.payload.memoryFunction, a.payload.observation, plan.observation, provider)
  {
    assert MayComplete(s.jobs, s.attempts[0].job, s.attempts[0].worker, now);
  }

  // ----- One attempt -----

  lemma Prepares(db: Db, jobs: JobTable, a: Attempt, clock: Clock) returns (plan: Plan)
    requires Sound(db) && a.phase.Claimed? && OrdinaryJob(db, a.namespace, a.payload) && Formable(db, a.payload, clock)
    ensures PlanCarries(a, plan) && plan.observation == db.observations[a.payload.observation]
    ensures ReadyToApply(db, Prepared(Sys(db, jobs, [a]), 0, clock), jobs, a, plan, clock)
  {
    PlannedIffOrdinary(db, a);
    plan := PlanFor(db, a).value;
    ProposalCarries(a.payload.memoryFunction, a.payload.observation, plan.observation);
    ProposalWellFormed(a.payload.memoryFunction, a.payload.observation, plan.observation);
    assert DoLoad(Sys(db, jobs, [a]), 0) == Sys(db, jobs, [a.(phase := Planned(plan))]);
    ReferencesEnsured(db, jobs, a.(phase := Planned(plan)), plan, clock);
  }

  lemma ApplyKeepsCaptures(db: Db, p: Proposal, authorized: Option<Scope>, actor: Id, at: int)
    ensures SameCaptures(db, Runs.Next(db, ApplyStep(p, authorized, actor, at)))
  {
    ShapeMutation(db, p, authorized, at);
  }

  lemma EmbedKeepsCaptures(db: Db, key: EmbeddingKey, content: string, vector: seq<int>, at: int)
    ensures SameCaptures(db, Runs.Next(db, EmbedStep(key, content, vector, at)))
  {
  }

  lemma AppliedKeepsCaptures(s: Sys, now: int)
    requires |s.attempts| == 1
    ensures SameCaptures(s.db, DoApply(s, 0, now).db)
  {
    if s.attempts[0].phase.Referenced? && s.attempts[0].payload.FormationPayload? {
      var scope := s.attempts[0].payload.applyScope;
      ApplyKeepsCaptures(s.db, s.attempts[0].phase.plan.proposal, Some(scope), scope.actor, now);
    }
  }

  lemma EmbeddedKeepsCaptures(s: Sys, provider: Option<Provider>, now: int)
    requires |s.attempts| == 1
    ensures SameCaptures(s.db, Embedded(s, 0, provider, now).db)
  {
    if provider.Some? && s.attempts[0].phase.Answered? {
      var text := MemoryText(s.attempts[0].phase.answer.rows.version.payload);
      if provider.value.vector(text).Some? {
        var key := EmbeddingKey(s.attempts[0].phase.answer.rows.versionId, provider.value.identity.provider, provider.value.identity.model);
        EmbedKeepsCaptures(s.db, key, text, provider.value.vector(text).value, now);
      }
    }
  }

  lemma EndKeepsTables(s: Sys, now: int)
    ensures DoFail(DoComplete(s, 0, now), 0, FAILURE_CODE, now).db == s.db
  {
  }

  /** From applying on, an attempt touches neither episodes nor outcomes nor working sets. */
  lemma LateKeepsCaptures(s: Sys, provider: Option<Provider>, clock: Clock)
    requires |s.attempts| == 1
    ensures SameCaptures(s.db, DoFail(Finished(s, 0, provider, clock), 0, FAILURE_CODE, clock.finish).db)
  {
    AppliedKeepsCaptures(s, clock.apply);
    EmbeddedKeepsCaptures(DoApply(s, 0, clock.apply), provider, clock.embed);
    EndKeepsTables(Embedded(DoApply(s, 0, clock.apply), 0, provider, clock.embed), clock.finish);
  }

  /** An ordinary job over what can be formed succeeds, when its lease outlives the attempt. */
  lemma OrdinaryJobSucceeds(db: Db, jobs: JobTable, a: Attempt, provider: Option<Provider>, clock: Clock)
    requires Sound(db) && a.phase.Claimed?
    requires OrdinaryJob(db, a.namespace, a.payload) && Formable(db, a.payload, clock) && Embeds(provider)
    requires a.job != NO_ID && a.worker != "" && HoldsLease(jobs, a.job, a.worker, clock.finish)
    ensures var after := Attempted(Sys(db, jobs, [a]), 0, provider, clock);
      && SucceedsWith(after.db, after.jobs, a.job, a.payload.memoryFunction, a.payload.observation,
                      db.observations[a.payload.observation], provider)
      && (ReferenceFree(db, a.payload, db.observations[a.payload.observation], clock) ==>
           ReferenceHolds(after.db, a.payload, a.payload.observation, db.observations[a.payload.observation]))
  {
    var plan := Prepares(db, jobs, a, clock);
    var prepared := Prepared(Sys(db, jobs, [a]), 0, clock);
    Applies(db, prepared, jobs, a, plan, clock);
    EmbedsAnswer(DoApply(prepared, 0, clock.apply), jobs, a, plan, provider, clock.embed);
    Completes(Embedded(DoApply(prepared, 0, clock.apply), 0, provider, clock.embed), jobs, a, plan, provider, clock.finish);
    LateKeepsCaptures(prepared, provider, clock);
  }

  // ----- Any other job -----

  /** An attempt at a job that is not ordinary stores nothing and completes nothing; with its lease it reports the failure. */
  lemma OtherJobFails(db: Db, jobs: JobTable, a: Attempt, provider: Option<Provider>, clock: Clock)
    requires a.phase.Claimed? && !OrdinaryJob(db, a.namespace, a.payload)
    requires a.job in jobs && jobs[a.job].state == Running
    ensures var after := Attempted(Sys(db, jobs, [a]), 0, provider, clock);
      && after.db == db
      && a.job in after.jobs
      && after.jobs[a.job].state != Succeeded
      && after.jobs[a.job].result == jobs[a.job].result
      && (a.job != NO_ID && a.worker != "" && HoldsLease(jobs, a.job, a.worker, clock.finish) ==>
           after.jobs[a.job].state == (if jobs[a.job].attempts < 3 then Queued else Failed))
  {
    PlannedIffOrdinary(db, a);
    var broken := Sys(db, jobs, [a.(phase := Broken)]);
    assert DoLoad(Sys(db, jobs, [a]), 0) == broken;
    assert Prepared(Sys(db, jobs, [a]), 0, clock) == broken;
    BrokenStays(broken, provider, clock);
  }

  lemma BrokenStays(s: Sys, provider: Option<Provider>, clock: Clock)
    requires |s.attempts| == 1 && s.attempts[0].phase.Broken?
    ensures Finished(s, 0, provider, clock) == s
  {
  }

  // ----- One pass over the tables -----

  /** What a pass that claims this job has to leave behind, said of the tables before and after it. */
  ghost predicate PassKeepsPromise(db: Db, j: Job, id: Id, provider: Option<Provider>, lease: int, clock: Clock, after: Db, jobs: JobTable) {
    && (OrdinaryJob(db, j.namespace, j.payload) && Formable(db, j.payload, clock) && Embeds(provider)
         && id != NO_ID && clock.finish < clock.claim + lease ==>
         && SucceedsWith(after, jobs, id, j.payload.memoryFunction, j.payload.observation, db.observations[j.payload.observation], provider)
         && (ReferenceFree(db, j.payload, db.observations[j.payload.observation], clock) ==>
              ReferenceHolds(after, j.payload, j.payload.observation, db.observations[j.payload.observation])))
    && (!OrdinaryJob(db, j.namespace, j.payload) ==>
         after == db && id in jobs && jobs[id].state != Succeeded && jobs[id].result == j.result)
  }

  /** A pass over a job forms it when it can be formed and never completes one that is not ordinary. */
  lemma PassForms(db: Db, jobs: JobTable, id: Id, worker: string, lease: int, provider: Option<Provider>, clock: Clock)
    requires Sound(db) && id in jobs && worker != ""
    ensures var j := jobs[id];
      var claimed := jobs[id := ClaimedJob(j, worker, clock.claim, lease)];
      var after := Attempted(Sys(db, claimed, [Attempt(id, j.namespace, j.payload, worker, Claimed)]), 0, provider, clock);
      PassKeepsPromise(db, j, id, provider, lease, clock, after.db, after.jobs)
  {
    var j := jobs[id];
    var claimed, a := jobs[id := ClaimedJob(j, worker, clock.claim, lease)], Attempt(id, j.namespace, j.payload, worker, Claimed);
    if OrdinaryJob(db, j.namespace, j.payload) {
      if Formable(db, j.payload, clock) && Embeds(provider) && id != NO_ID && clock.finish < clock.claim + lease {
        OrdinaryJobSucceeds(db, claimed, a, provider, clock);
      }
    } else {
      OtherJobFails(db, claimed, a, provider, clock);
    }
  }
}
