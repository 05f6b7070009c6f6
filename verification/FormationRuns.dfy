// Formation over runs of the protocol: the first captured job of an empty store is formed, and
// an attempt that crashed after applying is finished by a later one, with the same memory.
module FormationRuns {
  import opened Ids
  import opened Graph
  import opened Domain
  import opened Database
  import opened Lifecycle
  import opened Embeddings
  import opened Bundles
  import opened Captures
  import opened Authorship
  import opened IndexInvariant
  import opened ApplyEffects
  import opened StoreEffects
  import opened Jobs
  import opened Formation
  import opened Runs
  import opened Worker
  import opened Attempts
  import opened FormationSuccess

  // ----- From capture to memory -----

  /** A generator-free job for this observation that can be claimed at the clock's first reading. */
  predicate AsksFor(request: Request, observationId: Id, o: Observation, at: int, now: int) {
    && request.namespace == o.scope.namespace && request.namespace != NO_ID && request.kind != "" && request.key != ""
    && request.payload.FormationPayload?
    && request.payload.mode == GeneratorFree
    && request.payload.observation == observationId
    && request.payload.applyScope == o.scope
    && (if request.availableAt.Some? then request.availableAt.value else at) <= now
  }

  /** An observation that says something, by an actor, with a task and time left if working memory is asked for. */
  predicate SaysSomething(o: Observation, payload: JobPayload, clock: Clock)
    requires payload.FormationPayload?
  {
    && o.content != "" && o.scope.actor != NO_ID
    && (payload.memoryFunction == Working ==>
         && o.scope.context != NO_ID
         && o.capturedAt <= clock.refer
         && (payload.workingExpiresAt.Some? ==>
              o.capturedAt < payload.workingExpiresAt.value && clock.apply < payload.workingExpiresAt.value))
  }

  function OnlyObserved(observationId: Id, o: Observation): Db {
    EMPTY.(observations := map[observationId := o])
  }

  lemma CaptureStores(observationId: Id, o: Observation, id: Id, request: Request, at: int)
    requires observationId != NO_ID && id != NO_ID && request.namespace == o.scope.namespace
    requires request.namespace != NO_ID && request.kind != "" && request.key != ""
    ensures Worker.After([CaptureAct(observationId, o, id, request, at)])
         == Sys(OnlyObserved(observationId, o), map[id := QueuedJob(request, at)], [])
  {
    var acts := [CaptureAct(observationId, o, id, request, at)];
    assert acts[..0] == [];
    assert Worker.After(acts) == DoCapture(Sys(EMPTY, map[], []), observationId, o, id, request, at);
    assert id in AfterEnqueue(map[], id, request, at);
  }

  lemma OnlyJobClaimed(db: Db, id: Id, j: Job, worker: string, now: int, lease: int)
    requires worker != "" && lease > 0 && j.state == Queued && j.availableAt <= now
    ensures DoClaim(Sys(db, map[id := j], []), worker, now, lease)
         == Sys(db, map[id := ClaimedJob(j, worker, now, lease)], [Attempt(id, j.namespace, j.payload, worker, Claimed)])
  {
    var jobs := map[id := j];
    assert ClaimableIds(jobs, now) == {id};
    assert Oldest(jobs, now, id);
    assert [] + [Attempt(id, j.namespace, j.payload, worker, Claimed)] == [Attempt(id, j.namespace, j.payload, worker, Claimed)];
    assert jobs[id := ClaimedJob(j, worker, now, lease)] == map[id := ClaimedJob(j, worker, now, lease)];
  }

  function ClaimedFirst(observationId: Id, o: Observation, id: Id, request: Request, at: int, worker: string, now: int, lease: int): Sys {
    Sys(OnlyObserved(observationId, o), map[id := ClaimedJob(QueuedJob(request, at), worker, now, lease)],
        [Attempt(id, request.namespace, request.payload, worker, Claimed)])
  }

  lemma CapturedAndClaimed(observationId: Id, o: Observation, id: Id, request: Request, at: int, worker: string, now: int, lease: int)
    requires observationId != NO_ID && id != NO_ID && AsksFor(request, observationId, o, at, now) && worker != "" && lease > 0
    ensures Worker.After([CaptureAct(observationId, o, id, request, at), ClaimAct(worker, now, lease)])
         == ClaimedFirst(observationId, o, id, request, at, worker, now, lease)
  {
    var acts := [CaptureAct(observationId, o, id, request, at), ClaimAct(worker, now, lease)];
    CaptureStores(observationId, o, id, request, at);
    OnlyJobClaimed(OnlyObserved(observationId, o), id, QueuedJob(request, at), worker, now, lease);
    assert acts[..1] == [CaptureAct(observationId, o, id, request, at)];
  }

  lemma ObservedIsSound(observationId: Id, o: Observation)
    requires observationId != NO_ID
    ensures Sound(OnlyObserved(observationId, o))
  {
    EveryRunIsSound([]);
    SoundObservation(EMPTY, observationId, o);
  }

  lemma FirstIsFormable(observationId: Id, o: Observation, payload: JobPayload, clock: Clock)
    requires payload.FormationPayload? && payload.observation == observationId && observationId != NO_ID
    requires SaysSomething(o, payload, clock)
    ensures Formable(OnlyObserved(observationId, o), payload, clock)
    ensures ReferenceFree(OnlyObserved(observationId, o), payload, o, clock)
  {
  }

  /**
   * In a fresh store an observation that is captured with its job, claimed, and attempted within
   * the lease becomes a memory that carries it, and the job says so. The attempt is a run of the
   * protocol.
   */
  lemma FirstJobIsFormed(observationId: Id, o: Observation, id: Id, request: Request, at: int, worker: string, lease: int,
                         provider: Option<Provider>, clock: Clock)
    requires observationId != NO_ID && id != NO_ID && worker != "" && lease > 0 && clock.finish < clock.claim + lease
    requires AsksFor(request, observationId, o, at, clock.claim) && SaysSomething(o, request.payload, clock) && Embeds(provider)
    ensures var acts := [CaptureAct(observationId, o, id, request, at), ClaimAct(worker, clock.claim, lease)];
      var s := Attempted(Worker.After(acts), 0, provider, clock);
      && Continues(acts, s)
      && SucceedsWith(s.db, s.jobs, id, request.payload.memoryFunction, observationId, o, provider)
      && ReferenceHolds(s.db, request.payload, observationId, o)
  {
    var acts := [CaptureAct(observationId, o, id, request, at), ClaimAct(worker, clock.claim, lease)];
    var first := ClaimedFirst(observationId, o, id, request, at, worker, clock.claim, lease);
    CapturedAndClaimed(observationId, o, id, request, at, worker, clock.claim, lease);
    ObservedIsSound(observationId, o);
    FirstIsFormable(observationId, o, request.payload, clock);
    OrdinaryJobSucceeds(first.db, first.jobs, first.attempts[0], provider, clock);
    AttemptIsRun(acts, 0, provider, clock);
  }

  // ----- After a crash -----

  /** The job's proposal was applied before, for this actor, and its memory is still active in the job's scope. */
  predicate AppliedBefore(db: Db, payload: JobPayload, head: Id)
    requires payload.FormationPayload?
  {
    var p := ProposalIdOf(payload.observation, payload.memoryFunction);
    && p in db.operations
    && db.operations[p].target == MemoryIdOf(p) && db.operations[p].actor == payload.applyScope.actor
    && payload.applyScope.actor != NO_ID
    && IsHead(db, MemoryIdOf(p), head)
    && db.memories[MemoryIdOf(p)].state == MemoryActive
    && db.memories[MemoryIdOf(p)].scope == payload.applyScope
    && head != NO_ID && db.versions[head].state != VersionForgotten && MemoryText(db.versions[head].payload) != ""
  }

  /** The episode or working set of the memory is there. */
  predicate ReferenceThere(db: Db, payload: JobPayload, o: Observation)
    requires payload.FormationPayload?
  {
    match payload.memoryFunction
    case Factual => true
    case Experiential => EpisodeIdOf(payload.observation) in db.episodes
    case Working => WorkingSetIdOf(o.scope) in db.workingSets
  }

  /** A replay answers with the memory and its head, and writes nothing. */
  lemma ReplayAnswers(db: Db, a: Attempt, plan: Plan, now: int, head: Id)
    requires Schema(db) && PlanCarries(a, plan) && AppliedBefore(db, a.payload, head)
    ensures var r := Answer(db, a, plan.proposal, now);
      && r.Some? && r.value.rows.memoryId == MemoryIdOf(plan.proposal.id) && r.value.rows.versionId == head
      && r.value.rows.version == db.versions[head]
    ensures Runs.Next(db, ApplyStepOf(a, plan, now)) == db
  {
    var (p, scope) := (plan.proposal, a.payload.applyScope);
    HeadUnique(db, MemoryIdOf(p.id), head);
    ReplayAnsweredIff(db, p, Some(scope), scope.actor, now);
    ReplayNeverWrites(db, p, Some(scope), scope.actor, now);
  }

  /** The head of an active memory takes an embedding of its text. */
  lemma HeadEmbeds(db: Db, answer: Applied, identity: Embedder, vector: seq<int>, now: int)
    requires Sound(db) && answer.rows.versionId in db.versions && db.versions[answer.rows.versionId] == answer.rows.version
    requires answer.rows.version.memory in db.memories && db.memories[answer.rows.version.memory].state == MemoryActive
    requires answer.rows.versionId != NO_ID && answer.rows.version.state != VersionForgotten && MemoryText(answer.rows.version.payload) != ""
    requires identity.provider != "" && identity.model != ""
    requires 0 < |vector| <= 16384 && exists i :: 0 <= i < |vector| && vector[i] != 0
    ensures var step := EmbedStepOf(answer, identity, vector, now);
      && Accepted(db, step)
      && Runs.Next(db, step) == db.(embeddings := Runs.Next(db, step).embeddings)
      && EmbeddingKey(answer.rows.versionId, identity.provider, identity.model) in Runs.Next(db, step).embeddings
  {
    var text, version := MemoryText(answer.rows.version.payload), answer.rows.versionId;
    SearchableHasOneRow(db, version);
    var row :| RowOf(db.index, version, row);
    EmbeddingStored(db, EmbeddingKey(version, identity.provider, identity.model), text, vector, now, row);
  }

  /** Only embeddings differ. */
  ghost predicate OnlyEmbeddings(db: Db, after: Db) {
    after == db.(embeddings := after.embeddings)
  }

  lemma EmbeddedIs(db: Db, jobs: JobTable, a: Attempt, plan: Plan, answer: Applied, provider: Provider, vector: seq<int>, now: int)
    requires a.phase == Answered(plan, answer) && provider.vector(MemoryText(answer.rows.version.payload)) == Some(vector)
    requires Accepted(db, EmbedStepOf(answer, provider.identity, vector, now))
    ensures Embedded(Sys(db, jobs, [a]), 0, Some(provider), now)
         == Sys(Runs.Next(db, EmbedStepOf(answer, provider.identity, vector, now)), jobs, [a.(phase := Finishing(plan, answer))])
  {
  }

  lemma RetryEmbeds(db: Db, jobs: JobTable, a: Attempt, plan: Plan, answer: Applied, provider: Option<Provider>, now: int)
    requires Sound(db) && a.phase == Answered(plan, answer) && Embeds(provider)
    requires answer.rows.versionId in db.versions && db.versions[answer.rows.versionId] == answer.rows.version
    requires answer.rows.version.memory in db.memories && db.memories[answer.rows.version.memory].state == MemoryActive
    requires answer.rows.versionId != NO_ID && answer.rows.version.state != VersionForgotten && MemoryText(answer.rows.version.payload) != ""
    ensures var s := Embedded(Sys(db, jobs, [a]), 0, provider, now);
      && s == Sys(s.db, jobs, [a.(phase := Finishing(plan, answer))])
      && OnlyEmbeddings(db, s.db) && EmbeddedIn(s.db, answer.rows.versionId, provider)
  {
    if provider.Some? {
      var vector := provider.value.vector(MemoryText(answer.rows.version.payload)).value;
      HeadEmbeds(db, answer, provider.value.identity, vector, now);
      EmbeddedIs(db, jobs, a, plan, answer, provider.value, vector, now);
    }
  }

  lemma RetryApplies(db: Db, jobs: JobTable, a: Attempt, plan: Plan, provider: Option<Provider>, clock: Clock, head: Id)
    requires Sound(db) && PlanCarries(a, plan) && AppliedBefore(db, a.payload, head) && Embeds(provider)
    requires a.phase == Referenced(plan)
    ensures var s := Embedded(DoApply(Sys(db, jobs, [a]), 0, clock.apply), 0, provider, clock.embed);
      && s.jobs == jobs && OnlyEmbeddings(db, s.db) && EmbeddedIn(s.db, head, provider)
      && |s.attempts| == 1 && s.attempts[0].phase.Finishing? && s.attempts == [a.(phase := s.attempts[0].phase)]
      && s.attempts[0].phase.answer.rows.memoryId == MemoryIdOf(plan.proposal.id)
      && s.attempts[0].phase.answer.rows.versionId == head
  {
    ReplayAnswers(db, a, plan, clock.apply, head);
    var answer := Answer(db, a, plan.proposal, clock.apply).value;
    AppliedIs(db, jobs, a, plan, clock.apply);
    RetryEmbeds(db, jobs, a.(phase := Answered(plan, answer)), plan, answer, provider, clock.embed);
  }

  lemma RetryPrepares(db: Db, jobs: JobTable, a: Attempt, clock: Clock) returns (plan: Plan)
    requires a.phase.Claimed? && OrdinaryJob(db, a.namespace, a.payload)
    requires ReferenceThere(db, a.payload, db.observations[a.payload.observation])
    ensures PlanCarries(a, plan)
    ensures Prepared(Sys(db, jobs, [a]), 0, clock) == Sys(db, jobs, [a.(phase := Referenced(plan))])
  {
    PlannedIffOrdinary(db, a);
    plan := PlanFor(db, a).value;
    ProposalCarries(a.payload.memoryFunction, a.payload.observation, plan.observation);
    ProposalWellFormed(a.payload.memoryFunction, a.payload.observation, plan.observation);
    assert DoLoad(Sys(db, jobs, [a]), 0) == Sys(db, jobs, [a.(phase := Planned(plan))]);
  }

  lemma RetryFinishes(s: Sys, a: Attempt, memory: Id, head: Id, now: int)
    requires |s.attempts| == 1 && s.attempts[0].phase.Finishing? && s.attempts == [a.(phase := s.attempts[0].phase)]
    requires s.attempts[0].phase.answer.rows.memoryId == memory && s.attempts[0].phase.answer.rows.versionId == head
    requires a.job != NO_ID && a.worker != "" && HoldsLease(s.jobs, a.job, a.worker, now)
    ensures var after := DoFail(DoComplete(s, 0, now), 0, FAILURE_CODE, now);
      && after.db == s.db
      && a.job in after.jobs && after.jobs[a.job].state == Succeeded && after.jobs[a.job].result.Some?
      && after.jobs[a.job].result.value.memory == memory && after.jobs[a.job].result.value.version == head
  {
    assert MayComplete(s.jobs, s.attempts[0].job, s.attempts[0].worker, now);
  }

  /**
   * An attempt that stopped after its proposal was applied loses nothing: a later attempt writes
   * no memory, version or edge, and completes the job with the memory that is there.
   */
  lemma RetryCompletes(db: Db, jobs: JobTable, a: Attempt, provider: Option<Provider>, clock: Clock, head: Id)
    requires Sound(db) && a.phase.Claimed? && OrdinaryJob(db, a.namespace, a.payload) && Embeds(provider)
    requires ReferenceThere(db, a.payload, db.observations[a.payload.observation]) && AppliedBefore(db, a.payload, head)
    requires a.job != NO_ID && a.worker != "" && HoldsLease(jobs, a.job, a.worker, clock.finish)
    ensures var after := Attempted(Sys(db, jobs, [a]), 0, provider, clock);
      && OnlyEmbeddings(db, after.db) && EmbeddedIn(after.db, head, provider)
      && a.job in after.jobs && after.jobs[a.job].state == Succeeded && after.jobs[a.job].result.Some?
      && after.jobs[a.job].result.value.memory == MemoryIdOf(ProposalIdOf(a.payload.observation, a.payload.memoryFunction))
      && after.jobs[a.job].result.value.version == head
  {
    var plan := RetryPrepares(db, jobs, a, clock);
    var ready := a.(phase := Referenced(plan));
    RetryApplies(db, jobs, ready, plan, provider, clock, head);
    var s := Embedded(DoApply(Sys(db, jobs, [ready]), 0, clock.apply), 0, provider, clock.embed);
    RetryFinishes(s, ready, MemoryIdOf(plan.proposal.id), head, clock.finish);
  }
}
