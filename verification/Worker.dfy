// The formation worker as a protocol: what one attempt at a job does, one committed
// statement at a time, so that attempts of any number of workers can interleave and stop
// anywhere.
module Worker {
  import opened Ids
  import opened Domain
  import opened Database
  import opened Lifecycle
  import opened Embeddings
  import opened WorkingSets
  import opened Bundles
  import opened Captures
  import opened Jobs
  import opened Formation
  import opened Runs

  const SECOND := 1_000_000_000
  const MAX_ATTEMPTS := 3
  const WORKER_NAME := "formation-worker"

  datatype Embedder = Embedder(provider: string, model: string)

  /** The observation an attempt loaded and the proposal it formed from it. */
  datatype Plan = Plan(observation: Observation, proposal: Proposal)

  /** How far an attempt has come; Broken still has to report its failure. */
  datatype Phase =
    | Claimed
    | Planned(plan: Plan)
    | Unreferenced(plan: Plan)
    | Referenced(plan: Plan)
    | Answered(plan: Plan, answer: Applied)
    | Finishing(plan: Plan, answer: Applied)
    | Broken
    | Over

  datatype Attempt = Attempt(job: Id, namespace: Id, payload: JobPayload, worker: string, phase: Phase)

  datatype Sys = Sys(db: Db, jobs: JobTable, attempts: seq<Attempt>)

  function InPhase(sys: Sys, a: nat, phase: Phase): Sys
    requires a < |sys.attempts|
  {
    sys.(attempts := sys.attempts[a := sys.attempts[a].(phase := phase)])
  }

  // ----- What each statement of an attempt decides -----

  /** Decode the job, load its observation, and form the proposal. */
  function PlanFor(db: Db, a: Attempt): Option<Plan> {
    if !a.payload.FormationPayload? || a.payload.observation !in db.observations then None else
    var o := db.observations[a.payload.observation];
    if o.scope != a.payload.applyScope || o.scope.namespace != a.namespace then None
    else if a.payload.mode != GeneratorFree then None
    else match Propose(a.payload.memoryFunction, a.payload.observation, o)
      case Success(p) => Some(Plan(o, p))
      case Failure(_) => None
  }

  /** The episode or working set the proposal refers to is not there yet. */
  predicate ReferenceMissing(db: Db, p: Proposal) {
    && p.body.CreateBody?
    && match p.body.create.payload
       case FactualPayload(_, _, _, _, _) => false
       case ExperientialPayload(_, evidence) => evidence != [] && evidence[0].episode !in db.episodes
       case WorkingPayload(id, _, _, _, _) => id !in db.workingSets
  }

  function NewEpisode(id: Id, o: Observation): Episode {
    Episode(o.scope.namespace, o.scope.subject, o.content, [id], o.capturedAt - 1, o.capturedAt)
  }

  function NewOutcomes(id: Id, o: Observation): seq<Row<Outcome>> {
    [Row(OutcomeIdOf(id), Outcome(EpisodeIdOf(id), o.scope.actor, "observation", 0.0, o.content, o.capturedAt))]
  }

  function NewSet(payload: JobPayload, o: Observation, goal: string, now: int): WorkingSet
    requires payload.FormationPayload?
  {
    WorkingSet(o.scope, o.scope.context, goal, payload.workingGlobalRecall, payload.workingExpiresAt, o.capturedAt, now, SetActive)
  }

  /** The store step that creates what the proposal refers to. */
  function ReferenceStep(a: Attempt, plan: Plan, now: int): Step
    requires a.payload.FormationPayload?
  {
    var id := a.payload.observation;
    if plan.proposal.body.CreateBody? && plan.proposal.body.create.payload.WorkingPayload? then
      WorkingSetStep(WorkingSetIdOf(plan.observation.scope),
                     NewSet(a.payload, plan.observation, plan.proposal.body.create.payload.goal, now))
    else
      EpisodeStep(EpisodeIdOf(id), NewEpisode(id, plan.observation), NewOutcomes(id, plan.observation))
  }

  ghost predicate Accepted(db: Db, step: Step) {
    match step
    case WorkingSetStep(id, set_) => PutWorkingSet(db, id, set_).Success?
    case EpisodeStep(id, episode, outcomes) => PutEpisode(db, id, episode, outcomes).Success?
    case EmbedStep(key, content, vector, at) => PutEmbedding(db, key, content, vector, at).Success?
    case _ => false
  }

  /** The application service also refuses an answer recorded for another actor. */
  ghost function Answer(db: Db, a: Attempt, p: Proposal, now: int): Option<Applied>
    requires a.payload.FormationPayload?
  {
    match Apply(db, p, Some(a.payload.applyScope), a.payload.applyScope.actor, now)
    case Committed(_, answer) => if answer.operation.actor == a.payload.applyScope.actor then Some(answer) else None
    case RolledBack(_) => None
  }

  function ResultOf(plan: Plan, answer: Applied): JobResult {
    JobResult(answer.rows.memoryId, answer.rows.versionId, Derived(OperationKind, plan.proposal.id, NO_ID), plan.proposal.id)
  }

  // ----- The actions -----

  datatype Action =
    | CaptureAct(observationId: Id, observation: Observation, id: Id, request: Request, at: int)
    | ClaimAct(worker: string, now: int, lease: int)
    | LoadAct(a: nat)
    | CheckAct(a: nat)
    | ReferAct(a: nat, now: int)
    | ApplyAct(a: nat, now: int)
    | EmbedAct(a: nat, embedder: Embedder, vector: Option<seq<int>>, now: int)
    | SkipEmbedAct(a: nat)
    | CompleteAct(a: nat, now: int)
    | FailAct(a: nat, code: string, now: int)
    | ErrorAct(a: nat)
    | CrashAct(a: nat)
    | OtherAct(step: Step)

  ghost function DoCapture(sys: Sys, observationId: Id, o: Observation, id: Id, request: Request, at: int): Sys {
    var jobs := AfterEnqueue(sys.jobs, id, request, at);
    if request.namespace != o.scope.namespace || jobs == sys.jobs || PutObservation(sys.db, observationId, o).Failure? then sys
    else sys.(db := Runs.Next(sys.db, ObservationStep(observationId, o)), jobs := jobs)
  }

  ghost predicate CanClaim(jobs: JobTable, worker: string, now: int, lease: int) {
    ValidClaim(worker, lease) && exists id :: Oldest(jobs, now, id)
  }

  ghost function DoClaim(sys: Sys, worker: string, now: int, lease: int): Sys {
    if !CanClaim(sys.jobs, worker, now, lease) then sys else
    var id :| Oldest(sys.jobs, now, id);
    var j := sys.jobs[id];
    sys.(jobs := sys.jobs[id := ClaimedJob(j, worker, now, lease)],
         attempts := sys.attempts + [Attempt(id, j.namespace, j.payload, worker, Claimed)])
  }

  ghost function DoLoad(sys: Sys, a: nat): Sys {
    if a >= |sys.attempts| || !sys.attempts[a].phase.Claimed? then sys else
    match PlanFor(sys.db, sys.attempts[a])
    case Some(plan) => InPhase(sys, a, Planned(plan))
    case None => InPhase(sys, a, Broken)
  }

  ghost function DoCheck(sys: Sys, a: nat): Sys {
    if a >= |sys.attempts| || !sys.attempts[a].phase.Planned? then sys else
    var plan := sys.attempts[a].phase.plan;
    InPhase(sys, a, if ReferenceMissing(sys.db, plan.proposal) then Unreferenced(plan) else Referenced(plan))
  }

  ghost function DoRefer(sys: Sys, a: nat, now: int): Sys {
    if a >= |sys.attempts| || !sys.attempts[a].phase.Unreferenced? || !sys.attempts[a].payload.FormationPayload? then sys else
    var plan := sys.attempts[a].phase.plan;
    var step := ReferenceStep(sys.attempts[a], plan, now);
    InPhase(sys.(db := Runs.Next(sys.db, step)), a, if Accepted(sys.db, step) then Referenced(plan) else Broken)
  }

  ghost function ApplyStepOf(a: Attempt, plan: Plan, now: int): Step
    requires a.payload.FormationPayload?
  {
    ApplyStep(plan.proposal, Some(a.payload.applyScope), a.payload.applyScope.actor, now)
  }

  ghost function DoApply(sys: Sys, a: nat, now: int): Sys {
    if a >= |sys.attempts| || !sys.attempts[a].phase.Referenced? || !sys.attempts[a].payload.FormationPayload? then sys else
    var plan := sys.attempts[a].phase.plan;
    var next := sys.(db := Runs.Next(sys.db, ApplyStepOf(sys.attempts[a], plan, now)));
    match Answer(sys.db, sys.attempts[a], plan.proposal, now)
    case Some(answer) => InPhase(next, a, Answered(plan, answer))
    case None => InPhase(next, a, Broken)
  }

  function EmbedStepOf(answer: Applied, embedder: Embedder, vector: seq<int>, now: int): Step {
    EmbedStep(EmbeddingKey(answer.rows.versionId, embedder.provider, embedder.model), MemoryText(answer.rows.version.payload), vector, now)
  }

  /** No vector stands for an embedding provider that failed. */
  ghost function DoEmbed(sys: Sys, a: nat, embedder: Embedder, vector: Option<seq<int>>, now: int): Sys {
    if a >= |sys.attempts| || !sys.attempts[a].phase.Answered? then sys else
    var phase := sys.attempts[a].phase;
    if vector.None? then InPhase(sys, a, Broken) else
    var step := EmbedStepOf(phase.answer, embedder, vector.value, now);
    InPhase(sys.(db := Runs.Next(sys.db, step)), a, if Accepted(sys.db, step) then Finishing(phase.plan, phase.answer) else Broken)
  }

  /** A worker without an embedding provider goes straight on. */
  ghost function DoSkipEmbed(sys: Sys, a: nat): Sys {
    if a >= |sys.attempts| || !sys.attempts[a].phase.Answered? then sys
    else InPhase(sys, a, Finishing(sys.attempts[a].phase.plan, sys.attempts[a].phase.answer))
  }

  ghost function DoComplete(sys: Sys, a: nat, now: int): Sys {
    if a >= |sys.attempts| || !sys.attempts[a].phase.Finishing? then sys else
    var at := sys.attempts[a];
    if MayComplete(sys.jobs, at.job, at.worker, now) then
      InPhase(sys.(jobs := sys.jobs[at.job := CompletedJob(sys.jobs[at.job], ResultOf(at.phase.plan, at.phase.answer), now)]), a, Over)
    else
      InPhase(sys, a, Broken)
  }

  ghost function DoFail(sys: Sys, a: nat, code: string, now: int): Sys {
    if a >= |sys.attempts| || !sys.attempts[a].phase.Broken? then sys else
    var at := sys.attempts[a];
    if MayFail(sys.jobs, at.job, at.worker, code, now, SECOND, MAX_ATTEMPTS) then
      InPhase(sys.(jobs := sys.jobs[at.job := FailedJob(sys.jobs[at.job], code, now, SECOND, MAX_ATTEMPTS)]), a, Over)
    else
      InPhase(sys, a, Over)
  }

  /**
   * Any statement may return an error, whether or not what it wrote was committed; the
   * attempt then goes on to report its failure.
   */
  ghost function DoError(sys: Sys, a: nat): Sys {
    if a >= |sys.attempts| || sys.attempts[a].phase.Over? then sys else InPhase(sys, a, Broken)
  }

  ghost function Next(sys: Sys, act: Action): Sys {
    match act
    case CaptureAct(observationId, o, id, request, at) => DoCapture(sys, observationId, o, id, request, at)
    case ClaimAct(worker, now, lease) => DoClaim(sys, worker, now, lease)
    case LoadAct(a) => DoLoad(sys, a)
    case CheckAct(a) => DoCheck(sys, a)
    case ReferAct(a, now) => DoRefer(sys, a, now)
    case ApplyAct(a, now) => DoApply(sys, a, now)
    case EmbedAct(a, embedder, vector, now) => DoEmbed(sys, a, embedder, vector, now)
    case SkipEmbedAct(a) => DoSkipEmbed(sys, a)
    case CompleteAct(a, now) => DoComplete(sys, a, now)
    case FailAct(a, code, now) => DoFail(sys, a, code, now)
    case ErrorAct(a) => DoError(sys, a)
    case CrashAct(a) => if a < |sys.attempts| then InPhase(sys, a, Over) else sys
    case OtherAct(step) => sys.(db := Runs.Next(sys.db, step))
  }

  ghost function After(acts: seq<Action>): Sys {
    if acts == [] then Sys(EMPTY, map[], []) else Next(After(acts[..|acts| - 1]), acts[|acts| - 1])
  }
}
