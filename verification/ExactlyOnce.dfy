// At-least-once jobs, exactly-once effects: whatever workers claim, crash, report as failed,
// reclaim and retry, in any interleaving with one another and with other clients of the store, a
// generator-free job makes at most one memory, and a succeeded job made exactly one.
module ExactlyOnce {
  import opened Ids
  import opened Domain
  import opened Database
  import opened Lifecycle
  import opened MutationShape
  import opened Authorship
  import opened Purge
  import opened Jobs
  import opened Formation
  import opened Runs
  import opened Worker

  /** Ids that formation gives to its proposals. */
  predicate IsFormed(id: Id) {
    id.Derived? && id.kind == ProposalKind
  }

  /** Other clients may do anything but import bundles and apply proposals under formation's own ids. */
  predicate Orderly(act: Action) {
    act.OtherAct? ==> !act.step.ImportStep? && (act.step.ApplyStep? ==> !IsFormed(act.step.p.id))
  }

  ghost predicate AllOrderly(acts: seq<Action>) {
    forall act :: act in acts ==> Orderly(act)
  }

  // ----- The store side of the invariant -----

  /** Formed proposals in the log are creates, and formed memories are what those created. */
  ghost predicate FormedOk(db: Db) {
    && (forall p :: p in db.operations && IsFormed(p) ==> db.operations[p].action == Create)
    && (forall m :: m in db.memories && m.Derived? && IsFormed(m.of) ==> m == MemoryIdOf(m.of))
  }

  predicate FormedStep(step: Step) {
    && !step.ImportStep?
    && (step.ApplyStep? && IsFormed(step.p.id) ==> step.p.action == Create)
  }

  /** What one step adds: memories under the id of a proposal logged by that step, and nothing formed but creates. */
  ghost predicate Adds(db: Db, after: Db) {
    && (forall p :: p in db.operations ==> p in after.operations && after.operations[p] == db.operations[p])
    && (forall m :: m in after.memories && m !in db.memories ==>
         && MadeBy(m, {MemoryKind, SiblingKind}, after.operations) && m.of !in db.operations
         && (IsFormed(m.of) ==> m == MemoryIdOf(m.of)))
    && (forall p :: p in after.operations && p !in db.operations && IsFormed(p) ==>
         MemoryIdOf(p) in after.memories && MemoryIdOf(p) !in db.memories && after.operations[p].action == Create)
  }

  lemma CreateAdds(db: Db, p: Proposal, authorized: Option<Scope>, at: int)
    ensures var r := ApplyCreate(db, p, authorized, at); r.Success? ==>
      && r.value.db.memories.Keys == db.memories.Keys + {MemoryIdOf(p.id)}
      && MemoryIdOf(p.id) !in db.memories
  {
  }

  /** A mutation adds memories under the proposal's id only, and a create adds its own. */
  ghost predicate MutationAdds(db: Db, p: Proposal, after: Db) {
    && after.operations == db.operations
    && (forall m :: m in after.memories && m !in db.memories ==> m == MemoryIdOf(p.id) || m == SiblingIdOf(p.id))
    && (p.action == Create ==> after.memories.Keys == db.memories.Keys + {MemoryIdOf(p.id)} && MemoryIdOf(p.id) !in db.memories)
  }

  lemma MutateAdds(db: Db, p: Proposal, authorized: Option<Scope>, at: int)
    ensures var r := Mutate(db, p, authorized, at); r.Success? ==> MutationAdds(db, p, r.value.db)
  {
    ShapeMutation(db, p, authorized, at);
    CreateAdds(db, p, authorized, at);
  }

  lemma LoggedAdds(db: Db, p: Proposal, mutated: Db, op: Operation)
    requires MutationAdds(db, p, mutated) && p.id !in db.operations && op.action == p.action
    requires IsFormed(p.id) ==> p.action == Create
    ensures Adds(db, mutated.(operations := mutated.operations[p.id := op]))
  {
  }

  lemma ApplyAdds(db: Db, p: Proposal, authorized: Option<Scope>, actor: Id, at: int)
    requires IsFormed(p.id) ==> p.action == Create
    ensures var r := Apply(db, p, authorized, actor, at); r.Committed? ==> Adds(db, r.db)
  {
    var r, m := Apply(db, p, authorized, actor, at), Mutate(db, p, authorized, at);
    if r.Committed? && p.id !in db.operations {
      MutateAdds(db, p, authorized, at);
      LoggedAdds(db, p, m.value.db, r.applied.operation);
    }
  }

  /** Steps that add neither memories nor operations. */
  lemma QuietAdds(db: Db, after: Db)
    requires after.memories.Keys <= db.memories.Keys && after.operations == db.operations
    ensures Adds(db, after)
  {
  }

  lemma PurgeAdds(db: Db, receipt: Id, namespace: Id, purger: Id, memory: Id, mode: PurgeMode, at: int)
    ensures Adds(db, Runs.Next(db, PurgeStep(receipt, namespace, purger, memory, mode, at)))
  {
    PurgeWrites(db, receipt, namespace, purger, memory, mode, at);
    QuietAdds(db, Runs.Next(db, PurgeStep(receipt, namespace, purger, memory, mode, at)));
  }

  lemma StepAdds(db: Db, step: Step)
    requires Schema(db) && FormedStep(step)
    ensures Adds(db, Runs.Next(db, step))
  {
    match step {
      case ApplyStep(p, authorized, actor, at) => ApplyAdds(db, p, authorized, actor, at);
      case ExpireStep(now) => QuietAdds(db, Runs.Next(db, step));
      case PurgeStep(receipt, namespace, purger, memory, mode, at) => PurgeAdds(db, receipt, namespace, purger, memory, mode, at);
      case _ => AsideStep(db, step);
    }
  }

  lemma FormedKept(db: Db, after: Db)
    requires FormedOk(db) && Adds(db, after)
    requires forall p :: p in after.operations && IsFormed(p) ==> p in db.operations || after.operations[p].action == Create
    ensures FormedOk(after)
  {
  }

  // ----- The whole invariant -----

  ghost predicate PlanOk(a: Attempt, plan: Plan) {
    && a.payload.FormationPayload?
    && plan.proposal.id == ProposalIdOf(a.payload.observation, a.payload.memoryFunction)
    && plan.proposal.action == Create
  }

  /** The answer names the memory that the proposal created. */
  ghost predicate AnswerOk(db: Db, plan: Plan, answer: Applied) {
    plan.proposal.id in db.operations && answer.rows.memoryId == MemoryIdOf(plan.proposal.id)
  }

  ghost predicate AttemptOk(db: Db, jobs: JobTable, a: Attempt) {
    && a.job in jobs
    && jobs[a.job].payload == a.payload
    && match a.phase
       case Planned(plan) => PlanOk(a, plan)
       case Unreferenced(plan) => PlanOk(a, plan)
       case Referenced(plan) => PlanOk(a, plan)
       case Answered(plan, answer) => PlanOk(a, plan) && AnswerOk(db, plan, answer)
       case Finishing(plan, answer) => PlanOk(a, plan) && AnswerOk(db, plan, answer)
       case _ => true
  }

  ghost predicate JobOk(db: Db, j: Job) {
    j.state == Succeeded ==>
      && j.payload.FormationPayload?
      && j.result.Some?
      && j.result.value.proposal == ProposalIdOf(j.payload.observation, j.payload.memoryFunction)
      && j.result.value.memory == MemoryIdOf(j.result.value.proposal)
      && j.result.value.proposal in db.operations
  }

  ghost predicate AttemptsOk(sys: Sys) {
    forall a :: 0 <= a < |sys.attempts| ==> AttemptOk(sys.db, sys.jobs, sys.attempts[a])
  }

  ghost predicate JobsOk(sys: Sys) {
    forall id :: id in sys.jobs ==> JobOk(sys.db, sys.jobs[id])
  }

  ghost predicate Inv(sys: Sys) {
    Kempt(sys.db) && FormedOk(sys.db) && AttemptsOk(sys) && JobsOk(sys)
  }

  /** The store step an action amounts to; actions that only move jobs or attempts write nothing. */
  ghost predicate MovesBy(sys: Sys, after: Sys, step: Step) {
    FormedStep(step) && (after.db == sys.db || after.db == Runs.Next(sys.db, step))
  }

  lemma CaptureMoves(sys: Sys, observationId: Id, o: Observation, id: Id, request: Request, at: int)
    ensures MovesBy(sys, DoCapture(sys, observationId, o, id, request, at), ObservationStep(observationId, o))
  {
  }

  lemma ReferMoves(sys: Sys, a: nat, now: int) returns (step: Step)
    ensures MovesBy(sys, DoRefer(sys, a, now), step)
  {
    step := ExpireStep(0);
    if a < |sys.attempts| && sys.attempts[a].phase.Unreferenced? && sys.attempts[a].payload.FormationPayload? {
      step := ReferenceStep(sys.attempts[a], sys.attempts[a].phase.plan, now);
    }
  }

  lemma ApplyMoves(sys: Sys, a: nat, now: int) returns (step: Step)
    requires AttemptsOk(sys)
    ensures MovesBy(sys, DoApply(sys, a, now), step)
  {
    step := ExpireStep(0);
    if a < |sys.attempts| && sys.attempts[a].phase.Referenced? && sys.attempts[a].payload.FormationPayload? {
      step := ApplyStepOf(sys.attempts[a], sys.attempts[a].phase.plan, now);
      assert AttemptOk(sys.db, sys.jobs, sys.attempts[a]);
    }
  }

  lemma EmbedMoves(sys: Sys, a: nat, embedder: Embedder, vector: Option<seq<int>>, now: int) returns (step: Step)
    ensures MovesBy(sys, DoEmbed(sys, a, embedder, vector, now), step)
  {
    step := ExpireStep(0);
    if a < |sys.attempts| && sys.attempts[a].phase.Answered? && vector.Some? {
      step := EmbedStepOf(sys.attempts[a].phase.answer, embedder, vector.value, now);
    }
  }

  lemma ActionMoves(sys: Sys, act: Action) returns (step: Step)
    requires AttemptsOk(sys) && Orderly(act)
    ensures MovesBy(sys, Worker.Next(sys, act), step)
  {
    step := ExpireStep(0);
    match act {
      case CaptureAct(observationId, o, id, request, at) =>
        CaptureMoves(sys, observationId, o, id, request, at);
        step := ObservationStep(observationId, o);
      case ReferAct(a, now) => step := ReferMoves(sys, a, now);
      case ApplyAct(a, now) => step := ApplyMoves(sys, a, now);
      case EmbedAct(a, embedder, vector, now) => step := EmbedMoves(sys, a, embedder, vector, now);
      case OtherAct(other) => step := other;
      case _ =>
    }
  }

  lemma StoreKept(sys: Sys, act: Action)
    requires Inv(sys) && Orderly(act)
    ensures var after := Worker.Next(sys, act); Kempt(after.db) && FormedOk(after.db) && Adds(sys.db, after.db)
  {
    var step := ActionMoves(sys, act);
    StepAdds(sys.db, step);
    KemptStep(sys.db, step);
    FormedKept(sys.db, Runs.Next(sys.db, step));
  }

  /** Jobs are never removed and keep their payload. */
  ghost predicate SamePayloads(jobs: JobTable, after: JobTable) {
    forall id :: id in jobs ==> id in after && after[id].payload == jobs[id].payload
  }

  /** A formed proposal is answered with its own memory, whether replayed or just applied. */
  lemma ReplayNamesMemory(db: Db, p: Proposal, authorized: Option<Scope>, actor: Id, at: int)
    requires AuthorsOk(db) && FormedOk(db) && IsFormed(p.id) && p.id in db.operations
    ensures var r := Apply(db, p, authorized, actor, at); r.Committed? ==> r.applied.rows.memoryId == MemoryIdOf(p.id)
  {
  }

  lemma FreshNamesMemory(db: Db, p: Proposal, authorized: Option<Scope>, actor: Id, at: int)
    requires p.action == Create && p.id !in db.operations
    ensures var r := Apply(db, p, authorized, actor, at); r.Committed? ==> r.applied.rows.memoryId == MemoryIdOf(p.id)
  {
    AnswersMutation(db, p, authorized, at);
  }

  lemma AnswerNamesMemory(db: Db, a: Attempt, plan: Plan, now: int)
    requires Kempt(db) && FormedOk(db) && PlanOk(a, plan)
    ensures var answer := Answer(db, a, plan.proposal, now); answer.Some? ==>
      AnswerOk(Runs.Next(db, ApplyStepOf(a, plan, now)), plan, answer.value)
  {
    var p, scope := plan.proposal, a.payload.applyScope;
    LogGrows(db, p, Some(scope), scope.actor, now);
    if p.id in db.operations {
      ReplayNamesMemory(db, p, Some(scope), scope.actor, now);
    } else {
      FreshNamesMemory(db, p, Some(scope), scope.actor, now);
    }
  }

  /** The log grows and jobs keep their payloads. */
  ghost predicate Carries(sys: Sys, after: Sys) {
    SamePayloads(sys.jobs, after.jobs) && forall p :: p in sys.db.operations ==> p in after.db.operations
  }

  /** No action removes a job or changes its payload, and only a completion makes one succeed. */
  ghost predicate JobsFollow(jobs: JobTable, after: JobTable) {
    && SamePayloads(jobs, after)
    && forall id :: id in after && after[id].state == Succeeded ==>
         id in jobs && jobs[id].state == Succeeded && after[id].result == jobs[id].result
  }

  lemma ClaimFollows(sys: Sys, worker: string, now: int, lease: int)
    ensures JobsFollow(sys.jobs, DoClaim(sys, worker, now, lease).jobs)
  {
  }

  lemma CaptureFollows(sys: Sys, observationId: Id, o: Observation, id: Id, request: Request, at: int)
    ensures JobsFollow(sys.jobs, DoCapture(sys, observationId, o, id, request, at).jobs)
  {
  }

  lemma FailFollows(sys: Sys, a: nat, code: string, now: int)
    ensures JobsFollow(sys.jobs, DoFail(sys, a, code, now).jobs)
  {
  }

  lemma CompleteKeepsPayloads(sys: Sys, a: nat, now: int)
    ensures SamePayloads(sys.jobs, DoComplete(sys, a, now).jobs)
  {
  }

  lemma QuietJobs(sys: Sys, act: Action)
    requires !act.ClaimAct? && !act.CaptureAct? && !act.FailAct? && !act.CompleteAct?
    ensures Worker.Next(sys, act).jobs == sys.jobs
  {
  }

  lemma OthersFollow(sys: Sys, act: Action)
    requires !act.CompleteAct?
    ensures JobsFollow(sys.jobs, Worker.Next(sys, act).jobs)
  {
    match act {
      case ClaimAct(worker, now, lease) => ClaimFollows(sys, worker, now, lease);
      case CaptureAct(observationId, o, id, request, at) => CaptureFollows(sys, observationId, o, id, request, at);
      case FailAct(a, code, now) => FailFollows(sys, a, code, now);
      case _ => QuietJobs(sys, act);
    }
  }

  lemma PayloadsKept(sys: Sys, act: Action)
    ensures SamePayloads(sys.jobs, Worker.Next(sys, act).jobs)
  {
    if act.CompleteAct? {
      CompleteKeepsPayloads(sys, act.a, act.now);
    } else {
      OthersFollow(sys, act);
    }
  }

  /** One attempt moves to a phase that is in order; the others stay as they were. */
  lemma PhaseMoves(sys: Sys, after: Sys, a: nat, phase: Phase)
    requires AttemptsOk(sys) && Carries(sys, after)
    requires a < |sys.attempts| && after.attempts == sys.attempts[a := sys.attempts[a].(phase := phase)]
    requires AttemptOk(after.db, after.jobs, sys.attempts[a].(phase := phase))
    ensures AttemptsOk(after)
  {
    forall b | 0 <= b < |after.attempts| && b != a ensures AttemptOk(after.db, after.jobs, after.attempts[b]) {
      assert AttemptOk(sys.db, sys.jobs, sys.attempts[b]);
    }
  }

  lemma AttemptsStay(sys: Sys, after: Sys)
    requires AttemptsOk(sys) && Carries(sys, after)
    requires sys.attempts <= after.attempts
    requires forall b :: |sys.attempts| <= b < |after.attempts| ==> AttemptOk(after.db, after.jobs, after.attempts[b])
    ensures AttemptsOk(after)
  {
    forall b | 0 <= b < |sys.attempts| ensures AttemptOk(after.db, after.jobs, after.attempts[b]) {
      assert AttemptOk(sys.db, sys.jobs, sys.attempts[b]);
    }
  }

  lemma LoadKeeps(sys: Sys, a: nat)
    requires AttemptsOk(sys)
    ensures AttemptsOk(DoLoad(sys, a))
  {
    if a < |sys.attempts| && sys.attempts[a].phase.Claimed? {
      assert AttemptOk(sys.db, sys.jobs, sys.attempts[a]);
      PhaseMoves(sys, DoLoad(sys, a), a, DoLoad(sys, a).attempts[a].phase);
    }
  }

  lemma CheckKeeps(sys: Sys, a: nat)
    requires AttemptsOk(sys)
    ensures AttemptsOk(DoCheck(sys, a))
  {
    if a < |sys.attempts| && sys.attempts[a].phase.Planned? {
      assert AttemptOk(sys.db, sys.jobs, sys.attempts[a]);
      PhaseMoves(sys, DoCheck(sys, a), a, DoCheck(sys, a).attempts[a].phase);
    }
  }

  lemma ReferKeeps(sys: Sys, a: nat, now: int)
    requires AttemptsOk(sys) && Carries(sys, DoRefer(sys, a, now))
    ensures AttemptsOk(DoRefer(sys, a, now))
  {
    if a < |sys.attempts| && sys.attempts[a].phase.Unreferenced? && sys.attempts[a].payload.FormationPayload? {
      assert AttemptOk(sys.db, sys.jobs, sys.attempts[a]);
      PhaseMoves(sys, DoRefer(sys, a, now), a, DoRefer(sys, a, now).attempts[a].phase);
    }
  }

  lemma ApplyKeeps(sys: Sys, a: nat, now: int)
    requires Inv(sys) && Carries(sys, DoApply(sys, a, now))
    ensures AttemptsOk(DoApply(sys, a, now))
  {
    if a < |sys.attempts| && sys.attempts[a].phase.Referenced? && sys.attempts[a].payload.FormationPayload? {
      assert AttemptOk(sys.db, sys.jobs, sys.attempts[a]);
      AnswerNamesMemory(sys.db, sys.attempts[a], sys.attempts[a].phase.plan, now);
      PhaseMoves(sys, DoApply(sys, a, now), a, DoApply(sys, a, now).attempts[a].phase);
    }
  }

  lemma EmbedKeeps(sys: Sys, a: nat, embedder: Embedder, vector: Option<seq<int>>, now: int)
    requires AttemptsOk(sys) && Carries(sys, DoEmbed(sys, a, embedder, vector, now))
    ensures AttemptsOk(DoEmbed(sys, a, embedder, vector, now))
  {
    if a < |sys.attempts| && sys.attempts[a].phase.Answered? {
      assert AttemptOk(sys.db, sys.jobs, sys.attempts[a]);
      PhaseMoves(sys, DoEmbed(sys, a, embedder, vector, now), a, DoEmbed(sys, a, embedder, vector, now).attempts[a].phase);
    }
  }

  lemma SkipEmbedKeeps(sys: Sys, a: nat)
    requires AttemptsOk(sys)
    ensures AttemptsOk(DoSkipEmbed(sys, a))
  {
    if a < |sys.attempts| && sys.attempts[a].phase.Answered? {
      assert AttemptOk(sys.db, sys.jobs, sys.attempts[a]);
      PhaseMoves(sys, DoSkipEmbed(sys, a), a, DoSkipEmbed(sys, a).attempts[a].phase);
    }
  }

  lemma CompleteKeeps(sys: Sys, a: nat, now: int)
    requires AttemptsOk(sys)
    ensures AttemptsOk(DoComplete(sys, a, now))
  {
    if a < |sys.attempts| && sys.attempts[a].phase.Finishing? {
      assert AttemptOk(sys.db, sys.jobs, sys.attempts[a]);
      PhaseMoves(sys, DoComplete(sys, a, now), a, DoComplete(sys, a, now).attempts[a].phase);
    }
  }

  lemma FailKeeps(sys: Sys, a: nat, code: string, now: int)
    requires AttemptsOk(sys)
    ensures AttemptsOk(DoFail(sys, a, code, now))
  {
    if a < |sys.attempts| && sys.attempts[a].phase.Broken? {
      assert AttemptOk(sys.db, sys.jobs, sys.attempts[a]);
      PhaseMoves(sys, DoFail(sys, a, code, now), a, Over);
    }
  }

  lemma ErrorKeeps(sys: Sys, a: nat)
    requires AttemptsOk(sys)
    ensures AttemptsOk(DoError(sys, a))
  {
    if a < |sys.attempts| && !sys.attempts[a].phase.Over? {
      assert AttemptOk(sys.db, sys.jobs, sys.attempts[a]);
      PhaseMoves(sys, DoError(sys, a), a, Broken);
    }
  }

  lemma CrashKeeps(sys: Sys, a: nat)
    requires AttemptsOk(sys) && a < |sys.attempts|
    ensures AttemptsOk(InPhase(sys, a, Over))
  {
    assert AttemptOk(sys.db, sys.jobs, sys.attempts[a]);
    PhaseMoves(sys, InPhase(sys, a, Over), a, Over);
  }

  lemma AttemptsKept(sys: Sys, act: Action)
    requires Inv(sys) && Carries(sys, Worker.Next(sys, act))
    ensures AttemptsOk(Worker.Next(sys, act))
  {
    match act {
      case CaptureAct(observationId, o, id, request, at) => AttemptsStay(sys, DoCapture(sys, observationId, o, id, request, at));
      case ClaimAct(worker, now, lease) => AttemptsStay(sys, DoClaim(sys, worker, now, lease));
      case LoadAct(a) => LoadKeeps(sys, a);
      case CheckAct(a) => CheckKeeps(sys, a);
      case ReferAct(a, now) => ReferKeeps(sys, a, now);
      case ApplyAct(a, now) => ApplyKeeps(sys, a, now);
      case EmbedAct(a, embedder, vector, now) => EmbedKeeps(sys, a, embedder, vector, now);
      case SkipEmbedAct(a) => SkipEmbedKeeps(sys, a);
      case CompleteAct(a, now) => CompleteKeeps(sys, a, now);
      case FailAct(a, code, now) => FailKeeps(sys, a, code, now);
      case ErrorAct(a) => ErrorKeeps(sys, a);
      case CrashAct(a) => if a < |sys.attempts| { CrashKeeps(sys, a); }
      case OtherAct(step) => AttemptsStay(sys, Worker.Next(sys, act));
    }
  }

  lemma JobsCarried(sys: Sys, after: Sys)
    requires JobsOk(sys) && Carries(sys, after) && JobsFollow(sys.jobs, after.jobs)
    ensures JobsOk(after)
  {
    forall id | id in after.jobs ensures JobOk(after.db, after.jobs[id]) {
      assert after.jobs[id].state == Succeeded ==> JobOk(sys.db, sys.jobs[id]);
    }
  }

  lemma CompleteKeepsJobs(sys: Sys, a: nat, now: int)
    requires Inv(sys)
    ensures JobsOk(DoComplete(sys, a, now))
  {
    if a < |sys.attempts| && sys.attempts[a].phase.Finishing? {
      assert AttemptOk(sys.db, sys.jobs, sys.attempts[a]);
    }
  }

  lemma JobsKept(sys: Sys, act: Action)
    requires Inv(sys) && Carries(sys, Worker.Next(sys, act))
    ensures JobsOk(Worker.Next(sys, act))
  {
    if act.CompleteAct? {
      CompleteKeepsJobs(sys, act.a, act.now);
    } else {
      OthersFollow(sys, act);
      JobsCarried(sys, Worker.Next(sys, act));
    }
  }

  lemma InvStep(sys: Sys, act: Action)
    requires Inv(sys) && Orderly(act)
    ensures Inv(Worker.Next(sys, act))
  {
    StoreKept(sys, act);
    PayloadsKept(sys, act);
    AttemptsKept(sys, act);
    JobsKept(sys, act);
  }

  lemma {:induction false} InvHolds(acts: seq<Action>)
    requires AllOrderly(acts)
    ensures Inv(Worker.After(acts))
    decreases |acts|
  {
    if acts == [] {
      KemptFrom(EMPTY, []);
    } else {
      var front, act := acts[..|acts| - 1], acts[|acts| - 1];
      InvHolds(front);
      InvStep(Worker.After(front), act);
      assert Worker.After(acts) == Worker.Next(Worker.After(front), act);
    }
  }

  // ----- Counting effects over a run -----

  /** How many actions of the run inserted memory m. */
  ghost function Births(acts: seq<Action>, m: Id): nat {
    if acts == [] then
      0
    else
      var front := acts[..|acts| - 1];
      Births(front, m) +
      (if m !in Worker.After(front).db.memories && m in Worker.After(acts).db.memories then 1 else 0)
  }

  /** How many actions of the run logged an operation for proposal p. */
  ghost function Applications(acts: seq<Action>, p: Id): nat {
    if acts == [] then
      0
    else
      var front := acts[..|acts| - 1];
      Applications(front, p) +
      (if p !in Worker.After(front).db.operations && p in Worker.After(acts).db.operations then 1 else 0)
  }

  /** The last action of a run, as the tables see it. */
  lemma LastAdds(acts: seq<Action>)
    requires AllOrderly(acts) && acts != []
    ensures AllOrderly(acts[..|acts| - 1])
    ensures Adds(Worker.After(acts[..|acts| - 1]).db, Worker.After(acts).db)
  {
    var front := acts[..|acts| - 1];
    InvHolds(front);
    StoreKept(Worker.After(front), acts[|acts| - 1]);
  }

  lemma {:induction false} AppliedAtMostOnce(acts: seq<Action>, p: Id)
    requires AllOrderly(acts)
    ensures Applications(acts, p) == if p in Worker.After(acts).db.operations then 1 else 0
    decreases |acts|
  {
    if acts != [] {
      var front := acts[..|acts| - 1];
      LastAdds(acts);
      AppliedAtMostOnce(front, p);
    }
  }

  /** Every memory is inserted at most once in a run, under the id of a proposal that was logged. */
  lemma {:induction false} BornAtMostOnce(acts: seq<Action>, m: Id)
    requires AllOrderly(acts)
    ensures Births(acts, m) <= 1
    ensures Births(acts, m) == 1 ==>
      && MadeBy(m, {MemoryKind, SiblingKind}, Worker.After(acts).db.operations)
      && (IsFormed(m.of) ==> m == MemoryIdOf(m.of))
    decreases |acts|
  {
    if acts != [] {
      var front := acts[..|acts| - 1];
      LastAdds(acts);
      BornAtMostOnce(front, m);
    }
  }

  lemma {:induction false} FormedWasBorn(acts: seq<Action>, p: Id)
    requires AllOrderly(acts) && IsFormed(p) && p in Worker.After(acts).db.operations
    ensures Births(acts, MemoryIdOf(p)) == 1
    decreases |acts|
  {
    BornAtMostOnce(acts, MemoryIdOf(p));
    if acts != [] {
      var front := acts[..|acts| - 1];
      LastAdds(acts);
      if p in Worker.After(front).db.operations {
        FormedWasBorn(front, p);
      }
    }
  }

  /**
   * Exactly once. In every interleaving, the proposal of a formation job is applied at most
   * once and at most one memory is ever made by it; if the job succeeded, it was applied once,
   * one memory was made, and the job's result names that memory.
   */
  lemma FormedExactlyOnce(acts: seq<Action>, id: Id)
    requires AllOrderly(acts) && id in Worker.After(acts).jobs
    requires Worker.After(acts).jobs[id].payload.FormationPayload?
    ensures var j := Worker.After(acts).jobs[id];
      var p := ProposalIdOf(j.payload.observation, j.payload.memoryFunction);
      && Applications(acts, p) <= 1
      && (forall m: Id :: m.Derived? && m.of == p ==> Births(acts, m) <= if m == MemoryIdOf(p) then 1 else 0)
      && (j.state == Succeeded ==>
           && Applications(acts, p) == 1
           && Births(acts, MemoryIdOf(p)) == 1
           && j.result.Some?
           && j.result.value.proposal == p
           && j.result.value.memory == MemoryIdOf(p))
  {
    InvHolds(acts);
    var j := Worker.After(acts).jobs[id];
    var p := ProposalIdOf(j.payload.observation, j.payload.memoryFunction);
    AppliedAtMostOnce(acts, p);
    forall m: Id | m.Derived? && m.of == p ensures Births(acts, m) <= if m == MemoryIdOf(p) then 1 else 0 {
      BornAtMostOnce(acts, m);
    }
    assert JobOk(Worker.After(acts).db, j);
    if j.state == Succeeded {
      FormedWasBorn(acts, p);
    }
  }
}
