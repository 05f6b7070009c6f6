// The daemon's worker loop over the real tables: each pass is one attempt of the protocol,
// and a drain at a fixed clock handles every ready job once, oldest first.
module Daemon {
  import opened Ordering
  import opened Ids
  import opened Domain
  import opened Database
  import opened Lifecycle
  import opened Embeddings
  import opened WorkingSets
  import opened Captures
  import opened Jobs
  import opened Runs
  import opened Worker
  import opened Attempts
  import opened FormationSuccess

  // ----- A drain at a fixed clock -----

  function ClaimOrder(jobs: JobTable): (Id, Id) -> bool {
    (a, b) => Before(jobs, a, b)
  }

  /** How far a drain has come: the handled jobs are resolved, in order, and the rest is untouched. */
  ghost predicate Drained(initial: JobTable, jobs: JobTable, now: int, handled: seq<Id>) {
    && jobs.Keys == initial.Keys
    && ListsBy(ClaimOrder(initial), handled, ClaimableIds(initial, now) - ClaimableIds(jobs, now))
    && (forall id :: id in handled ==> id in jobs && Resolved(jobs[id], now))
    && (forall id :: id in initial && id !in handled ==> jobs[id] == initial[id])
    && (forall id, other :: id in handled && other in ClaimableIds(jobs, now) ==> Before(initial, id, other))
  }

  lemma DrainOneMore(initial: JobTable, jobs: JobTable, after: JobTable, now: int, handled: seq<Id>, id: Id)
    requires Drained(initial, jobs, now, handled) && Oldest(jobs, now, id)
    requires OnlyJob(jobs, after, id) && Resolved(after[id], now)
    ensures Drained(initial, after, now, handled + [id])
    ensures ClaimableIds(after, now) == ClaimableIds(jobs, now) - {id}
  {
    assert id !in handled;
    assert ClaimableIds(after, now) == ClaimableIds(jobs, now) - {id};
    assert ClaimableIds(initial, now) - ClaimableIds(after, now) == (ClaimableIds(initial, now) - ClaimableIds(jobs, now)) + {id};
    forall other | other in ClaimableIds(after, now) ensures Before(initial, id, other) {
      assert Before(jobs, id, other);
      assert other !in handled;
    }
  }

  // ----- The worker itself -----

  class FormationWorker {
    const store: Store
    const queue: Queue
    const provider: Option<Provider>

    ghost predicate Valid()
      reads this, store, queue
    {
      queue.store == store && Sound(store.Snapshot())
    }

    constructor (queue: Queue, provider: Option<Provider>)
      requires Sound(queue.store.Snapshot())
      ensures this.queue == queue && this.store == queue.store && this.provider == provider && Valid()
    {
      this.store, this.queue, this.provider := queue.store, queue, provider;
    }

    /** The tables together with one attempt, as the protocol sees them. */
    ghost function View(a: Attempt): Sys
      reads store, queue
    {
      Sys(store.Snapshot(), queue.jobs, [a])
    }

    /** Forms the proposal and creates the episode or working set it refers to. */
    method Prepare(a: Attempt, clock: Clock) returns (next: Attempt)
      requires Valid() && a.phase.Claimed?
      modifies store
      ensures Valid() && View(next) == Prepared(old(View(a)), 0, clock)
    {
      var plan := PlanFor(store.Snapshot(), a);
      if plan.None? {
        return a.(phase := Broken);
      }
      if !ReferenceMissing(store.Snapshot(), plan.value.proposal) {
        return a.(phase := Referenced(plan.value));
      }
      ghost var s := View(a.(phase := Unreferenced(plan.value)));
      assert s == DoCheck(DoLoad(old(View(a)), 0), 0);
      next := Refer(a.(phase := Unreferenced(plan.value)), plan.value, clock.refer);
    }

    /** Inserts the episode or working set of a reference step. */
    method StoreReference(step: Step) returns (ok: bool)
      requires Valid() && (step.WorkingSetStep? || step.EpisodeStep?)
      modifies store
      ensures store.Snapshot() == Runs.Next(old(store.Snapshot()), step)
      ensures ok <==> Accepted(old(store.Snapshot()), step)
    {
      match step {
        case WorkingSetStep(id, set_) =>
          var r := StoreWorkingSet(store, id, set_);
          ok := r.Success?;
        case EpisodeStep(id, episode, outcomes) =>
          var r := StoreEpisode(store, id, episode, outcomes);
          ok := r.Success?;
      }
    }

    method Refer(a: Attempt, plan: Plan, now: int) returns (next: Attempt)
      requires Valid() && a.phase == Unreferenced(plan) && a.payload.FormationPayload?
      modifies store
      ensures Valid() && View(next) == DoRefer(old(View(a)), 0, now)
    {
      var step := ReferenceStep(a, plan, now);
      SoundStep(store.Snapshot(), step);
      var ok := StoreReference(step);
      next := a.(phase := if ok then Referenced(plan) else Broken);
    }

    /** Applies the proposal under the job's scope. */
    method ApplyPlan(a: Attempt, now: int) returns (next: Attempt)
      requires Valid() && (a.phase.Referenced? ==> a.payload.FormationPayload?)
      modifies store
      ensures Valid() && View(next) == DoApply(old(View(a)), 0, now)
    {
      if !a.phase.Referenced? {
        return a;
      }
      ghost var before := store.Snapshot();
      var plan, scope := a.phase.plan, a.payload.applyScope;
      SoundStep(before, ApplyStepOf(a, plan, now));
      var r := ApplyProposal(store, plan.proposal, Some(scope), scope.actor, now);
      assert store.Snapshot() == Runs.Next(before, ApplyStepOf(a, plan, now));
      if r.Success? && r.value.operation.actor == scope.actor {
        return a.(phase := Answered(plan, r.value));
      }
      return a.(phase := Broken);
    }

    method StoreEmbedding(answer: Applied, embedder: Embedder, vector: seq<int>, now: int) returns (ok: bool)
      requires Valid()
      modifies store
      ensures store.Snapshot() == Runs.Next(old(store.Snapshot()), EmbedStepOf(answer, embedder, vector, now))
      ensures ok <==> Accepted(old(store.Snapshot()), EmbedStepOf(answer, embedder, vector, now))
    {
      var key := EmbeddingKey(answer.rows.versionId, embedder.provider, embedder.model);
      var r := Put(store, key, MemoryText(answer.rows.version.payload), vector, now);
      ok := r.Success?;
    }

    /** Embeds the answer's text when an embedding provider is configured. */
    method Embed(a: Attempt, now: int) returns (next: Attempt)
      requires Valid()
      modifies store
      ensures Valid() && View(next) == Embedded(old(View(a)), 0, provider, now)
    {
      if !a.phase.Answered? {
        return a;
      }
      var plan, answer := a.phase.plan, a.phase.answer;
      if provider.None? {
        return a.(phase := Finishing(plan, answer));
      }
      var vector := provider.value.vector(MemoryText(answer.rows.version.payload));
      if vector.None? {
        return a.(phase := Broken);
      }
      SoundStep(store.Snapshot(), EmbedStepOf(answer, provider.value.identity, vector.value, now));
      var ok := StoreEmbedding(answer, provider.value.identity, vector.value, now);
      next := a.(phase := if ok then Finishing(plan, answer) else Broken);
    }

    /** Completes the job, or reports the failure of what could not be completed. */
    method Report(a: Attempt, now: int) returns (next: Attempt)
      requires Valid()
      modifies queue`jobs
      ensures View(next) == DoFail(DoComplete(old(View(a)), 0, now), 0, FAILURE_CODE, now)
    {
      next := a;
      if next.phase.Finishing? {
        var done := queue.Complete(a.job, a.worker, ResultOf(a.phase.plan, a.phase.answer), now);
        next := next.(phase := if done.Success? then Over else Broken);
      }
      assert View(next) == DoComplete(old(View(a)), 0, now);
      if next.phase.Broken? {
        var reported := queue.Fail(a.job, a.worker, FAILURE_CODE, now, SECOND, MAX_ATTEMPTS);
        next := next.(phase := Over);
      }
    }

    /** What one pass leaves when it claims job id. */
    ghost function Passed(id: Id, worker: string, lease: int, clock: Clock): Sys
      requires id in queue.jobs
      reads store, queue
    {
      var j := queue.jobs[id];
      var claimed := Sys(store.Snapshot(), queue.jobs[id := ClaimedJob(j, worker, clock.claim, lease)],
                         [Attempt(id, j.namespace, j.payload, worker, Claimed)]);
      Attempted(claimed, 0, provider, clock)
    }

    /**
     * Claims one job and takes it to its completion or to the report of its failure. An
     * ordinary job that can be formed ends completed, with the formed memory in the tables;
     * one whose observation is missing or out of scope stores nothing and is not completed.
     */
    method ProcessOne(worker: string, lease: int, clock: Clock) returns (r: Result<Id, JobError>)
      requires Valid()
      modifies store, queue`jobs
      ensures Valid()
      ensures r.Failure? ==> store.Snapshot() == old(store.Snapshot()) && queue.jobs == old(queue.jobs)
      ensures ValidClaim(worker, lease) ==> (r.Failure? <==> ClaimableIds(old(queue.jobs), clock.claim) == {})
      ensures r.Success? ==>
        && ValidClaim(worker, lease)
        && Oldest(old(queue.jobs), clock.claim, r.value)
        && var done := old(Passed(r.value, worker, lease, clock)); store.Snapshot() == done.db && queue.jobs == done.jobs
      ensures r.Success? ==>
        PassKeepsPromise(old(store.Snapshot()), old(queue.jobs)[r.value], r.value, provider, lease, clock, store.Snapshot(), queue.jobs)
    {
      var claim := queue.Claim(worker, clock.claim, lease);
      if claim.Failure? {
        return Failure(claim.error);
      }
      var id := claim.value;
      var a := Attempt(id, queue.jobs[id].namespace, queue.jobs[id].payload, worker, Claimed);
      PreparedPhase(View(a), 0, clock);
      a := Prepare(a, clock);
      assert View(a).attempts[0] == a;
      FinishedPhase(View(a), 0, provider, clock);
      a := ApplyPlan(a, clock.apply);
      a := Embed(a, clock.embed);
      a := Report(a, clock.finish);
      PassForms(old(store.Snapshot()), old(queue.jobs), id, worker, lease, provider, clock);
      return Success(id);
    }

    /** A pass with the clock standing still handles the oldest ready job and leaves the others alone. */
    method ProcessReady(now: int, lease: int) returns (r: Result<Id, JobError>)
      requires Valid() && lease > 0 && NO_ID !in queue.jobs
      modifies store, queue`jobs
      ensures Valid()
      ensures r.Failure? <==> ClaimableIds(old(queue.jobs), now) == {}
      ensures r.Failure? ==> queue.jobs == old(queue.jobs)
      ensures r.Success? ==>
        && Oldest(old(queue.jobs), now, r.value)
        && OnlyJob(old(queue.jobs), queue.jobs, r.value)
        && Resolved(queue.jobs[r.value], now)
    {
      var clock := Clock(now, now, now, now, now);
      ghost var before, tables := queue.jobs, store.Snapshot();
      r := ProcessOne(WORKER_NAME, lease, clock);
      if r.Success? {
        ghost var id := r.value;
        ghost var claimed := Sys(tables, before[id := ClaimedJob(before[id], WORKER_NAME, now, lease)],
                                 [Attempt(id, before[id].namespace, before[id].payload, WORKER_NAME, Claimed)]);
        AttemptResolves(claimed, 0, provider, clock);
      }
    }

    /**
     * Handles jobs until none is ready. With the clock standing still, every job that was
     * ready is handled exactly once, in order of availability, creation and id, and is
     * completed, failed, or given back for a second later.
     */
    method Drain(now: int, lease: int) returns (handled: seq<Id>)
      requires Valid() && lease > 0 && NO_ID !in queue.jobs
      modifies store, queue`jobs
      ensures Valid()
      ensures ListsBy(ClaimOrder(old(queue.jobs)), handled, ClaimableIds(old(queue.jobs), now))
      ensures ClaimableIds(queue.jobs, now) == {} && queue.jobs.Keys == old(queue.jobs).Keys
      ensures forall id :: id in handled ==> id in queue.jobs && Resolved(queue.jobs[id], now)
      ensures forall id :: id in old(queue.jobs) && id !in handled ==> queue.jobs[id] == old(queue.jobs)[id]
    {
      handled := [];
      while true
        invariant Valid() && NO_ID !in queue.jobs
        invariant Drained(old(queue.jobs), queue.jobs, now, handled)
        decreases |ClaimableIds(queue.jobs, now)|
      {
        ghost var before := queue.jobs;
        var r := ProcessReady(now, lease);
        if r.Failure? {
          break;
        }
        DrainOneMore(old(queue.jobs), before, queue.jobs, now, handled, r.value);
        assert r.value in ClaimableIds(before, now);
        handled := handled + [r.value];
      }
      assert ClaimableIds(old(queue.jobs), now) - ClaimableIds(queue.jobs, now) == ClaimableIds(old(queue.jobs), now);
    }
  }
}
