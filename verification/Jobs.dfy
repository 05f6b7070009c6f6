// The durable job queue: enqueue under an idempotency key, claim under a lease, complete
// or fail while the lease is live.
module Jobs {
  import opened Ordering
  import opened Ids
  import opened Domain
  import opened Database
  import opened Captures

  datatype JobState = Queued | Running | Succeeded | Failed | Canceled

  datatype FormationMode = GeneratorFree | Assisted | UnknownMode

  /** What the JSON payload of a job decodes to. */
  datatype JobPayload =
    | FormationPayload(
        observation: Id,
        memoryFunction: MemoryFunction,
        mode: FormationMode,
        applyScope: Scope,
        workingExpiresAt: Option<int>,
        workingGlobalRecall: bool)
    | OtherPayload

  datatype JobResult = JobResult(memory: Id, version: Id, operation: Id, proposal: Id)

  datatype Lease = Lease(owner: string, expires: int)

  datatype Job = Job(
    namespace: Id,
    kind: string,
    key: string,
    payload: JobPayload,
    state: JobState,
    result: Option<JobResult>,
    error: Option<string>,
    attempts: nat,
    lease: Option<Lease>,
    availableAt: int,
    createdAt: int,
    updatedAt: int)

  datatype Request = Request(namespace: Id, kind: string, key: string, payload: JobPayload, availableAt: Option<int>)

  datatype JobError = InvalidJob | NoJob | LeaseLost | JobConflict

  type JobTable = map<Id, Job>

  // ----- Enqueue -----

  predicate KeyHeld(jobs: JobTable, request: Request, id: Id) {
    && id in jobs
    && jobs[id].namespace == request.namespace
    && jobs[id].kind == request.kind
    && jobs[id].key == request.key
  }

  ghost predicate KeysUnique(jobs: JobTable) {
    forall a, b | a in jobs && b in jobs ::
      jobs[a].namespace == jobs[b].namespace && jobs[a].kind == jobs[b].kind && jobs[a].key == jobs[b].key ==> a == b
  }

  predicate ValidRequest(id: Id, request: Request) {
    id != NO_ID && request.namespace != NO_ID && request.kind != "" && request.key != ""
  }

  function QueuedJob(request: Request, at: int): Job {
    Job(request.namespace, request.kind, request.key, request.payload, Queued, None, None, 0, None,
        if request.availableAt.Some? then request.availableAt.value else at, at, at)
  }

  /** The job table after an enqueue; an id or key that is taken leaves it alone. */
  function AfterEnqueue(jobs: JobTable, id: Id, request: Request, at: int): JobTable {
    if !ValidRequest(id, request) || id in jobs || exists held :: held in jobs && KeyHeld(jobs, request, held)
    then jobs
    else jobs[id := QueuedJob(request, at)]
  }

  // ----- Claim -----

  predicate Claimable(j: Job, now: int) {
    || (j.state == Queued && j.availableAt <= now)
    || (j.state == Running && j.lease.Some? && j.lease.value.expires <= now)
  }

  /** ORDER BY available_at, created_at, id. */
  predicate Before(jobs: JobTable, a: Id, b: Id) {
    && a in jobs
    && b in jobs
    && var (x, y) := (jobs[a], jobs[b]);
      || x.availableAt < y.availableAt
      || (x.availableAt == y.availableAt && (x.createdAt < y.createdAt || (x.createdAt == y.createdAt && Less(a, b))))
  }

  function ClaimableIds(jobs: JobTable, now: int): set<Id> {
    set id | id in jobs && Claimable(jobs[id], now)
  }

  /** id is the oldest ready job. */
  ghost predicate Oldest(jobs: JobTable, now: int, id: Id) {
    id in ClaimableIds(jobs, now) && forall other :: other in ClaimableIds(jobs, now) ==> other == id || Before(jobs, id, other)
  }

  predicate ValidClaim(worker: string, lease: int) {
    worker != "" && lease > 0
  }

  function ClaimedJob(j: Job, worker: string, now: int, lease: int): Job {
    j.(state := Running, attempts := j.attempts + 1, lease := Some(Lease(worker, now + lease)), updatedAt := now)
  }

  // ----- Complete and fail -----

  predicate HoldsLease(jobs: JobTable, id: Id, worker: string, now: int) {
    id in jobs && jobs[id].state == Running && jobs[id].lease.Some?
    && jobs[id].lease.value.owner == worker && jobs[id].lease.value.expires > now
  }

  predicate MayComplete(jobs: JobTable, id: Id, worker: string, now: int) {
    id != NO_ID && worker != "" && HoldsLease(jobs, id, worker, now)
  }

  function CompletedJob(j: Job, result: JobResult, now: int): Job {
    j.(state := Succeeded, result := Some(result), error := None, lease := None, updatedAt := now)
  }

  predicate MayFail(jobs: JobTable, id: Id, worker: string, code: string, now: int, backoff: int, maxAttempts: int) {
    id != NO_ID && worker != "" && code != "" && backoff >= 0 && maxAttempts >= 1 && HoldsLease(jobs, id, worker, now)
  }

  function FailedJob(j: Job, code: string, now: int, backoff: int, maxAttempts: int): Job {
    j.(state := if j.attempts >= maxAttempts then Failed else Queued,
       error := Some(code), availableAt := now + backoff, lease := None, updatedAt := now)
  }

  // ----- The claim order -----

  lemma JobsOrdered(jobs: JobTable, ids: set<Id>)
    requires ids <= jobs.Keys
    ensures OrderOn((a, b) => Before(jobs, a, b), ids)
  {
    forall x, y | x in ids && y in ids ensures !Before(jobs, x, x) && (x == y || Before(jobs, x, y) || Before(jobs, y, x)) {
      LessOrder(x, y);
    }
    forall x, y, z | x in ids && y in ids && z in ids && Before(jobs, x, y) && Before(jobs, y, z) ensures Before(jobs, x, z) {
      if Less(x, y) && Less(y, z) {
        LessTransitive(x, y, z);
      }
    }
  }

  lemma OldestExists(jobs: JobTable, now: int)
    requires ClaimableIds(jobs, now) != {}
    ensures exists id :: Oldest(jobs, now, id)
  {
    var less := (a, b) => Before(jobs, a, b);
    JobsOrdered(jobs, ClaimableIds(jobs, now));
    LeastExists(less, ClaimableIds(jobs, now));
    var id :| id in ClaimableIds(jobs, now) && forall y :: y in ClaimableIds(jobs, now) ==> y == id || less(id, y);
    assert Oldest(jobs, now, id);
  }

  lemma OldestUnique(jobs: JobTable, now: int, a: Id, b: Id)
    requires Oldest(jobs, now, a) && Oldest(jobs, now, b)
    ensures a == b
  {
    LessOrder(a, b);
  }

  // ----- The table and its statements -----

  class Queue {
    const store: Store
    var jobs: JobTable

    constructor (store: Store)
      ensures this.store == store && jobs == map[]
    {
      this.store, jobs := store, map[];
    }

    /**
     * Captures an observation and its job together. A key that is held answers with the job
     * holding it and captures nothing.
     */
    method EnqueueObservation(observationId: Id, o: Observation, id: Id, request: Request, at: int)
      returns (r: Result<(Id, bool), JobError>)
      modifies this`jobs, store
      ensures r.Success? && !r.value.1 ==> KeyHeld(old(jobs), request, r.value.0)
      ensures r.Success? && r.value.1 ==>
        && r.value.0 == id && id in jobs
        && jobs == AfterEnqueue(old(jobs), id, request, at)
        && PutObservation(old(store.Snapshot()), observationId, o) == Success(store.Snapshot())
      ensures r.Failure? || !r.value.1 ==> jobs == old(jobs) && store.Snapshot() == old(store.Snapshot())
      ensures r.Failure? <==>
        || observationId == NO_ID || !ValidRequest(id, request) || request.namespace != o.scope.namespace
        || ((forall held :: held in old(jobs) ==> !KeyHeld(old(jobs), request, held))
            && (id in old(jobs) || observationId in old(store.observations)))
    {
      if observationId == NO_ID || !ValidRequest(id, request) || request.namespace != o.scope.namespace {
        return Failure(InvalidJob);
      }
      if held :| held in jobs && KeyHeld(jobs, request, held) {
        return Success((held, false));
      }
      if id in jobs || observationId in store.observations {
        return Failure(JobConflict);
      }
      jobs := jobs[id := QueuedJob(request, at)];
      store.observations := store.observations[observationId := o];
      return Success((id, true));
    }

    /** Leases the oldest ready job. */
    method Claim(worker: string, now: int, lease: int) returns (r: Result<Id, JobError>)
      modifies this`jobs
      ensures r == Failure(InvalidJob) <==> !ValidClaim(worker, lease)
      ensures r.Failure? ==> jobs == old(jobs) && (ValidClaim(worker, lease) ==> r == Failure(NoJob))
      ensures ValidClaim(worker, lease) ==> (r.Failure? <==> ClaimableIds(old(jobs), now) == {})
      ensures r.Success? ==>
        && Oldest(old(jobs), now, r.value)
        && jobs == old(jobs)[r.value := ClaimedJob(old(jobs)[r.value], worker, now, lease)]
    {
      if !ValidClaim(worker, lease) {
        return Failure(InvalidJob);
      }
      var ready := ClaimableIds(jobs, now);
      if ready == {} {
        return Failure(NoJob);
      }
      OldestExists(jobs, now);
      var id :| id in ready && forall other :: other in ready ==> other == id || Before(jobs, id, other);
      jobs := jobs[id := ClaimedJob(jobs[id], worker, now, lease)];
      return Success(id);
    }

    method Complete(id: Id, worker: string, result: JobResult, now: int) returns (r: Result<(), JobError>)
      modifies this`jobs
      ensures r.Success? <==> MayComplete(old(jobs), id, worker, now)
      ensures r == Failure(LeaseLost) <==> id != NO_ID && worker != "" && !HoldsLease(old(jobs), id, worker, now)
      ensures r.Success? ==> jobs == old(jobs)[id := CompletedJob(old(jobs)[id], result, now)]
      ensures r.Failure? ==> jobs == old(jobs)
    {
      if id == NO_ID || worker == "" {
        return Failure(InvalidJob);
      }
      if !HoldsLease(jobs, id, worker, now) {
        return Failure(LeaseLost);
      }
      jobs := jobs[id := CompletedJob(jobs[id], result, now)];
      return Success(());
    }

    method Fail(id: Id, worker: string, code: string, now: int, backoff: int, maxAttempts: int) returns (r: Result<(), JobError>)
      modifies this`jobs
      ensures r.Success? <==> MayFail(old(jobs), id, worker, code, now, backoff, maxAttempts)
      ensures r == Failure(LeaseLost) <==>
        id != NO_ID && worker != "" && code != "" && backoff >= 0 && maxAttempts >= 1 && !HoldsLease(old(jobs), id, worker, now)
      ensures r.Success? ==> jobs == old(jobs)[id := FailedJob(old(jobs)[id], code, now, backoff, maxAttempts)]
      ensures r.Failure? ==> jobs == old(jobs)
    {
      if id == NO_ID || worker == "" || code == "" || backoff < 0 || maxAttempts < 1 {
        return Failure(InvalidJob);
      }
      if !HoldsLease(jobs, id, worker, now) {
        return Failure(LeaseLost);
      }
      jobs := jobs[id := FailedJob(jobs[id], code, now, backoff, maxAttempts)];
      return Success(());
    }
  }
}
