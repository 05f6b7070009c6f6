// Lease safety over whole runs of the queue. Any worker may issue any statement at any
// moment: nothing is assumed about who calls what, nor about the clock, unless stated.
module JobRuns {
  import opened Ids
  import opened Jobs

  datatype Event =
    | Enqueue(newId: Id, request: Request, at: int)
    | Claim(worker: string, now: int, duration: int)
    | Complete(id: Id, worker: string, result: JobResult, now: int)
    | Fail(id: Id, worker: string, code: string, now: int, backoff: int, maxAttempts: int)

  ghost predicate Claims(jobs: JobTable, e: Event, id: Id) {
    e.Claim? && ValidClaim(e.worker, e.duration) && Oldest(jobs, e.now, id)
  }

  predicate Completes(jobs: JobTable, e: Event, id: Id) {
    e.Complete? && e.id == id && MayComplete(jobs, id, e.worker, e.now)
  }

  predicate Fails(jobs: JobTable, e: Event, id: Id) {
    e.Fail? && e.id == id && MayFail(jobs, id, e.worker, e.code, e.now, e.backoff, e.maxAttempts)
  }

  predicate Finishes(jobs: JobTable, e: Event, id: Id) {
    Completes(jobs, e, id) || Fails(jobs, e, id)
  }

  ghost function Next(jobs: JobTable, e: Event): JobTable {
    match e
    case Enqueue(id, request, at) => AfterEnqueue(jobs, id, request, at)
    case Claim(worker, now, duration) =>
      if exists id :: Claims(jobs, e, id) then
        var id :| Claims(jobs, e, id);
        jobs[id := ClaimedJob(jobs[id], worker, now, duration)]
      else
        jobs
    case Complete(id, worker, result, now) =>
      if MayComplete(jobs, id, worker, now) then jobs[id := CompletedJob(jobs[id], result, now)] else jobs
    case Fail(id, worker, code, now, backoff, maxAttempts) =>
      if MayFail(jobs, id, worker, code, now, backoff, maxAttempts)
      then jobs[id := FailedJob(jobs[id], code, now, backoff, maxAttempts)] else jobs
  }

  ghost function After(events: seq<Event>): JobTable {
    if events == [] then map[] else Next(After(events[..|events| - 1]), events[|events| - 1])
  }

  /** The table just before event k of the run. */
  ghost function At(events: seq<Event>, k: nat): JobTable
    requires k <= |events|
  {
    After(events[..k])
  }

  // What event k of a run did to one job.

  ghost predicate ClaimsAt(events: seq<Event>, k: nat, id: Id) {
    k < |events| && Claims(At(events, k), events[k], id)
  }

  ghost predicate CompletesAt(events: seq<Event>, k: nat, id: Id) {
    k < |events| && Completes(At(events, k), events[k], id)
  }

  ghost predicate FailsAt(events: seq<Event>, k: nat, id: Id) {
    k < |events| && Fails(At(events, k), events[k], id)
  }

  ghost predicate FinishesAt(events: seq<Event>, k: nat, id: Id) {
    CompletesAt(events, k, id) || FailsAt(events, k, id)
  }

  /** The claim at i is the last one of the job before event k. */
  ghost predicate LatestClaim(events: seq<Event>, i: nat, k: nat, id: Id) {
    i < k <= |events| && ClaimsAt(events, i, id) && forall m: nat :: i < m < k ==> !ClaimsAt(events, m, id)
  }

  // ----- One event -----

  /** The four things one event can do to a job that is already there. */
  lemma OneEvent(jobs: JobTable, e: Event, id: Id)
    requires id in jobs
    ensures var next := Next(jobs, e);
      && id in next
      && (Claims(jobs, e, id) ==> next[id] == ClaimedJob(jobs[id], e.worker, e.now, e.duration))
      && (Completes(jobs, e, id) ==> next[id] == CompletedJob(jobs[id], e.result, e.now))
      && (Fails(jobs, e, id) ==> next[id] == FailedJob(jobs[id], e.code, e.now, e.backoff, e.maxAttempts))
      && (!Claims(jobs, e, id) && !Finishes(jobs, e, id) ==> next[id] == jobs[id])
  {
    if e.Claim? && exists x :: Claims(jobs, e, x) {
      var x :| Claims(jobs, e, x) && Next(jobs, e) == jobs[x := ClaimedJob(jobs[x], e.worker, e.now, e.duration)];
      if Claims(jobs, e, id) {
        OldestUnique(jobs, e.now, x, id);
      }
    }
  }

  lemma StepAt(events: seq<Event>, k: nat)
    requires k < |events|
    ensures At(events, k + 1) == Next(At(events, k), events[k])
  {
    assert events[..k + 1][..k] == events[..k];
  }

  lemma EventAt(events: seq<Event>, k: nat, id: Id)
    requires k < |events| && id in At(events, k)
    ensures var before, after := At(events, k), At(events, k + 1);
      && id in after
      && (ClaimsAt(events, k, id) ==> after[id] == ClaimedJob(before[id], events[k].worker, events[k].now, events[k].duration))
      && (CompletesAt(events, k, id) ==> after[id] == CompletedJob(before[id], events[k].result, events[k].now))
      && (FailsAt(events, k, id) ==>
           after[id] == FailedJob(before[id], events[k].code, events[k].now, events[k].backoff, events[k].maxAttempts))
      && (!ClaimsAt(events, k, id) && !FinishesAt(events, k, id) ==> after[id] == before[id])
  {
    StepAt(events, k);
    OneEvent(At(events, k), events[k], id);
  }

  /** A job stays in the table, and its row changes only by claims and accepted finishes. */
  lemma {:induction false} RowKept(events: seq<Event>, i: nat, k: nat, id: Id)
    requires i <= k <= |events| && id in At(events, i)
    ensures id in At(events, k)
    ensures (forall m: nat :: i <= m < k ==> !ClaimsAt(events, m, id) && !FinishesAt(events, m, id)) ==>
      At(events, k)[id] == At(events, i)[id]
    decreases k - i
  {
    if i < k {
      EventAt(events, i, id);
      RowKept(events, i + 1, k, id);
    }
  }

  // ----- Succeeded and failed are final -----

  predicate Settled(j: Job) {
    j.state == Succeeded || j.state == Failed
  }

  /** A settled job's row never changes again. */
  lemma {:induction false} SettledForever(events: seq<Event>, i: nat, k: nat, id: Id)
    requires i <= k <= |events| && id in At(events, i) && Settled(At(events, i)[id])
    ensures id in At(events, k) && At(events, k)[id] == At(events, i)[id]
    decreases k - i
  {
    if i < k {
      EventAt(events, i, id);
      SettledForever(events, i + 1, k, id);
    }
  }

  /** At most one completion of a job is ever accepted. */
  lemma OneCompletion(events: seq<Event>, i: nat, k: nat, id: Id)
    requires CompletesAt(events, i, id) && CompletesAt(events, k, id)
    ensures i == k
  {
    if i < k {
      EventAt(events, i, id);
      SettledForever(events, i + 1, k, id);
    } else if k < i {
      EventAt(events, k, id);
      SettledForever(events, k + 1, i, id);
    }
  }

  /** Once a completion is accepted the job keeps its result and takes no further claim or failure. */
  lemma CompletionIsFinal(events: seq<Event>, i: nat, k: nat, id: Id)
    requires CompletesAt(events, i, id) && i < k <= |events|
    ensures id in At(events, k) && At(events, k)[id].state == Succeeded && At(events, k)[id].result == Some(events[i].result)
    ensures !ClaimsAt(events, k, id) && !FinishesAt(events, k, id)
  {
    EventAt(events, i, id);
    SettledForever(events, i + 1, k, id);
  }

  // ----- Leases -----

  /** While no claim intervenes, a released job stays released. */
  lemma {:induction false} ReleasedUntilClaimed(events: seq<Event>, i: nat, k: nat, id: Id)
    requires i <= k <= |events| && id in At(events, i) && At(events, i)[id].state != Running
    requires forall m: nat :: i <= m < k ==> !ClaimsAt(events, m, id)
    ensures id in At(events, k) && At(events, k)[id] == At(events, i)[id]
    decreases k - i
  {
    if i < k {
      EventAt(events, i, id);
      ReleasedUntilClaimed(events, i + 1, k, id);
    }
  }

  lemma AppearsQueued(jobs: JobTable, e: Event, id: Id)
    requires id !in jobs && id in Next(jobs, e)
    ensures Next(jobs, e)[id].state == Queued && Next(jobs, e)[id].attempts == 0
  {
  }

  /** A job that runs was in the table before the last event. */
  lemma RunningWasThere(events: seq<Event>, k: nat, id: Id)
    requires k <= |events| && id in At(events, k) && At(events, k)[id].state == Running
    ensures k > 0 && id in At(events, k - 1)
  {
    StepAt(events, k - 1);
    if id !in At(events, k - 1) {
      AppearsQueued(At(events, k - 1), events[k - 1], id);
    }
  }

  lemma StillLatest(events: seq<Event>, i: nat, k: nat, id: Id)
    requires k < |events| && LatestClaim(events, i, k, id) && !ClaimsAt(events, k, id)
    ensures LatestClaim(events, i, k + 1, id)
  {
  }

  /** A running job runs under the lease of its latest claim, which nothing has finished. */
  lemma {:induction false} RunningUnderLatestClaim(events: seq<Event>, k: nat, id: Id) returns (i: nat)
    requires k <= |events| && id in At(events, k) && At(events, k)[id].state == Running
    ensures LatestClaim(events, i, k, id)
    ensures At(events, k)[id].lease == Some(Lease(events[i].worker, events[i].now + events[i].duration))
    ensures forall m: nat :: i < m < k ==> !FinishesAt(events, m, id)
    decreases k
  {
    RunningWasThere(events, k, id);
    EventAt(events, k - 1, id);
    if ClaimsAt(events, k - 1, id) {
      i := k - 1;
    } else {
      i := RunningUnderLatestClaim(events, k - 1, id);
      StillLatest(events, i, k - 1, id);
    }
  }

  lemma ClaimLeases(events: seq<Event>, i: nat, id: Id)
    requires ClaimsAt(events, i, id)
    ensures id in At(events, i + 1) && At(events, i + 1)[id].state == Running
    ensures At(events, i + 1)[id].lease == Some(Lease(events[i].worker, events[i].now + events[i].duration))
  {
    EventAt(events, i, id);
  }

  /** A finish by worker w at time t would be accepted from the job's latest claim. */
  ghost predicate HeldBy(events: seq<Event>, i: nat, k: nat, id: Id, w: string, t: int)
    requires i < |events|
  {
    && LatestClaim(events, i, k, id)
    && events[i].worker == w
    && t < events[i].now + events[i].duration
    && forall m: nat :: i < m < k ==> !FinishesAt(events, m, id)
  }

  /**
   * The lease check is exact: it passes if and only if the latest claim of the job was made
   * under the same worker name, has not expired, and was not finished.
   */
  lemma LeaseCheckExact(events: seq<Event>, k: nat, id: Id, w: string, t: int)
    requires k <= |events|
    ensures HoldsLease(At(events, k), id, w, t) <==> exists i: nat :: i < |events| && HeldBy(events, i, k, id, w, t)
  {
    if HoldsLease(At(events, k), id, w, t) {
      var i := RunningUnderLatestClaim(events, k, id);
      assert HeldBy(events, i, k, id, w, t);
    }
    if i: nat :| i < |events| && HeldBy(events, i, k, id, w, t) {
      ClaimLeases(events, i, id);
      RowKept(events, i + 1, k, id);
    }
  }

  /** Every accepted completion or failure comes from the latest claimant, within its lease. */
  lemma FinishedByLatestClaimant(events: seq<Event>, k: nat, id: Id) returns (i: nat)
    requires FinishesAt(events, k, id)
    ensures LatestClaim(events, i, k, id)
    ensures events[i].worker == events[k].worker && events[k].now < events[i].now + events[i].duration
  {
    LeaseCheckExact(events, k, id, events[k].worker, events[k].now);
    i :| i < |events| && HeldBy(events, i, k, id, events[k].worker, events[k].now);
  }

  /**
   * Why a job could be claimed twice in a row: the first lease had run out by the time of
   * the second claim, or the first claimant gave the job back and its backoff had passed.
   * A live lease is never taken.
   */
  lemma ReclaimedOnlyIfFree(events: seq<Event>, i: nat, k: nat, id: Id)
    requires LatestClaim(events, i, k, id) && ClaimsAt(events, k, id)
    ensures || events[i].now + events[i].duration <= events[k].now
            || exists f: nat :: i < f < k && FailsAt(events, f, id) && events[f].worker == events[i].worker
                                && events[f].now < events[i].now + events[i].duration
                                && events[f].now + events[f].backoff <= events[k].now
  {
    ClaimLeases(events, i, id);
    RowKept(events, i + 1, k, id);
    if f: nat :| i < f < k && FinishesAt(events, f, id) {
      var latest := FinishedByLatestClaimant(events, f, id);
      assert latest == i;
      EventAt(events, f, id);
      ReleasedUntilClaimed(events, f + 1, k, id);
    }
  }

  /**
   * After a reclaim at j that still stands, a completion by the worker that claimed at i is
   * accepted if and only if the two workers have one name: leases are fenced by name only.
   */
  lemma FencedByName(events: seq<Event>, i: nat, j: nat, k: nat, id: Id)
    requires i < j < k < |events| && ClaimsAt(events, i, id) && LatestClaim(events, j, k, id)
    requires forall m: nat :: j < m < k ==> !FinishesAt(events, m, id)
    requires events[k].Complete? && events[k].id == id && events[k].worker == events[i].worker
    requires id != NO_ID && events[k].now < events[j].now + events[j].duration
    ensures CompletesAt(events, k, id) <==> events[i].worker == events[j].worker
  {
    LeaseCheckExact(events, k, id, events[k].worker, events[k].now);
    if events[i].worker == events[j].worker {
      assert HeldBy(events, j, k, id, events[k].worker, events[k].now);
    }
  }

  /** So with distinct worker names, a worker whose job was reclaimed can finish it no more. */
  lemma ReclaimedCannotFinish(events: seq<Event>, i: nat, j: nat, k: nat, id: Id)
    requires i < j < k < |events| && ClaimsAt(events, i, id)
    requires forall m: nat :: i < m <= k && ClaimsAt(events, m, id) ==> events[m].worker != events[i].worker
    requires ClaimsAt(events, j, id) && (events[k].Complete? || events[k].Fail?)
    requires events[k].id == id && events[k].worker == events[i].worker
    ensures !FinishesAt(events, k, id)
  {
    if FinishesAt(events, k, id) {
      var latest := FinishedByLatestClaimant(events, k, id);
    }
  }

  /** With one shared name the reclaimed attempt is indistinguishable: its completion is accepted. */
  lemma SharedNameIsNotFenced(id: Id, request: Request, result: JobResult)
    requires ValidRequest(id, request) && request.availableAt.None?
    ensures var events := [Enqueue(id, request, 0), Claim("formation-worker", 0, 1), Claim("formation-worker", 1, 10),
                           Complete(id, "formation-worker", result, 2)];
      && ClaimsAt(events, 1, id)
      && ClaimsAt(events, 2, id)
      && events[1].now + events[1].duration <= events[3].now
      && CompletesAt(events, 3, id)
  {
    var events := [Enqueue(id, request, 0), Claim("formation-worker", 0, 1), Claim("formation-worker", 1, 10),
                   Complete(id, "formation-worker", result, 2)];
    assert events[..0] == [];
    StepAt(events, 0);
    assert At(events, 1) == map[id := QueuedJob(request, 0)];
    assert ClaimsAt(events, 1, id);
    EventAt(events, 1, id);
    OnlyJob(events, 1, id);
    assert ClaimsAt(events, 2, id);
    EventAt(events, 2, id);
  }

  lemma OnlyJob(events: seq<Event>, k: nat, id: Id)
    requires k < |events| && events[k].Claim? && At(events, k).Keys == {id}
    ensures At(events, k + 1).Keys == {id}
  {
    StepAt(events, k);
  }

  // ----- Retries -----

  /** Accepted failures that gave the job back for another try, among the first k events. */
  ghost function Requeues(events: seq<Event>, k: nat, id: Id): nat
    requires k <= |events|
  {
    if k == 0 then
      0
    else
      Requeues(events, k - 1, id) +
      (if FailsAt(events, k - 1, id) && At(events, k - 1)[id].attempts < events[k - 1].maxAttempts then 1 else 0)
  }

  /** Claims, among the first k events, of a job that was still running: takeovers of an expired lease. */
  ghost function Takeovers(events: seq<Event>, k: nat, id: Id): nat
    requires k <= |events|
  {
    if k == 0 then
      0
    else
      Takeovers(events, k - 1, id) +
      (if ClaimsAt(events, k - 1, id) && At(events, k - 1)[id].state == Running then 1 else 0)
  }

  ghost predicate Counted(events: seq<Event>, k: nat, id: Id)
    requires k <= |events|
  {
    if id in At(events, k) then
      At(events, k)[id].attempts ==
        Requeues(events, k, id) + Takeovers(events, k, id) + (if At(events, k)[id].state == Queued then 0 else 1)
    else
      Requeues(events, k, id) == Takeovers(events, k, id) == 0
  }

  lemma CountedOneMore(events: seq<Event>, k: nat, id: Id)
    requires k < |events| && Counted(events, k, id)
    ensures Counted(events, k + 1, id)
  {
    StepAt(events, k);
    if id in At(events, k) {
      EventAt(events, k, id);
    } else if id in At(events, k + 1) {
      AppearsQueued(At(events, k), events[k], id);
    }
  }

  /** Every attempt was given back, was taken over, or is the one that runs or settled the job. */
  lemma {:induction false} AttemptsCounted(events: seq<Event>, k: nat, id: Id)
    requires k <= |events|
    ensures id !in At(events, k) ==> Requeues(events, k, id) == Takeovers(events, k, id) == 0
    ensures id in At(events, k) ==>
      At(events, k)[id].attempts ==
        Requeues(events, k, id) + Takeovers(events, k, id) + (if At(events, k)[id].state == Queued then 0 else 1)
    decreases k
  {
    if k > 0 {
      AttemptsCounted(events, k - 1, id);
      CountedOneMore(events, k - 1, id);
    }
  }

  /** Each requeue used up an attempt of its own. */
  lemma RequeuesWithinAttempts(events: seq<Event>, k: nat, id: Id)
    requires k <= |events|
    ensures id !in At(events, k) ==> Requeues(events, k, id) == 0
    ensures id in At(events, k) ==>
      Requeues(events, k, id) + (if At(events, k)[id].state == Running then 1 else 0) <= At(events, k)[id].attempts
  {
    AttemptsCounted(events, k, id);
  }

  /** Every failure of the job accepted before event k was reported with at most this limit. */
  ghost predicate FailuresLimited(events: seq<Event>, k: nat, id: Id, limit: nat) {
    forall m: nat :: m < k && FailsAt(events, m, id) ==> events[m].maxAttempts <= limit
  }

  /** If every failure of the job is reported with a limit of at most M, it is requeued at most M - 1 times. */
  lemma {:induction false} RetriesBounded(events: seq<Event>, k: nat, id: Id, limit: nat)
    requires k <= |events| && limit >= 1 && FailuresLimited(events, k, id, limit)
    ensures Requeues(events, k, id) <= limit - 1
    decreases k
  {
    if k > 0 {
      RetriesBounded(events, k - 1, id, limit);
      if FailsAt(events, k - 1, id) {
        AttemptsCounted(events, k - 1, id);
      }
    }
  }

  /** A job that waits for a claim has attempts left. */
  lemma {:induction false} QueuedHasAttemptsLeft(events: seq<Event>, k: nat, id: Id, limit: nat)
    requires k <= |events| && limit >= 1 && FailuresLimited(events, k, id, limit)
    ensures id in At(events, k) && At(events, k)[id].state == Queued ==> At(events, k)[id].attempts < limit
    decreases k
  {
    if k > 0 {
      QueuedHasAttemptsLeft(events, k - 1, id, limit);
      StepAt(events, k - 1);
      if id in At(events, k - 1) {
        EventAt(events, k - 1, id);
      } else if id in At(events, k) {
        AppearsQueued(At(events, k - 1), events[k - 1], id);
      }
    }
  }

  /** A claim exceeds the limit if and only if it takes over a running job that had used the limit up. */
  lemma ClaimExceedsLimit(events: seq<Event>, k: nat, id: Id, limit: nat)
    requires ClaimsAt(events, k, id) && limit >= 1 && FailuresLimited(events, k, id, limit)
    ensures id in At(events, k + 1)
    ensures At(events, k + 1)[id].attempts > limit <==>
      At(events, k)[id].state == Running && At(events, k)[id].attempts >= limit
  {
    EventAt(events, k, id);
    QueuedHasAttemptsLeft(events, k, id, limit);
  }

  /** Event k takes a running job over whose attempts have used the limit up. */
  ghost predicate TakesOverSpent(events: seq<Event>, k: nat, id: Id, limit: nat) {
    ClaimsAt(events, k, id) && At(events, k)[id].state == Running && At(events, k)[id].attempts >= limit
  }

  /** Over a whole run, attempts exceed the limit if and only if a job that had used it up was taken over. */
  lemma {:induction false} AttemptsExceedIff(events: seq<Event>, k: nat, id: Id, limit: nat)
    requires k <= |events| && limit >= 1 && FailuresLimited(events, k, id, limit)
    ensures (id in At(events, k) && At(events, k)[id].attempts > limit) <==>
      exists m: nat :: m < k && TakesOverSpent(events, m, id, limit)
    decreases k
  {
    if k > 0 {
      AttemptsExceedIff(events, k - 1, id, limit);
      StepAt(events, k - 1);
      if id in At(events, k - 1) {
        EventAt(events, k - 1, id);
        if ClaimsAt(events, k - 1, id) {
          ClaimExceedsLimit(events, k - 1, id, limit);
          assert TakesOverSpent(events, k - 1, id, limit) <==> At(events, k)[id].attempts > limit;
        }
      } else if id in At(events, k) {
        AppearsQueued(At(events, k - 1), events[k - 1], id);
      }
    }
  }

  /** Attempts exceed the limit by no more than the takeovers; without one they stay within it. */
  lemma AttemptsBounded(events: seq<Event>, k: nat, id: Id, limit: nat)
    requires k <= |events| && limit >= 1 && FailuresLimited(events, k, id, limit)
    ensures id in At(events, k) ==> At(events, k)[id].attempts <= limit + Takeovers(events, k, id)
  {
    AttemptsCounted(events, k, id);
    RetriesBounded(events, k, id, limit);
  }

  /** A job whose workers keep crashing: each lease of one unit runs out and the job is claimed again. */
  ghost function Crashing(id: Id, request: Request, n: nat): (events: seq<Event>)
    ensures |events| == n + 1 && forall e :: e in events ==> !e.Fail?
  {
    if n == 0 then [Enqueue(id, request, 0)] else Crashing(id, request, n - 1) + [Claim("formation-worker", n - 1, 1)]
  }

  ghost predicate OneReadyJob(jobs: JobTable, id: Id, n: nat) {
    jobs.Keys == {id} && jobs[id].attempts == n && Claimable(jobs[id], n)
  }

  lemma ClaimedAgain(jobs: JobTable, id: Id, n: nat)
    requires OneReadyJob(jobs, id, n)
    ensures OneReadyJob(Next(jobs, Claim("formation-worker", n, 1)), id, n + 1)
  {
    var e := Claim("formation-worker", n, 1);
    assert Oldest(jobs, n, id);
    assert Claims(jobs, e, id);
    OneEvent(jobs, e, id);
    assert Next(jobs, e)[id] == ClaimedJob(jobs[id], "formation-worker", n, 1);
  }

  /** Only reported failures count against the limit: crashes drive attempts past any bound. */
  lemma {:induction false} AttemptsUnbounded(id: Id, request: Request, n: nat)
    requires ValidRequest(id, request) && request.availableAt.None?
    ensures OneReadyJob(After(Crashing(id, request, n)), id, n)
  {
    var events := Crashing(id, request, n);
    if n == 0 {
      assert events[..0] == [];
      assert After(events) == map[id := QueuedJob(request, 0)];
    } else {
      AttemptsUnbounded(id, request, n - 1);
      assert events[..n] == Crashing(id, request, n - 1);
      ClaimedAgain(After(events[..n]), id, n - 1);
    }
  }

  // ----- What the statements write -----

  /**
   * A request is queued if and only if it is complete and its id and key are free; its job
   * then waits, untried, until the time asked for or else from now on.
   */
  lemma EnqueueWrites(jobs: JobTable, id: Id, request: Request, at: int)
    ensures var after := AfterEnqueue(jobs, id, request, at);
      && (after != jobs <==>
           && id != NO_ID && request.namespace != NO_ID && request.kind != "" && request.key != ""
           && id !in jobs
           && forall other :: other in jobs && jobs[other].namespace == request.namespace && jobs[other].kind == request.kind ==>
                jobs[other].key != request.key)
      && (after != jobs ==>
           && after == jobs[id := after[id]]
           && after[id].namespace == request.namespace && after[id].kind == request.kind && after[id].key == request.key
           && after[id].payload == request.payload
           && after[id].state == Queued && after[id].attempts == 0 && after[id].lease == None
           && after[id].result == None && after[id].error == None
           && after[id].createdAt == at
           && forall now :: Claimable(after[id], now) <==> now >= (if request.availableAt.Some? then request.availableAt.value else at))
  {
    assert id !in jobs ==> jobs[id := QueuedJob(request, at)] != jobs by {
      assert id in jobs[id := QueuedJob(request, at)];
    }
    assert forall other :: other in jobs ==> (KeyHeld(jobs, request, other) <==>
      jobs[other].namespace == request.namespace && jobs[other].kind == request.kind && jobs[other].key == request.key);
  }

  /** A claim gives exactly its worker a lease from now on, and keeps what the job asks for. */
  lemma ClaimWrites(events: seq<Event>, k: nat, id: Id)
    requires ClaimsAt(events, k, id)
    ensures id in At(events, k) && id in At(events, k + 1)
    ensures var (before, after, e) := (At(events, k)[id], At(events, k + 1)[id], events[k]);
      && after.state == Running && after.attempts == before.attempts + 1
      && after.payload == before.payload && after.namespace == before.namespace && after.availableAt == before.availableAt
      && after.lease == Some(Lease(e.worker, e.now + e.duration))
  {
    EventAt(events, k, id);
  }

  /** An accepted completion stores the result; an accepted failure its code, and another try while attempts are left. */
  lemma FinishWrites(events: seq<Event>, k: nat, id: Id)
    requires FinishesAt(events, k, id)
    ensures id in At(events, k) && id in At(events, k + 1)
    ensures var (before, after, e) := (At(events, k)[id], At(events, k + 1)[id], events[k]);
      && after.lease == None && after.attempts == before.attempts && after.payload == before.payload
      && (e.Complete? ==> after.state == Succeeded && after.result == Some(e.result) && after.error == None)
      && (e.Fail? ==>
           && after.error == Some(e.code)
           && after.result == before.result
           && after.state == (if before.attempts < e.maxAttempts then Queued else Failed)
           && forall now :: Claimable(after, now) <==> before.attempts < e.maxAttempts && now >= e.now + e.backoff)
  {
    EventAt(events, k, id);
  }

  /** Queued and due, or running under a lease that has run out. */
  predicate Ready(j: Job, now: int) {
    match j.state
    case Queued => j.availableAt <= now
    case Running => j.lease.Some? && j.lease.value.expires <= now
    case _ => false
  }

  /** The job a claim takes is ready, and no ready job was due before it, made before it at the same time, or else has the lesser id. */
  lemma ClaimTakesOldest(jobs: JobTable, now: int, id: Id)
    ensures Oldest(jobs, now, id) <==>
      && id in jobs && Ready(jobs[id], now)
      && forall other :: other in jobs && Ready(jobs[other], now) ==>
        && jobs[id].availableAt <= jobs[other].availableAt
        && (jobs[id].availableAt == jobs[other].availableAt ==>
             && jobs[id].createdAt <= jobs[other].createdAt
             && (jobs[id].createdAt == jobs[other].createdAt ==> id == other || Less(id, other)))
  {
    assert forall other :: other in jobs ==> (other in ClaimableIds(jobs, now) <==> Ready(jobs[other], now));
  }

  // ----- Idempotency keys -----

  /** In every run no two jobs hold the same idempotency key. */
  lemma {:induction false} KeysStayUnique(events: seq<Event>)
    ensures KeysUnique(After(events))
    decreases |events|
  {
    if events != [] {
      var front, e := events[..|events| - 1], events[|events| - 1];
      KeysStayUnique(front);
      if e.Claim? && exists x :: Claims(After(front), e, x) {
        var x :| Claims(After(front), e, x)
          && Next(After(front), e) == After(front)[x := ClaimedJob(After(front)[x], e.worker, e.now, e.duration)];
      }
      if e.Enqueue? {
        forall a | a in After(front) && After(events) != After(front) ensures !KeyHeld(After(front), e.request, a) {
        }
      }
    }
  }
}
