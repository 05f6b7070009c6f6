// One attempt at a job as the sequence of protocol actions that the worker performs, and what
// it does to the job table.
module Attempts {
  import opened Ids
  import opened Domain
  import opened Jobs
  import opened Worker

  /** What the worker's clock reads at each of its statements. */
  datatype Clock = Clock(claim: int, refer: int, apply: int, embed: int, finish: int)

  /** An embedding provider: its identity and the vector it returns for a text, if it does. */
  datatype Provider = Provider(identity: Embedder, vector: string -> Option<seq<int>>)

  const FAILURE_CODE := "formation_failed"

  // ----- One attempt as a sequence of protocol actions -----

  ghost function Embedded(sys: Sys, a: nat, provider: Option<Provider>, now: int): Sys {
    if provider.None? then DoSkipEmbed(sys, a)
    else if a < |sys.attempts| && sys.attempts[a].phase.Answered? then
      DoEmbed(sys, a, provider.value.identity, provider.value.vector(MemoryText(sys.attempts[a].phase.answer.rows.version.payload)), now)
    else sys
  }

  ghost function Finished(sys: Sys, a: nat, provider: Option<Provider>, clock: Clock): Sys {
    DoComplete(Embedded(DoApply(sys, a, clock.apply), a, provider, clock.embed), a, clock.finish)
  }

  ghost function Prepared(sys: Sys, a: nat, clock: Clock): Sys {
    DoRefer(DoCheck(DoLoad(sys, a), a), a, clock.refer)
  }

  /** From the claimed job to its completion, or to the report of its failure. */
  ghost function Attempted(sys: Sys, a: nat, provider: Option<Provider>, clock: Clock): Sys {
    DoFail(Finished(Prepared(sys, a, clock), a, provider, clock), a, FAILURE_CODE, clock.finish)
  }

  /** target is what some further actions of the worker itself make of the run. */
  ghost predicate Continues(acts: seq<Action>, target: Sys) {
    exists more: seq<Action> :: (forall act :: act in more ==> !act.OtherAct?) && Worker.After(acts + more) == target
  }

  lemma AfterOneMore(acts: seq<Action>, act: Action)
    ensures Worker.After(acts + [act]) == Worker.Next(Worker.After(acts), act)
  {
    assert (acts + [act])[..|acts|] == acts;
  }

  lemma ContinueBy(acts: seq<Action>, sys: Sys, act: Action)
    requires Continues(acts, sys) && !act.OtherAct?
    ensures Continues(acts, Worker.Next(sys, act))
  {
    var more: seq<Action> :| (forall x :: x in more ==> !x.OtherAct?) && Worker.After(acts + more) == sys;
    AfterOneMore(acts + more, act);
    assert acts + (more + [act]) == acts + more + [act];
  }

  lemma LoadContinues(acts: seq<Action>, s: Sys, a: nat)
    requires Continues(acts, s)
    ensures Continues(acts, DoLoad(s, a))
  {
    ContinueBy(acts, s, LoadAct(a));
  }

  lemma CheckContinues(acts: seq<Action>, s: Sys, a: nat)
    requires Continues(acts, s)
    ensures Continues(acts, DoCheck(s, a))
  {
    ContinueBy(acts, s, CheckAct(a));
  }

  lemma ReferContinues(acts: seq<Action>, s: Sys, a: nat, now: int)
    requires Continues(acts, s)
    ensures Continues(acts, DoRefer(s, a, now))
  {
    ContinueBy(acts, s, ReferAct(a, now));
  }

  lemma ApplyContinues(acts: seq<Action>, s: Sys, a: nat, now: int)
    requires Continues(acts, s)
    ensures Continues(acts, DoApply(s, a, now))
  {
    ContinueBy(acts, s, ApplyAct(a, now));
  }

  lemma EmbedContinues(acts: seq<Action>, s: Sys, a: nat, provider: Option<Provider>, now: int)
    requires Continues(acts, s)
    ensures Continues(acts, Embedded(s, a, provider, now))
  {
    if provider.None? {
      ContinueBy(acts, s, SkipEmbedAct(a));
    } else if a < |s.attempts| && s.attempts[a].phase.Answered? {
      var text := MemoryText(s.attempts[a].phase.answer.rows.version.payload);
      ContinueBy(acts, s, EmbedAct(a, provider.value.identity, provider.value.vector(text), now));
    }
  }

  lemma CompleteContinues(acts: seq<Action>, s: Sys, a: nat, now: int)
    requires Continues(acts, s)
    ensures Continues(acts, DoComplete(s, a, now))
  {
    ContinueBy(acts, s, CompleteAct(a, now));
  }

  lemma FailContinues(acts: seq<Action>, s: Sys, a: nat, now: int)
    requires Continues(acts, s)
    ensures Continues(acts, DoFail(s, a, FAILURE_CODE, now))
  {
    ContinueBy(acts, s, FailAct(a, FAILURE_CODE, now));
  }

  lemma PrepareContinues(acts: seq<Action>, s: Sys, a: nat, clock: Clock)
    requires Continues(acts, s)
    ensures Continues(acts, Prepared(s, a, clock))
  {
    LoadContinues(acts, s, a);
    CheckContinues(acts, DoLoad(s, a), a);
    ReferContinues(acts, DoCheck(DoLoad(s, a), a), a, clock.refer);
  }

  lemma FinishContinues(acts: seq<Action>, s: Sys, a: nat, provider: Option<Provider>, clock: Clock)
    requires Continues(acts, s)
    ensures Continues(acts, Finished(s, a, provider, clock))
  {
    ApplyContinues(acts, s, a, clock.apply);
    EmbedContinues(acts, DoApply(s, a, clock.apply), a, provider, clock.embed);
    CompleteContinues(acts, Embedded(DoApply(s, a, clock.apply), a, provider, clock.embed), a, clock.finish);
  }

  /** An attempt is a run of the protocol, so whatever holds in every run holds after it. */
  lemma AttemptIsRun(acts: seq<Action>, a: nat, provider: Option<Provider>, clock: Clock)
    ensures Continues(acts, Attempted(Worker.After(acts), a, provider, clock))
  {
    var s := Worker.After(acts);
    assert Continues(acts, s) by {
      assert acts + [] == acts;
    }
    PrepareContinues(acts, s, a, clock);
    FinishContinues(acts, Prepared(s, a, clock), a, provider, clock);
    FailContinues(acts, Finished(Prepared(s, a, clock), a, provider, clock), a, clock.finish);
  }

  // ----- What one attempt does to the job table -----

  /** Only the attempt's own job changes. */
  ghost predicate OnlyJob(before: JobTable, after: JobTable, id: Id) {
    before.Keys == after.Keys && forall other :: other in before && other != id ==> after[other] == before[other]
  }

  /** An attempt whose lease outlives its last statement settles its job or gives it back for later. */
  predicate Resolved(j: Job, now: int) {
    j.state == Succeeded || j.state == Failed || (j.state == Queued && j.availableAt == now + SECOND)
  }

  lemma LateOnlyJob(sys: Sys, a: nat, clock: Clock)
    requires a < |sys.attempts| && sys.attempts[a].job in sys.jobs && sys.attempts[a].job != NO_ID
    requires sys.attempts[a].phase.Finishing? || sys.attempts[a].phase.Broken?
    requires HoldsLease(sys.jobs, sys.attempts[a].job, sys.attempts[a].worker, clock.finish) && sys.attempts[a].worker != ""
    ensures var after := DoFail(DoComplete(sys, a, clock.finish), a, FAILURE_CODE, clock.finish).jobs;
      OnlyJob(sys.jobs, after, sys.attempts[a].job) && Resolved(after[sys.attempts[a].job], clock.finish)
  {
  }

  /** Before its last statement an attempt touches no job, and it always reaches that statement. */
  lemma EarlyNoJob(sys: Sys, a: nat, provider: Option<Provider>, clock: Clock)
    requires a < |sys.attempts| && sys.attempts[a].phase.Claimed?
    ensures var s := Embedded(DoApply(Prepared(sys, a, clock), a, clock.apply), a, provider, clock.embed);
      && s.jobs == sys.jobs
      && |s.attempts| == |sys.attempts|
      && s.attempts[a].job == sys.attempts[a].job && s.attempts[a].worker == sys.attempts[a].worker
      && (s.attempts[a].phase.Finishing? || s.attempts[a].phase.Broken?)
  {
    PreparedPhase(sys, a, clock);
    FinishedPhase(Prepared(sys, a, clock), a, provider, clock);
  }

  ghost predicate SameAttempt(before: Sys, after: Sys, a: nat) {
    && a < |before.attempts| == |after.attempts|
    && after.jobs == before.jobs
    && after.attempts[a].job == before.attempts[a].job
    && after.attempts[a].worker == before.attempts[a].worker
    && after.attempts[a].payload == before.attempts[a].payload
  }

  lemma PreparedPhase(sys: Sys, a: nat, clock: Clock)
    requires a < |sys.attempts| && sys.attempts[a].phase.Claimed?
    ensures var s := Prepared(sys, a, clock);
      && SameAttempt(sys, s, a)
      && (s.attempts[a].phase.Referenced? || s.attempts[a].phase.Broken?)
      && (s.attempts[a].phase.Referenced? ==> s.attempts[a].payload.FormationPayload?)
  {
    var s1 := DoLoad(sys, a);
    assert SameAttempt(sys, s1, a);
    var s2 := DoCheck(s1, a);
    assert SameAttempt(sys, s2, a);
  }

  lemma FinishedPhase(sys: Sys, a: nat, provider: Option<Provider>, clock: Clock)
    requires a < |sys.attempts| && (sys.attempts[a].phase.Referenced? || sys.attempts[a].phase.Broken?)
    requires sys.attempts[a].phase.Referenced? ==> sys.attempts[a].payload.FormationPayload?
    ensures var s := Embedded(DoApply(sys, a, clock.apply), a, provider, clock.embed);
      SameAttempt(sys, s, a) && (s.attempts[a].phase.Finishing? || s.attempts[a].phase.Broken?)
  {
    var s := DoApply(sys, a, clock.apply);
    assert SameAttempt(sys, s, a) && (s.attempts[a].phase.Answered? || s.attempts[a].phase.Broken?);
  }

  /** An attempt that keeps its lease changes its own job only, and resolves it. */
  lemma AttemptResolves(sys: Sys, a: nat, provider: Option<Provider>, clock: Clock)
    requires a < |sys.attempts| && sys.attempts[a].phase.Claimed? && sys.attempts[a].worker != "" && sys.attempts[a].job != NO_ID
    requires HoldsLease(sys.jobs, sys.attempts[a].job, sys.attempts[a].worker, clock.finish)
    ensures var after := Attempted(sys, a, provider, clock).jobs;
      OnlyJob(sys.jobs, after, sys.attempts[a].job) && Resolved(after[sys.attempts[a].job], clock.finish)
  {
    EarlyNoJob(sys, a, provider, clock);
    LateOnlyJob(Embedded(DoApply(Prepared(sys, a, clock), a, clock.apply), a, provider, clock.embed), a, clock);
  }
}
