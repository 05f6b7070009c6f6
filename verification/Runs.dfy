// Whole runs of the store: every sequence of steps from empty tables, in any order, with
// refused steps leaving the tables alone.
module Runs {
  import opened Ids
  import opened Graph
  import opened Domain
  import opened Database
  import opened Lifecycle
  import opened Purge
  import opened WorkingSets
  import opened Embeddings
  import opened Recall
  import opened Bundles
  import opened Portable
  import opened Captures
  import opened GraphInvariant
  import opened ChainInvariant
  import opened IndexInvariant
  import opened TaskInvariant
  import opened OpenInvariant
  import opened MutationShape
  import opened SchemaInvariant
  import opened Authorship
  import opened PortableProofs
  import opened Supersession

  datatype Step =
    | ApplyStep(p: Proposal, authorized: Option<Scope>, actor: Id, at: int)
    | ExpireStep(now: int)
    | PurgeStep(receipt: Id, namespace: Id, purger: Id, memory: Id, mode: PurgeMode, purgedAt: int)
    | EmbedStep(key: EmbeddingKey, content: string, vector: seq<int>, embeddedAt: int)
    | WorkingSetStep(setId: Id, set_: WorkingSet)
    | GlobalRecallStep(taskNamespace: Id, task: Id, enabled: bool, switchedAt: int)
    | ObservationStep(observationId: Id, observation: Observation)
    | EpisodeStep(episodeId: Id, episode: Episode, outcomes: seq<Row<Outcome>>)
    | ImportStep(bundle: Bundle)

  ghost function Next(db: Db, step: Step): Db {
    match step
    case ApplyStep(p, authorized, actor, at) =>
      (match Apply(db, p, authorized, actor, at) case Committed(after, _) => after case RolledBack(_) => db)
    case ExpireStep(now) => Expire(db, now)
    case PurgeStep(receipt, namespace, purger, memory, mode, at) =>
      (match PurgeMemory(db, receipt, namespace, purger, memory, mode, at) case Purged(after, _) => after case NotPurged(_) => db)
    case EmbedStep(key, content, vector, at) => Kept(db, PutEmbedding(db, key, content, vector, at))
    case WorkingSetStep(id, set_) => Kept(db, PutWorkingSet(db, id, set_))
    case GlobalRecallStep(namespace, task, enabled, at) => Kept(db, SetGlobalRecall(db, namespace, task, enabled, at))
    case ObservationStep(id, observation) => Kept(db, PutObservation(db, id, observation))
    case EpisodeStep(id, episode, outcomes) => Kept(db, PutEpisode(db, id, episode, outcomes))
    case ImportStep(bundle) => Kept(db, Import(db, bundle))
  }

  function Kept<E>(db: Db, r: Result<Db, E>): Db {
    match r case Success(after) => after case Failure(_) => db
  }

  ghost function From(db: Db, steps: seq<Step>): Db {
    if steps == [] then db else Next(From(db, steps[..|steps| - 1]), steps[|steps| - 1])
  }

  ghost function Run(steps: seq<Step>): Db {
    From(EMPTY, steps)
  }

  /** A run without imports. */
  predicate Native(steps: seq<Step>) {
    forall s :: s in steps ==> !s.ImportStep?
  }

  lemma {:induction false} FromJoins(db: Db, a: seq<Step>, b: seq<Step>)
    ensures From(db, a + b) == From(From(db, a), b)
    decreases |b|
  {
    if b == [] {
      assert a + b == a;
    } else {
      assert (a + b)[..|a + b| - 1] == a + b[..|b| - 1];
      FromJoins(db, a, b[..|b| - 1]);
    }
  }

  lemma RunOneMore(steps: seq<Step>, step: Step)
    ensures Run(steps + [step]) == Next(Run(steps), step)
  {
    assert (steps + [step])[..|steps|] == steps;
  }

  // ----- What every run keeps, imports included -----

  ghost predicate Sound(db: Db) {
    GraphOk(db) && Schema(db) && DerivedOnce(db.versions) && IndexOk(db)
  }

  lemma SoundApply(db: Db, p: Proposal, authorized: Option<Scope>, actor: Id, at: int)
    requires Sound(db)
    ensures Sound(Next(db, ApplyStep(p, authorized, actor, at)))
  {
    GraphApply(db, p, authorized, actor, at);
    SchemaApply(db, p, authorized, actor, at);
    DerivedOnceApply(db, p, authorized, actor, at);
    IndexApply(db, p, authorized, actor, at);
  }

  lemma PurgeWrites(db: Db, receipt: Id, namespace: Id, purger: Id, memory: Id, mode: PurgeMode, at: int)
    ensures var after := Next(db, PurgeStep(receipt, namespace, purger, memory, mode, at));
      if PurgeMemory(db, receipt, namespace, purger, memory, mode, at).Purged? then
        && TreeMemories(db, namespace, memory) != {}
        && after == AfterPurge(db, namespace, memory, mode).(receipts := after.receipts)
      else
        after == db
  {
  }

  lemma SoundPurge(db: Db, namespace: Id, memory: Id, mode: PurgeMode)
    requires Sound(db) && TreeMemories(db, namespace, memory) != {}
    ensures Sound(AfterPurge(db, namespace, memory, mode))
  {
    GraphPurge(db, namespace, memory, mode);
    SchemaPurge(db, namespace, memory, mode);
    DerivedOncePurge(db, namespace, memory, mode);
    IndexPurge(db, namespace, memory, mode);
  }

  /** Receipts are no part of what is kept. */
  lemma SoundReceipts(db: Db, receipts: map<Id, Receipt>)
    requires Sound(db)
    ensures Sound(db.(receipts := receipts))
  {
  }

  lemma SoundPurgeStep(db: Db, receipt: Id, namespace: Id, purger: Id, memory: Id, mode: PurgeMode, at: int)
    requires Sound(db)
    ensures Sound(Next(db, PurgeStep(receipt, namespace, purger, memory, mode, at)))
  {
    var after := Next(db, PurgeStep(receipt, namespace, purger, memory, mode, at));
    PurgeWrites(db, receipt, namespace, purger, memory, mode, at);
    if after != db {
      SoundPurge(db, namespace, memory, mode);
      SoundReceipts(AfterPurge(db, namespace, memory, mode), after.receipts);
    }
  }

  lemma SoundExpire(db: Db, now: int)
    requires Sound(db)
    ensures Sound(Expire(db, now))
  {
    GraphExpire(db, now);
    SchemaExpire(db, now);
    DerivedOnceExpire(db, now);
    IndexExpire(db, now);
  }

  /** Steps that write neither memories nor versions nor edges. */
  predicate Aside(step: Step) {
    step.EmbedStep? || step.WorkingSetStep? || step.GlobalRecallStep? || step.ObservationStep? || step.EpisodeStep?
  }

  ghost predicate SameGraph(db: Db, after: Db) {
    && after.memories == db.memories
    && after.versions == db.versions
    && after.edges == db.edges
    && after.index == db.index
    && after.operations == db.operations
  }

  lemma AsideEmbed(db: Db, key: EmbeddingKey, content: string, vector: seq<int>, at: int)
    requires Schema(db)
    ensures var r := PutEmbedding(db, key, content, vector, at); r.Success? ==>
      SameGraph(db, r.value) && Schema(r.value) && r.value.workingSets == db.workingSets
  {
  }

  lemma AsideSet(db: Db, id: Id, set_: WorkingSet)
    requires Schema(db)
    ensures var r := PutWorkingSet(db, id, set_); r.Success? ==>
      SameGraph(db, r.value) && Schema(r.value) && r.value.embeddings == db.embeddings
  {
  }

  lemma AsideRecall(db: Db, namespace: Id, task: Id, enabled: bool, at: int)
    requires Schema(db)
    ensures var r := SetGlobalRecall(db, namespace, task, enabled, at); r.Success? ==>
      SameGraph(db, r.value) && Schema(r.value) && r.value.embeddings == db.embeddings
  {
  }

  lemma AsideEpisode(db: Db, id: Id, episode: Episode, outcomes: seq<Row<Outcome>>)
    requires Schema(db)
    ensures var r := PutEpisode(db, id, episode, outcomes); r.Success? ==>
      SameGraph(db, r.value) && Schema(r.value) && r.value.embeddings == db.embeddings && r.value.workingSets == db.workingSets
  {
    SchemaPutEpisode(db, id, episode, outcomes);
  }

  lemma AsideObservation(db: Db, id: Id, observation: Observation)
    requires Schema(db)
    ensures var r := PutObservation(db, id, observation); r.Success? ==>
      SameGraph(db, r.value) && Schema(r.value) && r.value.embeddings == db.embeddings && r.value.workingSets == db.workingSets
  {
  }

  lemma AsideStep(db: Db, step: Step)
    requires Schema(db) && Aside(step)
    ensures SameGraph(db, Next(db, step)) && Schema(Next(db, step))
  {
    match step {
      case EmbedStep(key, content, vector, at) => AsideEmbed(db, key, content, vector, at);
      case WorkingSetStep(id, set_) => AsideSet(db, id, set_);
      case GlobalRecallStep(namespace, task, enabled, at) => AsideRecall(db, namespace, task, enabled, at);
      case EpisodeStep(id, episode, outcomes) => AsideEpisode(db, id, episode, outcomes);
      case ObservationStep(id, observation) => AsideObservation(db, id, observation);
    }
  }

  lemma SameIndex(db: Db, after: Db)
    requires IndexOk(db) && SameGraph(db, after) && after.embeddings == db.embeddings
    ensures IndexOk(after)
  {
  }

  lemma SoundAside(db: Db, after: Db)
    requires Sound(db) && SameGraph(db, after) && Schema(after) && IndexOk(after)
    ensures Sound(after)
  {
  }

  lemma SoundEmbed(db: Db, key: EmbeddingKey, content: string, vector: seq<int>, at: int)
    requires Sound(db)
    ensures var r := PutEmbedding(db, key, content, vector, at); r.Success? ==> Sound(r.value)
  {
    var r := PutEmbedding(db, key, content, vector, at);
    if r.Success? {
      AsideEmbed(db, key, content, vector, at);
      IndexPutEmbedding(db, key, content, vector, at);
      SoundAside(db, r.value);
    }
  }

  lemma SoundSet(db: Db, id: Id, set_: WorkingSet)
    requires Sound(db)
    ensures var r := PutWorkingSet(db, id, set_); r.Success? ==> Sound(r.value)
  {
    var r := PutWorkingSet(db, id, set_);
    if r.Success? {
      AsideSet(db, id, set_);
      SameIndex(db, r.value);
      SoundAside(db, r.value);
    }
  }

  lemma SoundRecall(db: Db, namespace: Id, task: Id, enabled: bool, at: int)
    requires Sound(db)
    ensures var r := SetGlobalRecall(db, namespace, task, enabled, at); r.Success? ==> Sound(r.value)
  {
    var r := SetGlobalRecall(db, namespace, task, enabled, at);
    if r.Success? {
      AsideRecall(db, namespace, task, enabled, at);
      SameIndex(db, r.value);
      SoundAside(db, r.value);
    }
  }

  lemma SoundEpisode(db: Db, id: Id, episode: Episode, outcomes: seq<Row<Outcome>>)
    requires Sound(db)
    ensures var r := PutEpisode(db, id, episode, outcomes); r.Success? ==> Sound(r.value)
  {
    var r := PutEpisode(db, id, episode, outcomes);
    if r.Success? {
      AsideEpisode(db, id, episode, outcomes);
      SameIndex(db, r.value);
      SoundAside(db, r.value);
    }
  }

  lemma SoundObservation(db: Db, id: Id, observation: Observation)
    requires Sound(db)
    ensures var r := PutObservation(db, id, observation); r.Success? ==> Sound(r.value)
  {
    var r := PutObservation(db, id, observation);
    if r.Success? {
      AsideObservation(db, id, observation);
      SameIndex(db, r.value);
      SoundAside(db, r.value);
    }
  }

  lemma SoundImport(db: Db, bundle: Bundle)
    requires Sound(db)
    ensures Sound(Next(db, ImportStep(bundle)))
  {
    GraphImport(db, bundle);
    SchemaImport(db, bundle);
    DerivedOnceImport(db, bundle);
    IndexImport(db, bundle);
  }

  lemma SoundStep(db: Db, step: Step)
    requires Sound(db)
    ensures Sound(Next(db, step))
  {
    match step {
      case ApplyStep(p, authorized, actor, at) => SoundApply(db, p, authorized, actor, at);
      case ExpireStep(now) => SoundExpire(db, now);
      case PurgeStep(receipt, namespace, purger, memory, mode, at) =>
        SoundPurgeStep(db, receipt, namespace, purger, memory, mode, at);
      case ImportStep(bundle) => SoundImport(db, bundle);
      case EmbedStep(key, content, vector, at) => SoundEmbed(db, key, content, vector, at);
      case WorkingSetStep(id, set_) => SoundSet(db, id, set_);
      case GlobalRecallStep(namespace, task, enabled, at) => SoundRecall(db, namespace, task, enabled, at);
      case EpisodeStep(id, episode, outcomes) => SoundEpisode(db, id, episode, outcomes);
      case ObservationStep(id, observation) => SoundObservation(db, id, observation);
    }
  }

  /**
   * In every reachable state the graph is acyclic and flows only where allowed, the schema
   * holds, and both indexes agree with the versions.
   */
  lemma {:induction false} EveryRunIsSound(steps: seq<Step>)
    ensures Sound(Run(steps))
    decreases |steps|
  {
    if steps != [] {
      EveryRunIsSound(steps[..|steps| - 1]);
      SoundStep(Run(steps[..|steps| - 1]), steps[|steps| - 1]);
    }
  }

  /** In every reachable state an ancestor may flow to each of its descendants, however far apart. */
  lemma VisibilityNeverWidens(steps: seq<Step>, a: Id, b: Id)
    requires Reaches(Run(steps).edges, a, b)
    ensures var db := Run(steps);
      && a != b && a in db.versions && b in db.versions
      && db.versions[a].memory in db.memories && db.versions[b].memory in db.memories
      && FlowAllowed(db.memories[db.versions[a].memory].scope, db.memories[db.versions[b].memory].scope)
  {
    var db := Run(steps);
    EveryRunIsSound(steps);
    AncestorsMayFlow(db.memories, db.versions, db.edges, a, b);
  }

  /** In every reachable state the expiry sweep is invisible to recall from its own time onward. */
  lemma SweepInvisibleInRuns(steps: seq<Step>, f: Filter, now: int, v: Id)
    requires f.systemAt >= now
    ensures Recallable(Run(steps + [ExpireStep(now)]), f, v) <==> Recallable(Run(steps), f, v)
  {
    EveryRunIsSound(steps);
    RunOneMore(steps, ExpireStep(now));
    SweepInvisible(Run(steps), f, now, v);
  }

  /** In every reachable state, what recall admits is indexed, once, under the text it would show. */
  lemma RecallableIsIndexed(steps: seq<Step>, f: Filter, v: Id)
    requires Recallable(Run(steps), f, v)
    ensures exists r :: RowOf(Run(steps).index, v, r)
    ensures forall r :: RowOf(Run(steps).index, v, r) ==>
      && Run(steps).index.rows[r].text == MemoryText(Run(steps).versions[v].payload)
      && Run(steps).index.rows[r].namespace == f.namespace
    ensures forall r, q :: RowOf(Run(steps).index, v, r) && RowOf(Run(steps).index, v, q) ==> r == q
  {
    var db := Run(steps);
    EveryRunIsSound(steps);
    SearchableHasOneRow(db, v);
    forall r | RowOf(db.index, v, r) ensures db.index.rows[r].namespace == f.namespace {
      assert RowMatches(db.memories, db.versions, db.index.rows[r]);
    }
  }

  /**
   * In every reachable state every index row and embedding belongs to a stored version and has
   * its text, and a forgotten memory is in neither index.
   */
  lemma IndexesAgreeInRuns(steps: seq<Step>)
    ensures var db := Run(steps);
      && (forall r :: r in db.index.rows ==>
            && db.index.rows[r].version in db.versions
            && db.index.rows[r].text == MemoryText(db.versions[db.index.rows[r].version].payload))
      && (forall m, r :: m in db.memories && db.memories[m].state == MemoryForgotten && r in db.index.rows ==>
            db.index.rows[r].memory != m)
      && (forall k :: k in db.embeddings ==>
            && k.version in db.versions
            && db.versions[k.version].memory in db.memories
            && db.memories[db.versions[k.version].memory].state != MemoryForgotten
            && db.embeddings[k].content == MemoryText(db.versions[k.version].payload))
  {
    var db := Run(steps);
    EveryRunIsSound(steps);
    forall r | r in db.index.rows ensures RowMatches(db.memories, db.versions, db.index.rows[r]) {
    }
    forall m | m in db.memories && db.memories[m].state == MemoryForgotten
      ensures forall r :: r in db.index.rows ==> db.index.rows[r].memory != m
    {
      ForgottenIsUnindexed(db, m);
    }
    forall k | k in db.embeddings
      ensures k.version in db.versions && db.embeddings[k].content == MemoryText(db.versions[k.version].payload)
      ensures db.versions[k.version].memory in db.memories && db.memories[db.versions[k.version].memory].state != MemoryForgotten
    {
      EmbeddingMatchesVersion(db, k);
    }
  }

  lemma ImportedIs(db: Db, b: Bundle)
    requires Import(db, b) == Success(Inserted(db, b))
    ensures Next(db, ImportStep(b)) == Inserted(db, b)
  {
  }

  /**
   * Between any two reachable stores, a valid export imports wherever its keys are free and
   * its subject is unknown, and exports again as the same bundle and no other.
   */
  lemma RoundTripInRuns(source: seq<Step>, target: seq<Step>, a: Access, subject: Id, at: int, b: Bundle)
    requires IsExport(Run(source), a, subject, at, b) && ValidBundle(b)
    requires Untouched(Run(target), a.namespace, subject) && NoSharedKeys(Run(target), b)
    ensures Import(Run(target), b).Success?
    ensures IsExport(Run(target + [ImportStep(b)]), a, subject, at, b)
    ensures forall c :: IsExport(Run(target + [ImportStep(b)]), a, subject, at, c) ==> c == b
  {
    EveryRunIsSound(source);
    EveryRunIsSound(target);
    RoundTrip(Run(source), a, subject, at, b, Run(target));
    RunOneMore(target, ImportStep(b));
    ImportedIs(Run(target), b);
  }

  // ----- Leaving the active state, imports included -----

  predicate Inactive(db: Db, m: Id) {
    m in db.memories && db.memories[m].state != MemoryActive
  }

  /** Memories are only added, kept or deactivated; what is absent afterwards was purged. */
  ghost predicate Deactivates(db: Db, after: Db, purge: bool) {
    && (forall m :: Inactive(db, m) && m in after.memories ==> Inactive(after, m))
    && (purge || db.memories.Keys <= after.memories.Keys)
  }

  lemma DeactivatesApply(db: Db, p: Proposal, authorized: Option<Scope>, actor: Id, at: int)
    ensures Deactivates(db, Next(db, ApplyStep(p, authorized, actor, at)), false)
  {
    ShapeMutation(db, p, authorized, at);
  }

  lemma ImportAddsMemories(db: Db, bundle: Bundle)
    ensures var r := Import(db, bundle); r.Success? ==>
      && r.value.memories == db.memories + Table(MemoryRows(bundle.memories))
      && db.memories.Keys !! Table(MemoryRows(bundle.memories)).Keys
  {
    if Import(db, bundle).Success? {
      FreeKeys(db.memories, MemoryRows(bundle.memories));
    }
  }

  lemma JoinDeactivates(db: Db, after: Db, added: map<Id, Memory>)
    requires after.memories == db.memories + added && db.memories.Keys !! added.Keys
    ensures Deactivates(db, after, false)
  {
  }

  lemma DeactivatesAccepted(db: Db, bundle: Bundle)
    requires Import(db, bundle).Success?
    ensures Deactivates(db, Import(db, bundle).value, false)
  {
    ImportAddsMemories(db, bundle);
    JoinDeactivates(db, Import(db, bundle).value, Table(MemoryRows(bundle.memories)));
  }

  lemma ImportIsKept(db: Db, bundle: Bundle)
    ensures Next(db, ImportStep(bundle)) == Kept(db, Import(db, bundle))
  {
  }

  lemma DeactivatesKept(db: Db, r: Result<Db, ImportError>)
    requires r.Success? ==> Deactivates(db, r.value, false)
    ensures Deactivates(db, Kept(db, r), false)
  {
  }

  lemma DeactivatesImport(db: Db, bundle: Bundle)
    ensures Deactivates(db, Next(db, ImportStep(bundle)), false)
  {
    var r := Import(db, bundle);
    if r.Success? {
      DeactivatesAccepted(db, bundle);
    }
    DeactivatesKept(db, r);
    ImportIsKept(db, bundle);
  }

  lemma DeactivatesPurge(db: Db, receipt: Id, namespace: Id, purger: Id, memory: Id, mode: PurgeMode, at: int)
    ensures Deactivates(db, Next(db, PurgeStep(receipt, namespace, purger, memory, mode, at)), true)
  {
    PurgeWrites(db, receipt, namespace, purger, memory, mode, at);
  }

  lemma DeactivatesStep(db: Db, step: Step)
    requires Schema(db)
    ensures Deactivates(db, Next(db, step), step.PurgeStep?)
  {
    match step {
      case ApplyStep(p, authorized, actor, at) => DeactivatesApply(db, p, authorized, actor, at);
      case ExpireStep(_) =>
      case PurgeStep(receipt, namespace, purger, memory, mode, at) => DeactivatesPurge(db, receipt, namespace, purger, memory, mode, at);
      case ImportStep(bundle) => DeactivatesImport(db, bundle);
      case _ => AsideStep(db, step);
    }
  }

  /** Step i of a run from db purges m. */
  ghost predicate PurgedAt(db: Db, steps: seq<Step>, i: nat, m: Id) {
    i < |steps| && steps[i].PurgeStep? && m in From(db, steps[..i]).memories && m !in From(db, steps[..i + 1]).memories
  }

  /** Whatever the steps, imports included, a memory that is not active stays so until it is purged. */
  lemma {:induction false} InactiveUntilPurged(db: Db, steps: seq<Step>, m: Id)
    requires Sound(db) && Inactive(db, m)
    ensures Sound(From(db, steps))
    ensures Inactive(From(db, steps), m) || exists i: nat :: PurgedAt(db, steps, i, m)
    decreases |steps|
  {
    if steps != [] {
      var front := steps[..|steps| - 1];
      InactiveUntilPurged(db, front, m);
      SoundStep(From(db, front), steps[|steps| - 1]);
      if i: nat :| PurgedAt(db, front, i, m) {
        assert front[..i] == steps[..i] && front[..i + 1] == steps[..i + 1];
        assert PurgedAt(db, steps, i, m);
      } else {
        DeactivatesStep(From(db, front), steps[|steps| - 1]);
        assert steps[..|steps|] == steps;
        assert m !in From(db, steps).memories ==> PurgedAt(db, steps, |steps| - 1, m);
      }
    }
  }

  /** So in any run a memory once archived or forgotten is recalled again only if a purge removed it in between. */
  lemma RecalledAgainOnlyAfterPurge(before: seq<Step>, later: seq<Step>, m: Id, f: Filter, v: Id)
    requires Inactive(Run(before), m)
    requires v in Run(before + later).versions && Run(before + later).versions[v].memory == m
    requires Recallable(Run(before + later), f, v)
    ensures exists i: nat :: PurgedAt(Run(before), later, i, m)
  {
    EveryRunIsSound(before);
    FromJoins(EMPTY, before, later);
    InactiveUntilPurged(Run(before), later, m);
  }

  // ----- What native runs keep besides -----

  ghost predicate Kempt(db: Db) {
    Sound(db) && ChainOk(db) && TasksOk(db) && OpenOk(db) && AuthorsOk(db)
  }

  lemma KemptApply(db: Db, p: Proposal, authorized: Option<Scope>, actor: Id, at: int)
    requires Kempt(db)
    ensures Kempt(Next(db, ApplyStep(p, authorized, actor, at)))
  {
    SoundApply(db, p, authorized, actor, at);
    ChainApply(db, p, authorized, actor, at);
    TasksApply(db, p, authorized, actor, at);
    OpenApply(db, p, authorized, actor, at);
    AuthorsApply(db, p, authorized, actor, at);
  }

  lemma KemptPurge(db: Db, namespace: Id, memory: Id, mode: PurgeMode)
    requires Kempt(db) && TreeMemories(db, namespace, memory) != {}
    ensures Kempt(AfterPurge(db, namespace, memory, mode))
  {
    SoundPurge(db, namespace, memory, mode);
    ChainPurge(db, namespace, memory, mode);
    TasksPurge(db, namespace, memory, mode);
    OpenPurge(db, namespace, memory, mode);
    AuthorsPurge(db, namespace, memory, mode);
  }

  lemma KemptReceipts(db: Db, receipts: map<Id, Receipt>)
    requires Kempt(db)
    ensures Kempt(db.(receipts := receipts))
  {
    SoundReceipts(db, receipts);
  }

  lemma KemptPurgeStep(db: Db, receipt: Id, namespace: Id, purger: Id, memory: Id, mode: PurgeMode, at: int)
    requires Kempt(db)
    ensures Kempt(Next(db, PurgeStep(receipt, namespace, purger, memory, mode, at)))
  {
    var after := Next(db, PurgeStep(receipt, namespace, purger, memory, mode, at));
    PurgeWrites(db, receipt, namespace, purger, memory, mode, at);
    if after != db {
      KemptPurge(db, namespace, memory, mode);
      KemptReceipts(AfterPurge(db, namespace, memory, mode), after.receipts);
    }
  }

  lemma KemptExpire(db: Db, now: int)
    requires Kempt(db)
    ensures Kempt(Expire(db, now))
  {
    SoundExpire(db, now);
    ChainExpire(db, now);
    TasksExpire(db, now);
    OpenExpire(db, now);
    AuthorsExpire(db, now);
  }

  lemma KemptAside(db: Db, after: Db)
    requires Kempt(db) && SameGraph(db, after) && Sound(after)
    requires TasksOk(after) && OpenOk(after)
    ensures Kempt(after)
  {
  }

  lemma KemptEmbed(db: Db, key: EmbeddingKey, content: string, vector: seq<int>, at: int)
    requires Kempt(db)
    ensures var r := PutEmbedding(db, key, content, vector, at); r.Success? ==> Kempt(r.value)
  {
    var r := PutEmbedding(db, key, content, vector, at);
    if r.Success? {
      AsideEmbed(db, key, content, vector, at);
      SoundEmbed(db, key, content, vector, at);
      KemptAside(db, r.value);
    }
  }

  lemma KemptSet(db: Db, id: Id, set_: WorkingSet)
    requires Kempt(db)
    ensures var r := PutWorkingSet(db, id, set_); r.Success? ==> Kempt(r.value)
  {
    var r := PutWorkingSet(db, id, set_);
    if r.Success? {
      AsideSet(db, id, set_);
      SoundSet(db, id, set_);
      TasksPutSet(db, id, set_);
      OpenPutSet(db, id, set_);
      KemptAside(db, r.value);
    }
  }

  lemma KemptRecall(db: Db, namespace: Id, task: Id, enabled: bool, at: int)
    requires Kempt(db)
    ensures var r := SetGlobalRecall(db, namespace, task, enabled, at); r.Success? ==> Kempt(r.value)
  {
    var r := SetGlobalRecall(db, namespace, task, enabled, at);
    if r.Success? {
      AsideRecall(db, namespace, task, enabled, at);
      SoundRecall(db, namespace, task, enabled, at);
      TasksSetGlobalRecall(db, namespace, task, enabled, at);
      OpenSetGlobalRecall(db, namespace, task, enabled, at);
      KemptAside(db, r.value);
    }
  }

  lemma KemptEpisode(db: Db, id: Id, episode: Episode, outcomes: seq<Row<Outcome>>)
    requires Kempt(db)
    ensures var r := PutEpisode(db, id, episode, outcomes); r.Success? ==> Kempt(r.value)
  {
    var r := PutEpisode(db, id, episode, outcomes);
    if r.Success? {
      AsideEpisode(db, id, episode, outcomes);
      SoundEpisode(db, id, episode, outcomes);
      KemptAside(db, r.value);
    }
  }

  lemma KemptObservation(db: Db, id: Id, observation: Observation)
    requires Kempt(db)
    ensures var r := PutObservation(db, id, observation); r.Success? ==> Kempt(r.value)
  {
    var r := PutObservation(db, id, observation);
    if r.Success? {
      AsideObservation(db, id, observation);
      SoundObservation(db, id, observation);
      KemptAside(db, r.value);
    }
  }

  lemma KemptStep(db: Db, step: Step)
    requires Kempt(db) && !step.ImportStep?
    ensures Kempt(Next(db, step))
  {
    match step {
      case ApplyStep(p, authorized, actor, at) => KemptApply(db, p, authorized, actor, at);
      case ExpireStep(now) => KemptExpire(db, now);
      case PurgeStep(receipt, namespace, purger, memory, mode, at) =>
        KemptPurgeStep(db, receipt, namespace, purger, memory, mode, at);
      case EmbedStep(key, content, vector, at) => KemptEmbed(db, key, content, vector, at);
      case WorkingSetStep(id, set_) => KemptSet(db, id, set_);
      case GlobalRecallStep(namespace, task, enabled, at) => KemptRecall(db, namespace, task, enabled, at);
      case EpisodeStep(id, episode, outcomes) => KemptEpisode(db, id, episode, outcomes);
      case ObservationStep(id, observation) => KemptObservation(db, id, observation);
    }
  }

  lemma {:induction false} KemptFrom(db: Db, steps: seq<Step>)
    requires Kempt(db) && Native(steps)
    ensures Kempt(From(db, steps))
    decreases |steps|
  {
    if steps != [] {
      KemptFrom(db, steps[..|steps| - 1]);
      KemptStep(From(db, steps[..|steps| - 1]), steps[|steps| - 1]);
    }
  }

  /** In every native run: whole chains, agreeing indexes, open tasks, known makers. */
  lemma EveryNativeRunIsKempt(steps: seq<Step>)
    requires Native(steps)
    ensures Kempt(Run(steps))
  {
    KemptFrom(EMPTY, steps);
  }

  /** After any native run, recall sees at most one version of a memory at one point of both time axes. */
  lemma OneVersionPerMemory(steps: seq<Step>, f: Filter, v: Id, w: Id)
    requires Native(steps) && Recallable(Run(steps), f, v) && Recallable(Run(steps), f, w)
    requires Run(steps).versions[v].memory == Run(steps).versions[w].memory
    ensures v == w
  {
    EveryNativeRunIsKempt(steps);
    RecallIsUnique(Run(steps), f, v, w);
  }

  lemma ActiveIsSearchable(db: Db, v: Id)
    requires ChainOk(db) && v in db.versions && db.versions[v].memory in db.memories
    requires db.memories[db.versions[v].memory].state == MemoryActive
    ensures Searchable(db.memories, db.versions[v])
  {
    assert RowOk(db.memories[db.versions[v].memory], db.versions[v]);
  }

  /** After any native run, every version of an active memory has exactly one index row, with its text. */
  lemma ActiveVersionHasOneRow(steps: seq<Step>, v: Id)
    requires Native(steps) && v in Run(steps).versions && Run(steps).versions[v].memory in Run(steps).memories
    requires Run(steps).memories[Run(steps).versions[v].memory].state == MemoryActive
    ensures exists r :: RowOf(Run(steps).index, v, r)
    ensures forall r :: RowOf(Run(steps).index, v, r) ==> Run(steps).index.rows[r].text == MemoryText(Run(steps).versions[v].payload)
    ensures forall r, q :: RowOf(Run(steps).index, v, r) && RowOf(Run(steps).index, v, q) ==> r == q
  {
    var db := Run(steps);
    EveryNativeRunIsKempt(steps);
    ActiveIsSearchable(db, v);
    SearchableHasOneRow(db, v);
  }

  // ----- History -----

  /** In every native run a step that supersedes keeps the history of its memory exactly under these guards. */
  lemma PastKeptInRuns(steps: seq<Step>, p: Proposal, authorized: Option<Scope>, at: int, head: Id)
    requires Native(steps) && Evolves(Run(steps), p, authorized, at, head)
    ensures PastKept(Run(steps), p, authorized, at) <==>
      && Run(steps).versions[head].state == VersionCurrent
      && !Narrows(Run(steps).versions[head], p.body.evolution.validTime.from)
    ensures NothingReappears(Run(steps), p, authorized, at) <==> Run(steps).versions[head].state == VersionCurrent
  {
    EveryNativeRunIsKempt(steps);
    PastKeptIff(Run(steps), p, authorized, at, head);
    NothingReappearsIffCurrent(Run(steps), p, authorized, at, head);
  }

  /** And the history of the whole store, exactly when besides no current version is hidden as stale. */
  lemma HistoryKeptInRuns(steps: seq<Step>, p: Proposal, authorized: Option<Scope>, at: int, head: Id)
    requires Native(steps) && Evolves(Run(steps), p, authorized, at, head)
    ensures HistoryKept(Run(steps), p, authorized, at) <==>
      && Run(steps).versions[head].state == VersionCurrent
      && !Narrows(Run(steps).versions[head], p.body.evolution.validTime.from)
      && !exists v :: HiddenByStep(Run(steps), head, at, v)
  {
    EveryNativeRunIsKempt(steps);
    HistoryKeptIff(Run(steps), p, authorized, at, head);
  }

  // ----- One-way exit -----

  lemma ExitedApplyStep(db: Db, m: Id, p: Proposal, authorized: Option<Scope>, actor: Id, at: int)
    requires Exited(db, m)
    ensures var after := Next(db, ApplyStep(p, authorized, actor, at)); Exited(after, m) && (Gone(db, m) ==> Gone(after, m))
  {
    ExitedApply(db, m, p, authorized, actor, at);
    if Gone(db, m) {
      GoneApply(db, m, p, authorized, actor, at);
    }
  }

  lemma ExitedPurgeStep(db: Db, m: Id, receipt: Id, namespace: Id, purger: Id, memory: Id, mode: PurgeMode, at: int)
    requires Exited(db, m)
    ensures var after := Next(db, PurgeStep(receipt, namespace, purger, memory, mode, at));
      Exited(after, m) && (Gone(db, m) ==> Gone(after, m))
  {
    PurgeWrites(db, receipt, namespace, purger, memory, mode, at);
    ExitedPurge(db, m, namespace, memory, mode);
  }

  lemma ExitedStep(db: Db, m: Id, step: Step)
    requires Exited(db, m) && Schema(db) && !step.ImportStep?
    ensures Exited(Next(db, step), m) && (Gone(db, m) ==> Gone(Next(db, step), m))
  {
    match step {
      case ApplyStep(p, authorized, actor, at) => ExitedApplyStep(db, m, p, authorized, actor, at);
      case ExpireStep(now) => ExitedExpire(db, m, now);
      case PurgeStep(receipt, namespace, purger, memory, mode, at) =>
        ExitedPurgeStep(db, m, receipt, namespace, purger, memory, mode, at);
      case _ => AsideStep(db, step);
    }
  }

  lemma {:induction false} ExitedForever(db: Db, m: Id, steps: seq<Step>)
    requires Exited(db, m) && Kempt(db) && Native(steps)
    ensures Exited(From(db, steps), m)
    ensures Gone(db, m) ==> Gone(From(db, steps), m)
    decreases |steps|
  {
    if steps != [] {
      KemptFrom(db, steps[..|steps| - 1]);
      ExitedForever(db, m, steps[..|steps| - 1]);
      ExitedStep(From(db, steps[..|steps| - 1]), m, steps[|steps| - 1]);
    }
  }

  lemma LogKeptByApply(db: Db, q: Proposal, authorized: Option<Scope>, actor: Id, at: int, p: Id)
    requires p in db.operations
    ensures var after := Next(db, ApplyStep(q, authorized, actor, at));
      p in after.operations && after.operations[p] == db.operations[p]
  {
    LogGrows(db, q, authorized, actor, at);
  }

  lemma LogKept(db: Db, step: Step, p: Id)
    requires !step.ImportStep? && Schema(db) && p in db.operations
    ensures p in Next(db, step).operations && Next(db, step).operations[p] == db.operations[p]
  {
    match step {
      case ApplyStep(q, authorized, actor, at) => LogKeptByApply(db, q, authorized, actor, at, p);
      case ExpireStep(_) =>
      case PurgeStep(receipt, namespace, purger, memory, mode, at) => PurgeWrites(db, receipt, namespace, purger, memory, mode, at);
      case _ => AsideStep(db, step);
    }
  }

  lemma {:induction false} LogKeptForever(db: Db, steps: seq<Step>, p: Id)
    requires Kempt(db) && Native(steps) && p in db.operations
    ensures p in From(db, steps).operations && From(db, steps).operations[p] == db.operations[p]
    decreases |steps|
  {
    if steps != [] {
      KemptFrom(db, steps[..|steps| - 1]);
      LogKeptForever(db, steps[..|steps| - 1], p);
      LogKept(From(db, steps[..|steps| - 1]), steps[|steps| - 1], p);
    }
  }

  /**
   * A memory that was once there and later is archived, forgotten or purged is never recalled
   * again, whatever native steps follow.
   */
  lemma NeverRecalledAgain(before: seq<Step>, between: seq<Step>, later: seq<Step>, m: Id, f: Filter, v: Id)
    requires Native(before) && Native(between) && Native(later)
    requires m in Run(before).memories
    requires m in Run(before + between).memories ==> Run(before + between).memories[m].state != MemoryActive
    requires v in Run(before + between + later).versions && Run(before + between + later).versions[v].memory == m
    ensures !Recallable(Run(before + between + later), f, v)
  {
    EveryNativeRunIsKempt(before);
    EveryNativeRunIsKempt(before + between);
    FromJoins(EMPTY, before, between);
    FromJoins(EMPTY, before + between, later);
    LogKeptForever(Run(before), between, m.of);
    ExitedForever(Run(before + between), m, later);
  }

  /** Once the target of a logged proposal is purged, every replay is refused in every later state. */
  lemma PurgedStaysRefused(before: seq<Step>, later: seq<Step>, p: Proposal, authorized: Option<Scope>, actor: Id, at: int)
    requires Native(before) && Native(later) && p.id in Run(before).operations
    requires Run(before).operations[p.id].target !in Run(before).memories
    ensures Apply(Run(before + later), p, authorized, actor, at).RolledBack?
  {
    var m := Run(before).operations[p.id].target;
    EveryNativeRunIsKempt(before);
    FromJoins(EMPTY, before, later);
    LogKeptForever(Run(before), later, p.id);
    ExitedForever(Run(before), m, later);
  }

  /** A logged proposal never writes again: later applications find the tables as they leave them. */
  lemma AppliedOnce(before: seq<Step>, later: seq<Step>, p: Proposal, authorized: Option<Scope>, actor: Id, at: int)
    requires Native(before) && Native(later) && p.id in Run(before).operations
    ensures Next(Run(before + later), ApplyStep(p, authorized, actor, at)) == Run(before + later)
    ensures p.id in Run(before + later).operations
    ensures Run(before + later).operations[p.id] == Run(before).operations[p.id]
  {
    EveryNativeRunIsKempt(before);
    FromJoins(EMPTY, before, later);
    LogKeptForever(Run(before), later, p.id);
    ReplayNeverWrites(Run(before + later), p, authorized, actor, at);
  }
}
