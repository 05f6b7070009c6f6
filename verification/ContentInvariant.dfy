// What every native run keeps about the content of its rows: payloads fit their memory, what a
// version refers to is stored, and parents that are still there are linked by an edge.
module ContentInvariant {
  import opened Ids
  import opened Graph
  import opened Domain
  import opened Database
  import opened Lifecycle
  import opened Purge
  import opened WorkingSets
  import opened Bundles
  import opened Portable
  import opened Captures
  import opened ChainInvariant
  import opened MutationShape
  import opened Authorship
  import opened ApplyEffects

  // ----- The invariant -----

  /** The payload fits the memory, and what it refers to is stored and belongs to the memory's subject or task. */
  ghost predicate Backed(db: Db, m: Memory, p: Payload) {
    && PayloadFits(p, m.memoryFunction)
    && match p
       case FactualPayload(claimSubject, _, _, _, _) => claimSubject == m.scope.subject
       case ExperientialPayload(_, evidence) => forall e :: e in evidence ==> EvidenceExists(db, m.scope, e)
       case WorkingPayload(id, task, _, _, _) =>
         && m.scope.context == task
         && id in db.workingSets
         && db.workingSets[id].scope.namespace == m.scope.namespace && db.workingSets[id].task == task
  }

  ghost predicate VersionsBacked(db: Db) {
    forall v :: v in db.versions ==>
      && db.versions[v].memory in db.memories
      && db.versions[v].provenance != []
      && Backed(db, db.memories[db.versions[v].memory], db.versions[v].payload)
  }

  /** A version supersedes only versions of its own memory. */
  ghost predicate Succession(versions: map<Id, Version>) {
    forall v, s :: v in versions && s in versions[v].supersedes ==>
      s in versions && versions[s].memory == versions[v].memory
  }

  /** Parents were made by logged proposals, and those still stored are linked by an edge. */
  ghost predicate ParentsLinked(versions: map<Id, Version>, edges: set<Edge>, operations: map<Id, Operation>) {
    forall v, p :: v in versions && p in versions[v].derivedFrom ==>
      MadeBy(p, {VersionKind, SiblingVersionKind}, operations) && (p in versions ==> Edge(p, v) in edges)
  }

  predicate CapturesOk(db: Db) {
    && (forall e :: e in db.episodes ==> e != NO_ID && db.episodes[e].startedAt < db.episodes[e].endedAt)
    && forall w :: w in db.workingSets ==> w != NO_ID && SetFormed(db.workingSets[w])
  }

  predicate SetFormed(set_: WorkingSet) {
    set_.task != NO_ID && (set_.expiresAt.Some? ==> set_.createdAt < set_.expiresAt.value)
  }

  ghost predicate ContentOk(db: Db) {
    && VersionsBacked(db)
    && Succession(db.versions)
    && ParentsLinked(db.versions, db.edges, db.operations)
    && CapturesOk(db)
  }

  // ----- What a step has to leave alone -----

  predicate SameContent(before: Version, after: Version) {
    && after.memory == before.memory
    && after.payload == before.payload
    && after.provenance == before.provenance
    && after.supersedes == before.supersedes
    && after.derivedFrom == before.derivedFrom
  }

  ghost predicate ContentKept(before: map<Id, Version>, after: map<Id, Version>) {
    forall v :: v in before ==> v in after && SameContent(before[v], after[v])
  }

  ghost predicate MemoriesKept(before: map<Id, Memory>, after: map<Id, Memory>) {
    forall m :: m in before ==>
      m in after && after[m].scope == before[m].scope && after[m].memoryFunction == before[m].memoryFunction
  }

  /** Episodes and outcomes stay, and working sets keep their namespace and task. */
  ghost predicate ReferencesKept(db: Db, after: Db) {
    && (forall e :: e in db.episodes ==> e in after.episodes && after.episodes[e] == db.episodes[e])
    && (forall o :: o in db.outcomes ==> o in after.outcomes && after.outcomes[o] == db.outcomes[o])
    && forall w :: w in db.workingSets ==>
         && w in after.workingSets
         && after.workingSets[w].scope == db.workingSets[w].scope && after.workingSets[w].task == db.workingSets[w].task
  }

  lemma BackedKept(db: Db, after: Db, m: Memory, n: Memory, p: Payload)
    requires ReferencesKept(db, after) && Backed(db, m, p)
    requires n.scope == m.scope && n.memoryFunction == m.memoryFunction
    ensures Backed(after, n, p)
  {
  }

  // ----- One version more -----

  lemma LinkedOneMore(versions: map<Id, Version>, edges: set<Edge>, operations: map<Id, Operation>,
                      after: map<Id, Version>, links: set<Edge>, logged: map<Id, Operation>, id: Id)
    requires ParentsLinked(versions, edges, operations)
    requires forall v :: v in versions ==> MadeBy(v, {VersionKind, SiblingVersionKind}, operations)
    requires id.Derived? && id.of !in operations && operations.Keys <= logged.Keys
    requires ContentKept(versions, after) && after.Keys == versions.Keys + {id}
    requires forall p :: p in after[id].derivedFrom ==> p in versions
    requires forall e :: e in links <==> e in edges || (e.child == id && e.parent in after[id].derivedFrom)
    ensures ParentsLinked(after, links, logged)
  {
    forall v, p | v in after && p in after[v].derivedFrom
      ensures MadeBy(p, {VersionKind, SiblingVersionKind}, logged) && (p in after ==> Edge(p, v) in links)
    {
      if v in versions {
        assert p in versions[v].derivedFrom;
        assert MadeBy(p, {VersionKind, SiblingVersionKind}, operations);
      } else {
        assert p in versions && MadeBy(p, {VersionKind, SiblingVersionKind}, operations);
      }
    }
  }

  lemma SuccessionOneMore(versions: map<Id, Version>, after: map<Id, Version>, id: Id)
    requires Succession(versions) && ContentKept(versions, after) && after.Keys == versions.Keys + {id} && id !in versions
    requires forall s :: s in after[id].supersedes ==> s in versions && versions[s].memory == after[id].memory
    ensures Succession(after)
  {
  }

  lemma BackedOneMore(db: Db, after: Db, id: Id)
    requires VersionsBacked(db) && ReferencesKept(db, after) && MemoriesKept(db.memories, after.memories)
    requires ContentKept(db.versions, after.versions) && after.versions.Keys == db.versions.Keys + {id}
    requires after.versions[id].memory in after.memories && after.versions[id].provenance != []
    requires Backed(after, after.memories[after.versions[id].memory], after.versions[id].payload)
    ensures VersionsBacked(after)
  {
    forall v | v in after.versions
      ensures && after.versions[v].memory in after.memories
              && after.versions[v].provenance != []
              && Backed(after, after.memories[after.versions[v].memory], after.versions[v].payload)
    {
      if v in db.versions {
        var m := db.versions[v].memory;
        BackedKept(db, after, db.memories[m], after.memories[m], db.versions[v].payload);
      }
    }
  }

  lemma GroundedBacked(db: Db, m: Memory, at: int, p: Payload)
    requires Grounded(db, m.scope, m.memoryFunction, at, p)
    ensures Backed(db, m, p)
  {
    GroundedIff(db, m.scope, m.memoryFunction, at, p);
  }

  /** The captured tables are as they were, or restated by a sweep. */
  ghost predicate SameCaptures(db: Db, after: Db) {
    after.episodes == db.episodes && after.outcomes == db.outcomes && after.workingSets == db.workingSets
  }

  /** What inserting one version has to show: the rest stays, and the row itself is in order. */
  ghost predicate InsertsVersion(db: Db, after: Db, rows: Rows) {
    && SameCaptures(db, after)
    && MemoriesKept(db.memories, after.memories)
    && ContentKept(db.versions, after.versions)
    && rows.memoryId in after.memories && after.memories[rows.memoryId] == rows.memory
    && rows.versionId !in db.versions && after.versions.Keys == db.versions.Keys + {rows.versionId}
    && after.versions[rows.versionId] == rows.version && rows.version.memory == rows.memoryId
    && (forall e :: e in after.edges <==> e in db.edges || (e.child == rows.versionId && e.parent in rows.version.derivedFrom))
    && rows.version.provenance != []
    && (forall p :: p in rows.version.derivedFrom ==> p in db.versions)
    && (forall s :: s in rows.version.supersedes ==> s in db.versions && db.versions[s].memory == rows.memoryId)
    && Backed(db, rows.memory, rows.version.payload)
  }

  lemma ContentInsert(db: Db, after: Db, rows: Rows, operations: map<Id, Operation>)
    requires ContentOk(db) && AuthorsOk(db) && InsertsVersion(db, after, rows)
    requires rows.versionId.Derived? && rows.versionId.of !in db.operations && db.operations.Keys <= operations.Keys
    ensures ContentOk(after.(operations := operations))
  {
    var logged := after.(operations := operations);
    BackedKept(db, logged, rows.memory, rows.memory, rows.version.payload);
    BackedOneMore(db, logged, rows.versionId);
    SuccessionOneMore(db.versions, after.versions, rows.versionId);
    LinkedOneMore(db.versions, db.edges, db.operations, after.versions, after.edges, operations, rows.versionId);
  }

  // ----- Proposals -----

  lemma CreateInserts(db: Db, p: Proposal, authorized: Option<Scope>, at: int)
    ensures var r := ApplyCreate(db, p, authorized, at); r.Success? ==>
      InsertsVersion(db, r.value.db, r.value.rows) && r.value.rows.versionId == VersionIdOf(p.id)
  {
    var r := ApplyCreate(db, p, authorized, at);
    if r.Success? {
      CreateIff(db, p, authorized, at);
      CreateStoresRows(db, p, authorized, at);
      GroundedBacked(db, r.value.rows.memory, at, p.body.create.payload);
    }
  }

  /** Answered rows are in order. */
  ghost predicate RowsInOrder(db: Db, rows: Rows) {
    && rows.version.memory == rows.memoryId
    && rows.version.provenance != []
    && (forall p :: p in rows.version.derivedFrom ==> p in db.versions)
    && (forall s :: s in rows.version.supersedes ==> s in db.versions && db.versions[s].memory == rows.memoryId)
    && Backed(db, rows.memory, rows.version.payload)
  }

  lemma ConflictRows(db: Db, p: Proposal, authorized: Option<Scope>, at: int, head: Id, after: Db, rows: Rows)
    requires EvolutionAcceptable(db, p, authorized, at, head)
    requires HoldsEvolution(p.body.evolution, rows.version, at) && StandsBeside(db, p, after, rows, head, at)
    ensures RowsInOrder(db, rows) && ContentKept(db.versions, after.versions)
  {
    GroundedBacked(db, rows.memory, at, p.body.evolution.payload);
  }

  lemma ConflictKeepsCaptures(db: Db, p: Proposal, head: Id, e: MemoryEvolution, at: int)
    requires IsHead(db, p.target, head)
    ensures var r := ApplyConflict(db, p, head, e, at); r.Success? ==>
      SameCaptures(db, r.value.db) && r.value.rows.versionId == SiblingVersionIdOf(p.id)
  {
  }

  lemma ConflictInserts(db: Db, p: Proposal, authorized: Option<Scope>, at: int, head: Id)
    requires EvolutionAcceptable(db, p, authorized, at, head) && p.body.evolution.mode == Conflict
    ensures var r := ApplyConflict(db, p, head, p.body.evolution, at); r.Success? ==>
      InsertsVersion(db, r.value.db, r.value.rows) && r.value.rows.versionId == SiblingVersionIdOf(p.id)
  {
    var e := p.body.evolution;
    var r := ApplyConflict(db, p, head, e, at);
    if r.Success? {
      ConflictStoresRows(db, p, head, e, at);
      ConflictRows(db, p, authorized, at, head, r.value.db, r.value.rows);
      ConflictKeepsCaptures(db, p, head, e, at);
    }
  }

  lemma EvolvedKeepsContent(db: Db, p: Proposal, head: Id, e: MemoryEvolution, at: int)
    requires IsHead(db, p.target, head) && VersionIdOf(p.id) !in db.versions
    ensures ContentKept(db.versions, AfterEvolution(db, p, head, e, at).versions)
  {
    var closed := CloseHead(db.versions, head, at, e.validTime.from);
    var next := NextVersion(head, db.versions[head], e, at);
    assert AfterEvolution(db, p, head, e, at).versions == Staled(closed, db.edges, head)[VersionIdOf(p.id) := next];
  }

  lemma SupersedeRows(db: Db, p: Proposal, authorized: Option<Scope>, at: int, head: Id, rows: Rows)
    requires EvolutionAcceptable(db, p, authorized, at, head) && p.body.evolution.mode != Conflict
    requires HoldsEvolution(p.body.evolution, rows.version, at) && FollowsHead(db, p, rows)
    ensures RowsInOrder(db, rows) && MemoriesKept(db.memories, db.memories[p.target := rows.memory])
  {
    GroundedBacked(db, rows.memory, at, p.body.evolution.payload);
  }

  lemma SupersedeLeaves(db: Db, p: Proposal, authorized: Option<Scope>, at: int, head: Id)
    requires EvolutionAcceptable(db, p, authorized, at, head) && p.body.evolution.mode != Conflict && Head(db, p.target) == Some(head)
    ensures var r := ApplyEvolution(db, p, authorized, at); r.Success? ==>
      && r.value.db == AfterEvolution(db, p, head, p.body.evolution, at)
      && r.value.rows.versionId == VersionIdOf(p.id)
      && SameCaptures(db, r.value.db)
  {
  }

  lemma SupersedeInserts(db: Db, p: Proposal, authorized: Option<Scope>, at: int, head: Id)
    requires EvolutionAcceptable(db, p, authorized, at, head) && p.body.evolution.mode != Conflict && Head(db, p.target) == Some(head)
    ensures var r := ApplyEvolution(db, p, authorized, at); r.Success? ==>
      InsertsVersion(db, r.value.db, r.value.rows) && r.value.rows.versionId == VersionIdOf(p.id)
  {
    var r := ApplyEvolution(db, p, authorized, at);
    if r.Success? {
      EvolutionStoresRows(db, p, authorized, at);
      EvolutionStoresTables(db, p, authorized, at);
      SupersedeLeaves(db, p, authorized, at, head);
      EvolvedKeepsContent(db, p, head, p.body.evolution, at);
      SupersedeRows(db, p, authorized, at, head, r.value.rows);
    }
  }

  lemma EvolutionInserts(db: Db, p: Proposal, authorized: Option<Scope>, at: int)
    requires UniqueNumbers(db.versions)
    ensures var r := ApplyEvolution(db, p, authorized, at); r.Success? ==>
      && InsertsVersion(db, r.value.db, r.value.rows)
      && r.value.rows.versionId in {VersionIdOf(p.id), SiblingVersionIdOf(p.id)}
  {
    var r := ApplyEvolution(db, p, authorized, at);
    if r.Success? {
      var head := Head(db, p.target).value;
      EvolutionIff(db, p, authorized, at, head);
      if p.body.evolution.mode == Conflict {
        ConflictInserts(db, p, authorized, at, head);
      } else {
        SupersedeInserts(db, p, authorized, at, head);
      }
    }
  }

  lemma BackedRestated(db: Db, after: Db)
    requires VersionsBacked(db) && ReferencesKept(db, after) && MemoriesKept(db.memories, after.memories)
    requires ContentKept(db.versions, after.versions) && after.versions.Keys == db.versions.Keys
    ensures VersionsBacked(after)
  {
    forall v | v in after.versions
      ensures && after.versions[v].memory in after.memories
              && after.versions[v].provenance != []
              && Backed(after, after.memories[after.versions[v].memory], after.versions[v].payload)
    {
      var m := db.versions[v].memory;
      BackedKept(db, after, db.memories[m], after.memories[m], db.versions[v].payload);
    }
  }

  lemma LinksRestated(versions: map<Id, Version>, edges: set<Edge>, operations: map<Id, Operation>,
                      after: map<Id, Version>, logged: map<Id, Operation>)
    requires ParentsLinked(versions, edges, operations) && Succession(versions)
    requires ContentKept(versions, after) && after.Keys == versions.Keys && operations.Keys <= logged.Keys
    ensures ParentsLinked(after, edges, logged) && Succession(after)
  {
    forall v, p | v in after && p in after[v].derivedFrom
      ensures MadeBy(p, {VersionKind, SiblingVersionKind}, logged) && (p in after ==> Edge(p, v) in edges)
    {
      assert p in versions[v].derivedFrom;
      assert MadeBy(p, {VersionKind, SiblingVersionKind}, operations);
    }
  }

  lemma ContentRestated(db: Db, after: Db)
    requires ContentOk(db) && ReferencesKept(db, after) && CapturesOk(after)
    requires MemoriesKept(db.memories, after.memories)
    requires ContentKept(db.versions, after.versions) && after.versions.Keys == db.versions.Keys
    requires after.edges == db.edges && db.operations.Keys <= after.operations.Keys
    ensures ContentOk(after)
  {
    BackedRestated(db, after);
    LinksRestated(db.versions, db.edges, db.operations, after.versions, after.operations);
  }

  lemma StatesKeepContent(db: Db, p: Proposal, after: Db, rows: Rows, ms: MemoryState, vs: VersionState)
    requires OnlyStates(db, p, after, rows, ms, vs)
    ensures MemoriesKept(db.memories, after.memories)
    ensures ContentKept(db.versions, after.versions) && after.versions.Keys == db.versions.Keys
  {
  }

  lemma StateKeepsCaptures(db: Db, p: Proposal, authorized: Option<Scope>, ms: MemoryState, vs: VersionState, removeIndexes: bool)
    ensures var r := ApplyState(db, p, authorized, ms, vs, removeIndexes); r.Success? ==> SameCaptures(db, r.value.db)
  {
  }

  lemma ContentState(db: Db, p: Proposal, authorized: Option<Scope>, ms: MemoryState, vs: VersionState, removeIndexes: bool,
                     operations: map<Id, Operation>)
    requires ContentOk(db) && db.operations.Keys <= operations.Keys
    ensures var r := ApplyState(db, p, authorized, ms, vs, removeIndexes); r.Success? ==>
      ContentOk(r.value.db.(operations := operations))
  {
    var r := ApplyState(db, p, authorized, ms, vs, removeIndexes);
    if r.Success? {
      StateStoresRows(db, p, authorized, ms, vs, removeIndexes);
      StateKeepsCaptures(db, p, authorized, ms, vs, removeIndexes);
      StatesKeepContent(db, p, r.value.db, r.value.rows, ms, vs);
      ContentRestated(db, r.value.db.(operations := operations));
    }
  }

  lemma ContentMutation(db: Db, p: Proposal, authorized: Option<Scope>, at: int, operations: map<Id, Operation>)
    requires ContentOk(db) && AuthorsOk(db) && UniqueNumbers(db.versions) && p.id !in db.operations
    requires db.operations.Keys <= operations.Keys
    ensures var r := Mutate(db, p, authorized, at); r.Success? ==> ContentOk(r.value.db.(operations := operations))
  {
    var r := Mutate(db, p, authorized, at);
    if r.Success? {
      match p.action {
        case Create =>
          CreateInserts(db, p, authorized, at);
          ContentInsert(db, r.value.db, r.value.rows, operations);
        case Archive => ContentState(db, p, authorized, MemoryArchived, VersionArchived, false, operations);
        case Forget => ContentState(db, p, authorized, MemoryForgotten, VersionForgotten, true, operations);
        case _ =>
          EvolutionInserts(db, p, authorized, at);
          ContentInsert(db, r.value.db, r.value.rows, operations);
      }
    }
  }

  /** Applying any proposal keeps the content of all rows in order. */
  lemma ContentApply(db: Db, p: Proposal, authorized: Option<Scope>, actor: Id, at: int)
    requires ContentOk(db) && AuthorsOk(db) && UniqueNumbers(db.versions)
    ensures var r := Apply(db, p, authorized, actor, at); r.Committed? ==> ContentOk(r.db)
  {
    var r := Apply(db, p, authorized, actor, at);
    if r.Committed? && p.id !in db.operations {
      ShapeMutation(db, p, authorized, at);
      ContentMutation(db, p, authorized, at, r.db.operations);
    }
  }

  // ----- Purge -----

  lemma ContentMarked(db: Db, marked: set<Id>)
    requires ContentOk(db)
    ensures ContentOk(db.(versions := StaleAmong(db.versions, marked)))
  {
    ContentRestated(db, db.(versions := StaleAmong(db.versions, marked)));
  }

  lemma BackedDelete(db: Db, namespace: Id, doomed: set<Id>)
    requires VersionsBacked(db)
    ensures VersionsBacked(DeleteMemories(db, namespace, doomed))
  {
    var after := DeleteMemories(db, namespace, doomed);
    forall v | v in after.versions
      ensures after.versions[v].memory in after.memories
      ensures Backed(after, after.memories[after.versions[v].memory], after.versions[v].payload)
    {
      var m := db.memories[db.versions[v].memory];
      BackedKept(db, after, m, m, db.versions[v].payload);
    }
  }

  lemma LinksDelete(versions: map<Id, Version>, edges: set<Edge>, operations: map<Id, Operation>, doomed: set<Id>)
    requires Succession(versions) && ParentsLinked(versions, edges, operations)
    ensures var gone := OwnedBy(versions, doomed);
      && Succession(versions - gone)
      && ParentsLinked(versions - gone, (set e | e in edges && e.parent !in gone && e.child !in gone), operations)
  {
  }

  lemma ContentDelete(db: Db, namespace: Id, doomed: set<Id>)
    requires ContentOk(db)
    ensures ContentOk(DeleteMemories(db, namespace, doomed))
  {
    BackedDelete(db, namespace, doomed);
    LinksDelete(db.versions, db.edges, db.operations, doomed);
  }

  /** A purge removes whole memories, so what survives keeps its content in order. */
  lemma ContentPurge(db: Db, namespace: Id, memory: Id, mode: PurgeMode)
    requires ContentOk(db)
    ensures ContentOk(AfterPurge(db, namespace, memory, mode))
  {
    var doomed := Doomed(db, namespace, memory, mode);
    if mode == Cascade {
      ContentDelete(db, namespace, doomed);
    } else {
      var marked := DerivedVersions(db, namespace, memory);
      ContentMarked(db, marked);
      ContentDelete(db.(versions := StaleAmong(db.versions, marked)), namespace, doomed);
    }
  }

  // ----- The other steps -----

  lemma MemoriesExpire(sets: map<Id, WorkingSet>, ids: set<Id>, memories: map<Id, Memory>)
    ensures MemoriesKept(memories, MemoriesAfter(sets, ids, memories))
  {
  }

  lemma VersionsExpire(sets: map<Id, WorkingSet>, ids: set<Id>, memories: map<Id, Memory>, versions: map<Id, Version>)
    ensures ContentKept(versions, VersionsAfter(sets, ids, memories, versions))
    ensures VersionsAfter(sets, ids, memories, versions).Keys == versions.Keys
  {
  }

  /** Sets keep their scope, their task and the times that bound them. */
  ghost predicate SetsKept(before: map<Id, WorkingSet>, after: map<Id, WorkingSet>) {
    && after.Keys == before.Keys
    && forall w :: w in before ==>
      && after[w].scope == before[w].scope && after[w].task == before[w].task
      && after[w].createdAt == before[w].createdAt && after[w].expiresAt == before[w].expiresAt
  }

  lemma SetsExpire(sets: map<Id, WorkingSet>, ids: set<Id>, now: int)
    ensures SetsKept(sets, SetsAfter(sets, ids, now))
  {
  }

  lemma ContentExpire(db: Db, now: int)
    requires ContentOk(db)
    ensures ContentOk(Expire(db, now))
  {
    var ids := ExpiredSets(db.workingSets, now);
    MemoriesExpire(db.workingSets, ids, db.memories);
    VersionsExpire(db.workingSets, ids, db.memories, db.versions);
    SetsExpire(db.workingSets, ids, now);
    ContentRestated(db, Expire(db, now));
  }

  lemma ContentPutSet(db: Db, id: Id, set_: WorkingSet)
    requires ContentOk(db)
    ensures var r := PutWorkingSet(db, id, set_); r.Success? ==> ContentOk(r.value)
  {
    var r := PutWorkingSet(db, id, set_);
    if r.Success? {
      ContentRestated(db, r.value);
    }
  }

  lemma ContentSetGlobalRecall(db: Db, namespace: Id, task: Id, enabled: bool, at: int)
    requires ContentOk(db)
    ensures var r := SetGlobalRecall(db, namespace, task, enabled, at); r.Success? ==> ContentOk(r.value)
  {
    var r := SetGlobalRecall(db, namespace, task, enabled, at);
    if r.Success? {
      ContentRestated(db, r.value);
    }
  }

  lemma ContentPutEpisode(db: Db, id: Id, episode: Episode, outcomes: seq<Row<Outcome>>)
    requires ContentOk(db)
    ensures var r := PutEpisode(db, id, episode, outcomes); r.Success? ==> ContentOk(r.value)
  {
    var r := PutEpisode(db, id, episode, outcomes);
    if r.Success? {
      forall o | o in Table(outcomes) ensures o !in db.outcomes {
        var row := TableRow(outcomes, o);
      }
      ContentRestated(db, r.value);
    }
  }

  lemma ContentAside(db: Db, after: Db)
    requires ContentOk(db) && SameCaptures(db, after)
    requires after.memories == db.memories && after.versions == db.versions && after.edges == db.edges
    requires after.operations == db.operations
    ensures ContentOk(after)
  {
    ContentRestated(db, after);
  }
}
