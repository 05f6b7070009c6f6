// What one applied proposal can change: which rows it adds, and what it leaves alone.
module MutationShape {
  import opened Ids
  import opened Graph
  import opened Domain
  import opened Database
  import opened Lifecycle

  /** There is an active working set for the scope's task. */
  predicate TaskOpen(sets: map<Id, WorkingSet>, scope: Scope) {
    exists id :: id in sets && sets[id].scope.namespace == scope.namespace && sets[id].task == scope.context
                 && sets[id].state == SetActive
  }

  /** A memory row that a proposal adds is active, and if it is working memory its task is open. */
  predicate NewMemoryOk(sets: map<Id, WorkingSet>, m: Memory) {
    m.state == MemoryActive && (m.memoryFunction == Working ==> TaskOpen(sets, m.scope))
  }

  /** A memory row that was there keeps scope and function, and never becomes active again. */
  predicate OldMemoryOk(before: Memory, after: Memory) {
    && after.scope == before.scope
    && after.memoryFunction == before.memoryFunction
    && (after.state == MemoryActive ==> before.state == MemoryActive)
  }

  ghost predicate MemoriesShaped(db: Db, p: Id, after: map<Id, Memory>) {
    && db.memories.Keys <= after.Keys
    && (forall m :: m in db.memories ==> OldMemoryOk(db.memories[m], after[m]))
    && forall m :: m in after && m !in db.memories ==>
         (m == MemoryIdOf(p) || m == SiblingIdOf(p)) && NewMemoryOk(db.workingSets, after[m])
  }

  ghost predicate VersionsShaped(db: Db, p: Id, after: map<Id, Version>) {
    && db.versions.Keys <= after.Keys
    && (forall v :: v in db.versions ==> after[v].derivedFrom == db.versions[v].derivedFrom)
    && forall v :: v in after && v !in db.versions ==>
         (v == VersionIdOf(p) || v == SiblingVersionIdOf(p)) && Distinct(after[v].derivedFrom)
  }

  /** The tables lifecycle proposals never write, and the shape of those they do. */
  ghost predicate Shaped(db: Db, p: Id, after: Db) {
    && after.observations == db.observations
    && after.episodes == db.episodes
    && after.outcomes == db.outcomes
    && after.workingSets == db.workingSets
    && after.operations == db.operations
    && after.receipts == db.receipts
    && MemoriesShaped(db, p, after.memories)
    && VersionsShaped(db, p, after.versions)
  }

  lemma WorkingTaskOpen(db: Db, scope: Scope, at: int, payload: Payload)
    requires payload.WorkingPayload? && ReferencesExist(db, scope, at, payload)
    ensures TaskOpen(db.workingSets, scope)
  {
  }

  lemma ShapeCreate(db: Db, p: Proposal, authorized: Option<Scope>, at: int)
    ensures var r := ApplyCreate(db, p, authorized, at); r.Success? ==> Shaped(db, p.id, r.value.db)
  {
    var r := ApplyCreate(db, p, authorized, at);
    if r.Success? && r.value.rows.memory.memoryFunction == Working {
      WorkingTaskOpen(db, p.body.create.scope, at, p.body.create.payload);
    }
  }

  lemma ShapeConflict(db: Db, p: Proposal, head: Id, e: MemoryEvolution, at: int)
    requires IsHead(db, p.target, head) && db.memories[p.target].state == MemoryActive
    requires ValidEvolution(e, db.memories[p.target].memoryFunction) && Distinct(e.derivedFrom)
    requires ReferencesExist(db, db.memories[p.target].scope, at, e.payload)
    ensures var r := ApplyConflict(db, p, head, e, at); r.Success? ==> Shaped(db, p.id, r.value.db)
  {
    var r := ApplyConflict(db, p, head, e, at);
    if r.Success? && db.memories[p.target].memoryFunction == Working {
      WorkingTaskOpen(db, db.memories[p.target].scope, at, e.payload);
    }
  }

  lemma ShapeAfterEvolution(db: Db, p: Proposal, head: Id, e: MemoryEvolution, at: int)
    requires IsHead(db, p.target, head) && db.memories[p.target].state == MemoryActive && Distinct(e.derivedFrom)
    requires VersionIdOf(p.id) !in db.versions
    ensures Shaped(db, p.id, AfterEvolution(db, p, head, e, at))
  {
    var after := AfterEvolution(db, p, head, e, at);
    var closed := CloseHead(db.versions, head, at, e.validTime.from);
    assert after.versions == Staled(closed, db.edges, head)[VersionIdOf(p.id) := NextVersion(head, db.versions[head], e, at)];
  }

  lemma ShapeEvolution(db: Db, p: Proposal, authorized: Option<Scope>, at: int)
    ensures var r := ApplyEvolution(db, p, authorized, at); r.Success? ==> Shaped(db, p.id, r.value.db)
  {
    var r := ApplyEvolution(db, p, authorized, at);
    if r.Success? {
      var head, e := Head(db, p.target).value, p.body.evolution;
      if e.mode == Conflict {
        ShapeConflict(db, p, head, e, at);
      } else {
        ShapeAfterEvolution(db, p, head, e, at);
      }
    }
  }

  lemma ShapeState(db: Db, p: Proposal, authorized: Option<Scope>, ms: MemoryState, vs: VersionState, removeIndexes: bool)
    requires ms != MemoryActive
    ensures var r := ApplyState(db, p, authorized, ms, vs, removeIndexes); r.Success? ==> Shaped(db, p.id, r.value.db)
  {
  }

  lemma ShapeMutation(db: Db, p: Proposal, authorized: Option<Scope>, at: int)
    ensures var r := Mutate(db, p, authorized, at); r.Success? ==> Shaped(db, p.id, r.value.db)
  {
    ShapeCreate(db, p, authorized, at);
    ShapeEvolution(db, p, authorized, at);
    ShapeState(db, p, authorized, MemoryArchived, VersionArchived, false);
    ShapeState(db, p, authorized, MemoryForgotten, VersionForgotten, true);
  }

  // ----- The rows a proposal answers with -----

  /** The answer names a memory and its head, as they are in the tables. */
  ghost predicate Answers(m: Mutation) {
    && IsHead(m.db, m.rows.memoryId, m.rows.versionId)
    && m.db.memories[m.rows.memoryId] == m.rows.memory
    && m.db.versions[m.rows.versionId] == m.rows.version
  }

  lemma AnswersCreate(db: Db, p: Proposal, authorized: Option<Scope>, at: int)
    ensures var r := ApplyCreate(db, p, authorized, at); r.Success? ==> Answers(r.value) && r.value.rows.memoryId == MemoryIdOf(p.id)
  {
  }

  lemma AnswersConflict(db: Db, p: Proposal, head: Id, e: MemoryEvolution, at: int)
    requires IsHead(db, p.target, head)
    ensures var r := ApplyConflict(db, p, head, e, at); r.Success? ==> Answers(r.value)
  {
  }

  lemma AnswersEvolution(db: Db, p: Proposal, authorized: Option<Scope>, at: int)
    ensures var r := ApplyEvolution(db, p, authorized, at); r.Success? ==> Answers(r.value)
  {
    var r := ApplyEvolution(db, p, authorized, at);
    if r.Success? && p.body.evolution.mode == Conflict {
      AnswersConflict(db, p, Head(db, p.target).value, p.body.evolution, at);
    }
  }

  lemma AnswersState(db: Db, p: Proposal, authorized: Option<Scope>, ms: MemoryState, vs: VersionState, removeIndexes: bool)
    ensures var r := ApplyState(db, p, authorized, ms, vs, removeIndexes); r.Success? ==> Answers(r.value)
  {
  }

  lemma AnswersMutation(db: Db, p: Proposal, authorized: Option<Scope>, at: int)
    ensures var r := Mutate(db, p, authorized, at); r.Success? ==> Answers(r.value)
    ensures var r := Mutate(db, p, authorized, at); r.Success? && p.action == Create ==> r.value.rows.memoryId == MemoryIdOf(p.id)
  {
    AnswersCreate(db, p, authorized, at);
    AnswersEvolution(db, p, authorized, at);
    AnswersState(db, p, authorized, MemoryArchived, VersionArchived, false);
    AnswersState(db, p, authorized, MemoryForgotten, VersionForgotten, true);
  }
}
