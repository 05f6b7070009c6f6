// Each version of active working memory began while its task's set was open, and that set
// still is. So recall at the version's own start always finds the working-set gate open.
module OpenInvariant {
  import opened Ids
  import opened Graph
  import opened Domain
  import opened Database
  import opened Lifecycle
  import opened Purge
  import opened WorkingSets
  import opened TaskInvariant

  /** An active set of the scope's task that is not expired at this time. */
  predicate OpenAt(sets: map<Id, WorkingSet>, scope: Scope, at: int) {
    exists id :: id in sets && OpensTask(sets[id], scope, at)
  }

  predicate OpensTask(set_: WorkingSet, scope: Scope, at: int) {
    && set_.scope.namespace == scope.namespace
    && set_.task == scope.context
    && set_.state == SetActive
    && (set_.expiresAt.Some? ==> set_.expiresAt.value > at)
  }

  predicate Gated(m: Memory) {
    m.memoryFunction == Working && m.state == MemoryActive
  }

  ghost predicate OpenInv(memories: map<Id, Memory>, versions: map<Id, Version>, sets: map<Id, WorkingSet>) {
    forall v :: v in versions && versions[v].memory in memories && Gated(memories[versions[v].memory]) ==>
      OpenAt(sets, memories[versions[v].memory].scope, versions[v].systemTime.from)
  }

  ghost predicate OpenOk(db: Db) {
    OpenInv(db.memories, db.versions, db.workingSets)
  }

  // ----- Changes that keep it -----

  /** Versions keep memory and start, or go; memories keep scope and function, and none becomes active. */
  lemma OpenRestated(memories: map<Id, Memory>, versions: map<Id, Version>, sets: map<Id, WorkingSet>,
                     memories': map<Id, Memory>, versions': map<Id, Version>)
    requires OpenInv(memories, versions, sets)
    requires versions'.Keys <= versions.Keys
    requires forall v :: v in versions' ==>
      versions'[v].memory == versions[v].memory && versions'[v].systemTime.from == versions[v].systemTime.from
    requires forall v :: v in versions' && versions'[v].memory in memories' ==>
      && versions'[v].memory in memories
      && memories'[versions'[v].memory].scope == memories[versions'[v].memory].scope
      && (Gated(memories'[versions'[v].memory]) ==> Gated(memories[versions'[v].memory]))
    ensures OpenInv(memories', versions', sets)
  {
  }

  lemma OpenInsert(memories: map<Id, Memory>, versions: map<Id, Version>, sets: map<Id, WorkingSet>, id: Id, v: Version)
    requires OpenInv(memories, versions, sets) && v.memory in memories
    requires Gated(memories[v.memory]) ==> OpenAt(sets, memories[v.memory].scope, v.systemTime.from)
    ensures OpenInv(memories, versions[id := v], sets)
  {
  }

  // ----- The steps of the store -----

  /** What a working payload's references promise of the set it names. */
  lemma ReferenceIsOpen(db: Db, scope: Scope, f: MemoryFunction, at: int, payload: Payload)
    requires ReferencesExist(db, scope, at, payload) && PayloadFits(payload, f) && f == Working
    ensures OpenAt(db.workingSets, scope, at)
  {
    assert OpensTask(db.workingSets[payload.workingSet], scope, at);
  }

  lemma OpenInsertMemory(db: Db, memory: Memory, id: Id, v: Version)
    requires OpenOk(db) && ForeignKeys(db) && v.memory !in db.memories
    requires Gated(memory) ==> OpenAt(db.workingSets, memory.scope, v.systemTime.from)
    ensures OpenOk(InsertMemory(db, memory, id, v))
  {
    var memories := db.memories[v.memory := memory];
    OpenRestated(db.memories, db.versions, db.workingSets, memories, db.versions);
    OpenInsert(memories, db.versions, db.workingSets, id, v);
  }

  lemma OpenCreate(db: Db, p: Proposal, authorized: Option<Scope>, at: int)
    requires OpenOk(db) && ForeignKeys(db)
    ensures var r := ApplyCreate(db, p, authorized, at); r.Success? ==> OpenOk(r.value.db)
  {
    var r := ApplyCreate(db, p, authorized, at);
    if r.Success? {
      var c := p.body.create;
      if c.memoryFunction == Working {
        ReferenceIsOpen(db, c.scope, c.memoryFunction, at, c.payload);
      }
      OpenInsertMemory(db, r.value.rows.memory, r.value.rows.versionId, r.value.rows.version);
    }
  }

  lemma OpenConflict(db: Db, p: Proposal, head: Id, e: MemoryEvolution, at: int)
    requires OpenOk(db) && ForeignKeys(db) && IsHead(db, p.target, head)
    requires PayloadFits(e.payload, db.memories[p.target].memoryFunction)
    requires ReferencesExist(db, db.memories[p.target].scope, at, e.payload)
    ensures var r := ApplyConflict(db, p, head, e, at); r.Success? ==> OpenOk(r.value.db)
  {
    var r := ApplyConflict(db, p, head, e, at);
    if r.Success? {
      var rows, memory := r.value.rows, db.memories[p.target];
      var grouped := db.(versions := db.versions[head := db.versions[head].(conflictGroup := rows.version.conflictGroup)]);
      OpenRestated(db.memories, db.versions, db.workingSets, db.memories, grouped.versions);
      if memory.memoryFunction == Working {
        ReferenceIsOpen(db, memory.scope, memory.memoryFunction, at, e.payload);
      }
      OpenInsertMemory(grouped, rows.memory, rows.versionId, rows.version);
    }
  }

  lemma ClosedStarts(versions: map<Id, Version>, edges: set<Edge>, head: Id, at: int, validFrom: int)
    requires head in versions
    ensures var closed := Staled(CloseHead(versions, head, at, validFrom), edges, head);
      && closed.Keys == versions.Keys
      && forall v :: v in versions ==>
        closed[v].memory == versions[v].memory && closed[v].systemTime.from == versions[v].systemTime.from
  {
  }

  lemma OpenAfterEvolution(db: Db, p: Proposal, head: Id, e: MemoryEvolution, at: int)
    requires OpenOk(db) && IsHead(db, p.target, head) && db.memories[p.target].state == MemoryActive
    requires PayloadFits(e.payload, db.memories[p.target].memoryFunction)
    requires ReferencesExist(db, db.memories[p.target].scope, at, e.payload)
    ensures OpenOk(AfterEvolution(db, p, head, e, at))
  {
    var memory, next := db.memories[p.target], NextVersion(head, db.versions[head], e, at);
    var memories := db.memories[p.target := Advanced(memory, next.number)];
    var closed := Staled(CloseHead(db.versions, head, at, e.validTime.from), db.edges, head);
    ClosedStarts(db.versions, db.edges, head, at, e.validTime.from);
    OpenRestated(db.memories, db.versions, db.workingSets, memories, closed);
    if memory.memoryFunction == Working {
      ReferenceIsOpen(db, memory.scope, memory.memoryFunction, at, e.payload);
    }
    OpenInsert(memories, closed, db.workingSets, VersionIdOf(p.id), next);
  }

  lemma OpenEvolution(db: Db, p: Proposal, authorized: Option<Scope>, at: int)
    requires OpenOk(db) && ForeignKeys(db)
    ensures var r := ApplyEvolution(db, p, authorized, at); r.Success? ==> OpenOk(r.value.db)
  {
    var r := ApplyEvolution(db, p, authorized, at);
    if r.Success? {
      var head, e := Head(db, p.target).value, p.body.evolution;
      if e.mode == Conflict {
        OpenConflict(db, p, head, e, at);
      } else {
        OpenAfterEvolution(db, p, head, e, at);
      }
    }
  }

  lemma OpenState(db: Db, p: Proposal, authorized: Option<Scope>, ms: MemoryState, vs: VersionState, removeIndexes: bool)
    requires OpenOk(db) && ms != MemoryActive
    ensures var r := ApplyState(db, p, authorized, ms, vs, removeIndexes); r.Success? ==> OpenOk(r.value.db)
  {
    var r := ApplyState(db, p, authorized, ms, vs, removeIndexes);
    if r.Success? {
      OpenRestated(db.memories, db.versions, db.workingSets, r.value.db.memories, r.value.db.versions);
    }
  }

  /** A version is added only while the set its payload names is open. */
  lemma OpenApply(db: Db, p: Proposal, authorized: Option<Scope>, actor: Id, at: int)
    requires OpenOk(db) && ForeignKeys(db)
    ensures var r := Apply(db, p, authorized, actor, at); r.Committed? ==> OpenOk(r.db)
  {
    OpenCreate(db, p, authorized, at);
    OpenEvolution(db, p, authorized, at);
    OpenState(db, p, authorized, MemoryArchived, VersionArchived, false);
    OpenState(db, p, authorized, MemoryForgotten, VersionForgotten, true);
  }

  lemma OpenMarked(db: Db, marked: set<Id>)
    requires OpenOk(db)
    ensures OpenOk(db.(versions := StaleAmong(db.versions, marked)))
  {
    OpenRestated(db.memories, db.versions, db.workingSets, db.memories, StaleAmong(db.versions, marked));
  }

  lemma OpenDelete(db: Db, namespace: Id, doomed: set<Id>)
    requires OpenOk(db)
    ensures OpenOk(DeleteMemories(db, namespace, doomed))
  {
    var after := DeleteMemories(db, namespace, doomed);
    OpenRestated(db.memories, db.versions, db.workingSets, after.memories, after.versions);
  }

  lemma OpenPurge(db: Db, namespace: Id, memory: Id, mode: PurgeMode)
    requires OpenOk(db)
    ensures OpenOk(AfterPurge(db, namespace, memory, mode))
  {
    var marked := DerivedVersions(db, namespace, memory);
    OpenMarked(db, marked);
    OpenDelete(if mode == Cascade then db else db.(versions := StaleAmong(db.versions, marked)), namespace,
               Doomed(db, namespace, memory, mode));
  }

  /** A set that closes takes the active memory of its task with it. */
  lemma OpenExpire(db: Db, now: int)
    requires OpenOk(db) && TasksOk(db)
    ensures OpenOk(Expire(db, now))
  {
    var after := Expire(db, now);
    forall v | v in after.versions && after.versions[v].memory in after.memories && Gated(after.memories[after.versions[v].memory])
      ensures OpenAt(after.workingSets, after.memories[after.versions[v].memory].scope, after.versions[v].systemTime.from)
    {
      var m, at := db.memories[db.versions[v].memory], db.versions[v].systemTime.from;
      assert OpenAt(db.workingSets, m.scope, at);
      var id :| id in db.workingSets && OpensTask(db.workingSets[id], m.scope, at);
      assert id !in ExpiredSets(db.workingSets, now);
      assert id in after.workingSets && OpensTask(after.workingSets[id], m.scope, at);
    }
  }

  /** Sets that keep opening what they opened keep the invariant. */
  lemma OpenSetsKept(db: Db, sets: map<Id, WorkingSet>)
    requires OpenOk(db)
    requires forall id, scope, at :: id in db.workingSets && OpensTask(db.workingSets[id], scope, at) ==>
      id in sets && OpensTask(sets[id], scope, at)
    ensures OpenInv(db.memories, db.versions, sets)
  {
    forall v | v in db.versions && db.versions[v].memory in db.memories && Gated(db.memories[db.versions[v].memory])
      ensures OpenAt(sets, db.memories[db.versions[v].memory].scope, db.versions[v].systemTime.from)
    {
      var scope, at := db.memories[db.versions[v].memory].scope, db.versions[v].systemTime.from;
      var id :| id in db.workingSets && OpensTask(db.workingSets[id], scope, at);
      assert id in sets && OpensTask(sets[id], scope, at);
    }
  }

  lemma OpenPutSet(db: Db, id: Id, set_: WorkingSet)
    requires OpenOk(db)
    ensures var r := PutWorkingSet(db, id, set_); r.Success? ==> OpenOk(r.value)
  {
    var r := PutWorkingSet(db, id, set_);
    if r.Success? {
      OpenSetsKept(db, r.value.workingSets);
    }
  }

  lemma OpenSetGlobalRecall(db: Db, namespace: Id, task: Id, enabled: bool, at: int)
    requires OpenOk(db)
    ensures var r := SetGlobalRecall(db, namespace, task, enabled, at); r.Success? ==> OpenOk(r.value)
  {
    var r := SetGlobalRecall(db, namespace, task, enabled, at);
    if r.Success? {
      OpenSetsKept(db, r.value.workingSets);
    }
  }
}
