// What ties working memory to its tasks, and why the expiry sweep cannot be seen by recall.
module TaskInvariant {
  import opened Ids
  import opened Graph
  import opened Domain
  import opened Database
  import opened Lifecycle
  import opened Purge
  import opened WorkingSets
  import opened Recall
  import opened MutationShape

  ghost predicate TaskInv(memories: map<Id, Memory>, sets: map<Id, WorkingSet>) {
    && UniqueTasks(sets)
    && (forall id :: id in sets ==> sets[id].task != NO_ID)
    && forall m :: m in memories && memories[m].memoryFunction == Working && memories[m].state == MemoryActive ==>
         TaskOpen(sets, memories[m].scope)
  }

  ghost predicate TasksOk(db: Db) {
    TaskInv(db.memories, db.workingSets)
  }

  lemma TasksApply(db: Db, p: Proposal, authorized: Option<Scope>, actor: Id, at: int)
    requires TasksOk(db)
    ensures var r := Apply(db, p, authorized, actor, at); r.Committed? ==> TasksOk(r.db)
  {
    ShapeMutation(db, p, authorized, at);
  }

  lemma TasksPurge(db: Db, namespace: Id, memory: Id, mode: PurgeMode)
    requires TasksOk(db)
    ensures TasksOk(AfterPurge(db, namespace, memory, mode))
  {
  }

  /** The sweep closes a task's set and its memory together. */
  lemma TasksExpire(db: Db, now: int)
    requires TasksOk(db)
    ensures TasksOk(Expire(db, now))
  {
    var ids := ExpiredSets(db.workingSets, now);
    var after := Expire(db, now);
    forall m | m in after.memories && after.memories[m].memoryFunction == Working && after.memories[m].state == MemoryActive
      ensures TaskOpen(after.workingSets, after.memories[m].scope)
    {
      var scope := db.memories[m].scope;
      var id :| id in db.workingSets && db.workingSets[id].scope.namespace == scope.namespace
        && db.workingSets[id].task == scope.context && db.workingSets[id].state == SetActive;
      assert id !in ids;
      assert id in after.workingSets && after.workingSets[id].state == SetActive;
    }
  }

  lemma TasksPutSet(db: Db, id: Id, set_: WorkingSet)
    requires TasksOk(db)
    ensures var r := PutWorkingSet(db, id, set_); r.Success? ==> TasksOk(r.value)
  {
    var r := PutWorkingSet(db, id, set_);
    if r.Success? {
      forall m | m in db.memories && TaskOpen(db.workingSets, db.memories[m].scope)
        ensures TaskOpen(r.value.workingSets, db.memories[m].scope)
      {
        var o :| o in db.workingSets && db.workingSets[o].scope.namespace == db.memories[m].scope.namespace
          && db.workingSets[o].task == db.memories[m].scope.context && db.workingSets[o].state == SetActive;
        assert o in r.value.workingSets && r.value.workingSets[o] == db.workingSets[o];
      }
    }
  }

  lemma TasksSetGlobalRecall(db: Db, namespace: Id, task: Id, enabled: bool, at: int)
    requires TasksOk(db)
    ensures var r := SetGlobalRecall(db, namespace, task, enabled, at); r.Success? ==> TasksOk(r.value)
  {
    var r := SetGlobalRecall(db, namespace, task, enabled, at);
    if r.Success? {
      forall m | m in db.memories && TaskOpen(db.workingSets, db.memories[m].scope)
        ensures TaskOpen(r.value.workingSets, db.memories[m].scope)
      {
        var o :| o in db.workingSets && db.workingSets[o].scope.namespace == db.memories[m].scope.namespace
          && db.workingSets[o].task == db.memories[m].scope.context && db.workingSets[o].state == SetActive;
        assert o in r.value.workingSets;
      }
    }
  }

  // ----- Lazy and eager expiry -----

  /** A memory the sweep archives was already hidden by the working-set gate. */
  lemma ArchivedWasHidden(db: Db, f: Filter, now: int, m: Memory)
    requires UniqueTasks(db.workingSets) && f.systemAt >= now
    requires InTask(db.workingSets, ExpiredSets(db.workingSets, now), m)
    ensures !WorkingGate(db.workingSets, f, m)
  {
    var id :| id in ExpiredSets(db.workingSets, now) && id in db.workingSets
      && db.workingSets[id].scope.namespace == m.scope.namespace && db.workingSets[id].task == m.scope.context;
    forall o | o in db.workingSets && SetOpen(db.workingSets[o], m, f.systemAt) ensures o == id {
    }
  }

  /** For a memory the sweep leaves, the gate gives the same answer before and after. */
  lemma GateUnchanged(db: Db, f: Filter, now: int, m: Memory)
    requires UniqueTasks(db.workingSets) && m.memoryFunction == Working
    requires !InTask(db.workingSets, ExpiredSets(db.workingSets, now), m)
    ensures WorkingGate(Expire(db, now).workingSets, f, m) == WorkingGate(db.workingSets, f, m)
  {
    var sets, later := db.workingSets, Expire(db, now).workingSets;
    forall id | id in sets ensures id in later && SetOpen(later[id], m, f.systemAt) == SetOpen(sets[id], m, f.systemAt) {
      if SetOpen(sets[id], m, f.systemAt) {
        assert id !in ExpiredSets(sets, now);
      }
    }
  }

  lemma SweepHidesNoMemory(db: Db, f: Filter, now: int, m: Memory)
    requires UniqueTasks(db.workingSets) && f.systemAt >= now
    ensures MemoryPasses(Expire(db, now).workingSets, f, MemoryAfter(db.workingSets, ExpiredSets(db.workingSets, now), m))
       <==> MemoryPasses(db.workingSets, f, m)
  {
    if InTask(db.workingSets, ExpiredSets(db.workingSets, now), m) {
      ArchivedWasHidden(db, f, now, m);
    } else if m.memoryFunction == Working {
      GateUnchanged(db, f, now, m);
    }
  }

  /** The rows of one version and its memory after the sweep. */
  lemma SweptRows(db: Db, now: int, v: Id)
    requires v in db.versions && db.versions[v].memory in db.memories
    ensures var ids := ExpiredSets(db.workingSets, now);
      var m := db.memories[db.versions[v].memory];
      && v in Expire(db, now).versions
      && db.versions[v].memory in Expire(db, now).memories
      && Expire(db, now).memories[db.versions[v].memory] == MemoryAfter(db.workingSets, ids, m)
      && (Expire(db, now).versions[v] == db.versions[v]
          || (InTask(db.workingSets, ids, m) && Expire(db, now).versions[v] == db.versions[v].(state := VersionArchived)))
  {
  }

  /** The sweep at time now changes no recall whose system time is not before now. */
  lemma SweepInvisible(db: Db, f: Filter, now: int, v: Id)
    requires UniqueTasks(db.workingSets) && f.systemAt >= now
    ensures Recallable(Expire(db, now), f, v) <==> Recallable(db, f, v)
  {
    if v in db.versions && db.versions[v].memory in db.memories {
      var m := db.memories[db.versions[v].memory];
      var after := Expire(db, now);
      SweptRows(db, now, v);
      SweepHidesNoMemory(db, f, now, m);
      if after.versions[v] != db.versions[v] {
        ArchivedWasHidden(db, f, now, m);
      }
    }
  }
}
