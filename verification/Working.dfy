// Task-scoped working sets: creation, the global-recall switch and the expiry sweep.
module WorkingSets {
  import opened Ordering
  import opened Ids
  import opened Domain
  import opened Database

  datatype WorkingError = InvalidSet | DuplicateSet | NoActiveSet

  predicate TaskTaken(sets: map<Id, WorkingSet>, namespace: Id, task: Id) {
    exists o :: o in sets && sets[o].scope.namespace == namespace && sets[o].task == task
  }

  predicate ValidSet(id: Id, set_: WorkingSet) {
    && id != NO_ID
    && set_.task != NO_ID
    && set_.createdAt <= set_.updatedAt
    && (set_.expiresAt.Some? ==> set_.createdAt < set_.expiresAt.value)
  }

  function PutWorkingSet(db: Db, id: Id, set_: WorkingSet): Result<Db, WorkingError> {
    if !ValidSet(id, set_) then Failure(InvalidSet)
    else if id in db.workingSets || TaskTaken(db.workingSets, set_.scope.namespace, set_.task) then Failure(DuplicateSet)
    else Success(db.(workingSets := db.workingSets[id := set_.(state := SetActive)]))
  }

  predicate Switchable(set_: WorkingSet, namespace: Id, task: Id) {
    set_.scope.namespace == namespace && set_.task == task && set_.state == SetActive
  }

  function Switched(sets: map<Id, WorkingSet>, namespace: Id, task: Id, enabled: bool, at: int): map<Id, WorkingSet> {
    map id | id in sets ::
      if Switchable(sets[id], namespace, task) then sets[id].(globalRecall := enabled, updatedAt := at) else sets[id]
  }

  function SetGlobalRecall(db: Db, namespace: Id, task: Id, enabled: bool, at: int): Result<Db, WorkingError> {
    if namespace == NO_ID || task == NO_ID then Failure(InvalidSet)
    else if !exists id :: id in db.workingSets && Switchable(db.workingSets[id], namespace, task) then Failure(NoActiveSet)
    else Success(db.(workingSets := Switched(db.workingSets, namespace, task, enabled, at)))
  }

  method StoreWorkingSet(s: Store, id: Id, set_: WorkingSet) returns (r: Result<(), WorkingError>)
    modifies s
    ensures match PutWorkingSet(old(s.Snapshot()), id, set_)
            case Success(db) => s.Snapshot() == db && r == Success(())
            case Failure(error) => s.Snapshot() == old(s.Snapshot()) && r == Failure(error)
  {
    if !ValidSet(id, set_) {
      return Failure(InvalidSet);
    }
    if id in s.workingSets || TaskTaken(s.workingSets, set_.scope.namespace, set_.task) {
      return Failure(DuplicateSet);
    }
    s.workingSets := s.workingSets[id := set_.(state := SetActive)];
    return Success(());
  }

  /** The unique index on namespace and task leaves one row to update at most. */
  lemma OneSwitched(sets: map<Id, WorkingSet>, namespace: Id, task: Id, enabled: bool, at: int, id: Id)
    requires UniqueTasks(sets) && id in sets && Switchable(sets[id], namespace, task)
    ensures Switched(sets, namespace, task, enabled, at) == sets[id := sets[id].(globalRecall := enabled, updatedAt := at)]
  {
  }

  method SetWorkingGlobalRecall(s: Store, namespace: Id, task: Id, enabled: bool, at: int) returns (r: Result<(), WorkingError>)
    requires UniqueTasks(s.workingSets)
    modifies s
    ensures match SetGlobalRecall(old(s.Snapshot()), namespace, task, enabled, at)
            case Success(db) => s.Snapshot() == db && r == Success(())
            case Failure(error) => s.Snapshot() == old(s.Snapshot()) && r == Failure(error)
  {
    if namespace == NO_ID || task == NO_ID {
      return Failure(InvalidSet);
    }
    if id :| id in s.workingSets && Switchable(s.workingSets[id], namespace, task) {
      OneSwitched(s.workingSets, namespace, task, enabled, at, id);
      s.workingSets := s.workingSets[id := s.workingSets[id].(globalRecall := enabled, updatedAt := at)];
      return Success(());
    }
    return Failure(NoActiveSet);
  }

  // ----- Expiry -----

  predicate Expired(set_: WorkingSet, now: int) {
    set_.state == SetActive && set_.expiresAt.Some? && set_.expiresAt.value <= now
  }

  function ExpiredSets(sets: map<Id, WorkingSet>, now: int): set<Id> {
    set id | id in sets && Expired(sets[id], now)
  }

  /** A working memory whose task belongs to one of these sets. */
  predicate InTask(sets: map<Id, WorkingSet>, ids: set<Id>, m: Memory) {
    && m.memoryFunction == Working
    && m.scope.context != NO_ID
    && exists id :: id in ids && id in sets
         && sets[id].scope.namespace == m.scope.namespace && sets[id].task == m.scope.context
  }

  function SetAfter(ids: set<Id>, id: Id, set_: WorkingSet, now: int): WorkingSet {
    if id in ids then set_.(state := SetExpired, updatedAt := now) else set_
  }

  function MemoryAfter(sets: map<Id, WorkingSet>, ids: set<Id>, m: Memory): Memory {
    if InTask(sets, ids, m) then m.(state := MemoryArchived) else m
  }

  function VersionAfter(sets: map<Id, WorkingSet>, ids: set<Id>, memories: map<Id, Memory>, v: Version): Version {
    if v.memory in memories && InTask(sets, ids, memories[v.memory]) && v.number == memories[v.memory].currentVersion
    then v.(state := VersionArchived)
    else v
  }

  function SetsAfter(sets: map<Id, WorkingSet>, ids: set<Id>, now: int): map<Id, WorkingSet> {
    map id | id in sets :: SetAfter(ids, id, sets[id], now)
  }

  function MemoriesAfter(sets: map<Id, WorkingSet>, ids: set<Id>, memories: map<Id, Memory>): map<Id, Memory> {
    map m | m in memories :: MemoryAfter(sets, ids, memories[m])
  }

  function VersionsAfter(sets: map<Id, WorkingSet>, ids: set<Id>, memories: map<Id, Memory>, versions: map<Id, Version>): map<Id, Version> {
    map v | v in versions :: VersionAfter(sets, ids, memories, versions[v])
  }

  /** The tables once the sets named by ids have been expired together with their task memory. */
  function AfterExpiring(db: Db, ids: set<Id>, now: int): Db {
    db.(workingSets := SetsAfter(db.workingSets, ids, now),
        memories := MemoriesAfter(db.workingSets, ids, db.memories),
        versions := VersionsAfter(db.workingSets, ids, db.memories, db.versions))
  }

  function Expire(db: Db, now: int): Db {
    AfterExpiring(db, ExpiredSets(db.workingSets, now), now)
  }

  /** Which memories belong to a task depends on neither set states nor memory states. */
  lemma InTaskOneMore(sets: map<Id, WorkingSet>, ids: set<Id>, id: Id, now: int, m: Memory)
    requires id in sets
    ensures InTask(sets, ids + {id}, m) <==>
      InTask(sets, ids, m) || InTask(SetsAfter(sets, ids, now), {id}, MemoryAfter(sets, ids, m))
  {
    var later := SetsAfter(sets, ids, now);
    if InTask(sets, ids + {id}, m) {
      var o :| o in ids + {id} && o in sets
        && sets[o].scope.namespace == m.scope.namespace && sets[o].task == m.scope.context;
      assert o in ids || o in {id};
      assert o in later && later[o].task == sets[o].task;
    }
    if InTask(later, {id}, MemoryAfter(sets, ids, m)) {
      assert id in ids + {id};
    }
  }

  lemma MemoriesOneMore(sets: map<Id, WorkingSet>, ids: set<Id>, id: Id, now: int, memories: map<Id, Memory>)
    requires id in sets
    ensures MemoriesAfter(SetsAfter(sets, ids, now), {id}, MemoriesAfter(sets, ids, memories))
         == MemoriesAfter(sets, ids + {id}, memories)
  {
    forall m | m in memories
      ensures MemoryAfter(SetsAfter(sets, ids, now), {id}, MemoryAfter(sets, ids, memories[m]))
           == MemoryAfter(sets, ids + {id}, memories[m])
    {
      InTaskOneMore(sets, ids, id, now, memories[m]);
    }
  }

  lemma VersionsOneMore(sets: map<Id, WorkingSet>, ids: set<Id>, id: Id, now: int, memories: map<Id, Memory>, versions: map<Id, Version>)
    requires id in sets
    ensures VersionsAfter(SetsAfter(sets, ids, now), {id}, MemoriesAfter(sets, ids, memories), VersionsAfter(sets, ids, memories, versions))
         == VersionsAfter(sets, ids + {id}, memories, versions)
  {
    var later, archived := SetsAfter(sets, ids, now), MemoriesAfter(sets, ids, memories);
    forall v | v in versions
      ensures VersionAfter(later, {id}, archived, VersionAfter(sets, ids, memories, versions[v]))
           == VersionAfter(sets, ids + {id}, memories, versions[v])
    {
      if versions[v].memory in memories {
        InTaskOneMore(sets, ids, id, now, memories[versions[v].memory]);
      }
    }
  }

  lemma SetsOneMore(sets: map<Id, WorkingSet>, ids: set<Id>, id: Id, now: int)
    ensures SetsAfter(SetsAfter(sets, ids, now), {id}, now) == SetsAfter(sets, ids + {id}, now)
  {
  }

  /** Expiring one more set after some others is expiring them all together. */
  lemma ExpireOneMore(db: Db, ids: set<Id>, id: Id, now: int)
    requires id in db.workingSets
    ensures AfterExpiring(AfterExpiring(db, ids, now), {id}, now) == AfterExpiring(db, ids + {id}, now)
  {
    SetsOneMore(db.workingSets, ids, id, now);
    MemoriesOneMore(db.workingSets, ids, id, now, db.memories);
    VersionsOneMore(db.workingSets, ids, id, now, db.memories, db.versions);
  }

  lemma ExpireNone(db: Db, now: int)
    ensures AfterExpiring(db, {}, now) == db
  {
    var after := AfterExpiring(db, {}, now);
    assert after.memories == db.memories && after.versions == db.versions && after.workingSets == db.workingSets;
  }

  /** The sweep: lists the expired sets in id order, then archives their tasks one by one. */
  method ExpireWorkingSets(s: Store, now: int) returns (ids: seq<Id>)
    modifies s
    ensures s.Snapshot() == Expire(old(s.Snapshot()), now)
    ensures ListsBy(Less, ids, ExpiredSets(old(s.workingSets), now))
  {
    var tx := s.Snapshot();
    var expired := set id | id in tx.workingSets && Expired(tx.workingSets[id], now);
    IdsOrdered(expired);
    ids := ListBy(Less, expired);
    ghost var start := tx;
    ExpireNone(start, now);
    for i := 0 to |ids|
      invariant tx == AfterExpiring(start, Elements(ids[..i]), now)
    {
      var id := ids[i];
      assert Elements(ids[..i + 1]) == Elements(ids[..i]) + {id};
      assert id in expired;
      ExpireOneMore(start, Elements(ids[..i]), id, now);
      tx := AfterExpiring(tx, {id}, now);
    }
    assert ids[..|ids|] == ids;
    assert Elements(ids) == expired;
    s.Commit(tx);
  }
}
