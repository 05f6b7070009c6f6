// The filter every recall applies before content is read: scope, memory state, the two
// time axes, and the working-set gate.
module Recall {
  import opened Ids
  import opened Domain
  import opened Database

  datatype Filter = Filter(
    namespace: Id,
    subject: Id,
    privateOwners: set<Id>,
    allowShared: bool,
    allowPublic: bool,
    context: Id,
    functions: set<MemoryFunction>,
    includeGlobalWorking: bool,
    validAt: int,
    systemAt: int)

  predicate ScopeVisible(f: Filter, s: Scope) {
    && s.namespace == f.namespace
    && s.subject == f.subject
    && match s.visibility
       case Private => s.owner in f.privateOwners
       case Shared => f.allowShared
       case Public => f.allowPublic
  }

  /** An active, unexpired working set for the memory's task. */
  predicate SetOpen(set_: WorkingSet, m: Memory, systemAt: int) {
    && set_.scope.namespace == m.scope.namespace
    && m.scope.context != NO_ID
    && set_.task == m.scope.context
    && set_.state == SetActive
    && (set_.expiresAt.Some? ==> set_.expiresAt.value > systemAt)
  }

  predicate WorkingGate(sets: map<Id, WorkingSet>, f: Filter, m: Memory) {
    m.memoryFunction == Working ==>
      if f.context != NO_ID then
        exists id :: id in sets && SetOpen(sets[id], m, f.systemAt) && sets[id].task == f.context
      else
        f.includeGlobalWorking && exists id :: id in sets && SetOpen(sets[id], m, f.systemAt) && sets[id].globalRecall
  }

  /** What the filter asks of the memory row. */
  predicate MemoryPasses(sets: map<Id, WorkingSet>, f: Filter, m: Memory) {
    && ScopeVisible(f, m.scope)
    && m.state == MemoryActive
    && WorkingGate(sets, f, m)
    && (f.functions == {} || m.memoryFunction in f.functions)
  }

  /** What the filter asks of the version row. */
  predicate VersionPasses(f: Filter, v: Version) {
    && v.state in {VersionCurrent, VersionSuperseded}
    && v.validTime.Contains(f.validAt)
    && v.systemTime.Contains(f.systemAt)
  }

  predicate Recallable(db: Db, f: Filter, v: Id) {
    && v in db.versions
    && db.versions[v].memory in db.memories
    && MemoryPasses(db.workingSets, f, db.memories[db.versions[v].memory])
    && VersionPasses(f, db.versions[v])
  }
}
