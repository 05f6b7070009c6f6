// The recall filter against the rules it stands for: authorization, time, and the two opt-ins
// of working memory.
module RecallRules {
  import opened Ids
  import opened Domain
  import opened Database
  import opened Recall
  import opened Portable

  /** Recall admits exactly the scopes that an export with the same access would hold. */
  lemma SameScopesAsExport(f: Filter, a: Access, subject: Id, s: Scope)
    requires f.namespace == a.namespace && f.subject == subject && f.privateOwners == Elements(a.privateOwners)
    requires f.allowShared == a.allowShared && f.allowPublic == a.allowPublic
    ensures ScopeVisible(f, s) <==> Visible(a, subject, s)
  {
  }

  /** Nothing crosses namespace or subject, private memory needs its owner, the rest its grant. */
  lemma ScopeRule(f: Filter, s: Scope)
    ensures ScopeVisible(f, s) <==>
      && s.namespace == f.namespace && s.subject == f.subject
      && (s.visibility == Private ==> s.owner in f.privateOwners)
      && (s.visibility == Shared ==> f.allowShared)
      && (s.visibility == Public ==> f.allowPublic)
  {
  }

  /**
   * A version is recalled if and only if its memory passes and it is in force: current or
   * superseded, and within both intervals at the filter's two times.
   */
  lemma InForceRule(db: Db, f: Filter, v: Id)
    requires v in db.versions && db.versions[v].memory in db.memories
    ensures var (row, m) := (db.versions[v], db.memories[db.versions[v].memory]);
      Recallable(db, f, v) <==>
        && MemoryPasses(db.workingSets, f, m)
        && row.state != VersionStale && row.state != VersionArchived && row.state != VersionForgotten
        && row.validTime.from <= f.validAt && (row.validTime.to.Some? ==> f.validAt < row.validTime.to.value)
        && row.systemTime.from <= f.systemAt && (row.systemTime.to.Some? ==> f.systemAt < row.systemTime.to.value)
  {
  }

  /** Memory passes if and only if scope, state and function admit it, and working memory passes its gate too. */
  lemma MemoryRule(sets: map<Id, WorkingSet>, f: Filter, m: Memory)
    ensures MemoryPasses(sets, f, m) <==>
      && ScopeVisible(f, m.scope)
      && m.state == MemoryActive
      && (f.functions == {} || m.memoryFunction in f.functions)
      && (m.memoryFunction == Working ==> WorkingGate(sets, f, m))
  {
  }

  /**
   * Working memory passes the gate if and only if the set of its task is active and not
   * expired, and recall either is in that task or opts into global recall along with the set.
   */
  lemma WorkingRule(sets: map<Id, WorkingSet>, f: Filter, m: Memory, id: Id)
    requires UniqueTasks(sets) && m.memoryFunction == Working && m.scope.context != NO_ID
    requires id in sets && sets[id].scope.namespace == m.scope.namespace && sets[id].task == m.scope.context
    ensures WorkingGate(sets, f, m) <==>
      && sets[id].state == SetActive
      && (sets[id].expiresAt.Some? ==> f.systemAt < sets[id].expiresAt.value)
      && (f.context == m.scope.context || (f.context == NO_ID && f.includeGlobalWorking && sets[id].globalRecall))
  {
    forall o | o in sets && SetOpen(sets[o], m, f.systemAt) ensures o == id {
    }
    assert SetOpen(sets[id], m, f.systemAt) <==>
      sets[id].state == SetActive && (sets[id].expiresAt.Some? ==> f.systemAt < sets[id].expiresAt.value);
  }

  /** Without a set for its task working memory is never recalled. */
  lemma NoSetNoRecall(sets: map<Id, WorkingSet>, f: Filter, m: Memory)
    requires m.memoryFunction == Working
    requires forall id :: id in sets ==> sets[id].scope.namespace != m.scope.namespace || sets[id].task != m.scope.context
    ensures !MemoryPasses(sets, f, m)
  {
  }
}
