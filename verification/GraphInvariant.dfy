// What the derivation graph keeps: edges join existing versions, never form a cycle, and
// only run where the flow rule allows.
module GraphInvariant {
  import opened Ids
  import opened Graph
  import opened Domain
  import opened Database
  import opened Lifecycle
  import opened Purge

  ghost predicate Owned(memories: map<Id, Memory>, versions: map<Id, Version>) {
    forall v :: v in versions ==> versions[v].memory in memories
  }

  ghost predicate FlowsHold(memories: map<Id, Memory>, versions: map<Id, Version>, edges: set<Edge>)
    requires Owned(memories, versions)
  {
    forall e :: e in edges ==>
      && e.parent in versions
      && e.child in versions
      && e.parent in versions[e.child].derivedFrom
      && FlowAllowed(memories[versions[e.parent].memory].scope, memories[versions[e.child].memory].scope)
  }

  ghost predicate GraphInv(memories: map<Id, Memory>, versions: map<Id, Version>, edges: set<Edge>) {
    && Owned(memories, versions)
    && FlowsHold(memories, versions, edges)
    && Acyclic(edges)
  }

  // ----- Changes that leave the graph alone -----

  ghost predicate SameScopes(before: map<Id, Memory>, after: map<Id, Memory>) {
    before.Keys <= after.Keys && forall m :: m in before ==> after[m].scope == before[m].scope
  }

  ghost predicate SameSources(before: map<Id, Version>, after: map<Id, Version>) {
    && before.Keys == after.Keys
    && forall v :: v in before ==> after[v].memory == before[v].memory && after[v].derivedFrom == before[v].derivedFrom
  }

  lemma GraphUnchanged(memories: map<Id, Memory>, versions: map<Id, Version>, edges: set<Edge>,
                       memories': map<Id, Memory>, versions': map<Id, Version>)
    requires GraphInv(memories, versions, edges)
    requires SameScopes(memories, memories') && SameSources(versions, versions')
    ensures GraphInv(memories', versions', edges)
  {
  }

  // ----- A new version derived from existing ones -----

  lemma GraphInsert(memories: map<Id, Memory>, versions: map<Id, Version>, edges: set<Edge>, id: Id, v: Version)
    requires GraphInv(memories, versions, edges)
    requires id !in versions && v.memory in memories
    requires forall p :: p in v.derivedFrom ==>
      p in versions && FlowAllowed(memories[versions[p].memory].scope, memories[v.memory].scope)
    ensures GraphInv(memories, versions[id := v], edges + EdgesInto(Elements(v.derivedFrom), id))
  {
    FreshSink(edges, Elements(v.derivedFrom), id);
  }

  // ----- Deletion -----

  lemma GraphDelete(db: Db, namespace: Id, doomed: set<Id>)
    requires GraphInv(db.memories, db.versions, db.edges)
    ensures var after := DeleteMemories(db, namespace, doomed);
      GraphInv(after.memories, after.versions, after.edges)
  {
    var after := DeleteMemories(db, namespace, doomed);
    AcyclicSubset(after.edges, db.edges);
  }

  // ----- Joining an imported graph -----

  lemma GraphJoin(memories: map<Id, Memory>, versions: map<Id, Version>, edges: set<Edge>,
                  memories': map<Id, Memory>, versions': map<Id, Version>, edges': set<Edge>)
    requires GraphInv(memories, versions, edges) && GraphInv(memories', versions', edges')
    requires memories.Keys !! memories'.Keys && versions.Keys !! versions'.Keys
    ensures GraphInv(memories + memories', versions + versions', edges + edges')
  {
    AcyclicUnion(edges, edges', versions'.Keys);
  }

  // ----- What the invariant means for whole derivation paths -----

  /** Visibility never widens along a derivation path of any length. */
  lemma {:induction false} FlowAlongWalk(memories: map<Id, Memory>, versions: map<Id, Version>, edges: set<Edge>,
                                         a: Id, b: Id, length: nat)
    requires GraphInv(memories, versions, edges) && Walk(edges, a, b, length)
    ensures a in versions && b in versions
    ensures FlowAllowed(memories[versions[a].memory].scope, memories[versions[b].memory].scope)
    decreases length
  {
    if length == 0 {
      assert Edge(a, b) in edges;
    } else {
      var next :| Edge(a, next) in edges && Walk(edges, next, b, length - 1);
      FlowAlongWalk(memories, versions, edges, next, b, length - 1);
      FlowTransitive(memories[versions[a].memory].scope, memories[versions[next].memory].scope, memories[versions[b].memory].scope);
    }
  }

  lemma AncestorsMayFlow(memories: map<Id, Memory>, versions: map<Id, Version>, edges: set<Edge>, a: Id, b: Id)
    requires GraphInv(memories, versions, edges) && Reaches(edges, a, b)
    ensures a in versions && b in versions
    ensures FlowAllowed(memories[versions[a].memory].scope, memories[versions[b].memory].scope)
  {
    var length: nat :| Walk(edges, a, b, length);
    FlowAlongWalk(memories, versions, edges, a, b, length);
  }

  // ----- The steps of the store -----

  ghost predicate GraphOk(db: Db) {
    GraphInv(db.memories, db.versions, db.edges)
  }

  lemma AllowedParents(db: Db, scope: Scope, target: Option<Id>, parents: seq<Id>)
    requires DependenciesAllowed(db, scope, target, parents)
    ensures forall p :: p in parents ==>
      && p in db.versions
      && db.versions[p].memory in db.memories
      && FlowAllowed(db.memories[db.versions[p].memory].scope, scope)
  {
    forall p | p in parents
      ensures p in db.versions && db.versions[p].memory in db.memories && FlowAllowed(db.memories[db.versions[p].memory].scope, scope)
    {
      FlowChecksAgree(db.memories[db.versions[p].memory].scope, scope);
    }
  }

  lemma GraphInsertMemory(db: Db, memory: Memory, id: Id, v: Version)
    requires GraphOk(db)
    requires v.memory !in db.memories && id !in db.versions
    requires forall p :: p in v.derivedFrom ==>
      p in db.versions && FlowAllowed(db.memories[db.versions[p].memory].scope, memory.scope)
    ensures GraphOk(InsertMemory(db, memory, id, v))
  {
    var memories := db.memories[v.memory := memory];
    GraphUnchanged(db.memories, db.versions, db.edges, memories, db.versions);
    GraphInsert(memories, db.versions, db.edges, id, v);
  }

  lemma GraphCreate(db: Db, p: Proposal, authorized: Option<Scope>, at: int)
    requires GraphOk(db)
    ensures var r := ApplyCreate(db, p, authorized, at); r.Success? ==> GraphOk(r.value.db)
  {
    var r := ApplyCreate(db, p, authorized, at);
    if r.Success? {
      var c := p.body.create;
      AllowedParents(db, c.scope, None, c.derivedFrom);
      GraphInsertMemory(db, r.value.rows.memory, r.value.rows.versionId, r.value.rows.version);
    }
  }

  lemma GraphConflict(db: Db, p: Proposal, head: Id, e: MemoryEvolution, at: int)
    requires GraphOk(db) && IsHead(db, p.target, head)
    requires DependenciesAllowed(db, db.memories[p.target].scope, Some(head), e.derivedFrom)
    ensures var r := ApplyConflict(db, p, head, e, at); r.Success? ==> GraphOk(r.value.db)
  {
    var r := ApplyConflict(db, p, head, e, at);
    if r.Success? {
      var rows := r.value.rows;
      var grouped := db.(versions := db.versions[head := db.versions[head].(conflictGroup := rows.version.conflictGroup)]);
      AllowedParents(db, db.memories[p.target].scope, Some(head), e.derivedFrom);
      GraphUnchanged(db.memories, db.versions, db.edges, db.memories, grouped.versions);
      GraphInsertMemory(grouped, rows.memory, rows.versionId, rows.version);
    }
  }

  lemma GraphAfterEvolution(db: Db, p: Proposal, head: Id, e: MemoryEvolution, at: int)
    requires GraphOk(db) && IsHead(db, p.target, head) && VersionIdOf(p.id) !in db.versions
    requires DependenciesAllowed(db, db.memories[p.target].scope, Some(head), e.derivedFrom)
    ensures GraphOk(AfterEvolution(db, p, head, e, at))
  {
    var closed := AfterClose(db, head, e, at);
    var next := NextVersion(head, db.versions[head], e, at);
    var memories := AfterEvolution(db, p, head, e, at).memories;
    AllowedParents(db, db.memories[p.target].scope, Some(head), e.derivedFrom);
    assert SameSources(db.versions, closed.versions);
    GraphUnchanged(db.memories, db.versions, db.edges, memories, closed.versions);
    GraphInsert(memories, closed.versions, db.edges, VersionIdOf(p.id), next);
  }

  lemma GraphEvolution(db: Db, p: Proposal, authorized: Option<Scope>, at: int)
    requires GraphOk(db)
    ensures var r := ApplyEvolution(db, p, authorized, at); r.Success? ==> GraphOk(r.value.db)
  {
    var r := ApplyEvolution(db, p, authorized, at);
    if r.Success? {
      var head, e := Head(db, p.target).value, p.body.evolution;
      if e.mode == Conflict {
        GraphConflict(db, p, head, e, at);
      } else {
        GraphAfterEvolution(db, p, head, e, at);
      }
    }
  }

  lemma GraphState(db: Db, p: Proposal, authorized: Option<Scope>, ms: MemoryState, vs: VersionState, removeIndexes: bool)
    requires GraphOk(db)
    ensures var r := ApplyState(db, p, authorized, ms, vs, removeIndexes); r.Success? ==> GraphOk(r.value.db)
  {
    var r := ApplyState(db, p, authorized, ms, vs, removeIndexes);
    if r.Success? {
      var after := AfterState(db, p.target, Head(db, p.target).value, ms, vs, removeIndexes);
      GraphUnchanged(db.memories, db.versions, db.edges, after.memories, after.versions);
    }
  }

  lemma GraphApply(db: Db, p: Proposal, authorized: Option<Scope>, actor: Id, at: int)
    requires GraphOk(db)
    ensures var r := Apply(db, p, authorized, actor, at); r.Committed? ==> GraphOk(r.db)
  {
    GraphCreate(db, p, authorized, at);
    GraphEvolution(db, p, authorized, at);
    GraphState(db, p, authorized, MemoryArchived, VersionArchived, false);
    GraphState(db, p, authorized, MemoryForgotten, VersionForgotten, true);
  }

  lemma GraphPurge(db: Db, namespace: Id, memory: Id, mode: PurgeMode)
    requires GraphOk(db)
    ensures GraphOk(AfterPurge(db, namespace, memory, mode))
  {
    var marked := db.(versions := StaleAmong(db.versions, DerivedVersions(db, namespace, memory)));
    GraphUnchanged(db.memories, db.versions, db.edges, db.memories, marked.versions);
    GraphDelete(db, namespace, Doomed(db, namespace, memory, mode));
    GraphDelete(marked, namespace, Doomed(db, namespace, memory, mode));
  }
}
