// What an accepted proposal leaves behind, against what it asked for, and exactly when it is
// accepted. Nothing here is said in terms of the functions that build the new rows.
module ApplyEffects {
  import opened Ids
  import opened Graph
  import opened Domain
  import opened Database
  import opened Lifecycle
  import opened Embeddings
  import opened GraphInvariant
  import opened MutationShape

  // ----- What is asked of a proposal -----

  predicate Addressed(p: Proposal, actor: Id) {
    && p.id != NO_ID && p.namespace != NO_ID && actor != NO_ID
    && (p.action == Create <==> p.target == NO_ID)
    && (p.action in {Create, Update, Consolidate} ==> p.observations != [])
  }

  /** The caller's scope, when there is one, names the same namespace, owner and subject. */
  predicate MayWrite(authorized: Option<Scope>, scope: Scope) {
    match authorized
    case None => true
    case Some(a) => a.namespace == scope.namespace && a.owner == scope.owner && a.subject == scope.subject
  }

  predicate MayCreate(authorized: Option<Scope>, scope: Scope) {
    MayWrite(authorized, scope) && (authorized.Some? ==> authorized.value.actor == scope.actor)
  }

  /** The payload is of the memory's function, and everything it refers to is stored and usable now. */
  predicate Grounded(db: Db, scope: Scope, f: MemoryFunction, at: int, payload: Payload) {
    match payload
    case FactualPayload(claimSubject, _, _, _, confidence) =>
      && f == Factual
      && claimSubject == scope.subject
      && (confidence.Some? ==> 0.0 <= confidence.value && confidence.value <= 1.0)
    case ExperientialPayload(_, evidence) =>
      && f == Experiential
      && evidence != []
      && forall e :: e in evidence ==>
        && e.outcomes != []
        && e.episode in db.episodes
        && db.episodes[e.episode].namespace == scope.namespace && db.episodes[e.episode].subject == scope.subject
        && forall o :: o in e.outcomes ==> o in db.outcomes && db.outcomes[o].episode == e.episode
    case WorkingPayload(id, task, _, _, _) =>
      && f == Working
      && task == scope.context
      && id in db.workingSets
      && db.workingSets[id].scope.namespace == scope.namespace && db.workingSets[id].task == task
      && db.workingSets[id].state == SetActive
      && (db.workingSets[id].expiresAt.None? || at < db.workingSets[id].expiresAt.value)
  }

  /** Distinct stored parents that may flow into scope and are neither the old head nor derived from it. */
  ghost predicate ParentsSound(db: Db, scope: Scope, head: Option<Id>, parents: seq<Id>) {
    && (forall i, j :: 0 <= i < j < |parents| ==> parents[i] != parents[j])
    && forall p :: p in parents ==>
      && p != NO_ID
      && p in db.versions && db.versions[p].memory in db.memories
      && FlowAllowed(db.memories[db.versions[p].memory].scope, scope)
      && (head.Some? ==> p != head.value && !Reaches(db.edges, head.value, p))
  }

  lemma GroundedIff(db: Db, scope: Scope, f: MemoryFunction, at: int, payload: Payload)
    ensures Grounded(db, scope, f, at, payload) <==> PayloadFits(payload, f) && ReferencesExist(db, scope, at, payload)
  {
    if payload.ExperientialPayload? {
      forall e | e in payload.evidence
        ensures EvidenceExists(db, scope, e) <==>
          && e.episode in db.episodes
          && db.episodes[e.episode].namespace == scope.namespace && db.episodes[e.episode].subject == scope.subject
          && forall o :: o in e.outcomes ==> o in db.outcomes && db.outcomes[o].episode == e.episode
      {
      }
    }
  }

  lemma ParentsSoundIff(db: Db, scope: Scope, head: Option<Id>, parents: seq<Id>)
    ensures ParentsSound(db, scope, head, parents) <==> DependenciesAllowed(db, scope, head, parents)
  {
    forall p | p in db.versions && db.versions[p].memory in db.memories
      ensures FlowAllowed(db.memories[db.versions[p].memory].scope, scope) <==>
        !FlowRefused(db.memories[db.versions[p].memory].scope, scope)
    {
      FlowChecksAgree(db.memories[db.versions[p].memory].scope, scope);
    }
  }

  // ----- Create -----

  ghost predicate CreateAcceptable(db: Db, p: Proposal, authorized: Option<Scope>, at: int) {
    && p.body.CreateBody?
    && var c := p.body.create;
      && c.scope.namespace == p.namespace
      && MayCreate(authorized, c.scope)
      && c.provenance != []
      && (c.validTime.Some? && c.validTime.value.to.Some? ==> c.validTime.value.from < c.validTime.value.to.value)
      && Grounded(db, c.scope, c.memoryFunction, at, c.payload)
      && ParentsSound(db, c.scope, None, c.derivedFrom)
      && MemoryIdOf(p.id) !in db.memories && VersionIdOf(p.id) !in db.versions
  }

  lemma CreateIff(db: Db, p: Proposal, authorized: Option<Scope>, at: int)
    ensures ApplyCreate(db, p, authorized, at).Success? <==> CreateAcceptable(db, p, authorized, at)
  {
    if p.body.CreateBody? {
      var c := p.body.create;
      GroundedIff(db, c.scope, c.memoryFunction, at, c.payload);
      ParentsSoundIff(db, c.scope, None, c.derivedFrom);
    }
  }

  /** A new create is accepted if and only if it is addressed, authorized, well-formed, grounded, and its ids are free. */
  lemma CreateAcceptedIff(db: Db, p: Proposal, authorized: Option<Scope>, actor: Id, at: int)
    requires p.action == Create && p.id !in db.operations
    ensures Apply(db, p, authorized, actor, at).Committed? <==> Addressed(p, actor) && CreateAcceptable(db, p, authorized, at)
  {
    CreateIff(db, p, authorized, at);
  }

  /** The rows hold what the body asked for, as version one of an active memory from now on. */
  predicate HoldsCreate(p: Proposal, rows: Rows, at: int) {
    && p.body.CreateBody?
    && var (c, m, v) := (p.body.create, rows.memory, rows.version);
      && m.scope == c.scope && m.memoryFunction == c.memoryFunction
      && m.state == MemoryActive && m.currentVersion == 1 && m.createdAt == at
      && v.memory == rows.memoryId && v.number == 1 && v.state == VersionCurrent
      && v.payload == c.payload && v.provenance == c.provenance && v.derivedFrom == c.derivedFrom
      && v.conflictGroup == c.conflictGroup && v.supersedes == []
      && v.systemTime.from == at && v.systemTime.to == None
      && (c.validTime.Some? ==> v.validTime == c.validTime.value)
      && (c.validTime.None? ==> v.validTime.from == p.createdAt && v.validTime.to == None)
  }

  /** One memory and one version are added, with one edge for each parent and one index row; nothing else changes. */
  ghost predicate AddsOneMemory(db: Db, after: Db, rows: Rows) {
    && rows.memoryId !in db.memories && rows.versionId !in db.versions
    && after.memories == db.memories[rows.memoryId := rows.memory]
    && AddsOneVersion(db, after, rows)
  }

  ghost predicate AddsOneVersion(db: Db, after: Db, rows: Rows) {
    && after.versions.Keys == db.versions.Keys + {rows.versionId} && after.versions[rows.versionId] == rows.version
    && (forall e :: e in after.edges <==> e in db.edges || (e.child == rows.versionId && e.parent in rows.version.derivedFrom))
    && after.index.rows == db.index.rows[db.index.next := IndexRow(rows.versionId, rows.memoryId, rows.memory.scope.namespace, MemoryText(rows.version.payload))]
    && after.embeddings == db.embeddings
  }

  lemma CreateStoresRows(db: Db, p: Proposal, authorized: Option<Scope>, at: int)
    ensures var r := ApplyCreate(db, p, authorized, at); r.Success? ==>
      && HoldsCreate(p, r.value.rows, at)
      && AddsOneMemory(db, r.value.db, r.value.rows)
      && forall v :: v in db.versions ==> r.value.db.versions[v] == db.versions[v]
  {
  }

  /** An accepted create stores what it asked for, and leaves every other row as it was. */
  lemma CreateStores(db: Db, p: Proposal, authorized: Option<Scope>, actor: Id, at: int)
    requires p.action == Create && p.id !in db.operations && Apply(db, p, authorized, actor, at).Committed?
    ensures var r := Apply(db, p, authorized, actor, at);
      && HoldsCreate(p, r.applied.rows, at)
      && AddsOneMemory(db, r.db, r.applied.rows)
      && forall v :: v in db.versions ==> r.db.versions[v] == db.versions[v]
  {
    CreateStoresRows(db, p, authorized, at);
  }

  // ----- Supersede, rebuild, conflict -----

  ghost predicate EvolutionAcceptable(db: Db, p: Proposal, authorized: Option<Scope>, at: int, head: Id) {
    && IsHead(db, p.target, head)
    && p.body.EvolutionBody?
    && var (e, m, v) := (p.body.evolution, db.memories[p.target], db.versions[head]);
      && m.scope.namespace == p.namespace
      && MayWrite(authorized, m.scope)
      && m.state == MemoryActive
      && e.provenance != []
      && (e.validTime.to.Some? ==> e.validTime.from < e.validTime.to.value)
      && (e.mode == Rebuild ==> e.derivedFrom != [])
      && (p.action == Consolidate ==> e.mode == Rebuild)
      && Grounded(db, m.scope, m.memoryFunction, at, e.payload)
      && ParentsSound(db, m.scope, Some(head), e.derivedFrom)
      && if e.mode == Conflict then
           && (v.conflictGroup == NO_ID || e.conflictGroup == NO_ID || e.conflictGroup == v.conflictGroup)
           && SiblingIdOf(p.id) !in db.memories && SiblingVersionIdOf(p.id) !in db.versions
         else
           && v.systemTime.from < at
           && VersionIdOf(p.id) !in db.versions
           && forall w :: w in db.versions && db.versions[w].memory == p.target ==> db.versions[w].number != v.number + 1
  }

  lemma EvolutionIff(db: Db, p: Proposal, authorized: Option<Scope>, at: int, head: Id)
    requires UniqueNumbers(db.versions) && IsHead(db, p.target, head)
    ensures ApplyEvolution(db, p, authorized, at).Success? <==> EvolutionAcceptable(db, p, authorized, at, head)
  {
    HeadUnique(db, p.target, head);
    if p.body.EvolutionBody? {
      var e, m := p.body.evolution, db.memories[p.target];
      GroundedIff(db, m.scope, m.memoryFunction, at, e.payload);
      ParentsSoundIff(db, m.scope, Some(head), e.derivedFrom);
    }
  }

  /** A new update or consolidation is accepted if and only if its target has a head and these hold of it. */
  lemma EvolutionAcceptedIff(db: Db, p: Proposal, authorized: Option<Scope>, actor: Id, at: int)
    requires UniqueNumbers(db.versions) && p.action in {Update, Consolidate} && p.id !in db.operations
    ensures Apply(db, p, authorized, actor, at).Committed? <==>
      Addressed(p, actor) && exists head :: EvolutionAcceptable(db, p, authorized, at, head)
  {
    if head :| IsHead(db, p.target, head) {
      EvolutionIff(db, p, authorized, at, head);
      forall other | IsHead(db, p.target, other) ensures other == head {
      }
    }
  }

  /** The version holds what the body asked for, current from now on. */
  predicate HoldsEvolution(e: MemoryEvolution, v: Version, at: int) {
    && v.payload == e.payload && v.provenance == e.provenance && v.derivedFrom == e.derivedFrom && v.validTime == e.validTime
    && v.state == VersionCurrent
    && v.systemTime.from == at && v.systemTime.to == None
  }

  /** The new version follows the old head of the target and names it; the memory moves on to it. */
  ghost predicate FollowsHead(db: Db, p: Proposal, rows: Rows) {
    && rows.memoryId == p.target && rows.version.memory == p.target
    && |rows.version.supersedes| == 1
    && var head := rows.version.supersedes[0];
      && IsHead(db, p.target, head)
      && rows.version.number == db.versions[head].number + 1
      && rows.memory == db.memories[p.target].(currentVersion := rows.version.number)
  }

  lemma EvolutionStoresRows(db: Db, p: Proposal, authorized: Option<Scope>, at: int)
    ensures var r := ApplyEvolution(db, p, authorized, at); r.Success? && p.body.evolution.mode != Conflict ==>
      && HoldsEvolution(p.body.evolution, r.value.rows.version, at)
      && r.value.rows.version.conflictGroup == p.body.evolution.conflictGroup
      && FollowsHead(db, p, r.value.rows)
      && r.value.rows.versionId !in db.versions
  {
  }

  lemma EvolutionStoresTables(db: Db, p: Proposal, authorized: Option<Scope>, at: int)
    ensures var r := ApplyEvolution(db, p, authorized, at); r.Success? && p.body.evolution.mode != Conflict ==>
      && r.value.db.memories == db.memories[p.target := r.value.rows.memory]
      && AddsOneVersion(db, r.value.db, r.value.rows)
  {
    var r := ApplyEvolution(db, p, authorized, at);
    if r.Success? && p.body.evolution.mode != Conflict {
      var head := Head(db, p.target).value;
      assert r.value.db == AfterEvolution(db, p, head, p.body.evolution, at);
    }
  }

  /** An accepted supersede or rebuild stores what it asked for, after the old head, and moves only its memory. */
  lemma EvolutionStores(db: Db, p: Proposal, authorized: Option<Scope>, actor: Id, at: int)
    requires p.action in {Update, Consolidate} && p.id !in db.operations && Apply(db, p, authorized, actor, at).Committed?
    requires p.body.evolution.mode != Conflict
    ensures var r := Apply(db, p, authorized, actor, at);
      && HoldsEvolution(p.body.evolution, r.applied.rows.version, at)
      && r.applied.rows.version.conflictGroup == p.body.evolution.conflictGroup
      && FollowsHead(db, p, r.applied.rows)
      && r.applied.rows.versionId !in db.versions
      && r.db.memories == db.memories[p.target := r.applied.rows.memory]
      && AddsOneVersion(db, r.db, r.applied.rows)
  {
    EvolutionStoresRows(db, p, authorized, at);
    EvolutionStoresTables(db, p, authorized, at);
  }

  /** A sibling of the target: its scope and function, version one, under one conflict group with the target's head. */
  ghost predicate StandsBeside(db: Db, p: Proposal, after: Db, rows: Rows, head: Id, at: int) {
    && IsHead(db, p.target, head)
    && rows.memory.scope == db.memories[p.target].scope && rows.memory.memoryFunction == db.memories[p.target].memoryFunction
    && rows.memory.state == MemoryActive && rows.memory.currentVersion == 1 && rows.memory.createdAt == at
    && rows.version.memory == rows.memoryId && rows.version.number == 1 && rows.version.supersedes == []
    && var group := rows.version.conflictGroup;
      && group != NO_ID
      && (db.versions[head].conflictGroup != NO_ID ==> group == db.versions[head].conflictGroup)
      && (db.versions[head].conflictGroup == NO_ID && p.body.EvolutionBody? && p.body.evolution.conflictGroup != NO_ID ==>
            group == p.body.evolution.conflictGroup)
      && head in after.versions && after.versions[head] == db.versions[head].(conflictGroup := group)
      && forall v :: v in db.versions && v != head ==> v in after.versions && after.versions[v] == db.versions[v]
  }

  lemma ConflictStoresRows(db: Db, p: Proposal, head: Id, e: MemoryEvolution, at: int)
    requires IsHead(db, p.target, head) && db.memories[p.target].state == MemoryActive && p.body == EvolutionBody(e)
    ensures var r := ApplyConflict(db, p, head, e, at); r.Success? ==>
      && HoldsEvolution(e, r.value.rows.version, at)
      && StandsBeside(db, p, r.value.db, r.value.rows, head, at)
      && AddsOneMemory(db, r.value.db, r.value.rows)
  {
  }

  /** An accepted conflict stores what it asked for in a sibling memory, grouped with the target's head. */
  lemma ConflictStores(db: Db, p: Proposal, authorized: Option<Scope>, actor: Id, at: int)
    requires p.action in {Update, Consolidate} && p.id !in db.operations && Apply(db, p, authorized, actor, at).Committed?
    requires p.body.evolution.mode == Conflict
    ensures var r := Apply(db, p, authorized, actor, at);
      && HoldsEvolution(p.body.evolution, r.applied.rows.version, at)
      && (exists head :: StandsBeside(db, p, r.db, r.applied.rows, head, at))
      && AddsOneMemory(db, r.db, r.applied.rows)
  {
    var head := Head(db, p.target).value;
    ConflictStoresRows(db, p, head, p.body.evolution, at);
    assert StandsBeside(db, p, Apply(db, p, authorized, actor, at).db, Apply(db, p, authorized, actor, at).applied.rows, head, at);
  }

  // ----- Archive and forget -----

  /** A new archive or forget is accepted if and only if its body is empty and its target has a head it may write. */
  lemma StateAcceptedIff(db: Db, p: Proposal, authorized: Option<Scope>, actor: Id, at: int)
    requires p.action in {Archive, Forget} && p.id !in db.operations
    ensures Apply(db, p, authorized, actor, at).Committed? <==>
      && Addressed(p, actor)
      && p.body == EmptyBody
      && (exists head :: IsHead(db, p.target, head))
      && db.memories[p.target].scope.namespace == p.namespace
      && MayWrite(authorized, db.memories[p.target].scope)
  {
  }

  /** Only the target's row and its head's change, and in them only the state. */
  ghost predicate OnlyStates(db: Db, p: Proposal, after: Db, rows: Rows, ms: MemoryState, vs: VersionState) {
    && rows.memoryId == p.target && IsHead(db, p.target, rows.versionId)
    && after.memories == db.memories[p.target := db.memories[p.target].(state := ms)]
    && after.versions == db.versions[rows.versionId := db.versions[rows.versionId].(state := vs)]
    && after.edges == db.edges
  }

  lemma StateStoresRows(db: Db, p: Proposal, authorized: Option<Scope>, ms: MemoryState, vs: VersionState, removeIndexes: bool)
    ensures var r := ApplyState(db, p, authorized, ms, vs, removeIndexes); r.Success? ==>
      && OnlyStates(db, p, r.value.db, r.value.rows, ms, vs)
      && (!removeIndexes ==> r.value.db.index == db.index && r.value.db.embeddings == db.embeddings)
      && (removeIndexes ==> IndexesDrop(db, r.value.db, p.target))
  {
  }

  /** Exactly this memory's index rows and its versions' embeddings are gone. */
  ghost predicate IndexesDrop(db: Db, after: Db, memory: Id) {
    && (forall r :: r in after.index.rows <==> r in db.index.rows && db.index.rows[r].memory != memory)
    && (forall r :: r in after.index.rows ==> after.index.rows[r] == db.index.rows[r])
    && (forall k :: k in after.embeddings <==>
          k in db.embeddings && !(k.version in db.versions && db.versions[k.version].memory == memory))
    && (forall k :: k in after.embeddings ==> after.embeddings[k] == db.embeddings[k])
  }

  /** An accepted archive leaves Archived and keeps both indexes. */
  lemma ArchiveStores(db: Db, p: Proposal, authorized: Option<Scope>, actor: Id, at: int)
    requires p.action == Archive && p.id !in db.operations && Apply(db, p, authorized, actor, at).Committed?
    ensures var r := Apply(db, p, authorized, actor, at);
      && OnlyStates(db, p, r.db, r.applied.rows, MemoryArchived, VersionArchived)
      && r.db.index == db.index && r.db.embeddings == db.embeddings
  {
    StateStoresRows(db, p, authorized, MemoryArchived, VersionArchived, false);
  }

  /** An accepted forget leaves Forgotten and drops exactly the memory's index rows and embeddings. */
  lemma ForgetStores(db: Db, p: Proposal, authorized: Option<Scope>, actor: Id, at: int)
    requires p.action == Forget && p.id !in db.operations && Apply(db, p, authorized, actor, at).Committed?
    ensures var r := Apply(db, p, authorized, actor, at);
      && OnlyStates(db, p, r.db, r.applied.rows, MemoryForgotten, VersionForgotten)
      && IndexesDrop(db, r.db, p.target)
  {
    StateStoresRows(db, p, authorized, MemoryForgotten, VersionForgotten, true);
  }

  // ----- All proposals -----

  /** The operation is logged as asked: its action, its actor, the memory written, and when. */
  lemma OperationLogged(db: Db, p: Proposal, authorized: Option<Scope>, actor: Id, at: int)
    requires p.id !in db.operations && Apply(db, p, authorized, actor, at).Committed?
    ensures var r := Apply(db, p, authorized, actor, at);
      && r.db.operations == db.operations[p.id := r.applied.operation]
      && r.applied.operation.action == p.action
      && r.applied.operation.actor == actor
      && r.applied.operation.target == r.applied.rows.memoryId
      && r.applied.operation.proposal == p.id
      && r.applied.operation.occurredAt == at
  {
    ShapeMutation(db, p, authorized, at);
  }

  lemma AuthorizedMutation(db: Db, p: Proposal, authorized: Option<Scope>, at: int)
    ensures var r := Mutate(db, p, authorized, at); r.Success? ==> MayWrite(authorized, r.value.rows.memory.scope)
  {
  }

  /** Whatever is answered, written now or replayed, lies in the caller's scope. */
  lemma AnsweredInScope(db: Db, p: Proposal, authorized: Option<Scope>, actor: Id, at: int)
    ensures var r := Apply(db, p, authorized, actor, at); r.Committed? ==> MayWrite(authorized, r.applied.rows.memory.scope)
  {
    AuthorizedMutation(db, p, authorized, at);
  }

  /** A logged proposal is answered if and only if its target still has a head in the caller's scope. */
  lemma ReplayAnsweredIff(db: Db, p: Proposal, authorized: Option<Scope>, actor: Id, at: int)
    requires p.id in db.operations
    ensures var target := db.operations[p.id].target;
      Apply(db, p, authorized, actor, at).Committed? <==>
        && Addressed(p, actor)
        && (exists head :: IsHead(db, target, head))
        && MayWrite(authorized, db.memories[target].scope)
  {
  }
}
