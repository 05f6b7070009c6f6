// Applying lifecycle proposals: create, supersede, rebuild, conflict, archive and forget.
// The ghost functions say what one transaction leaves in the tables; the methods run it
// statement by statement.
module Lifecycle {
  import opened Ids
  import opened Graph
  import opened Domain
  import opened Database

  datatype EvolutionMode = Supersede | Conflict | Rebuild

  datatype MemoryCreate = MemoryCreate(
    scope: Scope,
    memoryFunction: MemoryFunction,
    payload: Payload,
    provenance: seq<Id>,
    validTime: Option<TimeRange>,
    conflictGroup: Id,
    derivedFrom: seq<Id>)

  datatype MemoryEvolution = MemoryEvolution(
    mode: EvolutionMode,
    payload: Payload,
    provenance: seq<Id>,
    validTime: TimeRange,
    conflictGroup: Id,
    derivedFrom: seq<Id>)

  /** What the JSON payload of a proposal decodes to. */
  datatype Body =
    | CreateBody(create: MemoryCreate)
    | EvolutionBody(evolution: MemoryEvolution)
    | EmptyBody
    | OtherBody

  datatype Proposal = Proposal(
    id: Id,
    namespace: Id,
    observations: seq<Id>,
    action: ProposalAction,
    target: Id,
    body: Body,
    createdAt: int)

  datatype ApplyError =
    | InvalidProposal
    | MalformedBody
    | InvalidBody
    | NamespaceMismatch
    | Unauthorized
    | TargetMissing
    | TargetNotActive
    | RebuildRequired
    | BadDependency
    | BadReference
    | ConflictGroupFixed
    | SystemTimeMustAdvance
    | DuplicateKey

  /** A memory and one of its versions, as a transaction answers with them. */
  datatype Rows = Rows(memoryId: Id, memory: Memory, versionId: Id, version: Version)

  datatype Applied = Applied(rows: Rows, operation: Operation)

  datatype Mutation = Mutation(db: Db, rows: Rows)

  datatype ApplyOutcome = Committed(db: Db, applied: Applied) | RolledBack(error: ApplyError)

  predicate ValidProposal(p: Proposal) {
    && p.id != NO_ID
    && p.namespace != NO_ID
    && (p.action in {Create, Update, Consolidate} ==> p.observations != [])
    && (p.action == Create <==> p.target == NO_ID)
  }

  predicate ValidCreate(c: MemoryCreate) {
    && PayloadFits(c.payload, c.memoryFunction)
    && (c.memoryFunction == Working ==> c.scope.context == c.payload.task)
    && c.provenance != []
    && (c.validTime.Some? ==> c.validTime.value.Valid())
  }

  predicate ValidEvolution(e: MemoryEvolution, f: MemoryFunction) {
    && (e.mode == Rebuild ==> e.derivedFrom != [])
    && PayloadFits(e.payload, f)
    && e.provenance != []
    && e.validTime.Valid()
  }

  predicate AuthorizesCreate(authorized: Option<Scope>, target: Scope) {
    authorized.Some? ==> AuthorizesMemory(authorized, target) && authorized.value.actor == target.actor
  }

  predicate AuthorizesMemory(authorized: Option<Scope>, target: Scope) {
    authorized.Some? ==>
      && authorized.value.namespace == target.namespace
      && authorized.value.owner == target.owner
      && authorized.value.subject == target.subject
  }

  // ----- References a new version may make -----

  ghost predicate DependencyAllowed(db: Db, scope: Scope, target: Option<Id>, parent: Id) {
    && parent != NO_ID
    && parent in db.versions
    && db.versions[parent].memory in db.memories
    && !FlowRefused(db.memories[db.versions[parent].memory].scope, scope)
    && (target.Some? ==> parent != target.value && !Reaches(db.edges, target.value, parent))
  }

  ghost predicate DependenciesAllowed(db: Db, scope: Scope, target: Option<Id>, parents: seq<Id>) {
    Distinct(parents) && forall p :: p in parents ==> DependencyAllowed(db, scope, target, p)
  }

  predicate EvidenceExists(db: Db, scope: Scope, e: LessonEvidence) {
    && e.episode in db.episodes
    && db.episodes[e.episode].namespace == scope.namespace
    && db.episodes[e.episode].subject == scope.subject
    && forall o :: o in e.outcomes ==> o in db.outcomes && db.outcomes[o].episode == e.episode
  }

  predicate WorkingSetUsable(db: Db, namespace: Id, at: int, id: Id, task: Id) {
    && id in db.workingSets
    && var set_ := db.workingSets[id];
      && set_.scope.namespace == namespace
      && set_.task == task
      && set_.state == SetActive
      && (set_.expiresAt.Some? ==> set_.expiresAt.value > at)
  }

  predicate ReferencesExist(db: Db, scope: Scope, at: int, payload: Payload) {
    match payload
    case FactualPayload(claimSubject, _, _, _, _) => claimSubject == scope.subject
    case ExperientialPayload(_, evidence) => forall e :: e in evidence ==> EvidenceExists(db, scope, e)
    case WorkingPayload(id, task, _, _, _) =>
      scope.context == task && WorkingSetUsable(db, scope.namespace, at, id, task)
  }

  // ----- Row changes -----

  function AddRow(index: TextIndex, row: IndexRow): TextIndex {
    TextIndex(index.rows[index.next := row], index.next + 1)
  }

  /** One version row, its dependency edges and its index row. */
  ghost function InsertVersion(db: Db, namespace: Id, id: Id, v: Version): Db {
    db.(versions := db.versions[id := v],
        edges := db.edges + EdgesInto(Elements(v.derivedFrom), id),
        index := AddRow(db.index, IndexRow(id, v.memory, namespace, MemoryText(v.payload))))
  }

  ghost function InsertMemory(db: Db, memory: Memory, id: Id, v: Version): Db {
    InsertVersion(db.(memories := db.memories[v.memory := memory]), memory.scope.namespace, id, v)
  }

  /** Whether a later version effective from validFrom cuts the valid interval of v short. */
  predicate Narrows(v: Version, validFrom: int) {
    validFrom > v.validTime.from && (v.validTime.to.None? || validFrom < v.validTime.to.value)
  }

  /** A version's row once a later one takes over at system time at, effective from validFrom. */
  function Closed(v: Version, at: int, validFrom: int): Version {
    v.(state := VersionSuperseded,
       systemTime := TimeRange(v.systemTime.from, Some(at)),
       validTime := if Narrows(v, validFrom) then TimeRange(v.validTime.from, Some(validFrom)) else v.validTime)
  }

  function CloseHead(versions: map<Id, Version>, head: Id, at: int, validFrom: int): map<Id, Version>
    requires head in versions
  {
    if versions[head].state in {VersionCurrent, VersionStale} then
      versions[head := Closed(versions[head], at, validFrom)]
    else
      versions
  }

  /** Every current strict descendant of parent becomes stale. */
  ghost function Staled(versions: map<Id, Version>, edges: set<Edge>, parent: Id): map<Id, Version> {
    map v | v in versions ::
      if Reaches(edges, parent, v) && versions[v].state == VersionCurrent
      then versions[v].(state := VersionStale)
      else versions[v]
  }

  function RemoveMemoryRows(index: TextIndex, memory: Id): TextIndex {
    index.(rows := map r | r in index.rows && index.rows[r].memory != memory :: index.rows[r])
  }

  function RemoveMemoryEmbeddings(
    embeddings: map<EmbeddingKey, Embedding>, versions: map<Id, Version>, memory: Id): map<EmbeddingKey, Embedding>
  {
    map k | k in embeddings && !(k.version in versions && versions[k.version].memory == memory) :: embeddings[k]
  }

  // ----- Ids a proposal gives to what it creates -----

  function MemoryIdOf(proposal: Id): Id { Derived(MemoryKind, proposal, NO_ID) }
  function VersionIdOf(proposal: Id): Id { Derived(VersionKind, proposal, NO_ID) }
  function SiblingIdOf(proposal: Id): Id { Derived(SiblingKind, proposal, NO_ID) }
  function SiblingVersionIdOf(proposal: Id): Id { Derived(SiblingVersionKind, proposal, NO_ID) }

  function FirstVersion(memory: Id, validTime: TimeRange, at: int, group: Id, derivedFrom: seq<Id>, provenance: seq<Id>, payload: Payload): Version {
    Version(memory, 1, VersionCurrent, validTime, TimeRange(at, None), group, [], derivedFrom, provenance, payload)
  }

  function NextVersion(head: Id, current: Version, e: MemoryEvolution, at: int): Version {
    Version(current.memory, current.number + 1, VersionCurrent, e.validTime, TimeRange(at, None),
            e.conflictGroup, [head], e.derivedFrom, e.provenance, e.payload)
  }

  function Advanced(memory: Memory, number: nat): Memory {
    memory.(currentVersion := number, state := MemoryActive)
  }

  predicate NumberTaken(versions: map<Id, Version>, memory: Id, number: nat) {
    exists v :: v in versions && versions[v].memory == memory && versions[v].number == number
  }

  // ----- What each kind of proposal does -----

  ghost function ApplyCreate(db: Db, p: Proposal, authorized: Option<Scope>, at: int): Result<Mutation, ApplyError> {
    if !p.body.CreateBody? then Failure(MalformedBody) else
    var c := p.body.create;
    var memory := Memory(c.scope, c.memoryFunction, MemoryActive, 1, at);
    var validTime := if c.validTime.Some? then c.validTime.value else TimeRange(p.createdAt, None);
    var version := FirstVersion(MemoryIdOf(p.id), validTime, at, c.conflictGroup, c.derivedFrom, c.provenance, c.payload);
    if !ValidCreate(c) then Failure(InvalidBody)
    else if c.scope.namespace != p.namespace then Failure(NamespaceMismatch)
    else if !AuthorizesCreate(authorized, c.scope) then Failure(Unauthorized)
    else if !DependenciesAllowed(db, c.scope, None, c.derivedFrom) then Failure(BadDependency)
    else if !ReferencesExist(db, c.scope, at, c.payload) then Failure(BadReference)
    else if MemoryIdOf(p.id) in db.memories || VersionIdOf(p.id) in db.versions then Failure(DuplicateKey)
    else Success(Mutation(InsertMemory(db, memory, VersionIdOf(p.id), version),
                          Rows(MemoryIdOf(p.id), memory, VersionIdOf(p.id), version)))
  }

  ghost function ApplyConflict(db: Db, p: Proposal, head: Id, e: MemoryEvolution, at: int): Result<Mutation, ApplyError>
    requires IsHead(db, p.target, head)
  {
    var memory := db.memories[p.target];
    var current := db.versions[head];
    var group :=
      if current.conflictGroup != NO_ID then current.conflictGroup
      else if e.conflictGroup != NO_ID then e.conflictGroup
      else Derived(ConflictKind, p.target, NO_ID);
    var grouped := db.(versions := db.versions[head := current.(conflictGroup := group)]);
    var sibling := memory.(currentVersion := 1, createdAt := at);
    var version := FirstVersion(SiblingIdOf(p.id), e.validTime, at, group, e.derivedFrom, e.provenance, e.payload);
    if current.conflictGroup != NO_ID && e.conflictGroup != NO_ID && e.conflictGroup != current.conflictGroup then
      Failure(ConflictGroupFixed)
    else if SiblingIdOf(p.id) in db.memories || SiblingVersionIdOf(p.id) in db.versions then
      Failure(DuplicateKey)
    else
      Success(Mutation(InsertMemory(grouped, sibling, SiblingVersionIdOf(p.id), version),
                       Rows(SiblingIdOf(p.id), sibling, SiblingVersionIdOf(p.id), version)))
  }

  /** The tables after the head of a memory is closed and its descendants are marked. */
  ghost function AfterClose(db: Db, head: Id, e: MemoryEvolution, at: int): Db
    requires head in db.versions
  {
    db.(versions := Staled(CloseHead(db.versions, head, at, e.validTime.from), db.edges, head))
  }

  /** The tables after a supersede or rebuild step. */
  ghost function AfterEvolution(db: Db, p: Proposal, head: Id, e: MemoryEvolution, at: int): Db
    requires IsHead(db, p.target, head)
  {
    var next := NextVersion(head, db.versions[head], e, at);
    var inserted := InsertVersion(AfterClose(db, head, e, at), db.memories[p.target].scope.namespace, VersionIdOf(p.id), next);
    inserted.(memories := db.memories[p.target := Advanced(db.memories[p.target], next.number)])
  }

  ghost function ApplyEvolution(db: Db, p: Proposal, authorized: Option<Scope>, at: int): Result<Mutation, ApplyError> {
    if Head(db, p.target).None? then Failure(TargetMissing) else
    var head := Head(db, p.target).value;
    var memory := db.memories[p.target];
    if memory.scope.namespace != p.namespace then Failure(NamespaceMismatch)
    else if !AuthorizesMemory(authorized, memory.scope) then Failure(Unauthorized)
    else if memory.state != MemoryActive then Failure(TargetNotActive)
    else if !p.body.EvolutionBody? then Failure(MalformedBody) else
    var e := p.body.evolution;
    if !ValidEvolution(e, memory.memoryFunction) then Failure(InvalidBody)
    else if p.action == Consolidate && e.mode != Rebuild then Failure(RebuildRequired)
    else if !DependenciesAllowed(db, memory.scope, Some(head), e.derivedFrom) then Failure(BadDependency)
    else if !ReferencesExist(db, memory.scope, at, e.payload) then Failure(BadReference)
    else if e.mode == Conflict then ApplyConflict(db, p, head, e, at)
    else if at <= db.versions[head].systemTime.from then Failure(SystemTimeMustAdvance)
    else if VersionIdOf(p.id) in db.versions || NumberTaken(db.versions, p.target, db.versions[head].number + 1) then
      Failure(DuplicateKey)
    else
      var next := NextVersion(head, db.versions[head], e, at);
      Success(Mutation(AfterEvolution(db, p, head, e, at),
                       Rows(p.target, Advanced(memory, next.number), VersionIdOf(p.id), next)))
  }

  ghost function AfterState(db: Db, target: Id, head: Id, memoryState: MemoryState, versionState: VersionState, removeIndexes: bool): Db
    requires IsHead(db, target, head)
  {
    var changed := db.(memories := db.memories[target := db.memories[target].(state := memoryState)],
                       versions := db.versions[head := db.versions[head].(state := versionState)]);
    if removeIndexes then
      changed.(index := RemoveMemoryRows(db.index, target),
               embeddings := RemoveMemoryEmbeddings(db.embeddings, changed.versions, target))
    else
      changed
  }

  ghost function ApplyState(db: Db, p: Proposal, authorized: Option<Scope>, memoryState: MemoryState, versionState: VersionState, removeIndexes: bool): Result<Mutation, ApplyError> {
    if p.body != EmptyBody then Failure(MalformedBody)
    else if Head(db, p.target).None? then Failure(TargetMissing)
    else if db.memories[p.target].scope.namespace != p.namespace then Failure(NamespaceMismatch)
    else if !AuthorizesMemory(authorized, db.memories[p.target].scope) then Failure(Unauthorized)
    else
      var head := Head(db, p.target).value;
      Success(Mutation(AfterState(db, p.target, head, memoryState, versionState, removeIndexes),
                       Rows(p.target, db.memories[p.target].(state := memoryState),
                            head, db.versions[head].(state := versionState))))
  }

  ghost function Mutate(db: Db, p: Proposal, authorized: Option<Scope>, at: int): Result<Mutation, ApplyError> {
    match p.action
    case Create => ApplyCreate(db, p, authorized, at)
    case Update => ApplyEvolution(db, p, authorized, at)
    case Consolidate => ApplyEvolution(db, p, authorized, at)
    case Archive => ApplyState(db, p, authorized, MemoryArchived, VersionArchived, false)
    case Forget => ApplyState(db, p, authorized, MemoryForgotten, VersionForgotten, true)
  }

  function OperationOf(p: Proposal, actor: Id, target: Id, at: int): Operation {
    Operation(p.action, actor, target, p.id, at)
  }

  /** Answers a proposal that was applied before from the current row of its target. */
  ghost function Replay(db: Db, p: Proposal, authorized: Option<Scope>): ApplyOutcome
    requires p.id in db.operations
  {
    var op := db.operations[p.id];
    if Head(db, op.target).None? then RolledBack(TargetMissing)
    else if !AuthorizesMemory(authorized, db.memories[op.target].scope) then RolledBack(Unauthorized)
    else
      var head := Head(db, op.target).value;
      Committed(db, Applied(Rows(op.target, db.memories[op.target], head, db.versions[head]), op))
  }

  ghost function Apply(db: Db, p: Proposal, authorized: Option<Scope>, actor: Id, at: int): ApplyOutcome {
    if !ValidProposal(p) || actor == NO_ID then RolledBack(InvalidProposal)
    else if p.id in db.operations then Replay(db, p, authorized)
    else match Mutate(db, p, authorized, at)
      case Failure(error) => RolledBack(error)
      case Success(m) =>
        var op := OperationOf(p, actor, m.rows.memoryId, at);
        Committed(m.db.(operations := m.db.operations[p.id := op]), Applied(m.rows, op))
  }

  // ----- The transaction, statement by statement -----

  method CheckDependencies(tx: Db, scope: Scope, target: Option<Id>, parents: seq<Id>) returns (ok: bool)
    ensures ok <==> DependenciesAllowed(tx, scope, target, parents)
  {
    var seen: set<Id> := {};
    for i := 0 to |parents|
      invariant forall x :: x in seen <==> x in parents[..i]
      invariant Distinct(parents[..i])
      invariant forall k :: 0 <= k < i ==> DependencyAllowed(tx, scope, target, parents[k])
    {
      var parent := parents[i];
      assert parent in parents;
      if parent in seen {
        assert exists k :: 0 <= k < i && parents[k] == parents[i];
        return false;
      }
      if parent == NO_ID {
        return false;
      }
      seen := seen + {parent};
      if parent !in tx.versions || tx.versions[parent].memory !in tx.memories {
        return false;
      }
      if FlowRefused(tx.memories[tx.versions[parent].memory].scope, scope) {
        return false;
      }
      if target.Some? {
        var descendants := Descendants(tx.edges, target.value);
        if parent in descendants || parent == target.value {
          return false;
        }
      }
    }
    return true;
  }

  method LoadCurrent(tx: Db, memory: Id) returns (head: Option<Id>)
    requires UniqueNumbers(tx.versions)
    ensures head == Head(tx, memory)
  {
    if v :| v in tx.versions && IsHead(tx, memory, v) {
      HeadUnique(tx, memory, v);
      head := Some(v);
    } else {
      head := None;
    }
  }

  method MarkDescendantsStale(versions: map<Id, Version>, edges: set<Edge>, parent: Id) returns (marked: map<Id, Version>)
    ensures marked == Staled(versions, edges, parent)
  {
    var descendants := Descendants(edges, parent);
    marked := map v | v in versions ::
      if v in descendants && versions[v].state == VersionCurrent
      then versions[v].(state := VersionStale)
      else versions[v];
  }

  method InsertVersionRows(tx: Db, namespace: Id, id: Id, v: Version) returns (next: Db)
    ensures next == InsertVersion(tx, namespace, id, v)
  {
    var edges := tx.edges;
    for i := 0 to |v.derivedFrom|
      invariant edges == tx.edges + EdgesInto(Elements(v.derivedFrom[..i]), id)
    {
      assert Elements(v.derivedFrom[..i + 1]) == Elements(v.derivedFrom[..i]) + {v.derivedFrom[i]};
      edges := edges + {Edge(v.derivedFrom[i], id)};
    }
    assert v.derivedFrom[..|v.derivedFrom|] == v.derivedFrom;
    next := tx.(versions := tx.versions[id := v], edges := edges,
                index := AddRow(tx.index, IndexRow(id, v.memory, namespace, MemoryText(v.payload))));
  }

  method RunCreate(tx: Db, p: Proposal, authorized: Option<Scope>, at: int) returns (r: Result<Mutation, ApplyError>)
    ensures r == ApplyCreate(tx, p, authorized, at)
  {
    if !p.body.CreateBody? {
      return Failure(MalformedBody);
    }
    var c := p.body.create;
    if !ValidCreate(c) {
      return Failure(InvalidBody);
    }
    if c.scope.namespace != p.namespace {
      return Failure(NamespaceMismatch);
    }
    if !AuthorizesCreate(authorized, c.scope) {
      return Failure(Unauthorized);
    }
    var validTime := TimeRange(p.createdAt, None);
    if c.validTime.Some? {
      validTime := c.validTime.value;
    }
    var memory := Memory(c.scope, c.memoryFunction, MemoryActive, 1, at);
    var version := FirstVersion(MemoryIdOf(p.id), validTime, at, c.conflictGroup, c.derivedFrom, c.provenance, c.payload);
    var ok := CheckDependencies(tx, c.scope, None, version.derivedFrom);
    if !ok {
      return Failure(BadDependency);
    }
    if !ReferencesExist(tx, c.scope, at, version.payload) {
      return Failure(BadReference);
    }
    if MemoryIdOf(p.id) in tx.memories || VersionIdOf(p.id) in tx.versions {
      return Failure(DuplicateKey);
    }
    var withMemory := tx.(memories := tx.memories[MemoryIdOf(p.id) := memory]);
    var next := InsertVersionRows(withMemory, c.scope.namespace, VersionIdOf(p.id), version);
    return Success(Mutation(next, Rows(MemoryIdOf(p.id), memory, VersionIdOf(p.id), version)));
  }

  method RunConflict(tx: Db, p: Proposal, head: Id, e: MemoryEvolution, at: int) returns (r: Result<Mutation, ApplyError>)
    requires IsHead(tx, p.target, head)
    ensures r == ApplyConflict(tx, p, head, e, at)
  {
    var memory, current := tx.memories[p.target], tx.versions[head];
    var group := e.conflictGroup;
    if current.conflictGroup != NO_ID {
      if group != NO_ID && group != current.conflictGroup {
        return Failure(ConflictGroupFixed);
      }
      group := current.conflictGroup;
    }
    if group == NO_ID {
      group := Derived(ConflictKind, p.target, NO_ID);
    }
    if SiblingIdOf(p.id) in tx.memories || SiblingVersionIdOf(p.id) in tx.versions {
      return Failure(DuplicateKey);
    }
    var grouped := tx.(versions := tx.versions[head := current.(conflictGroup := group)]);
    var sibling := memory.(currentVersion := 1, createdAt := at);
    var version := FirstVersion(SiblingIdOf(p.id), e.validTime, at, group, e.derivedFrom, e.provenance, e.payload);
    var withMemory := grouped.(memories := grouped.memories[SiblingIdOf(p.id) := sibling]);
    var next := InsertVersionRows(withMemory, sibling.scope.namespace, SiblingVersionIdOf(p.id), version);
    return Success(Mutation(next, Rows(SiblingIdOf(p.id), sibling, SiblingVersionIdOf(p.id), version)));
  }

  method RunEvolution(tx: Db, p: Proposal, authorized: Option<Scope>, at: int) returns (r: Result<Mutation, ApplyError>)
    requires UniqueNumbers(tx.versions)
    ensures r == ApplyEvolution(tx, p, authorized, at)
  {
    var loaded := LoadCurrent(tx, p.target);
    if loaded.None? {
      return Failure(TargetMissing);
    }
    var head := loaded.value;
    var memory, current := tx.memories[p.target], tx.versions[head];
    if memory.scope.namespace != p.namespace {
      return Failure(NamespaceMismatch);
    }
    if !AuthorizesMemory(authorized, memory.scope) {
      return Failure(Unauthorized);
    }
    if memory.state != MemoryActive {
      return Failure(TargetNotActive);
    }
    if !p.body.EvolutionBody? {
      return Failure(MalformedBody);
    }
    var e := p.body.evolution;
    if !ValidEvolution(e, memory.memoryFunction) {
      return Failure(InvalidBody);
    }
    if p.action == Consolidate && e.mode != Rebuild {
      return Failure(RebuildRequired);
    }
    var ok := CheckDependencies(tx, memory.scope, Some(head), e.derivedFrom);
    if !ok {
      return Failure(BadDependency);
    }
    if !ReferencesExist(tx, memory.scope, at, e.payload) {
      return Failure(BadReference);
    }
    if e.mode == Conflict {
      r := RunConflict(tx, p, head, e, at);
      return;
    }
    if at <= current.systemTime.from {
      return Failure(SystemTimeMustAdvance);
    }
    if VersionIdOf(p.id) in tx.versions || NumberTaken(tx.versions, p.target, current.number + 1) {
      return Failure(DuplicateKey);
    }
    var next, version := Evolve(tx, p, head, e, at);
    return Success(Mutation(next, Rows(p.target, Advanced(memory, version.number), VersionIdOf(p.id), version)));
  }

  method Evolve(tx: Db, p: Proposal, head: Id, e: MemoryEvolution, at: int) returns (next: Db, version: Version)
    requires IsHead(tx, p.target, head)
    ensures next == AfterEvolution(tx, p, head, e, at)
    ensures version == NextVersion(head, tx.versions[head], e, at)
  {
    var memory, current := tx.memories[p.target], tx.versions[head];
    var closed := CloseHead(tx.versions, head, at, e.validTime.from);
    var marked := MarkDescendantsStale(closed, tx.edges, head);
    version := NextVersion(head, current, e, at);
    next := InsertVersionRows(tx.(versions := marked), memory.scope.namespace, VersionIdOf(p.id), version);
    next := next.(memories := next.memories[p.target := Advanced(memory, version.number)]);
  }

  method RunState(tx: Db, p: Proposal, authorized: Option<Scope>, memoryState: MemoryState, versionState: VersionState, removeIndexes: bool)
    returns (r: Result<Mutation, ApplyError>)
    requires UniqueNumbers(tx.versions)
    ensures r == ApplyState(tx, p, authorized, memoryState, versionState, removeIndexes)
  {
    if p.body != EmptyBody {
      return Failure(MalformedBody);
    }
    var loaded := LoadCurrent(tx, p.target);
    if loaded.None? {
      return Failure(TargetMissing);
    }
    var head := loaded.value;
    if tx.memories[p.target].scope.namespace != p.namespace {
      return Failure(NamespaceMismatch);
    }
    if !AuthorizesMemory(authorized, tx.memories[p.target].scope) {
      return Failure(Unauthorized);
    }
    var memory := tx.memories[p.target].(state := memoryState);
    var version := tx.versions[head].(state := versionState);
    var next := tx.(memories := tx.memories[p.target := memory]);
    next := next.(versions := next.versions[head := version]);
    if removeIndexes {
      next := next.(index := RemoveMemoryRows(next.index, p.target));
      next := next.(embeddings := RemoveMemoryEmbeddings(next.embeddings, next.versions, p.target));
    }
    return Success(Mutation(next, Rows(p.target, memory, head, version)));
  }

  method ApplyProposal(s: Store, p: Proposal, authorized: Option<Scope>, actor: Id, at: int) returns (r: Result<Applied, ApplyError>)
    requires s.Valid()
    modifies s
    ensures match Apply(old(s.Snapshot()), p, authorized, actor, at)
            case Committed(db, applied) => s.Snapshot() == db && r == Success(applied)
            case RolledBack(error) => s.Snapshot() == old(s.Snapshot()) && r == Failure(error)
  {
    if !ValidProposal(p) || actor == NO_ID {
      return Failure(InvalidProposal);
    }
    var tx := s.Snapshot();
    if p.id in tx.operations {
      var op := tx.operations[p.id];
      var loaded := LoadCurrent(tx, op.target);
      if loaded.None? {
        return Failure(TargetMissing);
      }
      if !AuthorizesMemory(authorized, tx.memories[op.target].scope) {
        return Failure(Unauthorized);
      }
      var rows := Rows(op.target, tx.memories[op.target], loaded.value, tx.versions[loaded.value]);
      return Success(Applied(rows, op));
    }
    var mutation: Result<Mutation, ApplyError>;
    match p.action {
      case Create => mutation := RunCreate(tx, p, authorized, at);
      case Update => mutation := RunEvolution(tx, p, authorized, at);
      case Consolidate => mutation := RunEvolution(tx, p, authorized, at);
      case Archive => mutation := RunState(tx, p, authorized, MemoryArchived, VersionArchived, false);
      case Forget => mutation := RunState(tx, p, authorized, MemoryForgotten, VersionForgotten, true);
    }
    if mutation.Failure? {
      return Failure(mutation.error);
    }
    var m := mutation.value;
    var op := OperationOf(p, actor, m.rows.memoryId, at);
    s.Commit(m.db.(operations := m.db.operations[p.id := op]));
    return Success(Applied(m.rows, op));
  }
}
