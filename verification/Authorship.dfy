// Which proposal made what, and what the operation log therefore rules out: replays change
// nothing, and a memory that has left the active state never comes back.
module Authorship {
  import opened Ids
  import opened Graph
  import opened Domain
  import opened Database
  import opened Lifecycle
  import opened Purge
  import opened WorkingSets
  import opened ChainInvariant
  import opened MutationShape

  predicate MadeBy(id: Id, kinds: set<Kind>, operations: map<Id, Operation>) {
    id.Derived? && id.kind in kinds && id.of in operations
  }

  /** Every memory and version row, and every operation's target, was made by a logged proposal. */
  ghost predicate AuthorInv(memories: map<Id, Memory>, versions: map<Id, Version>, operations: map<Id, Operation>) {
    && (forall m :: m in memories ==> MadeBy(m, {MemoryKind, SiblingKind}, operations))
    && (forall v :: v in versions ==> MadeBy(v, {VersionKind, SiblingVersionKind}, operations))
    && forall p {:trigger operations[p]} :: p in operations ==>
      && operations[p].proposal == p
      && MadeBy(operations[p].target, {MemoryKind, SiblingKind}, operations)
      && (operations[p].action == Create ==> operations[p].target == MemoryIdOf(p))
  }

  ghost predicate AuthorsOk(db: Db) {
    AuthorInv(db.memories, db.versions, db.operations)
  }

  lemma AuthorsGrow(db: Db, p: Id, after: Db, op: Operation)
    requires AuthorsOk(db) && Shaped(db, p, after)
    requires op.proposal == p && (op.action == Create ==> op.target == MemoryIdOf(p)) && op.target in after.memories
    ensures AuthorInv(after.memories, after.versions, after.operations[p := op])
  {
    var operations := after.operations[p := op];
    forall m | m in after.memories ensures MadeBy(m, {MemoryKind, SiblingKind}, operations) {
      assert m in db.memories ==> MadeBy(m, {MemoryKind, SiblingKind}, db.operations);
    }
    forall v | v in after.versions ensures MadeBy(v, {VersionKind, SiblingVersionKind}, operations) {
      assert v in db.versions ==> MadeBy(v, {VersionKind, SiblingVersionKind}, db.operations);
    }
  }

  lemma AuthorsApply(db: Db, p: Proposal, authorized: Option<Scope>, actor: Id, at: int)
    requires AuthorsOk(db)
    ensures var r := Apply(db, p, authorized, actor, at); r.Committed? ==> AuthorsOk(r.db)
  {
    var r, m := Apply(db, p, authorized, actor, at), Mutate(db, p, authorized, at);
    if r.Committed? && p.id !in db.operations {
      ShapeMutation(db, p, authorized, at);
      AnswersMutation(db, p, authorized, at);
      AuthorsGrow(db, p.id, m.value.db, r.applied.operation);
    }
  }

  /** The operation log only grows, and a committed proposal is in it. */
  lemma LogGrows(db: Db, p: Proposal, authorized: Option<Scope>, actor: Id, at: int)
    ensures var r := Apply(db, p, authorized, actor, at); r.Committed? ==>
      && p.id in r.db.operations
      && r.applied.operation == r.db.operations[p.id]
      && forall q :: q in db.operations ==> q in r.db.operations && r.db.operations[q] == db.operations[q]
  {
    ShapeMutation(db, p, authorized, at);
  }

  lemma AuthorsPurge(db: Db, namespace: Id, memory: Id, mode: PurgeMode)
    requires AuthorsOk(db)
    ensures AuthorsOk(AfterPurge(db, namespace, memory, mode))
  {
  }

  lemma AuthorsExpire(db: Db, now: int)
    requires AuthorsOk(db)
    ensures AuthorsOk(Expire(db, now))
  {
  }

  // ----- Replay -----

  /** The rows a committed proposal answers with are its memory and that memory's head. */
  lemma AnswerIsHead(db: Db, p: Proposal, authorized: Option<Scope>, actor: Id, at: int)
    requires p.id !in db.operations
    ensures var r := Apply(db, p, authorized, actor, at); r.Committed? ==>
      var rows := r.applied.rows;
      && IsHead(r.db, rows.memoryId, rows.versionId)
      && r.db.memories[rows.memoryId] == rows.memory
      && r.db.versions[rows.versionId] == rows.version
      && r.applied.operation.target == rows.memoryId
  {
    AnswersMutation(db, p, authorized, at);
  }

  /** Applying a proposal again at once changes nothing and returns the same rows and operation. */
  lemma ReplayIdempotent(db: Db, p: Proposal, authorized: Option<Scope>, actor: Id, at: int, actor': Id, at': int)
    requires ChainOk(db) && actor' != NO_ID && p.id !in db.operations
    requires Apply(db, p, authorized, actor, at).Committed?
    ensures var r := Apply(db, p, authorized, actor, at);
      Apply(r.db, p, authorized, actor', at') == Committed(r.db, r.applied)
  {
    var r := Apply(db, p, authorized, actor, at);
    AnswerIsHead(db, p, authorized, actor, at);
    ChainApply(db, p, authorized, actor, at);
    HeadUnique(r.db, r.applied.rows.memoryId, r.applied.rows.versionId);
  }

  /** In every later state a replay leaves the tables alone; it is answered only while its target exists. */
  lemma ReplayNeverWrites(db: Db, p: Proposal, authorized: Option<Scope>, actor: Id, at: int)
    requires p.id in db.operations
    ensures var r := Apply(db, p, authorized, actor, at);
      r.Committed? ==> r.db == db && r.applied.operation == db.operations[p.id]
    ensures db.operations[p.id].target !in db.memories ==> Apply(db, p, authorized, actor, at).RolledBack?
  {
  }

  // ----- One-way exit -----

  /** m's maker is logged, and m is purged, archived or forgotten. */
  ghost predicate Exited(db: Db, m: Id) {
    MadeBy(m, {MemoryKind, SiblingKind}, db.operations) && (m in db.memories ==> db.memories[m].state != MemoryActive)
  }

  lemma ExitedApply(db: Db, m: Id, p: Proposal, authorized: Option<Scope>, actor: Id, at: int)
    requires Exited(db, m)
    ensures var r := Apply(db, p, authorized, actor, at); r.Committed? ==> Exited(r.db, m)
  {
    ShapeMutation(db, p, authorized, at);
  }

  lemma ExitedPurge(db: Db, m: Id, namespace: Id, memory: Id, mode: PurgeMode)
    requires Exited(db, m)
    ensures Exited(AfterPurge(db, namespace, memory, mode), m)
  {
  }

  lemma ExitedExpire(db: Db, m: Id, now: int)
    requires Exited(db, m)
    ensures Exited(Expire(db, now), m)
  {
  }

  /** m's maker is logged and m is not in the tables any more. */
  ghost predicate Gone(db: Db, m: Id) {
    MadeBy(m, {MemoryKind, SiblingKind}, db.operations) && m !in db.memories
  }

  /** Only a proposal that was not logged yet adds memories, and under ids of its own. */
  lemma GoneApply(db: Db, m: Id, p: Proposal, authorized: Option<Scope>, actor: Id, at: int)
    requires Gone(db, m)
    ensures var r := Apply(db, p, authorized, actor, at); r.Committed? ==> Gone(r.db, m)
  {
    ShapeMutation(db, p, authorized, at);
  }
}
