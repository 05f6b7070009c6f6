// Irreversible purge: the recursive query over the version graph, and the two ways of
// treating what was derived from the target.
module Purge {
  import opened Ids
  import opened Graph
  import opened Domain
  import opened Database

  datatype PurgeMode = Cascade | MarkStale

  datatype PurgeError = IncompletePurge | PurgeTargetMissing | DuplicateReceipt

  datatype PurgeOutcome = Purged(db: Db, receipt: Receipt) | NotPurged(error: PurgeError)

  function Roots(db: Db, namespace: Id, memory: Id): set<Id> {
    set v | v in db.versions && db.versions[v].memory == memory
            && memory in db.memories && db.memories[memory].scope.namespace == namespace
  }

  predicate InNamespace(db: Db, namespace: Id, v: Id) {
    && v in db.versions
    && db.versions[v].memory in db.memories
    && db.memories[db.versions[v].memory].scope.namespace == namespace
  }

  /** The rows of the recursive query: versions in the namespace reached from the target's versions. */
  ghost predicate InTree(db: Db, namespace: Id, memory: Id, v: Id) {
    InNamespace(db, namespace, v) && ReachedFrom(db.edges, Roots(db, namespace, memory), v)
  }

  ghost function TreeMemories(db: Db, namespace: Id, memory: Id): set<Id> {
    set v | v in db.versions && InTree(db, namespace, memory, v) :: db.versions[v].memory
  }

  /** Versions of other memories in the tree. */
  ghost function DerivedVersions(db: Db, namespace: Id, memory: Id): set<Id> {
    set v | v in db.versions && InTree(db, namespace, memory, v) && db.versions[v].memory != memory
  }

  function OwnedBy(versions: map<Id, Version>, memories: set<Id>): set<Id> {
    set v | v in versions && versions[v].memory in memories
  }

  function StaleAmong(versions: map<Id, Version>, marked: set<Id>): map<Id, Version> {
    map v | v in versions ::
      if v in marked && versions[v].state == VersionCurrent
      then versions[v].(state := VersionStale)
      else versions[v]
  }

  function RemoveRows(index: TextIndex, namespace: Id, memories: set<Id>): TextIndex {
    index.(rows := map r |
      r in index.rows && !(index.rows[r].memory in memories && index.rows[r].namespace == namespace) :: index.rows[r])
  }

  /** Deletes memories; versions, dependency edges and embeddings go with them by foreign key. */
  function DeleteMemories(db: Db, namespace: Id, doomed: set<Id>): Db {
    var gone := OwnedBy(db.versions, doomed);
    db.(memories := db.memories - doomed,
        versions := db.versions - gone,
        edges := (set e | e in db.edges && e.parent !in gone && e.child !in gone),
        index := RemoveRows(db.index, namespace, doomed),
        embeddings := map k | k in db.embeddings && k.version !in gone :: db.embeddings[k])
  }

  ghost function Doomed(db: Db, namespace: Id, memory: Id, mode: PurgeMode): set<Id> {
    if mode == Cascade then TreeMemories(db, namespace, memory) else {memory}
  }

  ghost function AfterPurge(db: Db, namespace: Id, memory: Id, mode: PurgeMode): Db {
    var marked :=
      if mode == Cascade then db
      else db.(versions := StaleAmong(db.versions, DerivedVersions(db, namespace, memory)));
    DeleteMemories(marked, namespace, Doomed(db, namespace, memory, mode))
  }

  ghost function PurgeMemory(db: Db, receiptId: Id, namespace: Id, actor: Id, memory: Id, mode: PurgeMode, at: int): PurgeOutcome {
    if receiptId == NO_ID || namespace == NO_ID || actor == NO_ID || memory == NO_ID then NotPurged(IncompletePurge)
    else if TreeMemories(db, namespace, memory) == {} then NotPurged(PurgeTargetMissing)
    else if receiptId in db.receipts then NotPurged(DuplicateReceipt)
    else
      var count := |OwnedBy(db.versions, Doomed(db, namespace, memory, mode))|;
      var receipt := Receipt(namespace, memory, actor, count, at);
      var after := AfterPurge(db, namespace, memory, mode);
      Purged(after.(receipts := after.receipts[receiptId := receipt]), receipt)
  }

  // ----- The transaction, statement by statement -----

  /** Reads the query's rows, the target's own first, into memories and derived versions. */
  method PurgeTargets(tx: Db, namespace: Id, memory: Id) returns (memories: seq<Id>, descendants: seq<Id>)
    requires ForeignKeys(tx)
    ensures Elements(memories) == TreeMemories(tx, namespace, memory)
    ensures Distinct(memories) && (memories != [] ==> memories[0] == memory)
    ensures Elements(descendants) == DerivedVersions(tx, namespace, memory)
  {
    var tree := Closure(tx.edges, Roots(tx, namespace, memory));
    var rows := set v | v in tree && InNamespace(tx, namespace, v);
    assert forall v :: v in rows <==> InTree(tx, namespace, memory, v);
    memories, descendants := [], [];
    var pending := rows;
    while pending != {}
      invariant pending <= rows
      invariant forall m :: m in memories <==> exists v :: v in rows && v !in pending && tx.versions[v].memory == m
      invariant forall v :: v in descendants <==> v in rows && v !in pending && tx.versions[v].memory != memory
      invariant Distinct(memories)
      invariant memories == [] ==> pending == rows
      invariant memories != [] ==> memories[0] == memory
    {
      RootFirst(tx, namespace, memory, rows, pending, memories);
      var v :| v in pending && (tx.versions[v].memory == memory || forall w :: w in pending ==> tx.versions[w].memory != memory);
      var found := tx.versions[v].memory;
      pending := pending - {v};
      if found !in memories {
        memories := memories + [found];
      }
      if found != memory {
        descendants := descendants + [v];
      }
    }
  }

  /** The first row belongs to the target: without a version of the target the query has no rows. */
  lemma RootFirst(tx: Db, namespace: Id, memory: Id, rows: set<Id>, pending: set<Id>, memories: seq<Id>)
    requires forall v :: v in rows <==> InTree(tx, namespace, memory, v)
    requires pending != {} && pending <= rows <= tx.versions.Keys && (memories == [] ==> pending == rows)
    ensures exists v :: v in pending && (tx.versions[v].memory == memory || forall w :: w in pending ==> tx.versions[w].memory != memory)
    ensures memories == [] ==> exists v :: v in pending && tx.versions[v].memory == memory
  {
    var v :| v in pending;
    var roots := Roots(tx, namespace, memory);
    if memories == [] {
      var root :| root in roots;
      assert InTree(tx, namespace, memory, root);
    }
  }

  /** Deletes the target or its whole tree; count is the number of version rows that go. */
  method PurgeRows(start: Db, namespace: Id, memory: Id, mode: PurgeMode) returns (found: bool, tx: Db, count: nat)
    requires ForeignKeys(start)
    ensures found <==> TreeMemories(start, namespace, memory) != {}
    ensures found ==> tx == AfterPurge(start, namespace, memory, mode)
    ensures found ==> count == |OwnedBy(start.versions, Doomed(start, namespace, memory, mode))|
  {
    var memories, descendants := PurgeTargets(start, namespace, memory);
    assert memories != [] ==> memories[0] in Elements(memories);
    tx, count := start, 0;
    if |memories| == 0 {
      return false, tx, count;
    }
    if mode == MarkStale {
      memories := memories[..1];
      tx := tx.(versions := StaleAmong(tx.versions, Elements(descendants)));
    }
    var doomed := Elements(memories);
    assert doomed == Doomed(start, namespace, memory, mode);
    assert OwnedBy(tx.versions, doomed) == OwnedBy(start.versions, doomed);
    count := |OwnedBy(tx.versions, doomed)|;
    tx := DeleteMemories(tx, namespace, doomed);
    return true, tx, count;
  }

  method Run(s: Store, receiptId: Id, namespace: Id, actor: Id, memory: Id, mode: PurgeMode, at: int)
    returns (r: Result<Receipt, PurgeError>)
    requires s.Valid()
    modifies s
    ensures match PurgeMemory(old(s.Snapshot()), receiptId, namespace, actor, memory, mode, at)
            case Purged(db, receipt) => s.Snapshot() == db && r == Success(receipt)
            case NotPurged(error) => s.Snapshot() == old(s.Snapshot()) && r == Failure(error)
  {
    if receiptId == NO_ID || namespace == NO_ID || actor == NO_ID || memory == NO_ID {
      return Failure(IncompletePurge);
    }
    var found, tx, count := PurgeRows(s.Snapshot(), namespace, memory, mode);
    if !found {
      return Failure(PurgeTargetMissing);
    }
    if receiptId in tx.receipts {
      return Failure(DuplicateReceipt);
    }
    var receipt := Receipt(namespace, memory, actor, count, at);
    s.Commit(tx.(receipts := tx.receipts[receiptId := receipt]));
    return Success(receipt);
  }
}
