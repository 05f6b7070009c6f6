// The store's tables. Db is one snapshot of them, which a transaction reads and rewrites;
// Store holds the committed tables.
module Database {
  import opened Ids
  import opened Graph
  import opened Domain

  datatype EvidenceClass = Untrusted | Trusted | Policy

  datatype Observation = Observation(
    scope: Scope,
    content: string,
    evidenceClass: EvidenceClass,
    goal: string,
    capturedAt: int)

  datatype Episode = Episode(
    namespace: Id,
    subject: Id,
    task: string,
    observations: seq<Id>,
    startedAt: int,
    endedAt: int)

  datatype Outcome = Outcome(episode: Id, source: Id, kind: string, value: real, evidence: string, observedAt: int)

  datatype SetState = SetActive | SetExpired | SetArchived

  datatype WorkingSet = WorkingSet(
    scope: Scope,
    task: Id,
    goal: string,
    globalRecall: bool,
    expiresAt: Option<int>,
    createdAt: int,
    updatedAt: int,
    state: SetState)

  datatype IndexRow = IndexRow(version: Id, memory: Id, namespace: Id, text: string)

  /** The full-text table: rows under row numbers, the next number unused. */
  datatype TextIndex = TextIndex(rows: map<nat, IndexRow>, next: nat)

  datatype EmbeddingKey = EmbeddingKey(version: Id, provider: string, model: string)

  /**
   * content stands for the stored digest of the embedded text. Coordinates are counted in
   * units of 2^-149, of which every finite float32 is a whole multiple.
   */
  datatype Embedding = Embedding(content: string, vector: seq<int>, createdAt: int)

  datatype ProposalAction = Create | Update | Consolidate | Archive | Forget

  datatype Operation = Operation(action: ProposalAction, actor: Id, target: Id, proposal: Id, occurredAt: int)

  datatype Receipt = Receipt(namespace: Id, target: Id, actor: Id, versionsDeleted: nat, purgedAt: int)

  datatype Db = Db(
    observations: map<Id, Observation>,
    episodes: map<Id, Episode>,
    outcomes: map<Id, Outcome>,
    workingSets: map<Id, WorkingSet>,
    memories: map<Id, Memory>,
    versions: map<Id, Version>,
    edges: set<Edge>,
    index: TextIndex,
    embeddings: map<EmbeddingKey, Embedding>,
    operations: map<Id, Operation>,
    receipts: map<Id, Receipt>)

  const EMPTY: Db :=
    Db(map[], map[], map[], map[], map[], map[], {}, TextIndex(map[], 0), map[], map[], map[])

  // ----- Constraints the schema itself enforces -----

  ghost predicate UniqueNumbers(versions: map<Id, Version>) {
    forall v, w | v in versions && w in versions ::
      versions[v].memory == versions[w].memory && versions[v].number == versions[w].number ==> v == w
  }

  ghost predicate UniqueTasks(sets: map<Id, WorkingSet>) {
    forall a, b | a in sets && b in sets ::
      sets[a].scope.namespace == sets[b].scope.namespace && sets[a].task == sets[b].task ==> a == b
  }

  ghost predicate ForeignKeys(db: Db) {
    && (forall v :: v in db.versions ==> db.versions[v].memory in db.memories)
    && (forall e :: e in db.edges ==> e.parent in db.versions && e.child in db.versions)
    && (forall k :: k in db.embeddings ==> k.version in db.versions)
    && (forall o :: o in db.outcomes ==> db.outcomes[o].episode in db.episodes)
  }

  /** Primary keys are map keys; what remains is foreign keys and the unique indexes. */
  ghost predicate Schema(db: Db) {
    && ForeignKeys(db)
    && UniqueNumbers(db.versions)
    && UniqueTasks(db.workingSets)
    && forall r :: r in db.index.rows ==> r < db.index.next
  }

  predicate IsHead(db: Db, memory: Id, version: Id) {
    && memory in db.memories
    && version in db.versions
    && db.versions[version].memory == memory
    && db.versions[version].number == db.memories[memory].currentVersion
  }

  /** The row that joins a memory with its current version. */
  ghost function Head(db: Db, memory: Id): Option<Id> {
    if exists v :: IsHead(db, memory, v) then
      var v :| IsHead(db, memory, v);
      Some(v)
    else
      None
  }

  lemma HeadUnique(db: Db, memory: Id, version: Id)
    requires UniqueNumbers(db.versions) && IsHead(db, memory, version)
    ensures Head(db, memory) == Some(version)
  {
  }

  class Store {
    var observations: map<Id, Observation>
    var episodes: map<Id, Episode>
    var outcomes: map<Id, Outcome>
    var workingSets: map<Id, WorkingSet>
    var memories: map<Id, Memory>
    var versions: map<Id, Version>
    var edges: set<Edge>
    var index: TextIndex
    var embeddings: map<EmbeddingKey, Embedding>
    var operations: map<Id, Operation>
    var receipts: map<Id, Receipt>

    constructor ()
      ensures Snapshot() == EMPTY && Valid()
    {
      observations, episodes, outcomes, workingSets := map[], map[], map[], map[];
      memories, versions, edges := map[], map[], {};
      index, embeddings := TextIndex(map[], 0), map[];
      operations, receipts := map[], map[];
    }

    /** The committed tables, as a transaction sees them when it begins. */
    function Snapshot(): Db
      reads this
    {
      Db(observations, episodes, outcomes, workingSets, memories, versions, edges, index, embeddings, operations, receipts)
    }

    ghost predicate Valid()
      reads this
    {
      Schema(Snapshot())
    }

    /** Makes a transaction's tables the committed ones. */
    method Commit(tx: Db)
      modifies this
      ensures Snapshot() == tx
    {
      observations, episodes, outcomes, workingSets := tx.observations, tx.episodes, tx.outcomes, tx.workingSets;
      memories, versions, edges := tx.memories, tx.versions, tx.edges;
      index, embeddings := tx.index, tx.embeddings;
      operations, receipts := tx.operations, tx.receipts;
    }
  }
}
