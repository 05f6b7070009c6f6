// When an import is accepted and what it stores, row by row, without the functions that
// insert the rows.
module ImportEffects {
  import opened Ids
  import opened Graph
  import opened Domain
  import opened Database
  import opened Lifecycle
  import opened Bundles
  import opened BundleDefects
  import opened Portable
  import opened PortableProofs
  import opened StoreEffects

  // ----- When it is accepted -----

  /** No two sets of the bundle are for one task of one namespace. */
  predicate TasksApart(b: Bundle) {
    forall r, q | r in b.workingSets && q in b.workingSets ::
      r.value.scope.namespace == q.value.scope.namespace && r.value.task == q.value.task ==> r.id == q.id
  }

  /** No version names a parent twice. */
  predicate ParentsOnce(b: Bundle) {
    forall r :: r in AllVersions(b.memories) ==> Distinct(r.value.derivedFrom)
  }

  lemma TasksUniqueIff(sets: map<Id, WorkingSet>, b: Bundle)
    requires UniqueTasks(sets) && Distinct(IdsOf(b.workingSets)) && Free(sets, b.workingSets)
    ensures UniqueTasks(sets + Table(b.workingSets)) <==>
      && TasksApart(b)
      && forall r, w :: r in b.workingSets && w in sets ==>
           sets[w].scope.namespace != r.value.scope.namespace || sets[w].task != r.value.task
  {
    var all := sets + Table(b.workingSets);
    InsertedRows(sets, b.workingSets);
    forall w | w in Table(b.workingSets) ensures Row(w, all[w]) in b.workingSets && w !in sets {
      var r := TableRow(b.workingSets, w);
    }
    if UniqueTasks(all) {
      forall r, q | r in b.workingSets && q in b.workingSets
                    && r.value.scope.namespace == q.value.scope.namespace && r.value.task == q.value.task
        ensures r.id == q.id
      {
        assert all[r.id] == r.value && all[q.id] == q.value;
      }
    }
  }

  /**
   * An import is accepted if and only if its bundle has no defect, meets no id and no task of
   * the store, has each task once, and no version names a parent twice.
   */
  lemma ImportAcceptedIff(db: Db, b: Bundle)
    requires UniqueTasks(db.workingSets)
    ensures Import(db, b).Success? <==> !Defective(b) && NoSharedKeys(db, b) && TasksApart(b) && ParentsOnce(b)
  {
    ValidIffNotDefective(b);
    if ValidBundle(b) && Free(db.workingSets, b.workingSets) {
      TasksUniqueIff(db.workingSets, b);
    }
  }

  // ----- What it stores -----

  /** Every row is in the table as it is, every old row is as it was, and there is nothing else. */
  ghost predicate Stores<T(!new)>(before: map<Id, T>, rows: seq<Row<T>>, after: map<Id, T>) {
    && (forall r :: r in rows ==> r.id in after && after[r.id] == r.value)
    && (forall x :: x in before ==> x in after && after[x] == before[x])
    && forall x :: x in after ==> x in before || x in IdsOf(rows)
  }

  lemma StoresRows<T(!new)>(before: map<Id, T>, rows: seq<Row<T>>)
    requires Distinct(IdsOf(rows)) && Free(before, rows)
    ensures Stores(before, rows, before + Table(rows))
  {
    InsertedRows(before, rows);
  }

  /** The rows of all six sections are stored. */
  ghost predicate StoresBundle(db: Db, b: Bundle, after: Db) {
    && Stores(db.observations, b.observations, after.observations)
    && Stores(db.workingSets, b.workingSets, after.workingSets)
    && Stores(db.episodes, EpisodeRows(b.episodes), after.episodes)
    && Stores(db.outcomes, AllOutcomes(b.episodes), after.outcomes)
    && Stores(db.memories, MemoryRows(b.memories), after.memories)
    && Stores(db.versions, AllVersions(b.memories), after.versions)
  }

  /** The edges are the old ones and one from each parent of an imported version to it. */
  ghost predicate LinksBundle(db: Db, b: Bundle, after: Db) {
    forall p, v :: Edge(p, v) in after.edges <==>
      Edge(p, v) in db.edges || exists r :: r in AllVersions(b.memories) && r.id == v && p in r.value.derivedFrom
  }

  /** The version is in the full-text table, under its own text. */
  predicate IndexedAs(index: TextIndex, m: PortableMemory, r: Row<Version>) {
    IndexRow(r.id, m.id, m.memory.scope.namespace, MemoryText(r.value.payload)) in index.rows.Values
  }

  /** The old index rows stay, and each imported version that is not forgotten is indexed under its text. */
  ghost predicate IndexesBundle(db: Db, b: Bundle, after: Db) {
    && (forall row :: row in db.index.rows ==> row in after.index.rows && after.index.rows[row] == db.index.rows[row])
    && forall m, r :: m in b.memories && r in m.versions && m.memory.state != MemoryForgotten && r.value.state != VersionForgotten ==>
         IndexedAs(after.index, m, r)
  }

  lemma BundleStored(db: Db, b: Bundle)
    requires ValidBundle(b) && KeysFree(db, b)
    ensures StoresBundle(db, b, Inserted(db, b))
  {
    StoresRows(db.observations, b.observations);
    StoresRows(db.workingSets, b.workingSets);
    StoresRows(db.episodes, EpisodeRows(b.episodes));
    StoresRows(db.outcomes, AllOutcomes(b.episodes));
    StoresRows(db.memories, MemoryRows(b.memories));
    StoresRows(db.versions, AllVersions(b.memories));
  }

  lemma BundleLinked(db: Db, b: Bundle)
    ensures LinksBundle(db, b, Inserted(db, b))
  {
    var rows := AllVersions(b.memories);
    forall p, v ensures Edge(p, v) in VersionEdges(rows) <==> exists r :: r in rows && r.id == v && p in r.value.derivedFrom {
      if Edge(p, v) in VersionEdges(rows) {
        var r, q :| r in rows && q in r.value.derivedFrom && Edge(p, v) == Edge(q, r.id);
      }
    }
  }

  lemma BundleIndexed(db: Db, b: Bundle)
    requires Schema(db) && MemoriesValid(b)
    ensures IndexesBundle(db, b, Inserted(db, b))
  {
    var rows, after := BundleIndexRows(b.memories), Inserted(db, b);
    AddRowsAre(db.index, rows);
    forall m, r | m in b.memories && r in m.versions && m.memory.state != MemoryForgotten && r.value.state != VersionForgotten
      ensures IndexedAs(after.index, m, r)
    {
      SearchableHasBundleRow(b, m, r);
      var i :| 0 <= i < |rows| && rows[i] == RowFor(m, r);
      assert after.index.rows[db.index.next + i] == RowFor(m, r);
    }
  }

  /**
   * An accepted import stores every row of the bundle as it is, an edge for each derivation and
   * an index row for each version that is not forgotten, and leaves all other rows as they were.
   */
  lemma ImportStores(db: Db, b: Bundle)
    requires Schema(db) && Import(db, b).Success?
    ensures var after := Import(db, b).value;
      && StoresBundle(db, b, after) && LinksBundle(db, b, after) && IndexesBundle(db, b, after)
      && after.embeddings == db.embeddings && after.operations == db.operations && after.receipts == db.receipts
  {
    BundleStored(db, b);
    BundleLinked(db, b);
    BundleIndexed(db, b);
  }
}
