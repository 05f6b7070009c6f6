// Import keeps the derivation graph sound, and exporting what was imported gives the
// bundle back.
module PortableProofs {
  import opened Ordering
  import opened Ids
  import opened Graph
  import opened Domain
  import opened Database
  import opened Lifecycle
  import opened CycleCheck
  import opened Bundles
  import opened Canonical
  import opened Portable
  import opened Embeddings
  import opened GraphInvariant
  import opened IndexInvariant

  // ----- Rows of a bundle seen through the tables they fill -----

  lemma {:induction false} DependencyLookup(rows: seq<Row<Version>>, r: Row<Version>)
    requires Distinct(IdsOf(rows)) && r in rows
    ensures r.id in DependencyMap(rows) && DependencyMap(rows)[r.id] == r.value.derivedFrom
  {
    var front, last := rows[..|rows| - 1], rows[|rows| - 1];
    assert rows == front + [last];
    assert IdsOf(rows) == IdsOf(front) + [last.id];
    DistinctOneMore(IdsOf(front), last.id);
    if r in front {
      DependencyLookup(front, r);
      var k :| 0 <= k < |front| && front[k] == r;
      assert IdsOf(front)[k] == r.id;
    }
  }

  lemma {:induction false} DependencyRow(rows: seq<Row<Version>>, id: Id) returns (r: Row<Version>)
    requires id in DependencyMap(rows)
    ensures r in rows && r.id == id && DependencyMap(rows)[id] == r.value.derivedFrom
  {
    r := rows[|rows| - 1];
    if r.id != id {
      r := DependencyRow(rows[..|rows| - 1], id);
    }
  }

  /** The edges an import inserts are the ones the cycle check looked at. */
  lemma EdgesChecked(rows: seq<Row<Version>>)
    requires Distinct(IdsOf(rows))
    ensures VersionEdges(rows) == DependencyEdges(DependencyMap(rows))
  {
    var deps := DependencyMap(rows);
    forall e | e in VersionEdges(rows) ensures e in DependencyEdges(deps) {
      var r, p :| r in rows && p in r.value.derivedFrom && e == Edge(p, r.id);
      DependencyLookup(rows, r);
      var i :| 0 <= i < |r.value.derivedFrom| && r.value.derivedFrom[i] == p;
      assert deps[r.id][i] == p;
    }
    forall e | e in DependencyEdges(deps) ensures e in VersionEdges(rows) {
      var c, i :| c in deps && 0 <= i < |deps[c]| && e == Edge(deps[c][i], c);
      var r := DependencyRow(rows, c);
      assert r.value.derivedFrom[i] in r.value.derivedFrom;
    }
  }

  lemma {:induction false} OwnerFound(memories: seq<PortableMemory>, id: Id) returns (m: PortableMemory, r: Row<Version>)
    requires id in OwnerMap(memories)
    ensures m in memories && r in m.versions && r.id == id && OwnerMap(memories)[id] == Row(m.id, m.memory)
  {
    m := memories[|memories| - 1];
    if id in IdsOf(m.versions) {
      var k :| 0 <= k < |m.versions| && IdsOf(m.versions)[k] == id;
      r := m.versions[k];
    } else {
      m, r := OwnerFound(memories[..|memories| - 1], id);
    }
  }

  lemma MemoryLookup(b: Bundle, m: PortableMemory)
    requires MemoriesValid(b) && m in b.memories
    ensures m.id in Table(MemoryRows(b.memories)) && Table(MemoryRows(b.memories))[m.id] == m.memory
  {
    var k :| 0 <= k < |b.memories| && b.memories[k] == m;
    var row := MemoryRows(b.memories)[k];
    TableLookup(MemoryRows(b.memories), row);
  }

  lemma VersionLookup(b: Bundle, m: PortableMemory, r: Row<Version>)
    requires MemoriesValid(b) && m in b.memories && r in m.versions
    ensures r.id in Table(AllVersions(b.memories)) && Table(AllVersions(b.memories))[r.id] == r.value
    ensures r.value.memory == m.id
  {
    assert MemoryValid(b, m) && VersionValid(m, r);
    assert r in AllVersions(b.memories);
    TableLookup(AllVersions(b.memories), r);
  }

  lemma VersionOwner(b: Bundle, id: Id) returns (m: PortableMemory, r: Row<Version>)
    requires MemoriesValid(b) && id in Table(AllVersions(b.memories))
    ensures m in b.memories && r in m.versions && r.id == id && r.value == Table(AllVersions(b.memories))[id]
    ensures r.value.memory == m.id
  {
    r := TableRow(AllVersions(b.memories), id);
    m :| m in b.memories && r in m.versions;
    VersionLookup(b, m, r);
  }

  // ----- The imported graph -----

  lemma ImportedFlows(b: Bundle)
    requires ValidBundle(b)
    ensures Owned(Table(MemoryRows(b.memories)), Table(AllVersions(b.memories)))
    ensures FlowsHold(Table(MemoryRows(b.memories)), Table(AllVersions(b.memories)), VersionEdges(AllVersions(b.memories)))
  {
    var memories, versions := Table(MemoryRows(b.memories)), Table(AllVersions(b.memories));
    forall v | v in versions ensures versions[v].memory in memories {
      var m, r := VersionOwner(b, v);
      MemoryLookup(b, m);
    }
    forall e | e in VersionEdges(AllVersions(b.memories))
      ensures && e.parent in versions && e.child in versions
              && e.parent in versions[e.child].derivedFrom
              && FlowAllowed(memories[versions[e.parent].memory].scope, memories[versions[e.child].memory].scope)
    {
      var r, p :| r in AllVersions(b.memories) && p in r.value.derivedFrom && e == Edge(p, r.id);
      var m :| m in b.memories && r in m.versions;
      VersionLookup(b, m, r);
      MemoryLookup(b, m);
      assert ReferencesValid(b, m, r.value);
      var owner, row := OwnerFound(b.memories, p);
      VersionLookup(b, owner, row);
      MemoryLookup(b, owner);
    }
  }

  /** An accepted import keeps the whole graph acyclic, within existing versions, and within the flow rule. */
  lemma GraphImport(db: Db, b: Bundle)
    requires GraphOk(db)
    ensures var r := Import(db, b); r.Success? ==> GraphOk(r.value)
  {
    if ValidBundle(b) && KeysFree(db, b) {
      var rows := AllVersions(b.memories);
      ImportedFlows(b);
      EdgesChecked(rows);
      FreeKeys(db.memories, MemoryRows(b.memories));
      FreeKeys(db.versions, rows);
      GraphJoin(db.memories, db.versions, db.edges, Table(MemoryRows(b.memories)), Table(rows), VersionEdges(rows));
    }
  }

  lemma FreeKeys<T>(table: map<Id, T>, rows: seq<Row<T>>)
    requires Free(table, rows)
    ensures table.Keys !! Table(rows).Keys
  {
    forall id | id in Table(rows) ensures id !in table {
      var r := TableRow(rows, id);
    }
  }

  // ----- The imported tables satisfy the schema -----

  lemma {:induction false} AddRowsNumbered(index: TextIndex, rows: seq<IndexRow>)
    requires forall r :: r in index.rows ==> r < index.next
    ensures forall r :: r in AddRows(index, rows).rows ==> r < AddRows(index, rows).next
    decreases |rows|
  {
    if rows != [] {
      AddRowsNumbered(index, rows[..|rows| - 1]);
    }
  }

  lemma BundleNumbersUnique(b: Bundle)
    requires MemoriesValid(b)
    ensures UniqueNumbers(Table(AllVersions(b.memories)))
  {
    var added := Table(AllVersions(b.memories));
    forall v, w | v in added && w in added && added[v].memory == added[w].memory && added[v].number == added[w].number
      ensures v == w
    {
      var m, r := VersionOwner(b, v);
      var n, q := VersionOwner(b, w);
      MemoryById(b, m, n);
      assert MemoryValid(b, m);
      var i :| 0 <= i < |m.versions| && m.versions[i] == r;
      var j :| 0 <= j < |m.versions| && m.versions[j] == q;
      assert i == j;
    }
  }

  lemma UniqueNumbersJoin(x: map<Id, Version>, y: map<Id, Version>)
    requires UniqueNumbers(x) && UniqueNumbers(y)
    requires forall v, w :: v in x && w in y ==> x[v].memory != y[w].memory
    ensures UniqueNumbers(x + y)
  {
  }

  lemma ImportedNumbersUnique(db: Db, b: Bundle)
    requires ForeignKeys(db) && UniqueNumbers(db.versions) && ValidBundle(b) && Free(db.memories, MemoryRows(b.memories))
    ensures UniqueNumbers(db.versions + Table(AllVersions(b.memories)))
  {
    var added := Table(AllVersions(b.memories));
    BundleNumbersUnique(b);
    ImportedFlows(b);
    FreeKeys(db.memories, MemoryRows(b.memories));
    UniqueNumbersJoin(db.versions, added);
  }

  lemma MemoryById(b: Bundle, m: PortableMemory, n: PortableMemory)
    requires MemoriesValid(b) && m in b.memories && n in b.memories && m.id == n.id
    ensures m == n
  {
    var i :| 0 <= i < |b.memories| && b.memories[i] == m;
    var j :| 0 <= j < |b.memories| && b.memories[j] == n;
    assert IdsOf(MemoryRows(b.memories))[i] == IdsOf(MemoryRows(b.memories))[j];
  }

  /** The foreign-key check that follows an import finds nothing, and no unique index is broken. */
  lemma SchemaImport(db: Db, b: Bundle)
    requires Schema(db)
    ensures var r := Import(db, b); r.Success? ==> Schema(r.value)
  {
    if ValidBundle(b) && KeysFree(db, b) {
      var after := Inserted(db, b);
      var rows := AllVersions(b.memories);
      ImportedFlows(b);
      ImportedNumbersUnique(db, b);
      AddRowsNumbered(db.index, BundleIndexRows(b.memories));
      FreeKeys(db.versions, rows);
      FreeKeys(db.outcomes, AllOutcomes(b.episodes));
      FreeKeys(db.episodes, EpisodeRows(b.episodes));
      forall o | o in after.outcomes ensures after.outcomes[o].episode in after.episodes {
        if o in Table(AllOutcomes(b.episodes)) {
          var r := TableRow(AllOutcomes(b.episodes), o);
          var e :| e in b.episodes && r in e.outcomes;
          assert EpisodeValid(b, e);
          EpisodeLookup(b, e);
        }
      }
      forall v | v in after.versions ensures after.versions[v].memory in after.memories {
        if v in Table(rows) {
          assert Table(rows)[v].memory in Table(MemoryRows(b.memories));
        }
      }
    }
  }

  lemma EpisodeLookup(b: Bundle, e: PortableEpisode)
    requires EpisodesValid(b) && e in b.episodes
    ensures e.id in Table(EpisodeRows(b.episodes)) && Table(EpisodeRows(b.episodes))[e.id] == e.episode
  {
    var k :| 0 <= k < |b.episodes| && b.episodes[k] == e;
    TableLookup(EpisodeRows(b.episodes), EpisodeRows(b.episodes)[k]);
  }

  // ----- The imported index -----

  predicate VersionsDistinct(rows: seq<IndexRow>) {
    forall i, j :: 0 <= i < j < |rows| ==> rows[i].version != rows[j].version
  }

  lemma {:induction false} VersionIndexRowsAre(m: PortableMemory, rows: seq<Row<Version>>)
    requires Distinct(IdsOf(rows))
    ensures forall x :: x in VersionIndexRows(m, rows) <==> exists r :: r in rows && Indexable(m, r) && x == RowFor(m, r)
    ensures VersionsDistinct(VersionIndexRows(m, rows))
  {
    if rows != [] {
      var front, last := rows[..|rows| - 1], rows[|rows| - 1];
      assert rows == front + [last];
      assert IdsOf(rows) == IdsOf(front) + [last.id];
      DistinctOneMore(IdsOf(front), last.id);
      VersionIndexRowsAre(m, front);
      forall x | x in VersionIndexRows(m, front) ensures x.version != last.id {
        var r :| r in front && x == RowFor(m, r);
        var k :| 0 <= k < |front| && front[k] == r;
        assert IdsOf(front)[k] == r.id;
      }
    }
  }

  /** The index rows of a bundle: one for each version of it that is not forgotten. */
  ghost predicate RowOfBundle(memories: seq<PortableMemory>, x: IndexRow) {
    exists m, r :: m in memories && r in m.versions && Indexable(m, r) && x == RowFor(m, r)
  }

  lemma DistinctParts(a: seq<Id>, b: seq<Id>)
    requires Distinct(a + b)
    ensures Distinct(a) && Distinct(b) && forall x :: x in a ==> x !in b
  {
    forall i, j | 0 <= i < j < |a| ensures a[i] != a[j] {
      assert (a + b)[i] != (a + b)[j];
    }
    forall i, j | 0 <= i < j < |b| ensures b[i] != b[j] {
      assert (a + b)[|a| + i] != (a + b)[|a| + j];
    }
    forall i, j | 0 <= i < |a| && 0 <= j < |b| ensures a[i] != b[j] {
      assert (a + b)[i] != (a + b)[|a| + j];
    }
  }

  lemma {:induction false} BundleIndexRowsAre(memories: seq<PortableMemory>)
    requires Distinct(IdsOf(AllVersions(memories)))
    ensures forall x :: x in BundleIndexRows(memories) <==> RowOfBundle(memories, x)
    ensures forall x :: x in BundleIndexRows(memories) ==> x.version in IdsOf(AllVersions(memories))
    ensures VersionsDistinct(BundleIndexRows(memories))
  {
    if memories != [] {
      var front, last := memories[..|memories| - 1], memories[|memories| - 1];
      assert memories == front + [last];
      assert IdsOf(AllVersions(memories)) == IdsOf(AllVersions(front)) + IdsOf(last.versions);
      DistinctParts(IdsOf(AllVersions(front)), IdsOf(last.versions));
      BundleIndexRowsAre(front);
      VersionIndexRowsAre(last, last.versions);
      forall x | x in VersionIndexRows(last, last.versions) ensures x.version in IdsOf(last.versions) {
        var r :| r in last.versions && x == RowFor(last, r);
        var k :| 0 <= k < |last.versions| && last.versions[k] == r;
        assert IdsOf(last.versions)[k] == r.id;
      }
      forall x ensures RowOfBundle(memories, x) <==> RowOfBundle(front, x) || x in VersionIndexRows(last, last.versions) {
      }
    }
  }

  /** Added rows take the next numbers, in order, and leave the old rows alone. */
  lemma {:induction false} AddRowsAre(index: TextIndex, rows: seq<IndexRow>)
    requires forall r :: r in index.rows ==> r < index.next
    ensures var after := AddRows(index, rows);
      && after.next == index.next + |rows|
      && (forall r :: r in after.rows <==> r in index.rows || index.next <= r < index.next + |rows|)
      && (forall r :: r in index.rows ==> after.rows[r] == index.rows[r])
      && forall i :: 0 <= i < |rows| ==> after.rows[index.next + i] == rows[i]
    decreases |rows|
  {
    if rows != [] {
      AddRowsAre(index, rows[..|rows| - 1]);
    }
  }

  /** Every imported index row holds the text of an imported version of a memory that is not forgotten. */
  lemma ImportedRowMatches(db: Db, b: Bundle, row: IndexRow)
    requires ValidBundle(b) && KeysFree(db, b) && row in BundleIndexRows(b.memories)
    ensures RowMatches(Inserted(db, b).memories, Inserted(db, b).versions, row)
    ensures row.version !in db.versions
  {
    BundleIndexRowsAre(b.memories);
    var m, r :| m in b.memories && r in m.versions && Indexable(m, r) && row == RowFor(m, r);
    VersionLookup(b, m, r);
    MemoryLookup(b, m);
    assert r in AllVersions(b.memories);
  }

  lemma ImportedRowsMatch(db: Db, b: Bundle)
    requires RowsMatch(db.memories, db.versions, db.index) && ValidBundle(b) && KeysFree(db, b)
    ensures RowsMatch(Inserted(db, b).memories, Inserted(db, b).versions, Inserted(db, b).index)
  {
    var rows, after := BundleIndexRows(b.memories), Inserted(db, b);
    AddRowsAre(db.index, rows);
    FreeKeys(db.memories, MemoryRows(b.memories));
    FreeKeys(db.versions, AllVersions(b.memories));
    forall r | r in after.index.rows ensures r < after.index.next && RowMatches(after.memories, after.versions, after.index.rows[r]) {
      if r in db.index.rows {
        assert RowMatches(db.memories, db.versions, db.index.rows[r]);
      } else {
        assert rows[r - db.index.next] in rows;
        ImportedRowMatches(db, b, rows[r - db.index.next]);
      }
    }
  }

  /** Rows with new, distinct versions keep the rows of an index unique. */
  lemma AddRowsUnique(index: TextIndex, rows: seq<IndexRow>)
    requires RowsUnique(index) && VersionsDistinct(rows)
    requires forall r :: r in index.rows ==> r < index.next
    requires forall r, x :: r in index.rows && x in rows ==> index.rows[r].version != x.version
    ensures RowsUnique(AddRows(index, rows))
  {
    var after := AddRows(index, rows);
    AddRowsAre(index, rows);
    forall r | r in after.rows && r !in index.rows ensures after.rows[r] == rows[r - index.next] && after.rows[r] in rows {
      assert after.rows[index.next + (r - index.next)] == rows[r - index.next];
    }
  }

  lemma ImportedRowsUnique(db: Db, b: Bundle)
    requires RowsMatch(db.memories, db.versions, db.index) && RowsUnique(db.index) && ValidBundle(b) && KeysFree(db, b)
    ensures RowsUnique(Inserted(db, b).index)
  {
    var rows := BundleIndexRows(b.memories);
    BundleIndexRowsAre(b.memories);
    forall r, x | r in db.index.rows && x in rows ensures db.index.rows[r].version != x.version {
      assert RowMatches(db.memories, db.versions, db.index.rows[r]);
      ImportedRowMatches(db, b, x);
    }
    AddRowsUnique(db.index, rows);
  }

  lemma AddedRowIndexes(index: TextIndex, rows: seq<IndexRow>, x: IndexRow)
    requires (forall r :: r in index.rows ==> r < index.next) && x in rows
    ensures Indexed(AddRows(index, rows), x.version)
  {
    AddRowsAre(index, rows);
    var i :| 0 <= i < |rows| && rows[i] == x;
    assert RowOf(AddRows(index, rows), x.version, index.next + i);
  }

  lemma SearchableHasBundleRow(b: Bundle, m: PortableMemory, r: Row<Version>)
    requires MemoriesValid(b) && m in b.memories && r in m.versions && Indexable(m, r)
    ensures RowFor(m, r) in BundleIndexRows(b.memories)
  {
    BundleIndexRowsAre(b.memories);
    assert RowOfBundle(b.memories, RowFor(m, r));
  }

  lemma ImportedIndexed(db: Db, b: Bundle, v: Id)
    requires RowsMatch(db.memories, db.versions, db.index) && ValidBundle(b)
    requires v in Table(AllVersions(b.memories))
    requires Searchable(db.memories + Table(MemoryRows(b.memories)), Table(AllVersions(b.memories))[v])
    ensures Indexed(AddRows(db.index, BundleIndexRows(b.memories)), v)
  {
    var m, r := VersionOwner(b, v);
    MemoryLookup(b, m);
    SearchableHasBundleRow(b, m, r);
    AddedRowIndexes(db.index, BundleIndexRows(b.memories), RowFor(m, r));
  }

  lemma OldIndexed(db: Db, b: Bundle, v: Id, row: nat)
    requires (forall r :: r in db.index.rows ==> r < db.index.next) && RowOf(db.index, v, row)
    ensures RowOf(Inserted(db, b).index, v, row) && Inserted(db, b).index.rows[row] == db.index.rows[row]
  {
    AddRowsAre(db.index, BundleIndexRows(b.memories));
  }

  lemma ImportedActiveIndexed(db: Db, b: Bundle)
    requires IndexOk(db) && GraphOk(db) && ValidBundle(b) && KeysFree(db, b)
    ensures ActiveIndexed(Inserted(db, b).memories, Inserted(db, b).versions, Inserted(db, b).index)
  {
    var after := Inserted(db, b);
    FreeKeys(db.memories, MemoryRows(b.memories));
    forall v | v in after.versions && Searchable(after.memories, after.versions[v]) ensures Indexed(after.index, v) {
      if v in Table(AllVersions(b.memories)) {
        ImportedIndexed(db, b, v);
      } else {
        var row :| RowOf(db.index, v, row);
        OldIndexed(db, b, v, row);
      }
    }
  }

  lemma ImportedEmbeddingsIndexed(db: Db, b: Bundle)
    requires IndexOk(db)
    ensures EmbeddingsIndexed(Inserted(db, b).index, db.embeddings)
  {
    var after := Inserted(db, b);
    forall k | k in db.embeddings
      ensures exists row :: RowOf(after.index, k.version, row) && after.index.rows[row].text == db.embeddings[k].content
    {
      var row :| RowOf(db.index, k.version, row) && db.index.rows[row].text == db.embeddings[k].content;
      OldIndexed(db, b, k.version, row);
    }
  }

  /** An import keeps both indexes in agreement with the versions. */
  lemma IndexImport(db: Db, b: Bundle)
    requires IndexOk(db) && GraphOk(db)
    ensures var r := Import(db, b); r.Success? ==> IndexOk(r.value)
  {
    if ValidBundle(b) && KeysFree(db, b) {
      ImportedRowsMatch(db, b);
      ImportedRowsUnique(db, b);
      ImportedActiveIndexed(db, b);
      ImportedEmbeddingsIndexed(db, b);
    }
  }

  // ----- Export, import, export -----

  ghost predicate DerivedOnce(versions: map<Id, Version>) {
    forall v :: v in versions ==> Distinct(versions[v].derivedFrom)
  }

  /** The target has no row of this namespace and subject. */
  ghost predicate Untouched(db: Db, namespace: Id, subject: Id) {
    && (forall o :: o in db.observations ==>
         db.observations[o].scope.namespace != namespace || db.observations[o].scope.subject != subject)
    && (forall w :: w in db.workingSets ==>
         db.workingSets[w].scope.namespace != namespace || db.workingSets[w].scope.subject != subject)
    && (forall m :: m in db.memories ==>
         db.memories[m].scope.namespace != namespace || db.memories[m].scope.subject != subject)
  }

  /** The target shares no id with the bundle, and no task within a namespace. */
  ghost predicate NoSharedKeys(db: Db, b: Bundle) {
    && Free(db.observations, b.observations)
    && Free(db.workingSets, b.workingSets)
    && (forall r, w :: r in b.workingSets && w in db.workingSets ==>
         db.workingSets[w].scope.namespace != r.value.scope.namespace || db.workingSets[w].task != r.value.task)
    && Free(db.episodes, EpisodeRows(b.episodes))
    && Free(db.outcomes, AllOutcomes(b.episodes))
    && Free(db.memories, MemoryRows(b.memories))
    && Free(db.versions, AllVersions(b.memories))
  }

  /** A validated export is insertable wherever no key of it is taken. */
  lemma ExportInsertable(db: Db, a: Access, subject: Id, at: int, b: Bundle, target: Db)
    requires Schema(db) && DerivedOnce(db.versions) && Schema(target)
    requires IsExport(db, a, subject, at, b) && ValidBundle(b) && NoSharedKeys(target, b)
    ensures KeysFree(target, b)
  {
    forall r | r in AllVersions(b.memories) ensures Distinct(r.value.derivedFrom) {
      var m :| m in b.memories && r in m.versions;
      assert r in VersionRows(db.versions, m.id);
    }
    var added := Table(b.workingSets);
    var all := target.workingSets + added;
    forall x, y | x in all && y in all && all[x].scope.namespace == all[y].scope.namespace && all[x].task == all[y].task
      ensures x == y
    {
      if x in added {
        var r := TableRow(b.workingSets, x);
        if y in added {
          var q := TableRow(b.workingSets, y);
          assert db.workingSets[x] == r.value && db.workingSets[y] == q.value;
        }
      } else if y in added {
        var q := TableRow(b.workingSets, y);
      }
    }
  }

  /** In scope of the bundle and visible to its access are the same thing. */
  lemma ScopesAgree(a: Access, subject: Id, at: int, b: Bundle, s: Scope)
    requires HeaderOf(a, subject, at, b)
    ensures InScope(b, s) <==> Visible(a, subject, s)
  {
  }

  lemma RowsReturn<T(!new)>(table: map<Id, T>, rows: seq<Row<T>>, ids: set<Id>)
    requires Distinct(IdsOf(rows)) && SortedBy(Less, IdsOf(rows))
    requires ids == Table(rows).Keys
    ensures RowsListed(rows, table + Table(rows), ids)
  {
    forall r | r in rows ensures (table + Table(rows))[r.id] == r.value {
      TableLookup(rows, r);
    }
  }

  lemma ObservationsReturn(a: Access, subject: Id, at: int, b: Bundle, table: map<Id, Observation>)
    requires HeaderOf(a, subject, at, b) && ObservationsValid(b) && SortedBy(Less, IdsOf(b.observations))
    requires Free(table, b.observations)
    requires forall o :: o in table ==> !Visible(a, subject, table[o].scope)
    ensures var after := table + Table(b.observations);
      RowsListed(b.observations, after, VisibleObservations(after, a, subject))
  {
    var after := table + Table(b.observations);
    forall o | o in Table(b.observations) ensures o in VisibleObservations(after, a, subject) {
      var r := TableRow(b.observations, o);
      ScopesAgree(a, subject, at, b, r.value.scope);
    }
    RowsReturn(table, b.observations, VisibleObservations(after, a, subject));
  }

  lemma SetsReturn(a: Access, subject: Id, at: int, b: Bundle, table: map<Id, WorkingSet>)
    requires HeaderOf(a, subject, at, b) && SetsValid(b) && SortedBy(Less, IdsOf(b.workingSets))
    requires Free(table, b.workingSets)
    requires forall w :: w in table ==> !Visible(a, subject, table[w].scope)
    ensures var after := table + Table(b.workingSets);
      RowsListed(b.workingSets, after, VisibleSets(after, a, subject))
  {
    var after := table + Table(b.workingSets);
    forall w | w in Table(b.workingSets) ensures w in VisibleSets(after, a, subject) {
      var r := TableRow(b.workingSets, w);
      ScopesAgree(a, subject, at, b, r.value.scope);
    }
    RowsReturn(table, b.workingSets, VisibleSets(after, a, subject));
  }

  /** After the import a memory of the bundle has exactly the versions the bundle gave it. */
  lemma VersionsReturn(b: Bundle, versions: map<Id, Version>, m: PortableMemory)
    requires MemoriesValid(b) && m in b.memories
    requires forall v :: v in versions ==> versions[v].memory != m.id
    ensures VersionRows(versions + Table(AllVersions(b.memories)), m.id) == set r | r in m.versions
  {
    var added := Table(AllVersions(b.memories));
    var after := versions + added;
    forall r | r in m.versions ensures r in VersionRows(after, m.id) {
      VersionLookup(b, m, r);
      assert after[r.id] == r.value;
    }
    forall r | r in VersionRows(after, m.id) ensures r in m.versions {
      assert r.id in added;
      var n, q := VersionOwner(b, r.id);
      MemoryById(b, m, n);
    }
  }

  lemma MemoryReturns(a: Access, subject: Id, at: int, b: Bundle, table: map<Id, Memory>, versions: map<Id, Version>, m: PortableMemory)
    requires HeaderOf(a, subject, at, b) && MemoriesValid(b) && m in b.memories
    requires SortedBy(VersionBefore, m.versions)
    requires forall v :: v in versions ==> versions[v].memory != m.id
    ensures MemoryListed(table + Table(MemoryRows(b.memories)), m)
    ensures ListsBy(VersionBefore, m.versions, VersionRows(versions + Table(AllVersions(b.memories)), m.id))
    ensures m.id in VisibleMemories(table + Table(MemoryRows(b.memories)), versions + Table(AllVersions(b.memories)), a, subject)
  {
    MemoryLookup(b, m);
    VersionsReturn(b, versions, m);
    assert MemoryValid(b, m);
    ScopesAgree(a, subject, at, b, m.memory.scope);
    assert m.versions[0] in VersionRows(versions + Table(AllVersions(b.memories)), m.id);
  }

  lemma MemoriesReturn(a: Access, subject: Id, at: int, b: Bundle, table: map<Id, Memory>, versions: map<Id, Version>)
    requires HeaderOf(a, subject, at, b) && MemoriesValid(b)
    requires SortedBy(Less, IdsOf(MemoryRows(b.memories)))
    requires forall m :: m in b.memories ==> SortedBy(VersionBefore, m.versions)
    requires forall v :: v in versions ==> versions[v].memory in table
    requires Free(table, MemoryRows(b.memories))
    requires forall m :: m in table ==> !Visible(a, subject, table[m].scope)
    ensures var memories, all := table + Table(MemoryRows(b.memories)), versions + Table(AllVersions(b.memories));
      MemoriesListed(memories, all, VisibleMemories(memories, all, a, subject), b.memories)
  {
    var memories, all := table + Table(MemoryRows(b.memories)), versions + Table(AllVersions(b.memories));
    FreeKeys(table, MemoryRows(b.memories));
    forall m | m in b.memories
      ensures MemoryListed(memories, m) && ListsBy(VersionBefore, m.versions, VersionRows(all, m.id))
      ensures m.id in VisibleMemories(memories, all, a, subject)
    {
      MemoryLookup(b, m);
      MemoryReturns(a, subject, at, b, table, versions, m);
    }
    MemoryIdsReturn(a, subject, b, table, all);
  }

  lemma MemoryIdsReturn(a: Access, subject: Id, b: Bundle, table: map<Id, Memory>, all: map<Id, Version>)
    requires forall m :: m in table ==> !Visible(a, subject, table[m].scope)
    requires forall m :: m in b.memories ==>
      m.id in VisibleMemories(table + Table(MemoryRows(b.memories)), all, a, subject)
    ensures VisibleMemories(table + Table(MemoryRows(b.memories)), all, a, subject) == Elements(IdsOf(MemoryRows(b.memories)))
  {
    var rows := MemoryRows(b.memories);
    forall x | x in Table(rows) ensures x in VisibleMemories(table + Table(rows), all, a, subject) {
      var r := TableRow(rows, x);
      var k :| 0 <= k < |b.memories| && rows[k] == r;
      assert b.memories[k] in b.memories;
    }
  }

  lemma EpisodeReturns(b: Bundle, episodes: map<Id, Episode>, outcomes: map<Id, Outcome>,
                       table: map<Id, Episode>, outcomeTable: map<Id, Outcome>, e: PortableEpisode)
    requires EpisodeListed(episodes, outcomes, b.memories, e) && EpisodesValid(b) && e in b.episodes
    ensures EpisodeListed(table + Table(EpisodeRows(b.episodes)), outcomeTable + Table(AllOutcomes(b.episodes)), b.memories, e)
  {
    EpisodeLookup(b, e);
    forall r | r in e.outcomes
      ensures r.id in Table(AllOutcomes(b.episodes)) && Table(AllOutcomes(b.episodes))[r.id] == r.value
    {
      assert r in AllOutcomes(b.episodes);
      TableLookup(AllOutcomes(b.episodes), r);
    }
  }

  lemma EpisodesReturn(b: Bundle, episodes: map<Id, Episode>, outcomes: map<Id, Outcome>,
                       table: map<Id, Episode>, outcomeTable: map<Id, Outcome>)
    requires EpisodesListed(episodes, outcomes, b.memories, b.episodes) && EpisodesValid(b)
    ensures EpisodesListed(table + Table(EpisodeRows(b.episodes)), outcomeTable + Table(AllOutcomes(b.episodes)), b.memories, b.episodes)
  {
    forall e | e in b.episodes
      ensures EpisodeListed(table + Table(EpisodeRows(b.episodes)), outcomeTable + Table(AllOutcomes(b.episodes)), b.memories, e)
    {
      EpisodeReturns(b, episodes, outcomes, table, outcomeTable, e);
    }
  }

  // ----- An export is already in sorted form -----

  lemma StrictlySorted(ids: seq<Id>)
    requires SortedBy(Less, ids)
    ensures Distinct(ids) && Ordered(Less, ids)
  {
    forall i, j | 0 <= i < j < |ids| ensures ids[i] != ids[j] && !Less(ids[j], ids[i]) {
      LessOrder(ids[i], ids[j]);
    }
  }

  lemma RowsSelfSorted<T>(rows: seq<Row<T>>)
    requires SortedBy(Less, IdsOf(rows))
    ensures SortOf(RowLess<T>, rows, rows) && Distinct(IdsOf(rows))
  {
    StrictlySorted(IdsOf(rows));
    forall i, j | 0 <= i < j < |rows| ensures !RowLess(rows[j], rows[i]) {
      assert !Less(IdsOf(rows)[j], IdsOf(rows)[i]);
    }
  }

  lemma VersionsSelfSorted(rows: seq<Row<Version>>, versions: map<Id, Version>, memory: Id)
    requires ListsBy(VersionBefore, rows, VersionRows(versions, memory))
    ensures SortOf(VersionBefore, rows, rows) && Distinct(IdsOf(rows))
  {
    forall i, j | 0 <= i < j < |rows| ensures rows[i].id != rows[j].id && !VersionBefore(rows[j], rows[i]) {
      assert VersionBefore(rows[i], rows[j]);
      LessOrder(rows[i].id, rows[j].id);
      assert rows[i] in rows && rows[j] in rows;
    }
  }

  lemma EpisodesSelfSorted(episodes: seq<PortableEpisode>)
    requires SortedBy(Less, IdsOf(EpisodeRows(episodes)))
    requires forall e :: e in episodes ==> SortedBy(Less, IdsOf(e.outcomes))
    ensures EpisodesSorted(episodes, episodes)
    ensures Distinct(IdsOf(EpisodeRows(episodes))) && forall e :: e in episodes ==> Distinct(IdsOf(e.outcomes))
  {
    RowsSelfSorted(EpisodeRows(episodes));
    forall e | e in episodes ensures EpisodeSorted(e, e) && Distinct(IdsOf(e.outcomes)) {
      RowsSelfSorted(e.outcomes);
    }
    forall i, j | 0 <= i < j < |episodes| ensures !EpisodeLess(episodes[j], episodes[i]) {
      assert !RowLess(EpisodeRows(episodes)[j], EpisodeRows(episodes)[i]);
    }
    assert SortOf(EpisodeLess, episodes, episodes);
  }

  lemma MemoriesSelfSorted(table: map<Id, Memory>, versions: map<Id, Version>, ids: set<Id>, memories: seq<PortableMemory>)
    requires MemoriesListed(table, versions, ids, memories)
    ensures MemoriesSorted(memories, memories)
    ensures Distinct(IdsOf(MemoryRows(memories))) && forall m :: m in memories ==> Distinct(IdsOf(m.versions))
  {
    RowsSelfSorted(MemoryRows(memories));
    forall m | m in memories ensures MemorySorted(m, m) && Distinct(IdsOf(m.versions)) {
      VersionsSelfSorted(m.versions, versions, m.id);
    }
    forall i, j | 0 <= i < j < |memories| ensures !MemoryLess(memories[j], memories[i]) {
      assert !RowLess(MemoryRows(memories)[j], MemoryRows(memories)[i]);
    }
    assert SortOf(MemoryLess, memories, memories);
  }

  /** Sorting an export, as import does first, changes nothing. */
  lemma ExportIsSorted(db: Db, a: Access, subject: Id, at: int, b: Bundle, sorted: Bundle)
    requires IsExport(db, a, subject, at, b) && SortedForm(b, sorted)
    ensures sorted == b
  {
    StrictlySorted(b.privateOwners);
    RowsSelfSorted(b.observations);
    RowsSelfSorted(b.workingSets);
    EpisodesSelfSorted(b.episodes);
    MemoriesSelfSorted(db.memories, db.versions, VisibleMemories(db.memories, db.versions, a, subject), b.memories);
    SortedFormUnique(b, b, sorted);
  }

  /**
   * Export, import, export is the identity: the import is accepted, and exporting the same
   * subject from the target with the same access and timestamp gives the same bundle.
   */
  lemma RoundTrip(db: Db, a: Access, subject: Id, at: int, b: Bundle, target: Db)
    requires Schema(db) && DerivedOnce(db.versions) && Schema(target)
    requires IsExport(db, a, subject, at, b) && ValidBundle(b)
    requires Untouched(target, a.namespace, subject) && NoSharedKeys(target, b)
    ensures forall sorted :: SortedForm(b, sorted) ==> sorted == b
    ensures Import(target, b) == Success(Inserted(target, b))
    ensures IsExport(Inserted(target, b), a, subject, at, b)
    ensures forall c :: IsExport(Inserted(target, b), a, subject, at, c) ==> c == b
  {
    ExportInsertable(db, a, subject, at, b, target);
    ObservationsReturn(a, subject, at, b, target.observations);
    SetsReturn(a, subject, at, b, target.workingSets);
    MemoriesReturn(a, subject, at, b, target.memories, target.versions);
    EpisodesReturn(b, db.episodes, db.outcomes, target.episodes, target.outcomes);
    forall sorted | SortedForm(b, sorted) ensures sorted == b {
      ExportIsSorted(db, a, subject, at, b, sorted);
    }
    forall c | IsExport(Inserted(target, b), a, subject, at, c) ensures c == b {
      ExportUnique(Inserted(target, b), a, subject, at, c, b);
    }
  }
}
