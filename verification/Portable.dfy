// Exporting one authorized subject and importing it into another store.
module Portable {
  import opened Ordering
  import opened Ids
  import opened Graph
  import opened Domain
  import opened Database
  import opened Lifecycle
  import opened Bundles
  import opened Canonical

  datatype Access = Access(
    namespace: Id,
    principal: Id,
    privateOwners: seq<Id>,
    allowShared: bool,
    allowPublic: bool)

  predicate AccessComplete(a: Access, subject: Id) {
    && a.namespace != NO_ID
    && a.principal != NO_ID
    && subject != NO_ID
    && a.privateOwners != []
    && NO_ID !in a.privateOwners
    && Distinct(a.privateOwners)
  }

  predicate Visible(a: Access, subject: Id, s: Scope) {
    && s.namespace == a.namespace
    && s.subject == subject
    && match s.visibility
       case Private => s.owner in a.privateOwners
       case Shared => a.allowShared
       case Public => a.allowPublic
  }

  // ----- What an export holds -----

  /** The rows of these ids, in id order. */
  ghost predicate RowsListed<T(!new)>(rows: seq<Row<T>>, table: map<Id, T>, ids: set<Id>) {
    && ListsBy(Less, IdsOf(rows), ids)
    && forall r :: r in rows ==> r.id in table && table[r.id] == r.value
  }

  function VersionRows(versions: map<Id, Version>, memory: Id): set<Row<Version>> {
    set v | v in versions && versions[v].memory == memory :: Row(v, versions[v])
  }

  predicate HasVersion(versions: map<Id, Version>, memory: Id) {
    exists v :: v in versions && versions[v].memory == memory
  }

  function VisibleObservations(table: map<Id, Observation>, a: Access, subject: Id): set<Id> {
    set o | o in table && Visible(a, subject, table[o].scope)
  }

  function VisibleSets(table: map<Id, WorkingSet>, a: Access, subject: Id): set<Id> {
    set w | w in table && Visible(a, subject, table[w].scope)
  }

  function VisibleMemories(table: map<Id, Memory>, versions: map<Id, Version>, a: Access, subject: Id): set<Id> {
    set m | m in table && Visible(a, subject, table[m].scope) && HasVersion(versions, m)
  }

  predicate MemoryListed(table: map<Id, Memory>, m: PortableMemory) {
    m.id in table && m.memory == table[m.id]
  }

  ghost predicate MemoriesListed(table: map<Id, Memory>, versions: map<Id, Version>, ids: set<Id>, memories: seq<PortableMemory>) {
    && ListsBy(Less, IdsOf(MemoryRows(memories)), ids)
    && forall m :: m in memories ==>
         MemoryListed(table, m) && ListsBy(VersionBefore, m.versions, VersionRows(versions, m.id))
  }

  predicate Cites(r: Row<Version>, episode: Id) {
    r.value.payload.ExperientialPayload? && exists e :: e in r.value.payload.evidence && e.episode == episode
  }

  predicate CitesOutcome(r: Row<Version>, episode: Id, outcome: Id) {
    && r.value.payload.ExperientialPayload?
    && exists e :: e in r.value.payload.evidence && e.episode == episode && outcome in e.outcomes
  }

  ghost predicate EpisodeCited(memories: seq<PortableMemory>, episode: Id) {
    exists r :: r in AllVersions(memories) && Cites(r, episode)
  }

  ghost predicate OutcomeCited(memories: seq<PortableMemory>, episode: Id, outcome: Id) {
    exists r :: r in AllVersions(memories) && CitesOutcome(r, episode, outcome)
  }

  /** An episode row with exactly its cited outcomes. */
  ghost predicate EpisodeListed(table: map<Id, Episode>, outcomes: map<Id, Outcome>, memories: seq<PortableMemory>, e: PortableEpisode) {
    && e.id in table
    && e.episode == table[e.id]
    && SortedBy(Less, IdsOf(e.outcomes))
    && (forall x :: x in IdsOf(e.outcomes) <==> OutcomeCited(memories, e.id, x))
    && forall r :: r in e.outcomes ==> r.id in outcomes && outcomes[r.id] == r.value
  }

  /** Exactly the cited episodes. */
  ghost predicate EpisodesListed(table: map<Id, Episode>, outcomes: map<Id, Outcome>, memories: seq<PortableMemory>, episodes: seq<PortableEpisode>) {
    && SortedBy(Less, IdsOf(EpisodeRows(episodes)))
    && (forall x :: x in IdsOf(EpisodeRows(episodes)) <==> EpisodeCited(memories, x))
    && forall e :: e in episodes ==> EpisodeListed(table, outcomes, memories, e)
  }

  ghost predicate HeaderOf(a: Access, subject: Id, at: int, b: Bundle) {
    && b.format == FORMAT && b.schemaVersion == SCHEMA_VERSION
    && b.exportedAt == at && b.namespace == a.namespace && b.subject == subject
    && ListsBy(Less, b.privateOwners, Elements(a.privateOwners))
    && b.includeShared == a.allowShared && b.includePublic == a.allowPublic
  }

  /** b is the bundle of everything the access may see of the subject. */
  ghost predicate IsExport(db: Db, a: Access, subject: Id, at: int, b: Bundle) {
    && HeaderOf(a, subject, at, b)
    && RowsListed(b.observations, db.observations, VisibleObservations(db.observations, a, subject))
    && RowsListed(b.workingSets, db.workingSets, VisibleSets(db.workingSets, a, subject))
    && MemoriesListed(db.memories, db.versions, VisibleMemories(db.memories, db.versions, a, subject), b.memories)
    && EpisodesListed(db.episodes, db.outcomes, b.memories, b.episodes)
  }

  // ----- An export is determined by the tables -----

  lemma RowsListedUnique<T(!new)>(x: seq<Row<T>>, y: seq<Row<T>>, table: map<Id, T>, ids: set<Id>)
    requires RowsListed(x, table, ids) && RowsListed(y, table, ids)
    ensures x == y
  {
    IdsOrdered(ids);
    ListingUnique(Less, IdsOf(x), IdsOf(y), ids);
    forall i | 0 <= i < |x| ensures x[i] == y[i] {
      assert IdsOf(x)[i] == IdsOf(y)[i];
      assert x[i] in x && y[i] in y;
    }
  }

  lemma VersionRowsOrdered(versions: map<Id, Version>, memory: Id)
    ensures OrderOn(VersionBefore, VersionRows(versions, memory))
  {
    VersionsOrdered(VersionRows(versions, memory));
  }

  lemma MemoriesListedUnique(table: map<Id, Memory>, versions: map<Id, Version>, ids: set<Id>,
                             x: seq<PortableMemory>, y: seq<PortableMemory>)
    requires MemoriesListed(table, versions, ids, x) && MemoriesListed(table, versions, ids, y)
    ensures x == y
  {
    IdsOrdered(ids);
    ListingUnique(Less, IdsOf(MemoryRows(x)), IdsOf(MemoryRows(y)), ids);
    assert |x| == |MemoryRows(x)| == |IdsOf(MemoryRows(x))|;
    forall i | 0 <= i < |x| ensures x[i] == y[i] {
      assert IdsOf(MemoryRows(x))[i] == IdsOf(MemoryRows(y))[i];
      assert x[i] in x && y[i] in y;
      VersionRowsOrdered(versions, x[i].id);
      ListingUnique(VersionBefore, x[i].versions, y[i].versions, VersionRows(versions, x[i].id));
    }
  }

  lemma EpisodesListedUnique(table: map<Id, Episode>, outcomes: map<Id, Outcome>, memories: seq<PortableMemory>,
                             x: seq<PortableEpisode>, y: seq<PortableEpisode>)
    requires EpisodesListed(table, outcomes, memories, x) && EpisodesListed(table, outcomes, memories, y)
    ensures x == y
  {
    var ids := Elements(IdsOf(EpisodeRows(x)));
    IdsOrdered(ids);
    ListingUnique(Less, IdsOf(EpisodeRows(x)), IdsOf(EpisodeRows(y)), ids);
    assert |x| == |EpisodeRows(x)| == |IdsOf(EpisodeRows(x))|;
    forall i | 0 <= i < |x| ensures x[i] == y[i] {
      assert IdsOf(EpisodeRows(x))[i] == IdsOf(EpisodeRows(y))[i];
      assert x[i] in x && y[i] in y;
      RowsListedUnique(x[i].outcomes, y[i].outcomes, outcomes, Elements(IdsOf(x[i].outcomes)));
    }
  }

  /** Two exports of the same tables with the same access and time are the same bundle. */
  lemma ExportUnique(db: Db, a: Access, subject: Id, at: int, x: Bundle, y: Bundle)
    requires IsExport(db, a, subject, at, x) && IsExport(db, a, subject, at, y)
    ensures x == y
  {
    IdsOrdered(Elements(a.privateOwners));
    ListingUnique(Less, x.privateOwners, y.privateOwners, Elements(a.privateOwners));
    RowsListedUnique(x.observations, y.observations, db.observations, VisibleObservations(db.observations, a, subject));
    RowsListedUnique(x.workingSets, y.workingSets, db.workingSets, VisibleSets(db.workingSets, a, subject));
    MemoriesListedUnique(db.memories, db.versions, VisibleMemories(db.memories, db.versions, a, subject), x.memories, y.memories);
    EpisodesListedUnique(db.episodes, db.outcomes, x.memories, x.episodes, y.episodes);
  }

  // ----- What an import leaves -----

  datatype ImportError = InvalidBundle | KeyTaken

  function VersionEdges(rows: seq<Row<Version>>): set<Edge> {
    set r, p | r in rows && p in r.value.derivedFrom :: Edge(p, r.id)
  }

  /** What is forgotten is imported without an index row. */
  predicate Indexable(m: PortableMemory, r: Row<Version>) {
    m.memory.state != MemoryForgotten && r.value.state != VersionForgotten
  }

  function RowFor(m: PortableMemory, r: Row<Version>): IndexRow {
    IndexRow(r.id, m.id, m.memory.scope.namespace, MemoryText(r.value.payload))
  }

  function VersionIndexRows(m: PortableMemory, rows: seq<Row<Version>>): seq<IndexRow> {
    if rows == [] then
      []
    else
      var last := rows[|rows| - 1];
      VersionIndexRows(m, rows[..|rows| - 1]) + (if Indexable(m, last) then [RowFor(m, last)] else [])
  }

  function BundleIndexRows(memories: seq<PortableMemory>): seq<IndexRow> {
    if memories == [] then
      []
    else
      var last := memories[|memories| - 1];
      BundleIndexRows(memories[..|memories| - 1]) + VersionIndexRows(last, last.versions)
  }

  function AddRows(index: TextIndex, rows: seq<IndexRow>): TextIndex {
    if rows == [] then index else AddRow(AddRows(index, rows[..|rows| - 1]), rows[|rows| - 1])
  }

  ghost function Inserted(db: Db, b: Bundle): Db {
    var versions := AllVersions(b.memories);
    db.(observations := db.observations + Table(b.observations),
        workingSets := db.workingSets + Table(b.workingSets),
        episodes := db.episodes + Table(EpisodeRows(b.episodes)),
        outcomes := db.outcomes + Table(AllOutcomes(b.episodes)),
        memories := db.memories + Table(MemoryRows(b.memories)),
        versions := db.versions + Table(versions),
        edges := db.edges + VersionEdges(versions),
        index := AddRows(db.index, BundleIndexRows(b.memories)))
  }

  ghost predicate Free<T>(table: map<Id, T>, rows: seq<Row<T>>) {
    forall r :: r in rows ==> r.id !in table
  }

  /** No row of the bundle meets a primary key or unique index of the target, or repeats an edge. */
  ghost predicate KeysFree(db: Db, b: Bundle) {
    && Free(db.observations, b.observations)
    && Free(db.workingSets, b.workingSets)
    && UniqueTasks(db.workingSets + Table(b.workingSets))
    && Free(db.episodes, EpisodeRows(b.episodes))
    && Free(db.outcomes, AllOutcomes(b.episodes))
    && Free(db.memories, MemoryRows(b.memories))
    && Free(db.versions, AllVersions(b.memories))
    && forall r :: r in AllVersions(b.memories) ==> Distinct(r.value.derivedFrom)
  }

  ghost function Import(db: Db, b: Bundle): Result<Db, ImportError> {
    if !ValidBundle(b) then Failure(InvalidBundle)
    else if !KeysFree(db, b) then Failure(KeyTaken)
    else Success(Inserted(db, b))
  }

  // ----- The import transaction, row by row -----

  ghost predicate Insertable<T>(table: map<Id, T>, rows: seq<Row<T>>) {
    Distinct(IdsOf(rows)) && Free(table, rows)
  }

  lemma DistinctOneMore(ids: seq<Id>, x: Id)
    ensures Distinct(ids + [x]) <==> Distinct(ids) && x !in ids
  {
    var all := ids + [x];
    if x in ids {
      var k :| 0 <= k < |ids| && ids[k] == x;
      assert all[k] == all[|ids|];
    }
    if Distinct(all) {
      forall i, j | 0 <= i < j < |ids| ensures ids[i] != ids[j] {
        assert all[i] != all[j];
      }
    }
  }

  lemma InsertableOneMore<T>(table: map<Id, T>, rows: seq<Row<T>>, i: nat)
    requires i < |rows|
    ensures Insertable(table, rows[..i + 1]) <==>
      Insertable(table, rows[..i]) && rows[i].id !in table && rows[i].id !in Table(rows[..i])
    ensures table + Table(rows[..i + 1]) == (table + Table(rows[..i]))[rows[i].id := rows[i].value]
  {
    assert rows[..i + 1][..i] == rows[..i];
    assert rows[..i + 1] == rows[..i] + [rows[i]];
    assert IdsOf(rows[..i + 1]) == IdsOf(rows[..i]) + [rows[i].id];
    DistinctOneMore(IdsOf(rows[..i]), rows[i].id);
  }

  lemma {:induction false} InsertablePrefix<T>(table: map<Id, T>, rows: seq<Row<T>>, i: nat)
    requires i <= |rows| && Insertable(table, rows)
    ensures Insertable(table, rows[..i])
    decreases |rows| - i
  {
    if i < |rows| {
      InsertablePrefix(table, rows, i + 1);
      InsertableOneMore(table, rows, i);
    } else {
      assert rows[..i] == rows;
    }
  }

  method InsertRows<T>(table: map<Id, T>, rows: seq<Row<T>>) returns (ok: bool, result: map<Id, T>)
    ensures ok <==> Insertable(table, rows)
    ensures ok ==> result == table + Table(rows)
  {
    result := table;
    for i := 0 to |rows|
      invariant result == table + Table(rows[..i])
      invariant Insertable(table, rows[..i])
    {
      InsertableOneMore(table, rows, i);
      if rows[i].id in result {
        if Insertable(table, rows) {
          InsertablePrefix(table, rows, i + 1);
        }
        return false, result;
      }
      result := result[rows[i].id := rows[i].value];
    }
    assert rows[..|rows|] == rows;
    return true, result;
  }

  /** Working sets also meet the unique index on namespace and task. */
  method CheckTasks(sets: map<Id, WorkingSet>) returns (ok: bool)
    ensures ok <==> UniqueTasks(sets)
  {
    var pending := sets.Keys;
    while pending != {}
      invariant pending <= sets.Keys
      invariant forall a, b | a in sets && a !in pending && b in sets ::
        sets[a].scope.namespace == sets[b].scope.namespace && sets[a].task == sets[b].task ==> a == b
      decreases pending
    {
      var a :| a in pending;
      pending := pending - {a};
      if b :| b in sets && b != a && sets[b].scope.namespace == sets[a].scope.namespace && sets[b].task == sets[a].task {
        return false;
      }
    }
    return true;
  }

  method InsertEdges(edges: set<Edge>, rows: seq<Row<Version>>) returns (ok: bool, result: set<Edge>)
    requires Distinct(IdsOf(rows)) && forall r, e :: r in rows && e in edges ==> e.child != r.id
    ensures ok <==> forall r :: r in rows ==> Distinct(r.value.derivedFrom)
    ensures ok ==> result == edges + VersionEdges(rows)
  {
    result := edges;
    for i := 0 to |rows|
      invariant result == edges + VersionEdges(rows[..i])
      invariant forall k :: 0 <= k < i ==> Distinct(rows[k].value.derivedFrom)
    {
      var parents := rows[i].value.derivedFrom;
      assert rows[..i + 1] == rows[..i] + [rows[i]];
      forall e | e in result ensures e.child != rows[i].id {
        if e !in edges {
          var r, p :| r in rows[..i] && p in r.value.derivedFrom && e == Edge(p, r.id);
          var k :| 0 <= k < i && rows[k] == r;
          assert IdsOf(rows)[k] != IdsOf(rows)[i];
        }
        assert rows[i] in rows;
      }
      ghost var before := result;
      for j := 0 to |parents|
        invariant result == before + EdgesInto(Elements(parents[..j]), rows[i].id)
        invariant Distinct(parents[..j])
      {
        if Edge(parents[j], rows[i].id) in result {
          assert exists k :: 0 <= k < j && parents[k] == parents[j];
          assert rows[i] in rows;
          return false, result;
        }
        assert Elements(parents[..j + 1]) == Elements(parents[..j]) + {parents[j]};
        result := result + {Edge(parents[j], rows[i].id)};
      }
      assert parents[..|parents|] == parents;
      assert VersionEdges(rows[..i + 1]) == VersionEdges(rows[..i]) + EdgesInto(Elements(parents), rows[i].id);
    }
    assert rows[..|rows|] == rows;
    return true, result;
  }

  method CollectOutcomes(episodes: seq<PortableEpisode>) returns (rows: seq<Row<Outcome>>)
    ensures rows == AllOutcomes(episodes)
  {
    rows := [];
    for i := 0 to |episodes|
      invariant rows == AllOutcomes(episodes[..i])
    {
      assert episodes[..i + 1][..i] == episodes[..i];
      rows := rows + episodes[i].outcomes;
    }
    assert episodes[..|episodes|] == episodes;
  }

  method IndexMemories(index: TextIndex, memories: seq<PortableMemory>) returns (result: TextIndex)
    ensures result == AddRows(index, BundleIndexRows(memories))
  {
    result := index;
    for i := 0 to |memories|
      invariant result == AddRows(index, BundleIndexRows(memories[..i]))
    {
      assert memories[..i + 1][..i] == memories[..i];
      AddRowsJoin(index, BundleIndexRows(memories[..i]), VersionIndexRows(memories[i], memories[i].versions));
      result := IndexVersions(result, memories[i]);
    }
    assert memories[..|memories|] == memories;
  }

  method IndexVersions(index: TextIndex, m: PortableMemory) returns (result: TextIndex)
    ensures result == AddRows(index, VersionIndexRows(m, m.versions))
  {
    result := index;
    for j := 0 to |m.versions|
      invariant result == AddRows(index, VersionIndexRows(m, m.versions[..j]))
    {
      assert m.versions[..j + 1][..j] == m.versions[..j];
      var r := m.versions[j];
      if m.memory.state != MemoryForgotten && r.value.state != VersionForgotten {
        var row := RowFor(m, r);
        AddRowsJoin(index, VersionIndexRows(m, m.versions[..j]), [row]);
        result := AddRow(result, row);
      } else {
        assert VersionIndexRows(m, m.versions[..j + 1]) == VersionIndexRows(m, m.versions[..j]);
      }
    }
    assert m.versions[..|m.versions|] == m.versions;
  }

  lemma {:induction false} AddRowsJoin(index: TextIndex, x: seq<IndexRow>, y: seq<IndexRow>)
    ensures AddRows(index, x + y) == AddRows(AddRows(index, x), y)
    decreases |y|
  {
    if y == [] {
      assert x + y == x;
    } else {
      assert (x + y)[..|x + y| - 1] == x + y[..|y| - 1];
      AddRowsJoin(index, x, y[..|y| - 1]);
    }
  }

  method ImportSubjectRows(tx: Db, b: Bundle) returns (ok: bool, result: Db)
    requires Schema(tx) && ValidBundle(b)
    ensures ok <==> KeysFree(tx, b)
    ensures ok ==> result == Inserted(tx, b)
  {
    var free: bool;
    result := tx;
    var observations, sets, episodes, outcomes, memories, versions, edges;
    free, observations := InsertRows(tx.observations, b.observations);
    if !free {
      return false, tx;
    }
    free, sets := InsertRows(tx.workingSets, b.workingSets);
    if !free {
      return false, tx;
    }
    free := CheckTasks(sets);
    if !free {
      return false, tx;
    }
    free, episodes := InsertRows(tx.episodes, EpisodeRows(b.episodes));
    if !free {
      return false, tx;
    }
    var outcomeRows := CollectOutcomes(b.episodes);
    free, outcomes := InsertRows(tx.outcomes, outcomeRows);
    if !free {
      return false, tx;
    }
    free, memories := InsertRows(tx.memories, MemoryRows(b.memories));
    if !free {
      return false, tx;
    }
    var versionRows, _ := CollectVersions(b.memories);
    free, versions := InsertRows(tx.versions, versionRows);
    if !free {
      return false, tx;
    }
    free, edges := InsertEdges(tx.edges, versionRows);
    if !free {
      return false, tx;
    }
    var index := IndexMemories(tx.index, b.memories);
    result := tx.(observations := observations, workingSets := sets, episodes := episodes, outcomes := outcomes,
                  memories := memories, versions := versions, edges := edges, index := index);
    return true, result;
  }

  ghost predicate ImportLeaves(before: Db, b: Bundle, dryRun: bool, after: Db, r: Result<(), ImportError>) {
    match Import(before, b)
    case Success(db) => r == Success(()) && after == (if dryRun then before else db)
    case Failure(error) => r == Failure(error) && after == before
  }

  method ImportSorted(s: Store, b: Bundle, dryRun: bool) returns (r: Result<(), ImportError>)
    requires s.Valid()
    modifies s
    ensures ImportLeaves(old(s.Snapshot()), b, dryRun, s.Snapshot(), r)
  {
    var valid := Validate(b);
    if !valid {
      return Failure(InvalidBundle);
    }
    var ok, tx := ImportSubjectRows(s.Snapshot(), b);
    if !ok {
      return Failure(KeyTaken);
    }
    if !dryRun {
      s.Commit(tx);
    }
    return Success(());
  }

  /** Sorts the bundle first, so the order it came in leaves no trace in the tables. */
  method ImportSubject(s: Store, b: Bundle, dryRun: bool) returns (r: Result<(), ImportError>)
    requires s.Valid()
    modifies s
    ensures exists sorted :: SortedForm(b, sorted) && ImportLeaves(old(s.Snapshot()), sorted, dryRun, s.Snapshot(), r)
  {
    var sorted := SortSubjectExport(b);
    r := ImportSorted(s, sorted, dryRun);
  }
}
