// When an export succeeds, as a condition on the tables: what the visible versions refer to is
// stored and visible too. All else that the bundle check asks for, the store keeps by itself.
module ExportSuccess {
  import opened Ordering
  import opened Ids
  import opened Graph
  import opened Domain
  import opened Database
  import opened Lifecycle
  import opened WorkingSets
  import opened CycleCheck
  import opened Bundles
  import opened Canonical
  import opened Portable
  import opened PortableProofs
  import opened GraphInvariant
  import opened ChainInvariant
  import opened ContentInvariant

  // ----- The condition -----

  predicate ShowsObservations(db: Db, a: Access, subject: Id, ids: seq<Id>) {
    forall o :: o in ids ==> o in db.observations && Visible(a, subject, db.observations[o].scope)
  }

  predicate ShowsSet(db: Db, a: Access, subject: Id, w: Id) {
    w in db.workingSets && Visible(a, subject, db.workingSets[w].scope)
  }

  predicate ShowsVersion(db: Db, a: Access, subject: Id, v: Id) {
    && v in db.versions && db.versions[v].memory in db.memories
    && Visible(a, subject, db.memories[db.versions[v].memory].scope)
  }

  /** The observations behind the episodes that the evidence cites are shown. */
  predicate EvidenceShown(db: Db, a: Access, subject: Id, evidence: seq<LessonEvidence>) {
    forall e :: e in evidence && e.episode in db.episodes ==>
      ShowsObservations(db, a, subject, db.episodes[e.episode].observations)
  }

  /** The observations, parents and working set a version names are shown. */
  predicate SourcesShown(db: Db, a: Access, subject: Id, v: Version) {
    && ShowsObservations(db, a, subject, v.provenance)
    && (forall p :: p in v.derivedFrom ==> ShowsVersion(db, a, subject, p))
    && (v.payload.WorkingPayload? ==>
         ShowsSet(db, a, subject, v.payload.workingSet) && ShowsObservations(db, a, subject, v.payload.compactedFrom))
  }

  /** Everything a version refers to is shown to the access. */
  predicate Enclosed(db: Db, a: Access, subject: Id, v: Version) {
    && SourcesShown(db, a, subject, v)
    && (v.payload.ExperientialPayload? ==> EvidenceShown(db, a, subject, v.payload.evidence))
  }

  predicate SetsDated(db: Db, a: Access, subject: Id) {
    forall w :: w in db.workingSets && ShowsSet(db, a, subject, w) ==>
      db.workingSets[w].createdAt <= db.workingSets[w].updatedAt
  }

  /** What is shown refers only to what is shown, and no shown set was last written before it was made. */
  predicate SelfContained(db: Db, a: Access, subject: Id) {
    && (forall v :: v in db.versions && ShowsVersion(db, a, subject, v) ==> Enclosed(db, a, subject, db.versions[v]))
    && SetsDated(db, a, subject)
  }

  /** What native runs keep of the tables. */
  ghost predicate ExportReady(db: Db) {
    GraphOk(db) && ChainOk(db) && ContentOk(db)
  }

  // ----- Rows of an export -----

  lemma RowIds<T(!new)>(rows: seq<Row<T>>, table: map<Id, T>, ids: set<Id>)
    requires RowsListed(rows, table, ids)
    ensures Distinct(IdsOf(rows)) && (forall x :: x in IdsOf(rows) <==> x in ids)
    ensures Table(rows).Keys == ids && forall x :: x in ids ==> x in table && Table(rows)[x] == table[x]
  {
    StrictlySorted(IdsOf(rows));
    forall x | x in ids ensures x in table && Table(rows)[x] == table[x] {
      var r := TableRow(rows, x);
    }
  }

  ghost predicate Listed(db: Db, a: Access, subject: Id, memories: seq<PortableMemory>) {
    MemoriesListed(db.memories, db.versions, VisibleMemories(db.memories, db.versions, a, subject), memories)
  }

  lemma MemoryShown(db: Db, a: Access, subject: Id, memories: seq<PortableMemory>, m: PortableMemory)
    requires Listed(db, a, subject, memories) && m in memories
    ensures m.id in db.memories && m.memory == db.memories[m.id]
    ensures Visible(a, subject, m.memory.scope) && HasVersion(db.versions, m.id)
    ensures ListsBy(VersionBefore, m.versions, VersionRows(db.versions, m.id))
  {
    var k :| 0 <= k < |memories| && memories[k] == m;
    assert IdsOf(MemoryRows(memories))[k] == m.id;
    assert m.id in VisibleMemories(db.memories, db.versions, a, subject);
  }

  /** A version row of the export is a stored version of a shown memory. */
  lemma RowShown(db: Db, a: Access, subject: Id, memories: seq<PortableMemory>, m: PortableMemory, r: Row<Version>)
    requires Listed(db, a, subject, memories) && m in memories && r in m.versions
    ensures r.id in db.versions && r.value == db.versions[r.id] && r.value.memory == m.id
    ensures ShowsVersion(db, a, subject, r.id)
  {
    MemoryShown(db, a, subject, memories, m);
    assert r in VersionRows(db.versions, m.id);
  }

  /** And every shown version is a row of the export. */
  lemma ShownRow(db: Db, a: Access, subject: Id, memories: seq<PortableMemory>, v: Id)
    returns (m: PortableMemory, r: Row<Version>)
    requires Listed(db, a, subject, memories) && ShowsVersion(db, a, subject, v)
    ensures m in memories && r in m.versions && r == Row(v, db.versions[v]) && m.id == db.versions[v].memory
  {
    var id := db.versions[v].memory;
    assert HasVersion(db.versions, id);
    assert id in IdsOf(MemoryRows(memories));
    var k :| 0 <= k < |memories| && IdsOf(MemoryRows(memories))[k] == id;
    m, r := memories[k], Row(v, db.versions[v]);
    assert r in VersionRows(db.versions, m.id);
  }

  lemma {:induction false} OwnerKnown(memories: seq<PortableMemory>, m: PortableMemory, r: Row<Version>)
    requires m in memories && r in m.versions
    ensures r.id in OwnerMap(memories)
  {
    var last := memories[|memories| - 1];
    if m == last {
      var k :| 0 <= k < |m.versions| && m.versions[k] == r;
      assert IdsOf(last.versions)[k] == r.id;
    } else {
      assert memories == memories[..|memories| - 1] + [last];
      OwnerKnown(memories[..|memories| - 1], m, r);
    }
  }

  /** The owner that the check finds for a version id is the stored version's memory. */
  lemma OwnerIsMemory(db: Db, a: Access, subject: Id, memories: seq<PortableMemory>, v: Id)
    requires Listed(db, a, subject, memories)
    ensures v in OwnerMap(memories) <==> ShowsVersion(db, a, subject, v)
    ensures v in OwnerMap(memories) ==>
      OwnerMap(memories)[v] == Row(db.versions[v].memory, db.memories[db.versions[v].memory])
  {
    if v in OwnerMap(memories) {
      var m, r := OwnerFound(memories, v);
      RowShown(db, a, subject, memories, m, r);
      MemoryShown(db, a, subject, memories, m);
    }
    if ShowsVersion(db, a, subject, v) {
      var m, r := ShownRow(db, a, subject, memories, v);
      OwnerKnown(memories, m, r);
    }
  }

  // ----- Ids of versions and outcomes are distinct -----

  lemma DistinctJoin(x: seq<Id>, y: seq<Id>)
    requires Distinct(x) && Distinct(y) && forall id :: id in x ==> id !in y
    ensures Distinct(x + y)
  {
    forall i, j | 0 <= i < j < |x + y| ensures (x + y)[i] != (x + y)[j] {
      if i < |x| <= j {
        assert x[i] in x && y[j - |x|] in y;
      }
    }
  }

  lemma IdOfRow<T>(rows: seq<Row<T>>, id: Id) returns (r: Row<T>)
    requires id in IdsOf(rows)
    ensures r in rows && r.id == id
  {
    var k :| 0 <= k < |rows| && IdsOf(rows)[k] == id;
    r := rows[k];
  }

  lemma RowsJoin<T>(x: seq<Row<T>>, y: seq<Row<T>>, owners: map<Id, Id>, owner: Id)
    requires Distinct(IdsOf(x)) && Distinct(IdsOf(y))
    requires forall r :: r in x ==> r.id in owners && owners[r.id] != owner
    requires forall r :: r in y ==> r.id in owners && owners[r.id] == owner
    ensures Distinct(IdsOf(x + y))
  {
    forall id | id in IdsOf(x) ensures id !in IdsOf(y) {
      var r := IdOfRow(x, id);
      if id in IdsOf(y) {
        var q := IdOfRow(y, id);
      }
    }
    DistinctJoin(IdsOf(x), IdsOf(y));
    assert IdsOf(x + y) == IdsOf(x) + IdsOf(y);
  }

  lemma ApartFromLast<T>(rows: seq<Row<T>>, i: nat)
    requires Distinct(IdsOf(rows)) && i + 1 == |rows|
    ensures Distinct(IdsOf(rows[..i])) && forall r :: r in rows[..i] ==> r.id != rows[i].id
  {
    assert IdsOf(rows) == IdsOf(rows[..i]) + [rows[i].id];
    DistinctOneMore(IdsOf(rows[..i]), rows[i].id);
    forall r | r in rows[..i] ensures r.id != rows[i].id {
      var k :| 0 <= k < i && rows[k] == r;
      assert IdsOf(rows[..i])[k] == r.id;
    }
  }

  lemma {:induction false} VersionIdsDistinct(memories: seq<PortableMemory>, owners: map<Id, Id>)
    requires Distinct(IdsOf(MemoryRows(memories))) && forall m :: m in memories ==> Distinct(IdsOf(m.versions))
    requires forall m, r :: m in memories && r in m.versions ==> r.id in owners && owners[r.id] == m.id
    ensures Distinct(IdsOf(AllVersions(memories)))
  {
    if memories != [] {
      var front, last := memories[..|memories| - 1], memories[|memories| - 1];
      assert memories == front + [last];
      ApartFromLast(MemoryRows(memories), |front|);
      assert MemoryRows(memories)[..|front|] == MemoryRows(front);
      VersionIdsDistinct(front, owners);
      forall r | r in AllVersions(front) ensures r.id in owners && owners[r.id] != last.id {
        var m :| m in front && r in m.versions;
        assert Row(m.id, m.memory) in MemoryRows(front);
      }
      RowsJoin(AllVersions(front), last.versions, owners, last.id);
    }
  }

  lemma {:induction false} OutcomeIdsDistinct(episodes: seq<PortableEpisode>, owners: map<Id, Id>)
    requires Distinct(IdsOf(EpisodeRows(episodes))) && forall e :: e in episodes ==> Distinct(IdsOf(e.outcomes))
    requires forall e, r :: e in episodes && r in e.outcomes ==> r.id in owners && owners[r.id] == e.id
    ensures Distinct(IdsOf(AllOutcomes(episodes)))
  {
    if episodes != [] {
      var front, last := episodes[..|episodes| - 1], episodes[|episodes| - 1];
      assert episodes == front + [last];
      ApartFromLast(EpisodeRows(episodes), |front|);
      assert EpisodeRows(episodes)[..|front|] == EpisodeRows(front);
      OutcomeIdsDistinct(front, owners);
      forall r | r in AllOutcomes(front) ensures r.id in owners && owners[r.id] != last.id {
        var e :| e in front && r in e.outcomes;
        assert Row(e.id, e.episode) in EpisodeRows(front);
      }
      RowsJoin(AllOutcomes(front), last.outcomes, owners, last.id);
    }
  }

  // ----- Memories -----

  /** In a whole chain each version's system time is an interval. */
  lemma SystemTimeValid(db: Db, v: Id)
    requires ChainOk(db) && v in db.versions
    ensures db.versions[v].systemTime.Valid()
  {
    var (memory, number) := (db.versions[v].memory, db.versions[v].number);
    assert RowOk(db.memories[memory], db.versions[v]);
    if number < db.memories[memory].currentVersion {
      assert NumberTaken(db.versions, memory, number + 1);
      var w :| w in db.versions && db.versions[w].memory == memory && db.versions[w].number == number + 1;
      assert Consecutive(db.versions[v], db.versions[w]);
    }
  }

  lemma StoredVersionValid(db: Db, a: Access, subject: Id, memories: seq<PortableMemory>, m: PortableMemory, r: Row<Version>)
    requires ChainOk(db) && VersionsBacked(db) && Listed(db, a, subject, memories) && m in memories && r in m.versions
    ensures VersionValid(m, r) && r.value.number <= m.memory.currentVersion
  {
    MemoryShown(db, a, subject, memories, m);
    RowShown(db, a, subject, memories, m, r);
    SystemTimeValid(db, r.id);
    assert RowOk(db.memories[m.id], db.versions[r.id]);
    assert Backed(db, db.memories[m.id], db.versions[r.id].payload);
  }

  lemma HeadListed(db: Db, a: Access, subject: Id, memories: seq<PortableMemory>, m: PortableMemory)
    requires ChainOk(db) && Listed(db, a, subject, memories) && m in memories
    ensures m.memory.currentVersion >= 1
    ensures exists i :: 0 <= i < |m.versions| && m.versions[i].value.number == m.memory.currentVersion
  {
    MemoryShown(db, a, subject, memories, m);
    var v :| v in db.versions && db.versions[v].memory == m.id;
    assert RowOk(db.memories[m.id], db.versions[v]);
    assert NumberTaken(db.versions, m.id, m.memory.currentVersion);
    var w :| w in db.versions && db.versions[w].memory == m.id && db.versions[w].number == m.memory.currentVersion;
    assert Row(w, db.versions[w]) in VersionRows(db.versions, m.id);
    assert Row(w, db.versions[w]) in m.versions;
  }

  lemma StoredMemoryValid(db: Db, a: Access, subject: Id, at: int, b: Bundle, m: PortableMemory)
    requires ChainOk(db) && VersionsBacked(db) && IsExport(db, a, subject, at, b) && m in b.memories
    ensures MemoryValid(b, m)
  {
    MemoryShown(db, a, subject, b.memories, m);
    ScopesAgree(a, subject, at, b, m.memory.scope);
    HeadListed(db, a, subject, b.memories, m);
    forall r | r in m.versions ensures VersionValid(m, r) {
      StoredVersionValid(db, a, subject, b.memories, m, r);
    }
    VersionsSelfSorted(m.versions, db.versions, m.id);
    forall i, j | 0 <= i < j < |m.versions| ensures m.versions[i].value.number != m.versions[j].value.number {
      RowShown(db, a, subject, b.memories, m, m.versions[i]);
      RowShown(db, a, subject, b.memories, m, m.versions[j]);
      assert IdsOf(m.versions)[i] != IdsOf(m.versions)[j];
    }
  }

  /** The memories of an export always pass: chains are whole, and payloads and provenance are in order. */
  lemma MemoriesPass(db: Db, a: Access, subject: Id, at: int, b: Bundle)
    requires ChainOk(db) && VersionsBacked(db) && IsExport(db, a, subject, at, b)
    ensures MemoriesValid(b)
  {
    forall m | m in b.memories ensures MemoryValid(b, m) {
      StoredMemoryValid(db, a, subject, at, b, m);
    }
    MemoriesSelfSorted(db.memories, db.versions, VisibleMemories(db.memories, db.versions, a, subject), b.memories);
    var owners := map v | v in db.versions :: db.versions[v].memory;
    forall m, r | m in b.memories && r in m.versions ensures r.id in owners && owners[r.id] == m.id {
      RowShown(db, a, subject, b.memories, m, r);
    }
    VersionIdsDistinct(b.memories, owners);
  }

  /** A rising list of numbers that holds exactly 1 to n counts them off. */
  lemma {:induction false} CountsOff(numbers: seq<nat>, n: nat, i: nat)
    requires forall j, k :: 0 <= j < k < |numbers| ==> numbers[j] < numbers[k]
    requires forall x :: x in numbers <==> 1 <= x <= n
    requires i < |numbers|
    ensures numbers[i] == i + 1
  {
    assert numbers[i] in numbers;
    if i > 0 {
      CountsOff(numbers, n, i - 1);
    }
    assert i + 1 in numbers;
    var j :| 0 <= j < |numbers| && numbers[j] == i + 1;
    if 0 < j < i {
      CountsOff(numbers, n, j);
    }
  }

  lemma NumberListed(db: Db, a: Access, subject: Id, memories: seq<PortableMemory>, m: PortableMemory, number: nat)
    requires ChainOk(db) && Listed(db, a, subject, memories) && m in memories && 1 <= number <= m.memory.currentVersion
    ensures exists i :: 0 <= i < |m.versions| && m.versions[i].value.number == number
  {
    MemoryShown(db, a, subject, memories, m);
    assert NumberTaken(db.versions, m.id, number);
    var w :| w in db.versions && db.versions[w].memory == m.id && db.versions[w].number == number;
    assert Row(w, db.versions[w]) in VersionRows(db.versions, m.id);
    assert Row(w, db.versions[w]) in m.versions;
  }

  /** An exported memory lists its whole chain: version i + 1 at place i, up to the current one. */
  lemma ExportedChain(db: Db, a: Access, subject: Id, memories: seq<PortableMemory>, m: PortableMemory)
    requires ChainOk(db) && VersionsBacked(db) && Listed(db, a, subject, memories) && m in memories
    ensures |m.versions| == m.memory.currentVersion
    ensures forall i :: 0 <= i < |m.versions| ==> m.versions[i].value.number == i + 1
  {
    var numbers := seq(|m.versions|, i requires 0 <= i < |m.versions| => m.versions[i].value.number);
    var n := m.memory.currentVersion;
    MemoryShown(db, a, subject, memories, m);
    NumbersRise(db, a, subject, memories, m);
    forall x ensures x in numbers <==> 1 <= x <= n {
      if 1 <= x <= n {
        NumberListed(db, a, subject, memories, m, x);
        var i :| 0 <= i < |m.versions| && m.versions[i].value.number == x;
        assert numbers[i] == x;
      }
      if x in numbers {
        var i :| 0 <= i < |numbers| && numbers[i] == x;
        StoredVersionValid(db, a, subject, memories, m, m.versions[i]);
      }
    }
    forall i | 0 <= i < |numbers| ensures m.versions[i].value.number == i + 1 {
      CountsOff(numbers, n, i);
      assert numbers[i] == m.versions[i].value.number;
    }
    HeadListed(db, a, subject, memories, m);
    assert numbers[|numbers| - 1] in numbers;
  }

  lemma NumbersRise(db: Db, a: Access, subject: Id, memories: seq<PortableMemory>, m: PortableMemory)
    requires ChainOk(db) && Listed(db, a, subject, memories) && m in memories
    ensures forall i, j :: 0 <= i < j < |m.versions| ==> m.versions[i].value.number < m.versions[j].value.number
  {
    MemoryShown(db, a, subject, memories, m);
    forall i, j | 0 <= i < j < |m.versions| ensures m.versions[i].value.number < m.versions[j].value.number {
      assert VersionBefore(m.versions[i], m.versions[j]);
      RowShown(db, a, subject, memories, m, m.versions[i]);
      RowShown(db, a, subject, memories, m, m.versions[j]);
      LessOrder(m.versions[i].id, m.versions[j].id);
    }
  }

  // ----- Header, observations and sets -----

  lemma HeaderPasses(a: Access, subject: Id, at: int, b: Bundle)
    requires AccessComplete(a, subject) && HeaderOf(a, subject, at, b)
    ensures HeaderValid(b)
  {
    StrictlySorted(b.privateOwners);
    assert a.privateOwners[0] in Elements(a.privateOwners);
    assert a.privateOwners[0] in b.privateOwners;
  }

  /** The listed rows are the rows of these ids, and nothing else. */
  lemma RowsAreListed<T(!new)>(rows: seq<Row<T>>, table: map<Id, T>, ids: set<Id>)
    requires RowsListed(rows, table, ids)
    ensures forall r :: r in rows ==> r.id in ids && r.id in table && table[r.id] == r.value
    ensures forall x :: x in ids ==> x in table && Row(x, table[x]) in rows
  {
    forall r | r in rows ensures r.id in ids {
      var k :| 0 <= k < |rows| && rows[k] == r;
      assert IdsOf(rows)[k] == r.id;
    }
    forall x | x in ids ensures x in table && Row(x, table[x]) in rows {
      assert x in IdsOf(rows);
      var r := IdOfRow(rows, x);
    }
  }

  lemma ObservationsPass(db: Db, a: Access, subject: Id, at: int, b: Bundle)
    requires IsExport(db, a, subject, at, b)
    ensures ObservationsValid(b)
    ensures forall o :: o in IdsOf(b.observations) <==> o in db.observations && Visible(a, subject, db.observations[o].scope)
  {
    var ids := VisibleObservations(db.observations, a, subject);
    RowIds(b.observations, db.observations, ids);
    RowsAreListed(b.observations, db.observations, ids);
    forall r | r in b.observations ensures InScope(b, r.value.scope) {
      ScopesAgree(a, subject, at, b, r.value.scope);
    }
  }

  lemma SetsPassIff(db: Db, a: Access, subject: Id, at: int, b: Bundle)
    requires IsExport(db, a, subject, at, b) && CapturesOk(db)
    ensures SetsValid(b) <==> SetsDated(db, a, subject)
  {
    var ids := VisibleSets(db.workingSets, a, subject);
    RowIds(b.workingSets, db.workingSets, ids);
    RowsAreListed(b.workingSets, db.workingSets, ids);
    forall r | r in b.workingSets
      ensures InScope(b, r.value.scope) && (ValidSet(r.id, r.value) <==> r.value.createdAt <= r.value.updatedAt)
    {
      ScopesAgree(a, subject, at, b, r.value.scope);
    }
    if SetsValid(b) {
      forall w | w in db.workingSets && ShowsSet(db, a, subject, w)
        ensures db.workingSets[w].createdAt <= db.workingSets[w].updatedAt
      {
        assert w in ids;
        assert Row(w, db.workingSets[w]) in b.workingSets;
      }
    }
  }

  // ----- Episodes -----

  /** An episode of the export is cited by evidence that was checked against the tables. */
  lemma CitedEpisode(db: Db, a: Access, subject: Id, memories: seq<PortableMemory>, x: Id)
    requires VersionsBacked(db) && Listed(db, a, subject, memories) && EpisodeCited(memories, x)
    ensures x in db.episodes && db.episodes[x].namespace == a.namespace && db.episodes[x].subject == subject
  {
    var r :| r in AllVersions(memories) && Cites(r, x);
    var m :| m in memories && r in m.versions;
    RowShown(db, a, subject, memories, m, r);
    MemoryShown(db, a, subject, memories, m);
    var e :| e in r.value.payload.evidence && e.episode == x;
    assert Backed(db, db.memories[m.id], db.versions[r.id].payload);
    assert EvidenceExists(db, m.memory.scope, e);
  }

  lemma CitedOutcome(db: Db, a: Access, subject: Id, memories: seq<PortableMemory>, x: Id, o: Id)
    requires VersionsBacked(db) && Listed(db, a, subject, memories) && OutcomeCited(memories, x, o)
    ensures o in db.outcomes && db.outcomes[o].episode == x
  {
    var r :| r in AllVersions(memories) && CitesOutcome(r, x, o);
    var m :| m in memories && r in m.versions;
    RowShown(db, a, subject, memories, m, r);
    MemoryShown(db, a, subject, memories, m);
    var e :| e in r.value.payload.evidence && e.episode == x && o in e.outcomes;
    assert Backed(db, db.memories[m.id], db.versions[r.id].payload);
    assert EvidenceExists(db, m.memory.scope, e);
  }

  lemma OutcomeOfEpisode(db: Db, a: Access, subject: Id, at: int, b: Bundle, e: PortableEpisode, r: Row<Outcome>)
    requires VersionsBacked(db) && IsExport(db, a, subject, at, b) && e in b.episodes && r in e.outcomes
    ensures r.id in db.outcomes && db.outcomes[r.id] == r.value && r.value.episode == e.id
  {
    assert EpisodeListed(db.episodes, db.outcomes, b.memories, e);
    var k :| 0 <= k < |e.outcomes| && e.outcomes[k] == r;
    assert IdsOf(e.outcomes)[k] == r.id;
    CitedOutcome(db, a, subject, b.memories, e.id, r.id);
  }

  lemma EpisodePassesIff(db: Db, a: Access, subject: Id, at: int, b: Bundle, e: PortableEpisode)
    requires ContentOk(db) && IsExport(db, a, subject, at, b) && e in b.episodes
    ensures e.id in db.episodes && e.episode == db.episodes[e.id] && EpisodeCited(b.memories, e.id)
    ensures EpisodeValid(b, e) <==> ShowsObservations(db, a, subject, e.episode.observations)
  {
    assert EpisodeListed(db.episodes, db.outcomes, b.memories, e);
    var k :| 0 <= k < |b.episodes| && b.episodes[k] == e;
    assert IdsOf(EpisodeRows(b.episodes))[k] == e.id;
    CitedEpisode(db, a, subject, b.memories, e.id);
    ObservationsPass(db, a, subject, at, b);
    forall r | r in e.outcomes ensures r.value.episode == e.id {
      OutcomeOfEpisode(db, a, subject, at, b, e, r);
    }
  }

  lemma OutcomesDistinct(db: Db, a: Access, subject: Id, at: int, b: Bundle)
    requires VersionsBacked(db) && IsExport(db, a, subject, at, b)
    ensures Distinct(IdsOf(EpisodeRows(b.episodes))) && Distinct(IdsOf(AllOutcomes(b.episodes)))
  {
    EpisodesSelfSorted(b.episodes);
    var owners := map o | o in db.outcomes :: db.outcomes[o].episode;
    forall e, r | e in b.episodes && r in e.outcomes ensures r.id in owners && owners[r.id] == e.id {
      OutcomeOfEpisode(db, a, subject, at, b, e, r);
    }
    OutcomeIdsDistinct(b.episodes, owners);
  }

  /** The row of a cited episode in the export. */
  lemma EpisodeRow(db: Db, a: Access, subject: Id, at: int, b: Bundle, x: Id) returns (e: PortableEpisode)
    requires IsExport(db, a, subject, at, b) && EpisodeCited(b.memories, x)
    ensures e in b.episodes && e.id == x && EpisodeListed(db.episodes, db.outcomes, b.memories, e)
  {
    assert x in IdsOf(EpisodeRows(b.episodes));
    var k :| 0 <= k < |b.episodes| && IdsOf(EpisodeRows(b.episodes))[k] == x;
    e := b.episodes[k];
  }

  predicate EvidencesShown(db: Db, a: Access, subject: Id) {
    forall v :: v in db.versions && ShowsVersion(db, a, subject, v) && db.versions[v].payload.ExperientialPayload? ==>
      EvidenceShown(db, a, subject, db.versions[v].payload.evidence)
  }

  /** A shown version's evidence cites its episodes in the export. */
  lemma EvidenceCited(db: Db, a: Access, subject: Id, memories: seq<PortableMemory>, v: Id, e: LessonEvidence)
    requires Listed(db, a, subject, memories) && ShowsVersion(db, a, subject, v)
    requires db.versions[v].payload.ExperientialPayload? && e in db.versions[v].payload.evidence
    ensures EpisodeCited(memories, e.episode) && forall o :: o in e.outcomes ==> OutcomeCited(memories, e.episode, o)
  {
    var m, r := ShownRow(db, a, subject, memories, v);
    assert r in AllVersions(memories) && Cites(r, e.episode);
    forall o | o in e.outcomes ensures OutcomeCited(memories, e.episode, o) {
      assert CitesOutcome(r, e.episode, o);
    }
  }

  /** The observations of a cited episode are shown. */
  lemma CitedIsShown(db: Db, a: Access, subject: Id, memories: seq<PortableMemory>, x: Id)
    requires Listed(db, a, subject, memories) && EpisodeCited(memories, x) && x in db.episodes && EvidencesShown(db, a, subject)
    ensures ShowsObservations(db, a, subject, db.episodes[x].observations)
  {
    var r :| r in AllVersions(memories) && Cites(r, x);
    var m :| m in memories && r in m.versions;
    RowShown(db, a, subject, memories, m, r);
    var e :| e in r.value.payload.evidence && e.episode == x;
    assert EvidenceShown(db, a, subject, db.versions[r.id].payload.evidence);
  }

  lemma EpisodesPass(db: Db, a: Access, subject: Id, at: int, b: Bundle)
    requires ContentOk(db) && IsExport(db, a, subject, at, b) && EvidencesShown(db, a, subject)
    ensures EpisodesValid(b)
  {
    OutcomesDistinct(db, a, subject, at, b);
    forall x | x in b.episodes ensures EpisodeValid(b, x) {
      EpisodePassesIff(db, a, subject, at, b, x);
      CitedIsShown(db, a, subject, b.memories, x.id);
    }
  }

  lemma EpisodesPassed(db: Db, a: Access, subject: Id, at: int, b: Bundle)
    requires ContentOk(db) && IsExport(db, a, subject, at, b) && EpisodesValid(b)
    ensures EvidencesShown(db, a, subject)
  {
    forall v | v in db.versions && ShowsVersion(db, a, subject, v) && db.versions[v].payload.ExperientialPayload?
      ensures EvidenceShown(db, a, subject, db.versions[v].payload.evidence)
    {
      forall e | e in db.versions[v].payload.evidence && e.episode in db.episodes
        ensures ShowsObservations(db, a, subject, db.episodes[e.episode].observations)
      {
        EvidenceCited(db, a, subject, b.memories, v, e);
        var x := EpisodeRow(db, a, subject, at, b, e.episode);
        EpisodePassesIff(db, a, subject, at, b, x);
      }
    }
  }

  // ----- References -----

  lemma EvidenceInExport(db: Db, a: Access, subject: Id, at: int, b: Bundle, v: Id, e: LessonEvidence)
    requires VersionsBacked(db) && IsExport(db, a, subject, at, b) && ShowsVersion(db, a, subject, v)
    requires db.versions[v].payload.ExperientialPayload? && e in db.versions[v].payload.evidence
    ensures EvidenceInBundle(b, e)
  {
    OutcomesDistinct(db, a, subject, at, b);
    EvidenceCited(db, a, subject, b.memories, v, e);
    var x := EpisodeRow(db, a, subject, at, b, e.episode);
    assert Row(x.id, x.episode) in EpisodeRows(b.episodes);
    TableLookup(EpisodeRows(b.episodes), Row(x.id, x.episode));
    forall o | o in e.outcomes
      ensures o in Table(AllOutcomes(b.episodes)) && Table(AllOutcomes(b.episodes))[o].episode == e.episode
    {
      var r := IdOfRow(x.outcomes, o);
      assert r in AllOutcomes(b.episodes);
      TableLookup(AllOutcomes(b.episodes), r);
      OutcomeOfEpisode(db, a, subject, at, b, x, r);
    }
  }

  lemma PayloadPassesIff(db: Db, a: Access, subject: Id, at: int, b: Bundle, m: PortableMemory, r: Row<Version>)
    requires ContentOk(db) && IsExport(db, a, subject, at, b) && m in b.memories && r in m.versions
    ensures PayloadInBundle(b, m.memory, r.value.payload) <==>
      (r.value.payload.WorkingPayload? ==>
        && ShowsSet(db, a, subject, r.value.payload.workingSet)
        && ShowsObservations(db, a, subject, r.value.payload.compactedFrom))
  {
    RowShown(db, a, subject, b.memories, m, r);
    MemoryShown(db, a, subject, b.memories, m);
    assert Backed(db, db.memories[m.id], db.versions[r.id].payload);
    match r.value.payload {
      case FactualPayload(_, _, _, _, _) =>
      case ExperientialPayload(_, evidence) =>
        forall e | e in evidence ensures EvidenceInBundle(b, e) {
          EvidenceInExport(db, a, subject, at, b, r.id, e);
        }
      case WorkingPayload(id, _, _, _, _) =>
        ObservationsPass(db, a, subject, at, b);
        RowIds(b.workingSets, db.workingSets, VisibleSets(db.workingSets, a, subject));
    }
  }

  /** A stored parent may flow to its child. */
  lemma ParentFlows(db: Db, v: Id, p: Id)
    requires GraphOk(db) && ParentsLinked(db.versions, db.edges, db.operations)
    requires v in db.versions && p in db.versions[v].derivedFrom && p in db.versions
    ensures Edge(p, v) in db.edges
    ensures FlowAllowed(db.memories[db.versions[p].memory].scope, db.memories[db.versions[v].memory].scope)
  {
    assert Edge(p, v) in db.edges;
  }

  lemma ReferencesPassIff(db: Db, a: Access, subject: Id, at: int, b: Bundle, m: PortableMemory, r: Row<Version>)
    requires ExportReady(db) && IsExport(db, a, subject, at, b) && m in b.memories && r in m.versions
    ensures ReferencesValid(b, m, r.value) <==> SourcesShown(db, a, subject, r.value)
  {
    RowShown(db, a, subject, b.memories, m, r);
    MemoryShown(db, a, subject, b.memories, m);
    PayloadPassesIff(db, a, subject, at, b, m, r);
    ObservationsPass(db, a, subject, at, b);
    forall s | s in r.value.supersedes ensures s in OwnerMap(b.memories) && OwnerMap(b.memories)[s].id == m.id {
      OwnerIsMemory(db, a, subject, b.memories, s);
    }
    forall p | p in r.value.derivedFrom
      ensures ShowsVersion(db, a, subject, p) <==>
        p in OwnerMap(b.memories) && FlowAllowed(OwnerMap(b.memories)[p].value.scope, m.memory.scope)
    {
      OwnerIsMemory(db, a, subject, b.memories, p);
      if ShowsVersion(db, a, subject, p) {
        ParentFlows(db, r.id, p);
      }
    }
  }

  // ----- The graph -----

  predicate ParentsShown(db: Db, a: Access, subject: Id) {
    forall v :: v in db.versions && ShowsVersion(db, a, subject, v) ==>
      forall p :: p in db.versions[v].derivedFrom ==> ShowsVersion(db, a, subject, p)
  }

  lemma EdgeStored(db: Db, a: Access, subject: Id, memories: seq<PortableMemory>, e: Edge)
    requires ExportReady(db) && Listed(db, a, subject, memories) && ParentsShown(db, a, subject)
    requires e in VersionEdges(AllVersions(memories))
    ensures e in db.edges
  {
    var r, p :| r in AllVersions(memories) && p in r.value.derivedFrom && e == Edge(p, r.id);
    var m :| m in memories && r in m.versions;
    RowShown(db, a, subject, memories, m, r);
    assert ShowsVersion(db, a, subject, p);
    ParentFlows(db, r.id, p);
  }

  /** With every parent shown, the bundle's dependencies are edges of the store, so they close no cycle. */
  lemma GraphPasses(db: Db, a: Access, subject: Id, memories: seq<PortableMemory>)
    requires ExportReady(db) && Listed(db, a, subject, memories) && ParentsShown(db, a, subject)
    requires Distinct(IdsOf(AllVersions(memories)))
    ensures Acyclic(DependencyEdges(DependencyMap(AllVersions(memories))))
  {
    EdgesChecked(AllVersions(memories));
    forall e | e in VersionEdges(AllVersions(memories)) ensures e in db.edges {
      EdgeStored(db, a, subject, memories, e);
    }
    AcyclicSubset(VersionEdges(AllVersions(memories)), db.edges);
  }

  // ----- The check passes exactly on closed tables -----

  lemma SelfContainedIsValid(db: Db, a: Access, subject: Id, at: int, b: Bundle)
    requires ExportReady(db) && AccessComplete(a, subject) && IsExport(db, a, subject, at, b) && SelfContained(db, a, subject)
    ensures ValidBundle(b)
  {
    HeaderPasses(a, subject, at, b);
    ObservationsPass(db, a, subject, at, b);
    EpisodesPass(db, a, subject, at, b);
    SetsPassIff(db, a, subject, at, b);
    MemoriesPass(db, a, subject, at, b);
    forall m, r | m in b.memories && r in m.versions ensures ReferencesValid(b, m, r.value) {
      RowShown(db, a, subject, b.memories, m, r);
      ReferencesPassIff(db, a, subject, at, b, m, r);
    }
    GraphPasses(db, a, subject, b.memories);
  }

  lemma ValidIsSelfContained(db: Db, a: Access, subject: Id, at: int, b: Bundle)
    requires ExportReady(db) && IsExport(db, a, subject, at, b) && ValidBundle(b)
    ensures SelfContained(db, a, subject)
  {
    EpisodesPassed(db, a, subject, at, b);
    SetsPassIff(db, a, subject, at, b);
    forall v | v in db.versions && ShowsVersion(db, a, subject, v) ensures Enclosed(db, a, subject, db.versions[v]) {
      var m, r := ShownRow(db, a, subject, b.memories, v);
      ReferencesPassIff(db, a, subject, at, b, m, r);
    }
  }

  // ----- There is an export -----

  lemma ListsOneMore<T(!new)>(less: (T, T) -> bool, x: T, s: seq<T>, elements: set<T>)
    requires x in elements && ListsBy(less, s, elements - {x})
    requires forall y :: y in elements ==> y == x || less(x, y)
    ensures ListsBy(less, [x] + s, elements)
  {
    var all := [x] + s;
    forall i, j | 0 <= i < j < |all| ensures less(all[i], all[j]) {
      assert all[j] == s[j - 1] && s[j - 1] in s;
      if i > 0 {
        assert all[i] == s[i - 1];
      }
    }
  }

  ghost function Listing<T(!new)>(less: (T, T) -> bool, elements: set<T>): (s: seq<T>)
    requires OrderOn(less, elements)
    ensures ListsBy(less, s, elements)
    decreases |elements|
  {
    if elements == {} then
      []
    else
      LeastExists(less, elements);
      var x :| x in elements && forall y :: y in elements ==> y == x || less(x, y);
      var rest := Listing(less, elements - {x});
      ListsOneMore(less, x, rest, elements);
      [x] + rest
  }

  ghost function RowListing<T(!new)>(table: map<Id, T>, ids: set<Id>): (rows: seq<Row<T>>)
    requires ids <= table.Keys
    ensures RowsListed(rows, table, ids)
  {
    IdsOrdered(ids);
    var order := Listing(Less, ids);
    assert forall i :: 0 <= i < |order| ==> order[i] in order;
    var rows := seq(|order|, i requires 0 <= i < |order| => Row(order[i], table[order[i]]));
    assert IdsOf(rows) == order;
    rows
  }

  ghost function VersionListing(versions: map<Id, Version>, memory: Id): (rows: seq<Row<Version>>)
    ensures ListsBy(VersionBefore, rows, VersionRows(versions, memory))
  {
    VersionRowsOrdered(versions, memory);
    Listing(VersionBefore, VersionRows(versions, memory))
  }

  ghost function MemoryListing(table: map<Id, Memory>, versions: map<Id, Version>, ids: set<Id>): (memories: seq<PortableMemory>)
    requires ids <= table.Keys
    ensures MemoriesListed(table, versions, ids, memories)
  {
    var rows := RowListing(table, ids);
    var memories := seq(|rows|, i requires 0 <= i < |rows| =>
      PortableMemory(rows[i].id, rows[i].value, VersionListing(versions, rows[i].id)));
    assert MemoryRows(memories) == rows;
    assert forall i :: 0 <= i < |rows| ==> rows[i] in rows;
    memories
  }

  function CitedEpisodes(rows: seq<Row<Version>>): (ids: set<Id>)
    ensures forall x :: x in ids <==> exists r :: r in rows && Cites(r, x)
  {
    set r, e | r in rows && r.value.payload.ExperientialPayload? && e in r.value.payload.evidence :: e.episode
  }

  function CitedOutcomes(rows: seq<Row<Version>>, episode: Id): (ids: set<Id>)
    ensures forall o :: o in ids <==> exists r :: r in rows && CitesOutcome(r, episode, o)
  {
    set r, e, o | r in rows && r.value.payload.ExperientialPayload? && e in r.value.payload.evidence
                  && e.episode == episode && o in e.outcomes :: o
  }

  ghost function EpisodeListing(outcomes: map<Id, Outcome>, memories: seq<PortableMemory>, r: Row<Episode>): (e: PortableEpisode)
    requires CitedOutcomes(AllVersions(memories), r.id) <= outcomes.Keys
    ensures e.id == r.id && e.episode == r.value
    ensures forall table :: r.id in table && table[r.id] == r.value ==> EpisodeListed(table, outcomes, memories, e)
  {
    PortableEpisode(r.id, r.value, RowListing(outcomes, CitedOutcomes(AllVersions(memories), r.id)))
  }

  lemma EpisodesFrom(table: map<Id, Episode>, outcomes: map<Id, Outcome>, memories: seq<PortableMemory>, rows: seq<Row<Episode>>)
    returns (episodes: seq<PortableEpisode>)
    requires RowsListed(rows, table, CitedEpisodes(AllVersions(memories)))
    requires forall r :: r in rows ==> CitedOutcomes(AllVersions(memories), r.id) <= outcomes.Keys
    ensures EpisodesListed(table, outcomes, memories, episodes)
  {
    assert forall i :: 0 <= i < |rows| ==> rows[i] in rows;
    episodes := seq(|rows|, i requires 0 <= i < |rows| => EpisodeListing(outcomes, memories, rows[i]));
    assert EpisodeRows(episodes) == rows;
  }

  lemma CitedStored(db: Db, a: Access, subject: Id, memories: seq<PortableMemory>)
    requires VersionsBacked(db) && Listed(db, a, subject, memories)
    ensures CitedEpisodes(AllVersions(memories)) <= db.episodes.Keys
    ensures forall x :: CitedOutcomes(AllVersions(memories), x) <= db.outcomes.Keys
  {
    forall x | x in CitedEpisodes(AllVersions(memories)) ensures x in db.episodes {
      CitedEpisode(db, a, subject, memories, x);
    }
    forall x, o | o in CitedOutcomes(AllVersions(memories), x) ensures o in db.outcomes {
      CitedOutcome(db, a, subject, memories, x, o);
    }
  }

  lemma EpisodesExist(db: Db, a: Access, subject: Id, memories: seq<PortableMemory>) returns (episodes: seq<PortableEpisode>)
    requires VersionsBacked(db) && Listed(db, a, subject, memories)
    ensures EpisodesListed(db.episodes, db.outcomes, memories, episodes)
  {
    CitedStored(db, a, subject, memories);
    var rows := RowListing(db.episodes, CitedEpisodes(AllVersions(memories)));
    episodes := EpisodesFrom(db.episodes, db.outcomes, memories, rows);
  }

  /** Where evidence is stored, the visible rows of a subject always make a bundle. */
  lemma ExportExists(db: Db, a: Access, subject: Id, at: int)
    requires VersionsBacked(db)
    ensures exists b :: IsExport(db, a, subject, at, b)
  {
    IdsOrdered(Elements(a.privateOwners));
    var memories := MemoryListing(db.memories, db.versions, VisibleMemories(db.memories, db.versions, a, subject));
    var episodes := EpisodesExist(db, a, subject, memories);
    var b := Bundle(FORMAT, SCHEMA_VERSION, at, a.namespace, subject, Listing(Less, Elements(a.privateOwners)),
                    a.allowShared, a.allowPublic,
                    RowListing(db.observations, VisibleObservations(db.observations, a, subject)), episodes,
                    RowListing(db.workingSets, VisibleSets(db.workingSets, a, subject)), memories);
    assert IsExport(db, a, subject, at, b);
  }

  /**
   * Of what native runs leave, an export succeeds if and only if what is shown refers only to
   * what is stored and shown, and no shown working set was last written before it was made.
   */
  lemma ExportSucceedsIff(db: Db, a: Access, subject: Id, at: int)
    requires ExportReady(db) && AccessComplete(a, subject)
    ensures (exists b :: IsExport(db, a, subject, at, b) && ValidBundle(b)) <==> SelfContained(db, a, subject)
  {
    ExportExists(db, a, subject, at);
    var b :| IsExport(db, a, subject, at, b);
    if SelfContained(db, a, subject) {
      SelfContainedIsValid(db, a, subject, at, b);
    }
    forall c | IsExport(db, a, subject, at, c) && ValidBundle(c) ensures SelfContained(db, a, subject) {
      ValidIsSelfContained(db, a, subject, at, c);
    }
  }
}
