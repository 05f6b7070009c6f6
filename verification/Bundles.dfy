// The portable subject bundle and the check every export and import passes through.
module Bundles {
  import opened Ids
  import opened Graph
  import opened Domain
  import opened Database
  import opened CycleCheck
  import opened WorkingSets

  const FORMAT := "memxplore.subject-export"
  const SCHEMA_VERSION := 1

  datatype Row<T> = Row(id: Id, value: T)

  datatype PortableEpisode = PortableEpisode(id: Id, episode: Episode, outcomes: seq<Row<Outcome>>)

  datatype PortableMemory = PortableMemory(id: Id, memory: Memory, versions: seq<Row<Version>>)

  datatype Bundle = Bundle(
    format: string,
    schemaVersion: int,
    exportedAt: int,
    namespace: Id,
    subject: Id,
    privateOwners: seq<Id>,
    includeShared: bool,
    includePublic: bool,
    observations: seq<Row<Observation>>,
    episodes: seq<PortableEpisode>,
    workingSets: seq<Row<WorkingSet>>,
    memories: seq<PortableMemory>)

  function IdsOf<T>(rows: seq<Row<T>>): (ids: seq<Id>)
    ensures |ids| == |rows| && forall i :: 0 <= i < |rows| ==> ids[i] == rows[i].id
  {
    seq(|rows|, i requires 0 <= i < |rows| => rows[i].id)
  }

  function EpisodeRows(episodes: seq<PortableEpisode>): (rows: seq<Row<Episode>>)
    ensures |rows| == |episodes|
    ensures forall i :: 0 <= i < |rows| ==> rows[i] == Row(episodes[i].id, episodes[i].episode)
  {
    seq(|episodes|, i requires 0 <= i < |episodes| => Row(episodes[i].id, episodes[i].episode))
  }

  function MemoryRows(memories: seq<PortableMemory>): (rows: seq<Row<Memory>>)
    ensures |rows| == |memories|
    ensures forall i :: 0 <= i < |rows| ==> rows[i] == Row(memories[i].id, memories[i].memory)
  {
    seq(|memories|, i requires 0 <= i < |memories| => Row(memories[i].id, memories[i].memory))
  }

  function AllOutcomes(episodes: seq<PortableEpisode>): (rows: seq<Row<Outcome>>)
    ensures forall r :: r in rows <==> exists e :: e in episodes && r in e.outcomes
  {
    if episodes == [] then
      []
    else
      var last := episodes[|episodes| - 1];
      assert episodes == episodes[..|episodes| - 1] + [last];
      AllOutcomes(episodes[..|episodes| - 1]) + last.outcomes
  }

  function AllVersions(memories: seq<PortableMemory>): (rows: seq<Row<Version>>)
    ensures forall r :: r in rows <==> exists m :: m in memories && r in m.versions
  {
    if memories == [] then
      []
    else
      var last := memories[|memories| - 1];
      assert memories == memories[..|memories| - 1] + [last];
      AllVersions(memories[..|memories| - 1]) + last.versions
  }

  /** Rows inserted one after the other into an empty table. */
  function Table<T>(rows: seq<Row<T>>): (table: map<Id, T>)
    ensures table.Keys == Elements(IdsOf(rows))
  {
    if rows == [] then
      map[]
    else
      var last := rows[|rows| - 1];
      assert IdsOf(rows) == IdsOf(rows[..|rows| - 1]) + [last.id];
      Table(rows[..|rows| - 1])[last.id := last.value]
  }

  lemma {:induction false} TableLookup<T>(rows: seq<Row<T>>, r: Row<T>)
    requires Distinct(IdsOf(rows)) && r in rows
    ensures r.id in Table(rows) && Table(rows)[r.id] == r.value
  {
    var last := rows[|rows| - 1];
    var i :| 0 <= i < |rows| && rows[i] == r;
    assert IdsOf(rows)[i] == r.id;
    if i < |rows| - 1 {
      var front := rows[..|rows| - 1];
      assert IdsOf(rows)[|rows| - 1] == last.id;
      assert IdsOf(front) == IdsOf(rows)[..|rows| - 1];
      assert front[i] == r;
      TableLookup(front, r);
    }
  }

  lemma {:induction false} TableRow<T>(rows: seq<Row<T>>, id: Id) returns (r: Row<T>)
    requires id in Table(rows)
    ensures r in rows && r.id == id && Table(rows)[id] == r.value
  {
    r := rows[|rows| - 1];
    if r.id != id {
      r := TableRow(rows[..|rows| - 1], id);
    }
  }

  function DependencyMap(rows: seq<Row<Version>>): (deps: map<Id, seq<Id>>) {
    if rows == [] then
      map[]
    else
      DependencyMap(rows[..|rows| - 1])[rows[|rows| - 1].id := rows[|rows| - 1].value.derivedFrom]
  }

  /** For each version id, the memory that holds it. */
  function OwnerMap(memories: seq<PortableMemory>): (owners: map<Id, Row<Memory>>) {
    if memories == [] then
      map[]
    else
      var last := memories[|memories| - 1];
      OwnerMap(memories[..|memories| - 1]) + map v | v in IdsOf(last.versions) :: Row(last.id, last.memory)
  }

  // ----- The check, section by section -----

  predicate InScope(b: Bundle, s: Scope) {
    && s.namespace == b.namespace
    && s.subject == b.subject
    && match s.visibility
       case Private => s.owner in b.privateOwners
       case Shared => b.includeShared
       case Public => b.includePublic
  }

  predicate HeaderValid(b: Bundle) {
    && b.format == FORMAT
    && b.schemaVersion == SCHEMA_VERSION
    && b.namespace != NO_ID
    && b.subject != NO_ID
    && b.privateOwners != []
    && NO_ID !in b.privateOwners
    && Distinct(b.privateOwners)
  }

  predicate ObservationsValid(b: Bundle) {
    && (forall r :: r in b.observations ==> InScope(b, r.value.scope))
    && Distinct(IdsOf(b.observations))
  }

  predicate EpisodeValid(b: Bundle, e: PortableEpisode) {
    && e.id != NO_ID
    && e.episode.namespace == b.namespace
    && e.episode.subject == b.subject
    && e.episode.startedAt < e.episode.endedAt
    && (forall o :: o in e.episode.observations ==> o in IdsOf(b.observations))
    && forall r :: r in e.outcomes ==> r.value.episode == e.id
  }

  predicate EpisodesValid(b: Bundle) {
    && (forall e :: e in b.episodes ==> EpisodeValid(b, e))
    && Distinct(IdsOf(EpisodeRows(b.episodes)))
    && Distinct(IdsOf(AllOutcomes(b.episodes)))
  }

  predicate SetsValid(b: Bundle) {
    && (forall r :: r in b.workingSets ==> ValidSet(r.id, r.value) && InScope(b, r.value.scope))
    && Distinct(IdsOf(b.workingSets))
  }

  predicate VersionValid(m: PortableMemory, r: Row<Version>) {
    && r.value.memory == m.id
    && r.value.number >= 1
    && r.value.validTime.Valid()
    && r.value.systemTime.Valid()
    && r.value.provenance != []
    && PayloadFits(r.value.payload, m.memory.memoryFunction)
  }

  predicate MemoryValid(b: Bundle, m: PortableMemory) {
    && m.memory.currentVersion >= 1
    && InScope(b, m.memory.scope)
    && m.versions != []
    && (forall r :: r in m.versions ==> VersionValid(m, r))
    && (forall i, j :: 0 <= i < j < |m.versions| ==> m.versions[i].value.number != m.versions[j].value.number)
    && exists i :: 0 <= i < |m.versions| && m.versions[i].value.number == m.memory.currentVersion
  }

  predicate MemoriesValid(b: Bundle) {
    && (forall m :: m in b.memories ==> MemoryValid(b, m))
    && Distinct(IdsOf(MemoryRows(b.memories)))
    && Distinct(IdsOf(AllVersions(b.memories)))
  }

  predicate EvidenceInBundle(b: Bundle, e: LessonEvidence) {
    && e.episode in Table(EpisodeRows(b.episodes))
    && forall o :: o in e.outcomes ==>
         o in Table(AllOutcomes(b.episodes)) && Table(AllOutcomes(b.episodes))[o].episode == e.episode
  }

  predicate PayloadInBundle(b: Bundle, m: Memory, p: Payload) {
    match p
    case FactualPayload(claimSubject, _, _, _, _) => claimSubject == b.subject
    case ExperientialPayload(_, evidence) => forall e :: e in evidence ==> EvidenceInBundle(b, e)
    case WorkingPayload(id, task, _, _, compactedFrom) =>
      && id in Table(b.workingSets)
      && Table(b.workingSets)[id].task == task
      && m.scope.context == task
      && forall o :: o in compactedFrom ==> o in IdsOf(b.observations)
  }

  /** Every reference one version makes is answered inside the bundle. */
  predicate ReferencesValid(b: Bundle, m: PortableMemory, v: Version) {
    && PayloadInBundle(b, m.memory, v.payload)
    && (forall o :: o in v.provenance ==> o in IdsOf(b.observations))
    && (forall s :: s in v.supersedes ==> s in OwnerMap(b.memories) && OwnerMap(b.memories)[s].id == m.id)
    && forall p :: p in v.derivedFrom ==>
         p in OwnerMap(b.memories) && FlowAllowed(OwnerMap(b.memories)[p].value.scope, m.memory.scope)
  }

  ghost predicate ValidBundle(b: Bundle) {
    && HeaderValid(b)
    && ObservationsValid(b)
    && EpisodesValid(b)
    && SetsValid(b)
    && MemoriesValid(b)
    && (forall m, r :: m in b.memories && r in m.versions ==> ReferencesValid(b, m, r.value))
    && Acyclic(DependencyEdges(DependencyMap(AllVersions(b.memories))))
  }

  // ----- Running the check -----

  method CheckDistinct(ids: seq<Id>) returns (ok: bool)
    ensures ok <==> Distinct(ids)
  {
    var seen: set<Id> := {};
    for i := 0 to |ids|
      invariant forall x :: x in seen <==> x in ids[..i]
      invariant Distinct(ids[..i])
    {
      if ids[i] in seen {
        assert exists k :: 0 <= k < i && ids[k] == ids[i];
        return false;
      }
      seen := seen + {ids[i]};
    }
    assert ids[..|ids|] == ids;
    return true;
  }

  method ValidateObservations(b: Bundle) returns (ok: bool)
    ensures ok <==> ObservationsValid(b)
  {
    for i := 0 to |b.observations|
      invariant forall k :: 0 <= k < i ==> InScope(b, b.observations[k].value.scope)
    {
      if !InScope(b, b.observations[i].value.scope) {
        assert b.observations[i] in b.observations;
        return false;
      }
    }
    ok := CheckDistinct(IdsOf(b.observations));
  }

  method ValidateEpisodes(b: Bundle) returns (ok: bool)
    ensures ok <==> EpisodesValid(b)
  {
    var outcomes: seq<Row<Outcome>> := [];
    for i := 0 to |b.episodes|
      invariant forall k :: 0 <= k < i ==> EpisodeValid(b, b.episodes[k])
      invariant outcomes == AllOutcomes(b.episodes[..i])
    {
      if !EpisodeValid(b, b.episodes[i]) {
        assert b.episodes[i] in b.episodes;
        return false;
      }
      assert b.episodes[..i + 1][..i] == b.episodes[..i];
      outcomes := outcomes + b.episodes[i].outcomes;
    }
    assert b.episodes[..|b.episodes|] == b.episodes;
    var distinct := CheckDistinct(IdsOf(EpisodeRows(b.episodes)));
    ok := CheckDistinct(IdsOf(outcomes));
    ok := ok && distinct;
  }

  method ValidateSets(b: Bundle) returns (ok: bool)
    ensures ok <==> SetsValid(b)
  {
    for i := 0 to |b.workingSets|
      invariant forall k :: 0 <= k < i ==>
        ValidSet(b.workingSets[k].id, b.workingSets[k].value) && InScope(b, b.workingSets[k].value.scope)
    {
      var r := b.workingSets[i];
      if !ValidSet(r.id, r.value) || !InScope(b, r.value.scope) {
        assert r in b.workingSets;
        return false;
      }
    }
    ok := CheckDistinct(IdsOf(b.workingSets));
  }

  method ValidateMemory(b: Bundle, m: PortableMemory) returns (ok: bool)
    ensures ok <==> MemoryValid(b, m)
  {
    if m.memory.currentVersion < 1 || !InScope(b, m.memory.scope) || |m.versions| == 0 {
      return false;
    }
    var currentFound := false;
    var numbers: set<nat> := {};
    for i := 0 to |m.versions|
      invariant forall k :: 0 <= k < i ==> VersionValid(m, m.versions[k])
      invariant forall j, k :: 0 <= j < k < i ==> m.versions[j].value.number != m.versions[k].value.number
      invariant forall n :: n in numbers <==> exists k :: 0 <= k < i && m.versions[k].value.number == n
      invariant currentFound <==> exists k :: 0 <= k < i && m.versions[k].value.number == m.memory.currentVersion
    {
      var r := m.versions[i];
      if !VersionValid(m, r) {
        assert r in m.versions;
        return false;
      }
      if r.value.number in numbers {
        return false;
      }
      numbers := numbers + {r.value.number};
      currentFound := currentFound || r.value.number == m.memory.currentVersion;
    }
    return currentFound;
  }

  method AddDependencies(before: seq<Row<Version>>, known: map<Id, seq<Id>>, rows: seq<Row<Version>>) returns (deps: map<Id, seq<Id>>)
    requires known == DependencyMap(before)
    ensures deps == DependencyMap(before + rows)
  {
    deps := known;
    assert before + rows[..0] == before;
    for j := 0 to |rows|
      invariant deps == DependencyMap(before + rows[..j])
    {
      assert (before + rows[..j + 1])[..|before| + j] == before + rows[..j];
      deps := deps[rows[j].id := rows[j].value.derivedFrom];
    }
    assert rows[..|rows|] == rows;
  }

  /** Collects the versions of every memory and the map that the cycle check reads. */
  method CollectVersions(memories: seq<PortableMemory>) returns (versions: seq<Row<Version>>, deps: map<Id, seq<Id>>)
    ensures versions == AllVersions(memories)
    ensures deps == DependencyMap(versions)
  {
    versions, deps := [], map[];
    for i := 0 to |memories|
      invariant versions == AllVersions(memories[..i])
      invariant deps == DependencyMap(versions)
    {
      assert memories[..i + 1][..i] == memories[..i];
      deps := AddDependencies(versions, deps, memories[i].versions);
      versions := versions + memories[i].versions;
    }
    assert memories[..|memories|] == memories;
  }

  method ValidateMemories(b: Bundle) returns (ok: bool, deps: map<Id, seq<Id>>)
    ensures ok <==> MemoriesValid(b)
    ensures ok ==> deps == DependencyMap(AllVersions(b.memories))
  {
    var versions;
    versions, deps := CollectVersions(b.memories);
    var distinct := CheckDistinct(IdsOf(MemoryRows(b.memories)));
    ok := CheckDistinct(IdsOf(versions));
    if !ok || !distinct {
      return false, deps;
    }
    for i := 0 to |b.memories|
      invariant forall k :: 0 <= k < i ==> MemoryValid(b, b.memories[k])
    {
      var valid := ValidateMemory(b, b.memories[i]);
      if !valid {
        assert b.memories[i] in b.memories;
        return false, deps;
      }
    }
  }

  method ValidateReferences(b: Bundle) returns (ok: bool)
    ensures ok <==> forall m, r :: m in b.memories && r in m.versions ==> ReferencesValid(b, m, r.value)
  {
    for i := 0 to |b.memories|
      invariant forall k, r :: 0 <= k < i && r in b.memories[k].versions ==> ReferencesValid(b, b.memories[k], r.value)
    {
      var m := b.memories[i];
      for j := 0 to |m.versions|
        invariant forall k :: 0 <= k < j ==> ReferencesValid(b, m, m.versions[k].value)
      {
        if !ReferencesValid(b, m, m.versions[j].value) {
          assert m in b.memories && m.versions[j] in m.versions;
          return false;
        }
      }
    }
    return true;
  }

  /** Accepts a bundle exactly when it is self-contained, authorized, and acyclic. */
  method Validate(b: Bundle) returns (ok: bool)
    ensures ok <==> ValidBundle(b)
  {
    if !HeaderValid(b) {
      return false;
    }
    ok := ValidateObservations(b);
    if !ok {
      return;
    }
    ok := ValidateEpisodes(b);
    if !ok {
      return;
    }
    ok := ValidateSets(b);
    if !ok {
      return;
    }
    var deps;
    ok, deps := ValidateMemories(b);
    if !ok {
      return;
    }
    ok := ValidateReferences(b);
    if !ok {
      return;
    }
    var cyclic := ValidateDependencyGraph(deps);
    return !cyclic;
  }
}
