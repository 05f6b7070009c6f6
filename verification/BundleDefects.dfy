// What makes a bundle unfit, defect by defect, in terms of its rows alone. A bundle is refused
// if and only if it has one of them.
module BundleDefects {
  import opened Ids
  import opened Graph
  import opened Domain
  import opened Database
  import opened Lifecycle
  import opened WorkingSets
  import opened CycleCheck
  import opened Bundles
  import opened Portable
  import opened PortableProofs
  import opened ExportSuccess

  // ----- The defects -----

  predicate Repeats(ids: seq<Id>) {
    exists i, j :: 0 <= i < j < |ids| && ids[i] == ids[j]
  }

  predicate HeaderDefect(b: Bundle) {
    || b.format != "memxplore.subject-export" || b.schemaVersion != 1
    || b.namespace == NO_ID || b.subject == NO_ID
    || |b.privateOwners| == 0 || NO_ID in b.privateOwners || Repeats(b.privateOwners)
  }

  /** A row of another namespace or subject, or one that the bundle's grants do not cover. */
  predicate OutOfScope(b: Bundle, s: Scope) {
    || s.namespace != b.namespace || s.subject != b.subject
    || (s.visibility == Private && s.owner !in b.privateOwners)
    || (s.visibility == Shared && !b.includeShared)
    || (s.visibility == Public && !b.includePublic)
  }

  predicate ScopeDefect(b: Bundle) {
    || (exists r :: r in b.observations && OutOfScope(b, r.value.scope))
    || (exists r :: r in b.workingSets && OutOfScope(b, r.value.scope))
    || (exists m :: m in b.memories && OutOfScope(b, m.memory.scope))
  }

  /** Two rows of one kind under one id. */
  predicate IdDefect(b: Bundle) {
    || Repeats(IdsOf(b.observations)) || Repeats(IdsOf(b.workingSets))
    || Repeats(IdsOf(EpisodeRows(b.episodes))) || Repeats(IdsOf(AllOutcomes(b.episodes)))
    || Repeats(IdsOf(MemoryRows(b.memories))) || Repeats(IdsOf(AllVersions(b.memories)))
  }

  predicate SetDefect(r: Row<WorkingSet>) {
    || r.id == NO_ID || r.value.task == NO_ID
    || r.value.updatedAt < r.value.createdAt
    || (r.value.expiresAt.Some? && r.value.expiresAt.value <= r.value.createdAt)
  }

  /** No observation row of the bundle has this id. */
  predicate Unobserved(b: Bundle, o: Id) {
    forall r :: r in b.observations ==> r.id != o
  }

  predicate EpisodeDefect(b: Bundle, e: PortableEpisode) {
    || e.id == NO_ID
    || e.episode.namespace != b.namespace || e.episode.subject != b.subject
    || e.episode.endedAt <= e.episode.startedAt
    || (exists o :: o in e.episode.observations && Unobserved(b, o))
    || (exists r :: r in e.outcomes && r.value.episode != e.id)
  }

  predicate EmptyRange(t: TimeRange) {
    t.to.Some? && t.to.value <= t.from
  }

  predicate PayloadDefect(f: MemoryFunction, p: Payload) {
    match p
    case FactualPayload(_, _, _, _, confidence) => f != Factual || (confidence.Some? && (confidence.value < 0.0 || 1.0 < confidence.value))
    case ExperientialPayload(_, evidence) => f != Experiential || evidence == [] || exists e :: e in evidence && e.outcomes == []
    case WorkingPayload(_, _, _, _, _) => f != Working
  }

  predicate VersionDefect(m: PortableMemory, r: Row<Version>) {
    || r.value.memory != m.id || r.value.number == 0
    || EmptyRange(r.value.validTime) || EmptyRange(r.value.systemTime)
    || r.value.provenance == []
    || PayloadDefect(m.memory.memoryFunction, r.value.payload)
  }

  /** A memory without a head, with a number used twice, or with an unfit version. */
  predicate MemoryDefect(m: PortableMemory) {
    || m.memory.currentVersion == 0
    || (forall r :: r in m.versions ==> r.value.number != m.memory.currentVersion)
    || (exists i, j :: 0 <= i < j < |m.versions| && m.versions[i].value.number == m.versions[j].value.number)
    || (exists r :: r in m.versions && VersionDefect(m, r))
  }

  /** Evidence whose episode is not in the bundle, or whose outcome is not there under that episode. */
  predicate EvidenceDefect(b: Bundle, e: LessonEvidence) {
    || (forall x :: x in b.episodes ==> x.id != e.episode)
    || (exists o :: o in e.outcomes &&
         forall r :: r in AllOutcomes(b.episodes) ==> r.id != o || r.value.episode != e.episode)
  }

  predicate PayloadReferenceDefect(b: Bundle, m: Memory, p: Payload) {
    match p
    case FactualPayload(claimSubject, _, _, _, _) => claimSubject != b.subject
    case ExperientialPayload(_, evidence) => exists e :: e in evidence && EvidenceDefect(b, e)
    case WorkingPayload(id, task, _, _, compactedFrom) =>
      || m.scope.context != task
      || (forall r :: r in b.workingSets ==> r.id != id || r.value.task != task)
      || (exists o :: o in compactedFrom && Unobserved(b, o))
  }

  /** p is a version of the bundle, held by a memory that may flow into scope. */
  predicate ParentInBundle(b: Bundle, scope: Scope, p: Id) {
    exists m, r :: m in b.memories && r in m.versions && r.id == p && !FlowRefused(m.memory.scope, scope)
  }

  predicate ReferenceDefect(b: Bundle, m: PortableMemory, v: Version) {
    || PayloadReferenceDefect(b, m.memory, v.payload)
    || (exists o :: o in v.provenance && Unobserved(b, o))
    || (exists s :: s in v.supersedes && forall r :: r in m.versions ==> r.id != s)
    || (exists p :: p in v.derivedFrom && !ParentInBundle(b, m.memory.scope, p))
  }

  /** Some version of the bundle is, along its derivations, a parent of itself. */
  ghost predicate CycleDefect(b: Bundle) {
    exists v :: Reaches(VersionEdges(AllVersions(b.memories)), v, v)
  }

  /** Some row is unfit by itself, out of scope, or under an id that is used twice. */
  predicate RowDefect(b: Bundle) {
    || ScopeDefect(b) || IdDefect(b)
    || (exists r :: r in b.workingSets && SetDefect(r))
    || (exists e :: e in b.episodes && EpisodeDefect(b, e))
    || (exists m :: m in b.memories && MemoryDefect(m))
  }

  ghost predicate Defective(b: Bundle) {
    || HeaderDefect(b)
    || RowDefect(b)
    || (exists m, r :: m in b.memories && r in m.versions && ReferenceDefect(b, m, r.value))
    || CycleDefect(b)
  }

  // ----- Each check finds its defects -----

  lemma Observed(b: Bundle, o: Id)
    ensures o in IdsOf(b.observations) <==> !Unobserved(b, o)
  {
    if o in IdsOf(b.observations) {
      var r := IdOfRow(b.observations, o);
    }
    if r :| r in b.observations && r.id == o {
      var k :| 0 <= k < |b.observations| && b.observations[k] == r;
      assert IdsOf(b.observations)[k] == o;
    }
  }

  lemma HeaderExact(b: Bundle)
    ensures HeaderValid(b) <==> !HeaderDefect(b)
  {
  }

  lemma ScopesExact(b: Bundle, s: Scope)
    ensures InScope(b, s) <==> !OutOfScope(b, s)
  {
  }

  lemma EpisodeExact(b: Bundle, e: PortableEpisode)
    ensures EpisodeValid(b, e) <==> !EpisodeDefect(b, e)
  {
    forall o ensures o in IdsOf(b.observations) <==> !Unobserved(b, o) {
      Observed(b, o);
    }
  }

  lemma VersionExact(m: PortableMemory, r: Row<Version>)
    ensures VersionValid(m, r) <==> !VersionDefect(m, r)
  {
  }

  lemma MemoryExact(b: Bundle, m: PortableMemory)
    ensures MemoryValid(b, m) <==> !OutOfScope(b, m.memory.scope) && !MemoryDefect(m)
  {
    ScopesExact(b, m.memory.scope);
    forall r | r in m.versions ensures VersionValid(m, r) <==> !VersionDefect(m, r) {
      VersionExact(m, r);
    }
    if !MemoryDefect(m) {
      var r :| r in m.versions && r.value.number == m.memory.currentVersion;
      var k :| 0 <= k < |m.versions| && m.versions[k] == r;
    }
  }

  lemma EpisodeKnown(b: Bundle, x: Id)
    ensures x in Table(EpisodeRows(b.episodes)) <==> exists e :: e in b.episodes && e.id == x
  {
    if x in Table(EpisodeRows(b.episodes)) {
      var r := TableRow(EpisodeRows(b.episodes), x);
      var k :| 0 <= k < |b.episodes| && EpisodeRows(b.episodes)[k] == r;
      assert b.episodes[k] in b.episodes;
    }
    if e :| e in b.episodes && e.id == x {
      var k :| 0 <= k < |b.episodes| && b.episodes[k] == e;
      assert IdsOf(EpisodeRows(b.episodes))[k] == x;
    }
  }

  lemma EvidenceExact(b: Bundle, e: LessonEvidence)
    requires Distinct(IdsOf(AllOutcomes(b.episodes)))
    ensures EvidenceInBundle(b, e) <==> !EvidenceDefect(b, e)
  {
    var rows := AllOutcomes(b.episodes);
    EpisodeKnown(b, e.episode);
    forall o | o in e.outcomes
      ensures o in Table(rows) && Table(rows)[o].episode == e.episode <==> exists r :: r in rows && r.id == o && r.value.episode == e.episode
    {
      if o in Table(rows) {
        var r := TableRow(rows, o);
      }
      if r :| r in rows && r.id == o && r.value.episode == e.episode {
        TableLookup(rows, r);
      }
    }
  }

  lemma SetKnown(b: Bundle, id: Id, task: Id)
    requires Distinct(IdsOf(b.workingSets))
    ensures id in Table(b.workingSets) && Table(b.workingSets)[id].task == task <==>
      exists r :: r in b.workingSets && r.id == id && r.value.task == task
  {
    if id in Table(b.workingSets) {
      var r := TableRow(b.workingSets, id);
    }
    if r :| r in b.workingSets && r.id == id && r.value.task == task {
      TableLookup(b.workingSets, r);
    }
  }

  lemma PayloadExact(b: Bundle, m: Memory, p: Payload)
    requires Distinct(IdsOf(AllOutcomes(b.episodes))) && Distinct(IdsOf(b.workingSets))
    ensures PayloadInBundle(b, m, p) <==> !PayloadReferenceDefect(b, m, p)
  {
    match p {
      case FactualPayload(_, _, _, _, _) =>
      case ExperientialPayload(_, evidence) =>
        forall e | e in evidence ensures EvidenceInBundle(b, e) <==> !EvidenceDefect(b, e) {
          EvidenceExact(b, e);
        }
      case WorkingPayload(id, task, _, _, compactedFrom) =>
        SetKnown(b, id, task);
        forall o ensures o in IdsOf(b.observations) <==> !Unobserved(b, o) {
          Observed(b, o);
        }
    }
  }

  /** With version ids distinct, the owner the check finds is the memory that holds the version. */
  lemma OwnerIs(b: Bundle, m: PortableMemory, r: Row<Version>)
    requires MemoriesValid(b) && m in b.memories && r in m.versions
    ensures r.id in OwnerMap(b.memories) && OwnerMap(b.memories)[r.id] == Row(m.id, m.memory)
  {
    OwnerKnown(b.memories, m, r);
    var n, q := OwnerFound(b.memories, r.id);
    VersionLookup(b, m, r);
    VersionLookup(b, n, q);
    MemoryById(b, m, n);
  }

  lemma ParentExact(b: Bundle, scope: Scope, p: Id)
    requires MemoriesValid(b)
    ensures p in OwnerMap(b.memories) && FlowAllowed(OwnerMap(b.memories)[p].value.scope, scope) <==> ParentInBundle(b, scope, p)
  {
    if p in OwnerMap(b.memories) {
      var m, r := OwnerFound(b.memories, p);
      FlowChecksAgree(m.memory.scope, scope);
    }
    forall m, r | m in b.memories && r in m.versions && r.id == p
      ensures p in OwnerMap(b.memories) && OwnerMap(b.memories)[p].value == m.memory
    {
      OwnerIs(b, m, r);
      FlowChecksAgree(m.memory.scope, scope);
    }
    if m, r :| m in b.memories && r in m.versions && r.id == p && !FlowRefused(m.memory.scope, scope) {
      FlowChecksAgree(m.memory.scope, scope);
    }
  }

  lemma SupersededExact(b: Bundle, m: PortableMemory, s: Id)
    requires MemoriesValid(b) && m in b.memories
    ensures s in OwnerMap(b.memories) && OwnerMap(b.memories)[s].id == m.id <==> exists r :: r in m.versions && r.id == s
  {
    if s in OwnerMap(b.memories) && OwnerMap(b.memories)[s].id == m.id {
      var n, r := OwnerFound(b.memories, s);
      MemoryById(b, m, n);
    }
    if r :| r in m.versions && r.id == s {
      OwnerIs(b, m, r);
    }
  }

  lemma ReferencesExact(b: Bundle, m: PortableMemory, v: Version)
    requires MemoriesValid(b) && m in b.memories
    requires Distinct(IdsOf(AllOutcomes(b.episodes))) && Distinct(IdsOf(b.workingSets))
    ensures ReferencesValid(b, m, v) <==> !ReferenceDefect(b, m, v)
  {
    PayloadExact(b, m.memory, v.payload);
    forall o | o in v.provenance ensures o in IdsOf(b.observations) <==> !Unobserved(b, o) {
      Observed(b, o);
    }
    forall s | s in v.supersedes
      ensures s in OwnerMap(b.memories) && OwnerMap(b.memories)[s].id == m.id <==> exists r :: r in m.versions && r.id == s
    {
      SupersededExact(b, m, s);
    }
    forall p | p in v.derivedFrom
      ensures p in OwnerMap(b.memories) && FlowAllowed(OwnerMap(b.memories)[p].value.scope, m.memory.scope) <==>
        ParentInBundle(b, m.memory.scope, p)
    {
      ParentExact(b, m.memory.scope, p);
    }
  }

  lemma CyclesExact(b: Bundle)
    requires Distinct(IdsOf(AllVersions(b.memories)))
    ensures Acyclic(DependencyEdges(DependencyMap(AllVersions(b.memories)))) <==> !CycleDefect(b)
  {
    EdgesChecked(AllVersions(b.memories));
  }

  // ----- All together -----

  /** The rows are each in order, and no id is used twice. */
  ghost predicate RowsValid(b: Bundle) {
    ObservationsValid(b) && EpisodesValid(b) && SetsValid(b) && MemoriesValid(b)
  }

  lemma RowsExact(b: Bundle)
    ensures RowsValid(b) <==> !RowDefect(b)
  {
    forall r | r in b.observations ensures InScope(b, r.value.scope) <==> !OutOfScope(b, r.value.scope) {
      ScopesExact(b, r.value.scope);
    }
    forall r | r in b.workingSets ensures InScope(b, r.value.scope) <==> !OutOfScope(b, r.value.scope) {
      ScopesExact(b, r.value.scope);
    }
    forall e | e in b.episodes ensures EpisodeValid(b, e) <==> !EpisodeDefect(b, e) {
      EpisodeExact(b, e);
    }
    forall m | m in b.memories ensures MemoryValid(b, m) <==> !OutOfScope(b, m.memory.scope) && !MemoryDefect(m) {
      MemoryExact(b, m);
    }
  }

  /** A bundle passes the check if and only if it has none of these defects. */
  lemma ValidIffNotDefective(b: Bundle)
    ensures ValidBundle(b) <==> !Defective(b)
  {
    HeaderExact(b);
    RowsExact(b);
    if RowsValid(b) {
      CyclesExact(b);
      forall m, r | m in b.memories && r in m.versions ensures ReferencesValid(b, m, r.value) <==> !ReferenceDefect(b, m, r.value) {
        ReferencesExact(b, m, r.value);
      }
    }
  }

  /** An import refuses a bundle as invalid if and only if it has a defect, and then for no other reason. */
  lemma DefectiveIsRefused(db: Db, b: Bundle)
    ensures Import(db, b) == Failure(InvalidBundle) <==> Defective(b)
  {
    ValidIffNotDefective(b);
  }

  /** So a version without provenance keeps its bundle out of every store. */
  lemma UnprovenIsRefused(db: Db, b: Bundle, m: PortableMemory, r: Row<Version>)
    requires m in b.memories && r in m.versions && r.value.provenance == []
    ensures Import(db, b) == Failure(InvalidBundle)
  {
    assert MemoryDefect(m);
    DefectiveIsRefused(db, b);
  }
}
