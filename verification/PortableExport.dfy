// The read-only transaction that lists a subject's rows and checks the bundle they make.
module PortableExport {
  import opened Ordering
  import opened Ids
  import opened Domain
  import opened Database
  import opened Bundles
  import opened Canonical
  import opened Portable
  import opened ExportSuccess

  datatype ExportError = IncompleteAccess | MissingReference | InvalidExport

  method ListRows<T>(table: map<Id, T>, ids: set<Id>) returns (rows: seq<Row<T>>)
    requires ids <= table.Keys
    ensures ListsBy(Less, IdsOf(rows), ids)
    ensures forall r :: r in rows ==> r.id in table && table[r.id] == r.value
  {
    IdsOrdered(ids);
    var order := ListBy(Less, ids);
    rows := [];
    for i := 0 to |order|
      invariant IdsOf(rows) == order[..i]
      invariant forall r :: r in rows ==> r.id in table && table[r.id] == r.value
    {
      assert order[i] in order;
      rows := rows + [Row(order[i], table[order[i]])];
    }
    assert order[..|order|] == order;
  }

  method ListMemories(table: map<Id, Memory>, versions: map<Id, Version>, ids: set<Id>) returns (memories: seq<PortableMemory>)
    requires ids <= table.Keys
    ensures MemoriesListed(table, versions, ids, memories)
  {
    IdsOrdered(ids);
    var order := ListBy(Less, ids);
    memories := [];
    for i := 0 to |order|
      invariant IdsOf(MemoryRows(memories)) == order[..i]
      invariant forall m :: m in memories ==>
        MemoryListed(table, m) && ListsBy(VersionBefore, m.versions, VersionRows(versions, m.id))
    {
      assert order[i] in order;
      VersionRowsOrdered(versions, order[i]);
      var rows := ListBy(VersionBefore, VersionRows(versions, order[i]));
      memories := memories + [PortableMemory(order[i], table[order[i]], rows)];
    }
    assert order[..|order|] == order;
  }

  ghost predicate CitedBy(rows: seq<Row<Version>>, episode: Id) {
    exists r :: r in rows && Cites(r, episode)
  }

  ghost predicate OutcomeCitedBy(rows: seq<Row<Version>>, episode: Id, outcome: Id) {
    exists r :: r in rows && CitesOutcome(r, episode, outcome)
  }

  /** references maps the cited episodes to their cited outcomes. */
  ghost predicate References(rows: seq<Row<Version>>, references: map<Id, set<Id>>) {
    && (forall x :: x in references <==> CitedBy(rows, x))
    && forall x, o :: x in references ==> (o in references[x] <==> OutcomeCitedBy(rows, x, o))
  }

  function Cite(references: map<Id, set<Id>>, e: LessonEvidence): map<Id, set<Id>> {
    references[e.episode := (if e.episode in references then references[e.episode] else {}) + Elements(e.outcomes)]
  }

  method CollectReferences(rows: seq<Row<Version>>) returns (references: map<Id, set<Id>>)
    ensures References(rows, references)
  {
    references := map[];
    for i := 0 to |rows|
      invariant References(rows[..i], references)
    {
      var r := rows[i];
      var before := references;
      assert rows[..i + 1] == rows[..i] + [r];
      if r.value.payload.ExperientialPayload? {
        references := CiteAll(references, r.value.payload.evidence);
      }
      ReferencesOneMore(rows[..i], r, before, references);
    }
    assert rows[..|rows|] == rows;
  }

  method CiteAll(before: map<Id, set<Id>>, evidence: seq<LessonEvidence>) returns (after: map<Id, set<Id>>)
    ensures forall x :: x in after <==> x in before || exists e :: e in evidence && e.episode == x
    ensures forall x, o :: x in after ==>
      (o in after[x] <==> (x in before && o in before[x]) || exists e :: e in evidence && e.episode == x && o in e.outcomes)
  {
    after := before;
    for j := 0 to |evidence|
      invariant forall x :: x in after <==> x in before || exists k :: 0 <= k < j && evidence[k].episode == x
      invariant forall x, o :: x in after ==>
        (o in after[x] <==> (x in before && o in before[x]) || exists k :: 0 <= k < j && evidence[k].episode == x && o in evidence[k].outcomes)
    {
      after := Cite(after, evidence[j]);
    }
  }

  lemma ReferencesOneMore(rows: seq<Row<Version>>, r: Row<Version>, before: map<Id, set<Id>>, after: map<Id, set<Id>>)
    requires References(rows, before)
    requires forall x :: x in after <==> x in before || Cites(r, x)
    requires forall x, o :: x in after ==> (o in after[x] <==> (x in before && o in before[x]) || CitesOutcome(r, x, o))
    ensures References(rows + [r], after)
  {
    var all := rows + [r];
    forall x ensures CitedBy(all, x) <==> CitedBy(rows, x) || Cites(r, x) {
      if CitedBy(rows, x) {
        var q :| q in rows && Cites(q, x);
        assert q in all;
      }
      assert r in all;
    }
    forall x, o ensures OutcomeCitedBy(all, x, o) <==> OutcomeCitedBy(rows, x, o) || CitesOutcome(r, x, o) {
      if OutcomeCitedBy(rows, x, o) {
        var q :| q in rows && CitesOutcome(q, x, o);
        assert q in all;
      }
      assert r in all;
    }
    forall x, o | OutcomeCitedBy(rows, x, o) ensures x in before {
      OutcomeCitesEpisode(rows, x, o);
    }
  }

  lemma OutcomeCitesEpisode(rows: seq<Row<Version>>, episode: Id, outcome: Id)
    requires OutcomeCitedBy(rows, episode, outcome)
    ensures CitedBy(rows, episode)
  {
    var r :| r in rows && CitesOutcome(r, episode, outcome);
    assert Cites(r, episode);
  }

  method ExportEpisode(table: map<Id, Episode>, outcomes: map<Id, Outcome>, memories: seq<PortableMemory>, id: Id, cited: set<Id>)
    returns (r: Option<PortableEpisode>)
    requires EpisodeCited(memories, id) && forall o :: o in cited <==> OutcomeCited(memories, id, o)
    ensures r.Some? ==> r.value.id == id && EpisodeListed(table, outcomes, memories, r.value)
    ensures r.None? ==> forall other :: !EpisodesListed(table, outcomes, memories, other)
  {
    if id !in table || !(cited <= outcomes.Keys) {
      MissingMeansNoListing(table, outcomes, memories, id, cited);
      return None;
    }
    var rows := ListRows(outcomes, cited);
    return Some(PortableEpisode(id, table[id], rows));
  }

  method ExportEpisodes(table: map<Id, Episode>, outcomes: map<Id, Outcome>, memories: seq<PortableMemory>)
    returns (found: bool, episodes: seq<PortableEpisode>)
    ensures found ==> EpisodesListed(table, outcomes, memories, episodes)
    ensures !found ==> forall other :: !EpisodesListed(table, outcomes, memories, other)
  {
    var versions, _ := CollectVersions(memories);
    var references := CollectReferences(versions);
    IdsOrdered(references.Keys);
    var order := ListBy(Less, references.Keys);
    episodes := [];
    for i := 0 to |order|
      invariant IdsOf(EpisodeRows(episodes)) == order[..i]
      invariant forall e :: e in episodes ==> EpisodeListed(table, outcomes, memories, e)
    {
      assert order[i] in order;
      var episode := ExportEpisode(table, outcomes, memories, order[i], references[order[i]]);
      if episode.None? {
        return false, [];
      }
      episodes := episodes + [episode.value];
    }
    assert order[..|order|] == order;
    return true, episodes;
  }

  lemma MissingMeansNoListing(table: map<Id, Episode>, outcomes: map<Id, Outcome>, memories: seq<PortableMemory>, id: Id, cited: set<Id>)
    requires EpisodeCited(memories, id)
    requires forall o :: o in cited <==> OutcomeCited(memories, id, o)
    requires id !in table || !(cited <= outcomes.Keys)
    ensures forall other :: !EpisodesListed(table, outcomes, memories, other)
  {
    forall other ensures !EpisodesListed(table, outcomes, memories, other) {
      if EpisodesListed(table, outcomes, memories, other) {
        ListingHoldsCited(table, outcomes, memories, id, cited, other);
      }
    }
  }

  lemma ListingHoldsCited(table: map<Id, Episode>, outcomes: map<Id, Outcome>, memories: seq<PortableMemory>, id: Id, cited: set<Id>,
                          episodes: seq<PortableEpisode>)
    requires EpisodeCited(memories, id)
    requires forall o :: o in cited <==> OutcomeCited(memories, id, o)
    requires EpisodesListed(table, outcomes, memories, episodes)
    ensures id in table && cited <= outcomes.Keys
  {
    assert id in IdsOf(EpisodeRows(episodes));
    var k :| 0 <= k < |episodes| && IdsOf(EpisodeRows(episodes))[k] == id;
    var e := episodes[k];
    assert e in episodes && EpisodeListed(table, outcomes, memories, e);
    forall o | o in cited ensures o in outcomes {
      assert o in IdsOf(e.outcomes);
      var j :| 0 <= j < |e.outcomes| && IdsOf(e.outcomes)[j] == o;
      assert e.outcomes[j] in e.outcomes;
    }
  }

  lemma NoExport(db: Db, a: Access, subject: Id, at: int, memories: seq<PortableMemory>)
    requires MemoriesListed(db.memories, db.versions, VisibleMemories(db.memories, db.versions, a, subject), memories)
    requires forall e :: !EpisodesListed(db.episodes, db.outcomes, memories, e)
    ensures forall b :: !IsExport(db, a, subject, at, b)
  {
    forall b ensures !IsExport(db, a, subject, at, b) {
      if IsExport(db, a, subject, at, b) {
        MemoriesListedUnique(db.memories, db.versions, VisibleMemories(db.memories, db.versions, a, subject), b.memories, memories);
      }
    }
  }

  /** Without a bundle of the rows, some of the evidence is not stored. */
  lemma NotReady(db: Db, a: Access, subject: Id, at: int)
    requires forall b :: !IsExport(db, a, subject, at, b)
    ensures !ExportReady(db)
  {
    if ExportReady(db) {
      ExportExists(db, a, subject, at);
    }
  }

  lemma ValidIffSelfContained(db: Db, a: Access, subject: Id, at: int, b: Bundle)
    requires AccessComplete(a, subject) && IsExport(db, a, subject, at, b)
    ensures ExportReady(db) ==> (ValidBundle(b) <==> SelfContained(db, a, subject))
  {
    if ExportReady(db) {
      if ValidBundle(b) {
        ValidIsSelfContained(db, a, subject, at, b);
      }
      if SelfContained(db, a, subject) {
        SelfContainedIsValid(db, a, subject, at, b);
      }
    }
  }

  /**
   * Answers with the one bundle of the subject's visible rows if it is valid, and fails
   * otherwise. Over the tables of a native run it succeeds exactly when what is shown refers
   * only to what is shown.
   */
  method ExportSubject(s: Store, a: Access, subject: Id, at: int) returns (r: Result<Bundle, ExportError>)
    ensures r.Success? ==> IsExport(s.Snapshot(), a, subject, at, r.value) && ValidBundle(r.value)
    ensures r.Failure? && AccessComplete(a, subject) ==>
      forall b :: IsExport(s.Snapshot(), a, subject, at, b) ==> !ValidBundle(b)
    ensures r.Success? ==> AccessComplete(a, subject)
    ensures ExportReady(s.Snapshot()) ==> (r.Success? <==> AccessComplete(a, subject) && SelfContained(s.Snapshot(), a, subject))
    ensures ExportReady(s.Snapshot()) ==> r != Failure(MissingReference)
  {
    if !AccessComplete(a, subject) {
      return Failure(IncompleteAccess);
    }
    var db := s.Snapshot();
    var owners := Elements(a.privateOwners);
    IdsOrdered(owners);
    var ownerList := ListBy(Less, owners);
    var observations := ListRows(db.observations, VisibleObservations(db.observations, a, subject));
    var sets := ListRows(db.workingSets, VisibleSets(db.workingSets, a, subject));
    var memories := ListMemories(db.memories, db.versions, VisibleMemories(db.memories, db.versions, a, subject));
    var found, episodes := ExportEpisodes(db.episodes, db.outcomes, memories);
    if !found {
      NoExport(db, a, subject, at, memories);
      NotReady(db, a, subject, at);
      return Failure(MissingReference);
    }
    var b := Bundle(FORMAT, SCHEMA_VERSION, at, a.namespace, subject, ownerList, a.allowShared, a.allowPublic,
                    observations, episodes, sets, memories);
    assert IsExport(db, a, subject, at, b);
    ValidIffSelfContained(db, a, subject, at, b);
    var ok := Validate(b);
    if !ok {
      forall c | IsExport(db, a, subject, at, c) ensures !ValidBundle(c) {
        ExportUnique(db, a, subject, at, b, c);
      }
      return Failure(InvalidExport);
    }
    return Success(b);
  }
}
