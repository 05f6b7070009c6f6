// What the smaller transactions store, exactly when they are accepted, and what a sweep closes.
module StoreEffects {
  import opened Ordering
  import opened Ids
  import opened Domain
  import opened Database
  import opened Bundles
  import opened Portable
  import opened Captures
  import opened WorkingSets
  import opened Embeddings
  import opened IndexInvariant

  // ----- Captured evidence -----

  /** An observation is stored as it is under a free id, beside all others, and never replaces one. */
  lemma ObservationStored(db: Db, id: Id, o: Observation)
    ensures var r := PutObservation(db, id, o);
      && (r.Success? <==> id != NO_ID && id !in db.observations)
      && (r.Success? ==> id in r.value.observations && r.value.observations[id] == o && r.value.observations - {id} == db.observations
                         && r.value == db.(observations := r.value.observations))
  {
  }

  lemma InsertedRows<T(!new)>(table: map<Id, T>, rows: seq<Row<T>>)
    requires Distinct(IdsOf(rows)) && forall r :: r in rows ==> r.id !in table
    ensures forall r :: r in rows ==> r.id in table + Table(rows) && (table + Table(rows))[r.id] == r.value
    ensures forall x :: x in table + Table(rows) <==> x in table || x in IdsOf(rows)
    ensures forall x :: x in table ==> (table + Table(rows))[x] == table[x]
  {
    forall r | r in rows ensures r.id in Table(rows) && Table(rows)[r.id] == r.value {
      TableLookup(rows, r);
    }
    forall x | x in table ensures x !in Table(rows) {
      if x in Table(rows) {
        var r := TableRow(rows, x);
      }
    }
  }

  /**
   * An episode is accepted if and only if it is ordered in time, brings at least one sourced
   * outcome of its own, and neither it nor they are known; then all are stored as they are.
   */
  lemma EpisodeStored(db: Db, id: Id, e: Episode, outcomes: seq<Row<Outcome>>)
    ensures var r := PutEpisode(db, id, e, outcomes);
      && (r.Success? <==>
           && id != NO_ID && e.startedAt < e.endedAt && NO_ID !in e.observations
           && outcomes != []
           && (forall o :: o in outcomes ==> o.id != NO_ID && o.value.source != NO_ID && o.value.kind != "" && o.value.episode == id)
           && id !in db.episodes
           && Distinct(IdsOf(outcomes)) && forall o :: o in outcomes ==> o.id !in db.outcomes)
      && (r.Success? ==>
           && r.value == db.(episodes := db.episodes[id := e], outcomes := r.value.outcomes)
           && (forall o :: o in outcomes ==> o.id in r.value.outcomes && r.value.outcomes[o.id] == o.value)
           && (forall x :: x in r.value.outcomes <==> x in db.outcomes || x in IdsOf(outcomes))
           && forall x :: x in db.outcomes ==> r.value.outcomes[x] == db.outcomes[x])
  {
    if PutEpisode(db, id, e, outcomes).Success? {
      InsertedRows(db.outcomes, outcomes);
    }
  }

  // ----- Working sets -----

  /** A set is accepted if and only if it is named, dated in order, and its id and task are free; it is stored active. */
  lemma SetStored(db: Db, id: Id, set_: WorkingSet)
    ensures var r := PutWorkingSet(db, id, set_);
      && (r.Success? <==>
           && id != NO_ID && set_.task != NO_ID
           && set_.createdAt <= set_.updatedAt
           && (set_.expiresAt.Some? ==> set_.createdAt < set_.expiresAt.value)
           && id !in db.workingSets
           && forall o :: o in db.workingSets && db.workingSets[o].task == set_.task ==>
                db.workingSets[o].scope.namespace != set_.scope.namespace)
      && (r.Success? ==> r.value == db.(workingSets := db.workingSets[id := set_.(state := SetActive)]))
  {
  }

  /** The switch is accepted if and only if the task has an active set. */
  lemma SwitchAcceptedIff(db: Db, namespace: Id, task: Id, enabled: bool, at: int)
    ensures SetGlobalRecall(db, namespace, task, enabled, at).Success? <==>
      && namespace != NO_ID && task != NO_ID
      && exists id :: id in db.workingSets && db.workingSets[id].scope.namespace == namespace
                      && db.workingSets[id].task == task && db.workingSets[id].state == SetActive
  {
    assert forall id :: id in db.workingSets ==> (Switchable(db.workingSets[id], namespace, task) <==>
      db.workingSets[id].scope.namespace == namespace && db.workingSets[id].task == task && db.workingSets[id].state == SetActive);
  }

  /** It turns recall of that one set on or off, and touches no other. */
  lemma RecallSwitched(db: Db, namespace: Id, task: Id, enabled: bool, at: int, id: Id)
    requires UniqueTasks(db.workingSets) && id in db.workingSets && db.workingSets[id].state == SetActive
    requires db.workingSets[id].scope.namespace == namespace && db.workingSets[id].task == task
    ensures var r := SetGlobalRecall(db, namespace, task, enabled, at); r.Success? ==>
      r.value == db.(workingSets := db.workingSets[id := db.workingSets[id].(globalRecall := enabled, updatedAt := at)])
  {
    OneSwitched(db.workingSets, namespace, task, enabled, at, id);
  }

  // ----- The sweep -----

  /** An active set that is due at this time. */
  predicate Due(set_: WorkingSet, now: int) {
    set_.state == SetActive && set_.expiresAt.Some? && set_.expiresAt.value <= now
  }

  /** m is working memory of this set's task. */
  predicate WorksFor(m: Memory, set_: WorkingSet) {
    m.memoryFunction == Working && m.scope.namespace == set_.scope.namespace && m.scope.context == set_.task
  }

  /** A set expires if and only if it was active and due; afterwards no active set is due, and other sets are as they were. */
  lemma SweepClosesDue(db: Db, now: int, id: Id)
    requires id in db.workingSets
    ensures var after := Expire(db, now);
      && after.workingSets.Keys == db.workingSets.Keys
      && (Due(db.workingSets[id], now) ==> after.workingSets[id] == db.workingSets[id].(state := SetExpired, updatedAt := now))
      && (!Due(db.workingSets[id], now) ==> after.workingSets[id] == db.workingSets[id])
      && !Due(after.workingSets[id], now)
  {
  }

  /** Some due set is of this memory's task. */
  predicate TaskDue(sets: map<Id, WorkingSet>, now: int, m: Memory) {
    exists id :: id in sets && Due(sets[id], now) && WorksFor(m, sets[id])
  }

  lemma InTaskIff(sets: map<Id, WorkingSet>, now: int, m: Memory)
    requires forall id :: id in sets ==> sets[id].task != NO_ID
    ensures InTask(sets, ExpiredSets(sets, now), m) <==> TaskDue(sets, now, m)
  {
    var ids := ExpiredSets(sets, now);
    if id :| id in sets && Due(sets[id], now) && WorksFor(m, sets[id]) {
      assert id in ids;
    }
    if InTask(sets, ids, m) {
      var id :| id in ids && id in sets && sets[id].scope.namespace == m.scope.namespace && sets[id].task == m.scope.context;
      assert Due(sets[id], now) && WorksFor(m, sets[id]);
    }
  }

  /** A memory is archived if and only if it works for a set that was due; it keeps the rest of its row. */
  lemma SweepArchivesTask(db: Db, now: int, m: Id)
    requires m in db.memories && forall id :: id in db.workingSets ==> db.workingSets[id].task != NO_ID
    ensures var after := Expire(db, now).memories;
      && after.Keys == db.memories.Keys
      && after[m] == if TaskDue(db.workingSets, now, db.memories[m]) then db.memories[m].(state := MemoryArchived) else db.memories[m]
  {
    InTaskIff(db.workingSets, now, db.memories[m]);
  }

  /** Of an archived task the heads are archived, and nothing else of any version changes. */
  lemma SweepArchivesHeads(db: Db, now: int, v: Id)
    requires v in db.versions && db.versions[v].memory in db.memories
    requires forall id :: id in db.workingSets ==> db.workingSets[id].task != NO_ID
    ensures var (after, m) := (Expire(db, now).versions, db.versions[v].memory);
      && after.Keys == db.versions.Keys
      && after[v] == if IsHead(db, m, v) && TaskDue(db.workingSets, now, db.memories[m])
                     then db.versions[v].(state := VersionArchived) else db.versions[v]
  {
    InTaskIff(db.workingSets, now, db.memories[db.versions[v].memory]);
  }

  /** The ids a sweep answers are exactly the sets that were active and due, in order. */
  lemma SweepAnswersDue(db: Db, now: int, ids: seq<Id>)
    requires ListsBy(Less, ids, ExpiredSets(db.workingSets, now))
    ensures forall id :: id in ids <==> id in db.workingSets && Due(db.workingSets[id], now)
    ensures forall i, j :: 0 <= i < j < |ids| ==> Less(ids[i], ids[j])
  {
  }

  // ----- Embeddings -----

  /**
   * An embedding of an indexed version is accepted if and only if it is complete, its vector
   * has at most 16384 coordinates of which one is not zero, and it was made from the text the
   * version is indexed under; then exactly its row is written.
   */
  lemma EmbeddingStored(db: Db, key: EmbeddingKey, content: string, vector: seq<int>, at: int, row: nat)
    requires IndexOk(db) && RowOf(db.index, key.version, row)
    ensures var r := PutEmbedding(db, key, content, vector, at);
      && (r.Success? <==>
           && key.version != NO_ID && key.provider != "" && key.model != "" && content != ""
           && |vector| <= 16384 && (exists i :: 0 <= i < |vector| && vector[i] != 0)
           && db.index.rows[row].text == content)
      && (r.Success? ==> r.value == db.(embeddings := db.embeddings[key := Embedding(content, vector, at)]))
  {
    assert RowMatches(db.memories, db.versions, db.index.rows[row]);
    forall other | RowOf(db.index, key.version, other) ensures other == row {
    }
    assert FirstText(db.index, key.version, content) <==> db.index.rows[row].text == content;
  }

  /** A version outside the index takes no embedding. */
  lemma UnindexedRefused(db: Db, key: EmbeddingKey, content: string, vector: seq<int>, at: int)
    requires forall row :: !RowOf(db.index, key.version, row)
    ensures PutEmbedding(db, key, content, vector, at).Failure?
  {
  }
}
