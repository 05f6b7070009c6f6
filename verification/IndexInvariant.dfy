// What the lexical and embedding indexes keep: they agree with the version table.
module IndexInvariant {
  import opened Ids
  import opened Graph
  import opened Domain
  import opened Database
  import opened Lifecycle
  import opened Purge
  import opened WorkingSets
  import opened Embeddings

  /** A row holds the text of the version it names, under that version's memory and namespace. */
  predicate RowMatches(memories: map<Id, Memory>, versions: map<Id, Version>, row: IndexRow) {
    && row.version in versions
    && versions[row.version].memory == row.memory
    && row.memory in memories
    && memories[row.memory].scope.namespace == row.namespace
    && memories[row.memory].state != MemoryForgotten
    && MemoryText(versions[row.version].payload) == row.text
  }

  ghost predicate RowsMatch(memories: map<Id, Memory>, versions: map<Id, Version>, index: TextIndex) {
    forall r :: r in index.rows ==> r < index.next && RowMatches(memories, versions, index.rows[r])
  }

  /** No version has two rows. */
  ghost predicate RowsUnique(index: TextIndex) {
    forall r, q | r in index.rows && q in index.rows :: index.rows[r].version == index.rows[q].version ==> r == q
  }

  ghost predicate Indexed(index: TextIndex, v: Id) {
    exists r :: RowOf(index, v, r)
  }

  /** A version of an active memory; an import may bring in ones that are forgotten themselves. */
  predicate Searchable(memories: map<Id, Memory>, v: Version) {
    v.memory in memories && memories[v.memory].state == MemoryActive && v.state != VersionForgotten
  }

  ghost predicate ActiveIndexed(memories: map<Id, Memory>, versions: map<Id, Version>, index: TextIndex) {
    forall v :: v in versions && Searchable(memories, versions[v]) ==> Indexed(index, v)
  }

  ghost predicate EmbeddingsIndexed(index: TextIndex, embeddings: map<EmbeddingKey, Embedding>) {
    forall k :: k in embeddings ==> exists r :: RowOf(index, k.version, r) && index.rows[r].text == embeddings[k].content
  }

  ghost predicate IndexInv(memories: map<Id, Memory>, versions: map<Id, Version>, index: TextIndex,
                           embeddings: map<EmbeddingKey, Embedding>) {
    && RowsMatch(memories, versions, index)
    && RowsUnique(index)
    && ActiveIndexed(memories, versions, index)
    && EmbeddingsIndexed(index, embeddings)
  }

  ghost predicate IndexOk(db: Db) {
    IndexInv(db.memories, db.versions, db.index, db.embeddings)
  }

  // ----- Changes that leave both indexes alone -----

  ghost predicate SameTexts(before: map<Id, Version>, after: map<Id, Version>) {
    && before.Keys == after.Keys
    && forall v :: v in before ==> after[v].memory == before[v].memory && after[v].payload == before[v].payload
  }

  lemma IndexUnchanged(memories: map<Id, Memory>, versions: map<Id, Version>, index: TextIndex,
                       embeddings: map<EmbeddingKey, Embedding>, memories': map<Id, Memory>, versions': map<Id, Version>)
    requires IndexInv(memories, versions, index, embeddings)
    requires SameTexts(versions, versions') && memories.Keys <= memories'.Keys
    requires forall v :: v in versions && versions[v].memory in memories' ==> versions[v].memory in memories
    requires forall m :: m in memories ==>
      && memories'[m].scope == memories[m].scope
      && (memories'[m].state == memories[m].state || (memories'[m].state == MemoryArchived))
    requires forall v :: v in versions && Searchable(memories', versions'[v]) ==> versions[v].state != VersionForgotten
    ensures IndexInv(memories', versions', index, embeddings)
  {
    forall r | r in index.rows ensures RowMatches(memories', versions', index.rows[r]) {
      assert RowMatches(memories, versions, index.rows[r]);
    }
  }

  lemma IndexInsert(memories: map<Id, Memory>, versions: map<Id, Version>, index: TextIndex,
                    embeddings: map<EmbeddingKey, Embedding>, id: Id, v: Version)
    requires IndexInv(memories, versions, index, embeddings)
    requires id !in versions && v.memory in memories && memories[v.memory].state != MemoryForgotten
    ensures IndexInv(memories, versions[id := v],
                     AddRow(index, IndexRow(id, v.memory, memories[v.memory].scope.namespace, MemoryText(v.payload))), embeddings)
  {
    var index' := AddRow(index, IndexRow(id, v.memory, memories[v.memory].scope.namespace, MemoryText(v.payload)));
    var versions' := versions[id := v];
    forall r | r in index'.rows ensures r < index'.next && RowMatches(memories, versions', index'.rows[r]) {
      assert r in index.rows ==> RowMatches(memories, versions, index.rows[r]);
    }
    forall w, r | RowOf(index, w, r) ensures RowOf(index', w, r) && index'.rows[r] == index.rows[r] {
    }
    assert RowOf(index', id, index.next);
    forall w | w in versions' && Searchable(memories, versions'[w]) ensures Indexed(index', w)
    {
      if w != id {
        var r :| RowOf(index, w, r);
        assert RowOf(index', w, r);
      }
    }
    forall k | k in embeddings ensures exists r :: RowOf(index', k.version, r) && index'.rows[r].text == embeddings[k].content {
      var r :| RowOf(index, k.version, r) && index.rows[r].text == embeddings[k].content;
      assert RowOf(index', k.version, r);
    }
  }

  lemma IndexDelete(db: Db, namespace: Id, doomed: set<Id>)
    requires IndexOk(db)
    requires forall m :: m in doomed && m in db.memories ==> db.memories[m].scope.namespace == namespace
    ensures IndexOk(DeleteMemories(db, namespace, doomed))
  {
    var after := DeleteMemories(db, namespace, doomed);
    forall r | r in after.index.rows ensures r < after.index.next && RowMatches(after.memories, after.versions, after.index.rows[r]) {
      assert RowMatches(db.memories, db.versions, db.index.rows[r]);
    }
    forall v, r | RowOf(db.index, v, r) && v in after.versions ensures RowOf(after.index, v, r) {
      assert RowMatches(db.memories, db.versions, db.index.rows[r]);
    }
    forall v | v in after.versions && Searchable(after.memories, after.versions[v]) ensures Indexed(after.index, v)
    {
      var r :| RowOf(db.index, v, r);
      assert RowOf(after.index, v, r);
    }
    forall k | k in after.embeddings
      ensures exists r :: RowOf(after.index, k.version, r) && after.index.rows[r].text == after.embeddings[k].content
    {
      var r :| RowOf(db.index, k.version, r) && db.index.rows[r].text == db.embeddings[k].content;
      assert RowMatches(db.memories, db.versions, db.index.rows[r]);
      assert RowOf(after.index, k.version, r);
    }
  }

  // ----- The steps of the store -----

  lemma IndexInsertMemory(db: Db, memory: Memory, id: Id, v: Version)
    requires IndexOk(db)
    requires forall w :: w in db.versions ==> db.versions[w].memory in db.memories
    requires v.memory !in db.memories && id !in db.versions && memory.state == MemoryActive
    ensures IndexOk(InsertMemory(db, memory, id, v))
  {
    var memories := db.memories[v.memory := memory];
    IndexUnchanged(db.memories, db.versions, db.index, db.embeddings, memories, db.versions);
    IndexInsert(memories, db.versions, db.index, db.embeddings, id, v);
  }

  lemma IndexCreate(db: Db, p: Proposal, authorized: Option<Scope>, at: int)
    requires IndexOk(db) && ForeignKeys(db)
    ensures var r := ApplyCreate(db, p, authorized, at); r.Success? ==> IndexOk(r.value.db)
  {
    var r := ApplyCreate(db, p, authorized, at);
    if r.Success? {
      IndexInsertMemory(db, r.value.rows.memory, r.value.rows.versionId, r.value.rows.version);
    }
  }

  lemma IndexConflict(db: Db, p: Proposal, head: Id, e: MemoryEvolution, at: int)
    requires IndexOk(db) && ForeignKeys(db) && IsHead(db, p.target, head) && db.memories[p.target].state == MemoryActive
    ensures var r := ApplyConflict(db, p, head, e, at); r.Success? ==> IndexOk(r.value.db)
  {
    var r := ApplyConflict(db, p, head, e, at);
    if r.Success? {
      var rows := r.value.rows;
      var grouped := db.(versions := db.versions[head := db.versions[head].(conflictGroup := rows.version.conflictGroup)]);
      IndexUnchanged(db.memories, db.versions, db.index, db.embeddings, db.memories, grouped.versions);
      IndexInsertMemory(grouped, rows.memory, rows.versionId, rows.version);
    }
  }

  lemma ClosedTexts(versions: map<Id, Version>, edges: set<Edge>, head: Id, at: int, validFrom: int)
    requires head in versions
    ensures var closed := Staled(CloseHead(versions, head, at, validFrom), edges, head);
      && SameTexts(versions, closed)
      && forall v :: v in versions && versions[v].state == VersionForgotten ==> closed[v].state == VersionForgotten
  {
  }

  lemma IndexAfterEvolution(db: Db, p: Proposal, head: Id, e: MemoryEvolution, at: int)
    requires IndexOk(db) && ForeignKeys(db) && IsHead(db, p.target, head) && VersionIdOf(p.id) !in db.versions
    requires db.memories[p.target].state == MemoryActive
    ensures IndexOk(AfterEvolution(db, p, head, e, at))
  {
    var next := NextVersion(head, db.versions[head], e, at);
    var memories := db.memories[p.target := Advanced(db.memories[p.target], next.number)];
    var closed := Staled(CloseHead(db.versions, head, at, e.validTime.from), db.edges, head);
    ClosedTexts(db.versions, db.edges, head, at, e.validTime.from);
    IndexUnchanged(db.memories, db.versions, db.index, db.embeddings, memories, closed);
    IndexInsert(memories, closed, db.index, db.embeddings, VersionIdOf(p.id), next);
  }

  lemma IndexEvolution(db: Db, p: Proposal, authorized: Option<Scope>, at: int)
    requires IndexOk(db) && ForeignKeys(db)
    ensures var r := ApplyEvolution(db, p, authorized, at); r.Success? ==> IndexOk(r.value.db)
  {
    var r := ApplyEvolution(db, p, authorized, at);
    if r.Success? {
      var head, e := Head(db, p.target).value, p.body.evolution;
      if e.mode == Conflict {
        IndexConflict(db, p, head, e, at);
      } else {
        IndexAfterEvolution(db, p, head, e, at);
      }
    }
  }

  lemma IndexArchive(db: Db, p: Proposal, authorized: Option<Scope>)
    requires IndexOk(db) && ForeignKeys(db)
    ensures var r := ApplyState(db, p, authorized, MemoryArchived, VersionArchived, false); r.Success? ==> IndexOk(r.value.db)
  {
    var r := ApplyState(db, p, authorized, MemoryArchived, VersionArchived, false);
    if r.Success? {
      IndexUnchanged(db.memories, db.versions, db.index, db.embeddings, r.value.db.memories, r.value.db.versions);
    }
  }

  /** Forgetting removes every index row and embedding of the memory and touches no other. */
  lemma IndexForget(db: Db, p: Proposal, authorized: Option<Scope>)
    requires IndexOk(db) && ForeignKeys(db)
    ensures var r := ApplyState(db, p, authorized, MemoryForgotten, VersionForgotten, true); r.Success? ==> IndexOk(r.value.db)
  {
    var r := ApplyState(db, p, authorized, MemoryForgotten, VersionForgotten, true);
    if r.Success? {
      var after := r.value.db;
      forall row | row in after.index.rows
        ensures row < after.index.next && RowMatches(after.memories, after.versions, after.index.rows[row])
      {
        assert RowMatches(db.memories, db.versions, db.index.rows[row]);
      }
      forall v, row | RowOf(db.index, v, row) && db.versions[v].memory != p.target ensures RowOf(after.index, v, row) {
        assert RowMatches(db.memories, db.versions, db.index.rows[row]);
      }
      forall v | v in after.versions && Searchable(after.memories, after.versions[v]) ensures Indexed(after.index, v)
      {
        assert db.versions[v].memory != p.target;
        var row :| RowOf(db.index, v, row);
        assert RowOf(after.index, v, row);
      }
      forall k | k in after.embeddings
        ensures exists row :: RowOf(after.index, k.version, row) && after.index.rows[row].text == after.embeddings[k].content
      {
        var row :| RowOf(db.index, k.version, row) && db.index.rows[row].text == db.embeddings[k].content;
        assert RowOf(after.index, k.version, row);
      }
    }
  }

  lemma IndexApply(db: Db, p: Proposal, authorized: Option<Scope>, actor: Id, at: int)
    requires IndexOk(db) && ForeignKeys(db)
    ensures var r := Apply(db, p, authorized, actor, at); r.Committed? ==> IndexOk(r.db)
  {
    IndexCreate(db, p, authorized, at);
    IndexEvolution(db, p, authorized, at);
    IndexArchive(db, p, authorized);
    IndexForget(db, p, authorized);
  }

  lemma IndexPurge(db: Db, namespace: Id, memory: Id, mode: PurgeMode)
    requires IndexOk(db) && TreeMemories(db, namespace, memory) != {}
    ensures IndexOk(AfterPurge(db, namespace, memory, mode))
  {
    var marked := db.(versions := StaleAmong(db.versions, DerivedVersions(db, namespace, memory)));
    var doomed := Doomed(db, namespace, memory, mode);
    IndexUnchanged(db.memories, db.versions, db.index, db.embeddings, db.memories, marked.versions);
    DoomedInNamespace(db, namespace, memory, mode);
    IndexDelete(db, namespace, doomed);
    IndexDelete(marked, namespace, doomed);
  }

  lemma DoomedInNamespace(db: Db, namespace: Id, memory: Id, mode: PurgeMode)
    requires TreeMemories(db, namespace, memory) != {}
    ensures forall m :: m in Doomed(db, namespace, memory, mode) && m in db.memories ==>
      db.memories[m].scope.namespace == namespace
    ensures memory in db.memories && db.memories[memory].scope.namespace == namespace
  {
    var m :| m in TreeMemories(db, namespace, memory);
    var root :| root in Roots(db, namespace, memory);
  }

  lemma IndexExpire(db: Db, now: int)
    requires IndexOk(db)
    ensures IndexOk(Expire(db, now))
  {
    var after := Expire(db, now);
    IndexUnchanged(db.memories, db.versions, db.index, db.embeddings, after.memories, after.versions);
  }

  lemma IndexPutEmbedding(db: Db, key: EmbeddingKey, content: string, vector: seq<int>, at: int)
    requires IndexOk(db)
    ensures var r := PutEmbedding(db, key, content, vector, at); r.Success? ==> IndexOk(r.value)
  {
    var r := PutEmbedding(db, key, content, vector, at);
    if r.Success? {
      var row :| RowOf(db.index, key.version, row) && db.index.rows[row].text == content;
      forall k | k in r.value.embeddings
        ensures exists row :: RowOf(db.index, k.version, row) && db.index.rows[row].text == r.value.embeddings[k].content
      {
        if k == key {
          assert RowOf(db.index, k.version, row);
        } else {
          assert k in db.embeddings;
        }
      }
    }
  }

  // ----- What the invariant means -----

  /** Exactly one row for each searchable version, and it holds that version's text. */
  lemma SearchableHasOneRow(db: Db, v: Id)
    requires IndexOk(db) && v in db.versions && Searchable(db.memories, db.versions[v])
    ensures exists r :: RowOf(db.index, v, r)
    ensures forall r :: RowOf(db.index, v, r) ==> db.index.rows[r].text == MemoryText(db.versions[v].payload)
    ensures forall r, q :: RowOf(db.index, v, r) && RowOf(db.index, v, q) ==> r == q
  {
    assert Indexed(db.index, v);
    forall r | RowOf(db.index, v, r) ensures db.index.rows[r].text == MemoryText(db.versions[v].payload) {
      assert RowMatches(db.memories, db.versions, db.index.rows[r]);
    }
  }

  /** A forgotten memory has neither index rows nor embeddings. */
  lemma ForgottenIsUnindexed(db: Db, m: Id)
    requires IndexOk(db) && m in db.memories && db.memories[m].state == MemoryForgotten
    ensures forall r :: r in db.index.rows ==> db.index.rows[r].memory != m
    ensures forall k :: k in db.embeddings && k.version in db.versions ==> db.versions[k.version].memory != m
  {
    forall r | r in db.index.rows ensures db.index.rows[r].memory != m {
      assert RowMatches(db.memories, db.versions, db.index.rows[r]);
    }
    forall k | k in db.embeddings && k.version in db.versions ensures db.versions[k.version].memory != m {
      var r :| RowOf(db.index, k.version, r) && db.index.rows[r].text == db.embeddings[k].content;
      assert RowMatches(db.memories, db.versions, db.index.rows[r]);
    }
  }

  /** Every embedding was computed from the text of the stored version it belongs to. */
  lemma EmbeddingMatchesVersion(db: Db, k: EmbeddingKey)
    requires IndexOk(db) && k in db.embeddings
    ensures k.version in db.versions && db.embeddings[k].content == MemoryText(db.versions[k.version].payload)
    ensures db.versions[k.version].memory in db.memories && db.memories[db.versions[k.version].memory].state != MemoryForgotten
  {
    var r :| RowOf(db.index, k.version, r) && db.index.rows[r].text == db.embeddings[k].content;
    assert RowMatches(db.memories, db.versions, db.index.rows[r]);
  }
}
