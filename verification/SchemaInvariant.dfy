// Every step keeps the schema's own constraints, and no version names a parent twice.
module SchemaInvariant {
  import opened Ids
  import opened Graph
  import opened Domain
  import opened Database
  import opened Lifecycle
  import opened Purge
  import opened WorkingSets
  import opened Bundles
  import opened Portable
  import opened Captures
  import opened GraphInvariant
  import opened MutationShape
  import opened PortableProofs

  ghost predicate SameNumbers(before: map<Id, Version>, after: map<Id, Version>) {
    && after.Keys <= before.Keys
    && forall v :: v in after ==> after[v].memory == before[v].memory && after[v].number == before[v].number
  }

  lemma NumbersInsert(versions: map<Id, Version>, before: map<Id, Version>, id: Id, v: Version)
    requires UniqueNumbers(versions) && SameNumbers(versions, before) && !NumberTaken(versions, v.memory, v.number)
    ensures UniqueNumbers(before[id := v])
  {
  }

  lemma NumbersCreate(db: Db, p: Proposal, authorized: Option<Scope>, at: int)
    requires Schema(db)
    ensures var r := ApplyCreate(db, p, authorized, at); r.Success? ==> UniqueNumbers(r.value.db.versions)
  {
    var r := ApplyCreate(db, p, authorized, at);
    if r.Success? {
      NumbersInsert(db.versions, db.versions, r.value.rows.versionId, r.value.rows.version);
    }
  }

  lemma NumbersConflict(db: Db, p: Proposal, head: Id, e: MemoryEvolution, at: int)
    requires Schema(db) && IsHead(db, p.target, head)
    ensures var r := ApplyConflict(db, p, head, e, at); r.Success? ==> UniqueNumbers(r.value.db.versions)
  {
    var r := ApplyConflict(db, p, head, e, at);
    if r.Success? {
      var rows := r.value.rows;
      var grouped := db.versions[head := db.versions[head].(conflictGroup := rows.version.conflictGroup)];
      NumbersInsert(db.versions, grouped, rows.versionId, rows.version);
    }
  }

  lemma NumbersEvolution(db: Db, p: Proposal, authorized: Option<Scope>, at: int)
    requires Schema(db)
    ensures var r := ApplyEvolution(db, p, authorized, at); r.Success? ==> UniqueNumbers(r.value.db.versions)
  {
    var r := ApplyEvolution(db, p, authorized, at);
    if r.Success? {
      var head, e := Head(db, p.target).value, p.body.evolution;
      if e.mode == Conflict {
        NumbersConflict(db, p, head, e, at);
      } else {
        NumbersInsert(db.versions, AfterClose(db, head, e, at).versions, r.value.rows.versionId, r.value.rows.version);
      }
    }
  }

  lemma NumbersState(db: Db, p: Proposal, authorized: Option<Scope>, ms: MemoryState, vs: VersionState, removeIndexes: bool)
    requires Schema(db)
    ensures var r := ApplyState(db, p, authorized, ms, vs, removeIndexes); r.Success? ==> UniqueNumbers(r.value.db.versions)
  {
    var r := ApplyState(db, p, authorized, ms, vs, removeIndexes);
    if r.Success? {
      assert SameNumbers(db.versions, r.value.db.versions);
    }
  }

  lemma NumbersMutate(db: Db, p: Proposal, authorized: Option<Scope>, at: int)
    requires Schema(db)
    ensures var r := Mutate(db, p, authorized, at); r.Success? ==> UniqueNumbers(r.value.db.versions)
  {
    NumbersCreate(db, p, authorized, at);
    NumbersEvolution(db, p, authorized, at);
    NumbersState(db, p, authorized, MemoryArchived, VersionArchived, false);
    NumbersState(db, p, authorized, MemoryForgotten, VersionForgotten, true);
  }

  /** Index rows stay below the next row number, and no proposal adds embeddings. */
  ghost predicate IndexesShaped(db: Db, after: Db) {
    && (forall r :: r in after.index.rows ==> r < after.index.next)
    && after.embeddings.Keys <= db.embeddings.Keys
  }

  lemma IndexesCreate(db: Db, p: Proposal, authorized: Option<Scope>, at: int)
    requires Schema(db)
    ensures var r := ApplyCreate(db, p, authorized, at); r.Success? ==> IndexesShaped(db, r.value.db)
  {
  }

  lemma IndexesConflict(db: Db, p: Proposal, head: Id, e: MemoryEvolution, at: int)
    requires Schema(db) && IsHead(db, p.target, head)
    ensures var r := ApplyConflict(db, p, head, e, at); r.Success? ==> IndexesShaped(db, r.value.db)
  {
  }

  lemma IndexesEvolution(db: Db, p: Proposal, authorized: Option<Scope>, at: int)
    requires Schema(db)
    ensures var r := ApplyEvolution(db, p, authorized, at); r.Success? ==> IndexesShaped(db, r.value.db)
  {
    var r := ApplyEvolution(db, p, authorized, at);
    if r.Success? && p.body.evolution.mode == Conflict {
      IndexesConflict(db, p, Head(db, p.target).value, p.body.evolution, at);
    }
  }

  lemma IndexesState(db: Db, p: Proposal, authorized: Option<Scope>, ms: MemoryState, vs: VersionState, removeIndexes: bool)
    requires Schema(db)
    ensures var r := ApplyState(db, p, authorized, ms, vs, removeIndexes); r.Success? ==> IndexesShaped(db, r.value.db)
  {
  }

  lemma IndexesMutate(db: Db, p: Proposal, authorized: Option<Scope>, at: int)
    requires Schema(db)
    ensures var r := Mutate(db, p, authorized, at); r.Success? ==> IndexesShaped(db, r.value.db)
  {
    IndexesCreate(db, p, authorized, at);
    IndexesEvolution(db, p, authorized, at);
    IndexesState(db, p, authorized, MemoryArchived, VersionArchived, false);
    IndexesState(db, p, authorized, MemoryForgotten, VersionForgotten, true);
  }

  lemma SchemaApply(db: Db, p: Proposal, authorized: Option<Scope>, actor: Id, at: int)
    requires Schema(db) && GraphOk(db)
    ensures var r := Apply(db, p, authorized, actor, at); r.Committed? ==> Schema(r.db)
  {
    var r, m := Apply(db, p, authorized, actor, at), Mutate(db, p, authorized, at);
    if r.Committed? && p.id !in db.operations {
      GraphApply(db, p, authorized, actor, at);
      ShapeMutation(db, p, authorized, at);
      NumbersMutate(db, p, authorized, at);
      IndexesMutate(db, p, authorized, at);
      assert r.db.versions == m.value.db.versions && r.db.memories == m.value.db.memories && r.db.edges == m.value.db.edges;
    }
  }

  lemma SchemaPurge(db: Db, namespace: Id, memory: Id, mode: PurgeMode)
    requires Schema(db)
    ensures Schema(AfterPurge(db, namespace, memory, mode))
  {
  }

  lemma SchemaExpire(db: Db, now: int)
    requires Schema(db)
    ensures Schema(Expire(db, now))
  {
  }

  lemma GraphExpire(db: Db, now: int)
    requires GraphOk(db)
    ensures GraphOk(Expire(db, now))
  {
    var after := Expire(db, now);
    GraphUnchanged(db.memories, db.versions, db.edges, after.memories, after.versions);
  }

  lemma DerivedOnceExpire(db: Db, now: int)
    requires DerivedOnce(db.versions)
    ensures DerivedOnce(Expire(db, now).versions)
  {
  }

  lemma SchemaPutEpisode(db: Db, id: Id, e: Episode, outcomes: seq<Row<Outcome>>)
    requires Schema(db)
    ensures var r := PutEpisode(db, id, e, outcomes); r.Success? ==> Schema(r.value)
  {
    var r := PutEpisode(db, id, e, outcomes);
    if r.Success? {
      forall o | o in r.value.outcomes ensures r.value.outcomes[o].episode in r.value.episodes {
        if o in Table(outcomes) {
          var row := TableRow(outcomes, o);
        }
      }
    }
  }

  lemma DerivedOnceApply(db: Db, p: Proposal, authorized: Option<Scope>, actor: Id, at: int)
    requires DerivedOnce(db.versions)
    ensures var r := Apply(db, p, authorized, actor, at); r.Committed? ==> DerivedOnce(r.db.versions)
  {
    ShapeMutation(db, p, authorized, at);
  }

  lemma DerivedOncePurge(db: Db, namespace: Id, memory: Id, mode: PurgeMode)
    requires DerivedOnce(db.versions)
    ensures DerivedOnce(AfterPurge(db, namespace, memory, mode).versions)
  {
  }

  lemma DerivedOnceImport(db: Db, b: Bundle)
    requires DerivedOnce(db.versions)
    ensures var r := Import(db, b); r.Success? ==> DerivedOnce(r.value.versions)
  {
    var r := Import(db, b);
    if r.Success? {
      var rows := AllVersions(b.memories);
      forall v | v in r.value.versions ensures Distinct(r.value.versions[v].derivedFrom) {
        if v in Table(rows) {
          var row := TableRow(rows, v);
        }
      }
    }
  }
}
