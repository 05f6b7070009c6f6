// What a purge removes, what it leaves, and that its receipt counts correctly.
module PurgeProofs {
  import opened Ids
  import opened Graph
  import opened Domain
  import opened Database
  import opened Purge
  import opened GraphInvariant
  import opened IndexInvariant

  /** v is a version of the target or derived from one, in the whole graph. */
  ghost predicate Tainted(db: Db, memory: Id, v: Id) {
    ReachedFrom(db.edges, OwnedBy(db.versions, {memory}), v)
  }

  /** Filtering the recursive query by namespace drops no row. */
  lemma NamespaceDropsNothing(db: Db, namespace: Id, memory: Id, v: Id)
    requires GraphOk(db) && TreeMemories(db, namespace, memory) != {} && v in db.versions
    ensures InTree(db, namespace, memory, v) <==> Tainted(db, memory, v)
  {
    DoomedInNamespace(db, namespace, memory, Cascade);
    var roots := Roots(db, namespace, memory);
    assert roots == OwnedBy(db.versions, {memory});
    if Tainted(db, memory, v) && v !in roots {
      var root :| root in roots && Reaches(db.edges, root, v);
      AncestorsMayFlow(db.memories, db.versions, db.edges, root, v);
    }
  }

  /** A cascade deletes exactly the memories that own a version of, or derived from, the target. */
  lemma CascadeExact(db: Db, namespace: Id, memory: Id, m: Id)
    requires GraphOk(db) && TreeMemories(db, namespace, memory) != {} && m in db.memories
    ensures m !in AfterPurge(db, namespace, memory, Cascade).memories <==>
      exists v :: v in db.versions && db.versions[v].memory == m && Tainted(db, memory, v)
  {
    forall v | v in db.versions ensures InTree(db, namespace, memory, v) <==> Tainted(db, memory, v) {
      NamespaceDropsNothing(db, namespace, memory, v);
    }
  }

  /** No surviving version descends from a version of the purged target. */
  lemma SurvivorsAreClean(db: Db, namespace: Id, memory: Id, source: Id, v: Id)
    requires GraphOk(db) && TreeMemories(db, namespace, memory) != {}
    requires source in db.versions && db.versions[source].memory == memory
    requires v in AfterPurge(db, namespace, memory, Cascade).versions
    ensures v != source && !Reaches(db.edges, source, v)
  {
    NamespaceDropsNothing(db, namespace, memory, v);
    assert source in OwnedBy(db.versions, {memory});
  }

  /** Survivors keep their rows, a surviving memory all its versions, and surviving versions their edges. */
  lemma SurvivorsKeepRows(db: Db, namespace: Id, memory: Id)
    requires ForeignKeys(db)
    ensures var after := AfterPurge(db, namespace, memory, Cascade);
      && (forall m :: m in after.memories ==> m in db.memories && after.memories[m] == db.memories[m])
      && (forall v :: v in after.versions <==> v in db.versions && db.versions[v].memory in after.memories)
      && (forall v :: v in after.versions ==> after.versions[v] == db.versions[v])
      && (forall e :: e in after.edges <==> e in db.edges && e.parent in after.versions && e.child in after.versions)
  {
  }

  /** In either mode nothing is left that names a deleted version: no index row, embedding or edge. */
  lemma NoResidue(db: Db, namespace: Id, memory: Id, mode: PurgeMode)
    requires GraphOk(db) && IndexOk(db) && TreeMemories(db, namespace, memory) != {}
    ensures var after := AfterPurge(db, namespace, memory, mode);
      && (forall r :: r in after.index.rows ==> after.index.rows[r].version in after.versions)
      && (forall k :: k in after.embeddings ==> k.version in after.versions)
      && (forall e :: e in after.edges ==> e.parent in after.versions && e.child in after.versions)
  {
    var after := AfterPurge(db, namespace, memory, mode);
    IndexPurge(db, namespace, memory, mode);
    GraphPurge(db, namespace, memory, mode);
    forall r | r in after.index.rows ensures after.index.rows[r].version in after.versions {
      assert RowMatches(after.memories, after.versions, after.index.rows[r]);
    }
    forall k | k in after.embeddings ensures k.version in after.versions {
      EmbeddingMatchesVersion(after, k);
    }
  }

  lemma MarkingKeepsOwners(versions: map<Id, Version>, marked: set<Id>, doomed: set<Id>)
    ensures StaleAmong(versions, marked).Keys == versions.Keys
    ensures OwnedBy(StaleAmong(versions, marked), doomed) == OwnedBy(versions, doomed)
  {
  }

  lemma DeletedKeys(db: Db, namespace: Id, doomed: set<Id>)
    ensures DeleteMemories(db, namespace, doomed).versions.Keys == db.versions.Keys - OwnedBy(db.versions, doomed)
  {
  }

  lemma KeysGone(db: Db, namespace: Id, memory: Id, mode: PurgeMode)
    ensures AfterPurge(db, namespace, memory, mode).versions.Keys
         == db.versions.Keys - OwnedBy(db.versions, Doomed(db, namespace, memory, mode))
  {
    var doomed := Doomed(db, namespace, memory, mode);
    var marked := db.(versions := StaleAmong(db.versions, DerivedVersions(db, namespace, memory)));
    MarkingKeepsOwners(db.versions, DerivedVersions(db, namespace, memory), doomed);
    DeletedKeys(if mode == Cascade then db else marked, namespace, doomed);
  }

  lemma CountGone(all: set<Id>, gone: set<Id>)
    requires gone <= all
    ensures |gone| == |all| - |all - gone|
  {
    assert all == (all - gone) + gone;
  }

  /** The receipt counts exactly the version rows that disappeared. */
  lemma ReceiptCounts(db: Db, receiptId: Id, namespace: Id, actor: Id, memory: Id, mode: PurgeMode, at: int)
    ensures var r := PurgeMemory(db, receiptId, namespace, actor, memory, mode, at);
      r.Purged? ==> r.receipt.versionsDeleted == |db.versions| - |r.db.versions|
  {
    var gone := OwnedBy(db.versions, Doomed(db, namespace, memory, mode));
    KeysGone(db, namespace, memory, mode);
    CountGone(db.versions.Keys, gone);
    KeyCount(db.versions);
    KeyCount(AfterPurge(db, namespace, memory, mode).versions);
  }

  lemma KeyCount(versions: map<Id, Version>)
    ensures |versions| == |versions.Keys|
  {
  }

  /** mark-stale deletes only the target; nothing derived from it that survives is current. */
  lemma MarkStaleExact(db: Db, namespace: Id, memory: Id, v: Id)
    requires GraphOk(db) && TreeMemories(db, namespace, memory) != {}
    requires v in db.versions && db.versions[v].memory != memory
    ensures var after := AfterPurge(db, namespace, memory, MarkStale);
      && after.memories == db.memories - {memory}
      && v in after.versions
      && after.versions[v] == (if Tainted(db, memory, v) && db.versions[v].state == VersionCurrent
                               then db.versions[v].(state := VersionStale) else db.versions[v])
      && forall w :: w in after.versions ==> after.versions[w].memory != memory
  {
    NamespaceDropsNothing(db, namespace, memory, v);
  }

  // ----- What an answered purge did -----

  /** The target has a version in this namespace. */
  ghost predicate TargetStored(db: Db, namespace: Id, memory: Id) {
    && memory in db.memories
    && db.memories[memory].scope.namespace == namespace
    && exists v :: v in db.versions && db.versions[v].memory == memory
  }

  lemma TreeNotEmpty(db: Db, namespace: Id, memory: Id)
    ensures TreeMemories(db, namespace, memory) != {} <==> TargetStored(db, namespace, memory)
  {
    if TargetStored(db, namespace, memory) {
      var v :| v in db.versions && db.versions[v].memory == memory;
      assert v in Roots(db, namespace, memory);
      assert InTree(db, namespace, memory, v);
      assert memory in TreeMemories(db, namespace, memory);
    }
    if TreeMemories(db, namespace, memory) != {} {
      DoomedInNamespace(db, namespace, memory, Cascade);
      var m :| m in TreeMemories(db, namespace, memory);
      var root :| root in Roots(db, namespace, memory);
    }
  }

  /** A complete request succeeds if and only if its target is stored there and its receipt id is free. */
  lemma PurgeSucceedsIff(db: Db, receiptId: Id, namespace: Id, actor: Id, memory: Id, mode: PurgeMode, at: int)
    requires receiptId != NO_ID && namespace != NO_ID && actor != NO_ID && memory != NO_ID
    ensures PurgeMemory(db, receiptId, namespace, actor, memory, mode, at).Purged? <==>
      TargetStored(db, namespace, memory) && receiptId !in db.receipts
  {
    TreeNotEmpty(db, namespace, memory);
  }

  lemma PurgedReceipt(db: Db, receiptId: Id, namespace: Id, actor: Id, memory: Id, mode: PurgeMode, at: int)
    requires PurgeMemory(db, receiptId, namespace, actor, memory, mode, at).Purged?
    ensures var r := PurgeMemory(db, receiptId, namespace, actor, memory, mode, at);
      && r.receipt.namespace == namespace && r.receipt.target == memory && r.receipt.actor == actor && r.receipt.purgedAt == at
      && r.db.receipts == db.receipts[receiptId := r.receipt]
  {
  }

  /** On success the receipt of this very request is stored, beside the old ones, and answered. */
  lemma PurgeLeavesReceipt(db: Db, receiptId: Id, namespace: Id, actor: Id, memory: Id, mode: PurgeMode, at: int)
    requires PurgeMemory(db, receiptId, namespace, actor, memory, mode, at).Purged?
    ensures var r := PurgeMemory(db, receiptId, namespace, actor, memory, mode, at);
      && r.receipt.namespace == namespace && r.receipt.target == memory
      && r.receipt.actor == actor && r.receipt.purgedAt == at
      && r.receipt.versionsDeleted == |db.versions| - |r.db.versions|
      && r.db.receipts == db.receipts[receiptId := r.receipt]
  {
    ReceiptCounts(db, receiptId, namespace, actor, memory, mode, at);
    PurgedReceipt(db, receiptId, namespace, actor, memory, mode, at);
  }

  lemma PurgedIsAfterPurge(db: Db, receiptId: Id, namespace: Id, actor: Id, memory: Id, mode: PurgeMode, at: int)
    requires PurgeMemory(db, receiptId, namespace, actor, memory, mode, at).Purged?
    ensures var r := PurgeMemory(db, receiptId, namespace, actor, memory, mode, at);
      && TreeMemories(db, namespace, memory) != {}
      && r.db == AfterPurge(db, namespace, memory, mode).(receipts := r.db.receipts)
  {
  }

  /**
   * An answered cascade: the target is gone, and with it exactly the memories that own one of
   * its versions or one derived from them; no version, index row or embedding of theirs is left.
   */
  lemma CascadeEffect(db: Db, receiptId: Id, namespace: Id, actor: Id, memory: Id, at: int)
    requires GraphOk(db) && IndexOk(db) && PurgeMemory(db, receiptId, namespace, actor, memory, Cascade, at).Purged?
    ensures var after := PurgeMemory(db, receiptId, namespace, actor, memory, Cascade, at).db;
      && memory !in after.memories
      && (forall m :: m in db.memories ==>
           (m !in after.memories <==> exists v :: v in db.versions && db.versions[v].memory == m && Tainted(db, memory, v)))
      && (forall m :: m in after.memories ==> m in db.memories && after.memories[m] == db.memories[m])
      && (forall v :: v in after.versions <==> v in db.versions && db.versions[v].memory in after.memories)
      && (forall v :: v in after.versions ==> after.versions[v] == db.versions[v])
      && (forall r :: r in after.index.rows ==> after.index.rows[r].version in after.versions)
      && (forall k :: k in after.embeddings ==> k.version in after.versions)
  {
    PurgedIsAfterPurge(db, receiptId, namespace, actor, memory, Cascade, at);
    forall m | m in db.memories
      ensures m !in AfterPurge(db, namespace, memory, Cascade).memories <==>
        exists v :: v in db.versions && db.versions[v].memory == m && Tainted(db, memory, v)
    {
      CascadeExact(db, namespace, memory, m);
    }
    NoResidue(db, namespace, memory, Cascade);
    TargetTainted(db, namespace, memory);
    CascadeKeeps(db, namespace, memory);
  }

  lemma TargetTainted(db: Db, namespace: Id, memory: Id)
    requires TreeMemories(db, namespace, memory) != {}
    ensures memory in db.memories
    ensures exists v :: v in db.versions && db.versions[v].memory == memory && Tainted(db, memory, v)
  {
    TreeNotEmpty(db, namespace, memory);
    var v :| v in db.versions && db.versions[v].memory == memory;
    assert v in OwnedBy(db.versions, {memory});
  }

  lemma CascadeKeeps(db: Db, namespace: Id, memory: Id)
    requires GraphOk(db)
    ensures var after := AfterPurge(db, namespace, memory, Cascade);
      && (forall m :: m in after.memories ==> m in db.memories && after.memories[m] == db.memories[m])
      && (forall v :: v in after.versions <==> v in db.versions && db.versions[v].memory in after.memories)
      && (forall v :: v in after.versions ==> after.versions[v] == db.versions[v])
  {
  }

  /** An answered mark-stale purge: the target alone is gone, and nothing derived from it is current. */
  lemma MarkStaleEffect(db: Db, receiptId: Id, namespace: Id, actor: Id, memory: Id, at: int)
    requires GraphOk(db) && IndexOk(db) && PurgeMemory(db, receiptId, namespace, actor, memory, MarkStale, at).Purged?
    ensures var after := PurgeMemory(db, receiptId, namespace, actor, memory, MarkStale, at).db;
      && memory !in after.memories
      && after.memories == db.memories - {memory}
      && (forall v :: v in after.versions <==> v in db.versions && db.versions[v].memory != memory)
      && (forall v :: v in after.versions && Tainted(db, memory, v) ==> after.versions[v].state != VersionCurrent)
      && (forall v :: v in after.versions && !Tainted(db, memory, v) ==> after.versions[v] == db.versions[v])
      && (forall r :: r in after.index.rows ==> after.index.rows[r].version in after.versions)
      && (forall k :: k in after.embeddings ==> k.version in after.versions)
  {
    PurgedIsAfterPurge(db, receiptId, namespace, actor, memory, MarkStale, at);
    NoResidue(db, namespace, memory, MarkStale);
    MarkStaleKeys(db, namespace, memory);
    forall v | v in db.versions && db.versions[v].memory != memory
      ensures AfterPurge(db, namespace, memory, MarkStale).versions[v] ==
        (if Tainted(db, memory, v) && db.versions[v].state == VersionCurrent
         then db.versions[v].(state := VersionStale) else db.versions[v])
    {
      MarkStaleExact(db, namespace, memory, v);
    }
  }

  lemma MarkStaleKeys(db: Db, namespace: Id, memory: Id)
    ensures var after := AfterPurge(db, namespace, memory, MarkStale);
      && after.memories == db.memories - {memory}
      && forall v :: v in after.versions <==> v in db.versions && db.versions[v].memory != memory
  {
  }
}
