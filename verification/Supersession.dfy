// What superseding or rebuilding a memory does to its derived versions and to recall.
module Supersession {
  import opened Ids
  import opened Graph
  import opened Domain
  import opened Database
  import opened Lifecycle
  import opened GraphInvariant
  import opened ChainInvariant
  import opened Recall
  import opened TaskInvariant
  import opened OpenInvariant

  /** p supersedes or rebuilds the memory whose head is head. */
  ghost predicate Evolves(db: Db, p: Proposal, authorized: Option<Scope>, at: int, head: Id) {
    && ApplyEvolution(db, p, authorized, at).Success?
    && p.body.evolution.mode != Conflict
    && Head(db, p.target) == Some(head)
  }

  ghost function Evolved(db: Db, p: Proposal, authorized: Option<Scope>, at: int): Db
    requires ApplyEvolution(db, p, authorized, at).Success?
  {
    ApplyEvolution(db, p, authorized, at).value.db
  }

  lemma EvolutionFacts(db: Db, p: Proposal, authorized: Option<Scope>, at: int, head: Id)
    requires Evolves(db, p, authorized, at, head)
    ensures IsHead(db, p.target, head) && db.memories[p.target].state == MemoryActive
    ensures db.versions[head].systemTime.from < at && VersionIdOf(p.id) !in db.versions
    ensures DependenciesAllowed(db, db.memories[p.target].scope, Some(head), p.body.evolution.derivedFrom)
    ensures Evolved(db, p, authorized, at) == AfterEvolution(db, p, head, p.body.evolution, at)
  {
  }

  // ----- Stale marking -----

  /** The new edges leave the closed version's descendants as they were, and the new version is not one. */
  lemma DescendantsKept(db: Db, p: Proposal, authorized: Option<Scope>, at: int, head: Id)
    requires GraphOk(db) && Evolves(db, p, authorized, at, head)
    ensures var after := Evolved(db, p, authorized, at);
      && !Reaches(after.edges, head, VersionIdOf(p.id))
      && forall v :: v in db.versions ==> (Reaches(after.edges, head, v) <==> Reaches(db.edges, head, v))
  {
    EvolutionFacts(db, p, authorized, at, head);
    FreshSink(db.edges, Elements(p.body.evolution.derivedFrom), VersionIdOf(p.id));
  }

  /** Exactly the current descendants of the closed version become stale; no other row changes. */
  lemma StaleExactly(db: Db, p: Proposal, authorized: Option<Scope>, at: int, head: Id, v: Id)
    requires GraphOk(db) && ChainOk(db) && Evolves(db, p, authorized, at, head)
    requires v in db.versions && v != head
    ensures var after := Evolved(db, p, authorized, at);
      && v in after.versions
      && after.versions[v] == if Reaches(db.edges, head, v) && db.versions[v].state == VersionCurrent
                              then db.versions[v].(state := VersionStale) else db.versions[v]
  {
    EvolutionFacts(db, p, authorized, at, head);
    EvolvedRows(db, p, head, p.body.evolution, at);
  }

  /** After the step nothing derived from the closed version is current, and the new version is. */
  lemma NoCurrentDescendant(db: Db, p: Proposal, authorized: Option<Scope>, at: int, head: Id)
    requires GraphOk(db) && ChainOk(db) && Evolves(db, p, authorized, at, head)
    ensures var after := Evolved(db, p, authorized, at);
      && (forall v :: v in after.versions && Reaches(after.edges, head, v) ==> after.versions[v].state != VersionCurrent)
      && after.versions[VersionIdOf(p.id)].state == VersionCurrent
      && after.versions[head].state == VersionSuperseded
  {
    var after := Evolved(db, p, authorized, at);
    EvolutionFacts(db, p, authorized, at, head);
    EvolvedRows(db, p, head, p.body.evolution, at);
    DescendantsKept(db, p, authorized, at, head);
    forall v | v in after.versions && Reaches(after.edges, head, v) ensures after.versions[v].state != VersionCurrent {
      assert v in db.versions;
    }
  }

  /** No parent of the new version was touched by the step that inserted it. */
  lemma ParentsUntouched(db: Db, p: Proposal, authorized: Option<Scope>, at: int, head: Id, parent: Id)
    requires GraphOk(db) && ChainOk(db) && Evolves(db, p, authorized, at, head)
    requires parent in p.body.evolution.derivedFrom
    ensures var after := Evolved(db, p, authorized, at);
      parent in db.versions && parent in after.versions && after.versions[parent] == db.versions[parent]
  {
    EvolutionFacts(db, p, authorized, at, head);
    assert DependencyAllowed(db, db.memories[p.target].scope, Some(head), parent);
    EvolvedRows(db, p, head, p.body.evolution, at);
  }

  // ----- Recall before and after -----

  lemma OwnMemory(db: Db, p: Proposal, authorized: Option<Scope>, at: int, head: Id)
    requires Evolves(db, p, authorized, at, head)
    ensures var after := Evolved(db, p, authorized, at);
      && after.workingSets == db.workingSets
      && after.memories == db.memories[p.target := Advanced(db.memories[p.target], db.versions[head].number + 1)]
  {
    EvolutionFacts(db, p, authorized, at, head);
  }

  /** The rows recall looks at for an old version of the evolved memory. */
  lemma OwnRows(db: Db, p: Proposal, authorized: Option<Scope>, at: int, head: Id, v: Id)
    requires GraphOk(db) && ChainOk(db) && Evolves(db, p, authorized, at, head)
    requires v in db.versions && db.versions[v].memory == p.target
    ensures var after := Evolved(db, p, authorized, at);
      && after.workingSets == db.workingSets
      && p.target in after.memories && v in after.versions
      && after.memories[p.target] == Advanced(db.memories[p.target], db.versions[head].number + 1)
      && after.versions[v] == if v == head then Closed(db.versions[head], at, p.body.evolution.validTime.from) else db.versions[v]
  {
    EvolutionFacts(db, p, authorized, at, head);
    EvolvedRows(db, p, head, p.body.evolution, at);
    OwnMemory(db, p, authorized, at, head);
    if v != head {
      OldIsSuperseded(db, head, v);
    }
  }

  /** Rows before the head are closed and superseded, so no stale marking reaches them. */
  lemma OldIsSuperseded(db: Db, head: Id, v: Id)
    requires ChainOk(db) && head in db.versions && v in db.versions && v != head
    requires db.versions[v].memory == db.versions[head].memory && IsHead(db, db.versions[head].memory, head)
    ensures db.versions[v].number < db.versions[head].number && db.versions[v].state == VersionSuperseded
  {
    assert RowOk(db.memories[db.versions[v].memory], db.versions[v]);
    assert db.versions[v].number != db.versions[head].number;
  }

  lemma PassesAlike(db: Db, p: Proposal, authorized: Option<Scope>, at: int, head: Id, f: Filter)
    requires Evolves(db, p, authorized, at, head)
    ensures MemoryPasses(db.workingSets, f, Advanced(db.memories[p.target], db.versions[head].number + 1))
       <==> MemoryPasses(db.workingSets, f, db.memories[p.target])
  {
    EvolutionFacts(db, p, authorized, at, head);
  }

  /**
   * Before at on the system axis, superseding a current head changes recall of the memory at
   * exactly the points that the narrowed valid interval gives up.
   */
  lemma PastUnchanged(db: Db, p: Proposal, authorized: Option<Scope>, at: int, head: Id, f: Filter, v: Id)
    requires GraphOk(db) && ChainOk(db) && Evolves(db, p, authorized, at, head)
    requires db.versions[head].state == VersionCurrent && f.systemAt < at
    requires v in db.versions && db.versions[v].memory == p.target
    ensures var w := p.body.evolution.validTime.from;
      Recallable(Evolved(db, p, authorized, at), f, v) <==>
        Recallable(db, f, v) && !(v == head && Narrows(db.versions[head], w) && f.validAt >= w)
  {
    EvolutionFacts(db, p, authorized, at, head);
    OwnRows(db, p, authorized, at, head, v);
    PassesAlike(db, p, authorized, at, head, f);
  }

  /** The new version is recalled from at onward, wherever its own valid interval holds. */
  lemma NewVersionRecall(db: Db, p: Proposal, authorized: Option<Scope>, at: int, head: Id, f: Filter)
    requires GraphOk(db) && ChainOk(db) && Evolves(db, p, authorized, at, head)
    ensures Recallable(Evolved(db, p, authorized, at), f, VersionIdOf(p.id)) <==>
      && f.systemAt >= at
      && p.body.evolution.validTime.Contains(f.validAt)
      && MemoryPasses(db.workingSets, f, db.memories[p.target])
  {
    EvolutionFacts(db, p, authorized, at, head);
    OwnRows(db, p, authorized, at, head, head);
    EvolvedRows(db, p, head, p.body.evolution, at);
    PassesAlike(db, p, authorized, at, head, f);
  }

  /** From at onward no older version of the memory is recalled. */
  lemma OldVersionsEnd(db: Db, p: Proposal, authorized: Option<Scope>, at: int, head: Id, f: Filter, v: Id)
    requires GraphOk(db) && ChainOk(db) && Evolves(db, p, authorized, at, head)
    requires f.systemAt >= at && v in db.versions && db.versions[v].memory == p.target
    ensures !Recallable(Evolved(db, p, authorized, at), f, v)
  {
    EvolutionFacts(db, p, authorized, at, head);
    OwnRows(db, p, authorized, at, head, v);
    if v != head {
      assert db.versions[v].number < db.versions[head].number;
      IntervalsOrdered(db, v, head);
    }
  }

  /** Versions of other memories: recall only loses the ones that became stale. */
  lemma OthersLoseOnlyStale(db: Db, p: Proposal, authorized: Option<Scope>, at: int, head: Id, f: Filter, v: Id)
    requires GraphOk(db) && ChainOk(db) && Evolves(db, p, authorized, at, head)
    requires v in db.versions && db.versions[v].memory != p.target
    ensures Recallable(Evolved(db, p, authorized, at), f, v) <==>
      Recallable(db, f, v) && !(Reaches(db.edges, head, v) && db.versions[v].state == VersionCurrent)
  {
    EvolutionFacts(db, p, authorized, at, head);
    StaleExactly(db, p, authorized, at, head, v);
  }

  // ----- The head that was stale -----

  /** No old version of the memory is recalled at a point where it was not recalled before. */
  ghost predicate NothingReappears(db: Db, p: Proposal, authorized: Option<Scope>, at: int)
    requires ApplyEvolution(db, p, authorized, at).Success?
  {
    forall f, v | v in db.versions && db.versions[v].memory == p.target ::
      Recallable(Evolved(db, p, authorized, at), f, v) ==> Recallable(db, f, v)
  }

  lemma CurrentHeadHidesNothingNew(db: Db, p: Proposal, authorized: Option<Scope>, at: int, head: Id)
    requires GraphOk(db) && ChainOk(db) && Evolves(db, p, authorized, at, head)
    requires db.versions[head].state == VersionCurrent
    ensures NothingReappears(db, p, authorized, at)
  {
    EvolutionFacts(db, p, authorized, at, head);
    forall f, v | v in db.versions && db.versions[v].memory == p.target && Recallable(Evolved(db, p, authorized, at), f, v)
      ensures Recallable(db, f, v)
    {
      OwnRows(db, p, authorized, at, head, v);
      PassesAlike(db, p, authorized, at, head, f);
    }
  }

  /**
   * Superseding a stale head turns it into a superseded one, which recall admits: at the start
   * of its own intervals it is recalled again by every filter that admits the memory.
   */
  lemma StaleHeadReappears(db: Db, p: Proposal, authorized: Option<Scope>, at: int, head: Id, f: Filter)
    requires GraphOk(db) && ChainOk(db) && Evolves(db, p, authorized, at, head)
    requires db.versions[head].state == VersionStale
    requires MemoryPasses(db.workingSets, f, db.memories[p.target])
    requires f.validAt == db.versions[head].validTime.from && f.systemAt == db.versions[head].systemTime.from
    ensures Recallable(Evolved(db, p, authorized, at), f, head) && !Recallable(db, f, head)
  {
    EvolutionFacts(db, p, authorized, at, head);
    OwnRows(db, p, authorized, at, head, head);
    PassesAlike(db, p, authorized, at, head, f);
  }

  // ----- When history is kept -----

  /** A recall that sees the memory, at the start of one of its versions and this valid time. */
  function StartFilter(m: Memory, v: Version, validAt: int): Filter {
    Filter(m.scope.namespace, m.scope.subject, {m.scope.owner}, true, true,
           if m.memoryFunction == Working then m.scope.context else NO_ID, {}, false, validAt, v.systemTime.from)
  }

  lemma StartFilterPasses(db: Db, memory: Id, v: Id, validAt: int)
    requires TasksOk(db) && OpenOk(db) && memory in db.memories && db.memories[memory].state == MemoryActive
    requires v in db.versions && db.versions[v].memory == memory
    ensures MemoryPasses(db.workingSets, StartFilter(db.memories[memory], db.versions[v], validAt), db.memories[memory])
  {
    var m, at := db.memories[memory], db.versions[v].systemTime.from;
    if m.memoryFunction == Working {
      var id :| id in db.workingSets && OpensTask(db.workingSets[id], m.scope, at);
      assert SetOpen(db.workingSets[id], m, at);
    }
  }

  /** Nothing reappears exactly when the head was current, not stale. */
  lemma NothingReappearsIffCurrent(db: Db, p: Proposal, authorized: Option<Scope>, at: int, head: Id)
    requires GraphOk(db) && ChainOk(db) && TasksOk(db) && OpenOk(db) && Evolves(db, p, authorized, at, head)
    ensures NothingReappears(db, p, authorized, at) <==> db.versions[head].state == VersionCurrent
  {
    EvolutionFacts(db, p, authorized, at, head);
    assert RowOk(db.memories[p.target], db.versions[head]);
    if db.versions[head].state == VersionCurrent {
      CurrentHeadHidesNothingNew(db, p, authorized, at, head);
    } else {
      StartFilterPasses(db, p.target, head, db.versions[head].validTime.from);
      StaleHeadReappears(db, p, authorized, at, head,
                         StartFilter(db.memories[p.target], db.versions[head], db.versions[head].validTime.from));
    }
  }

  /** Every recall of the memory at a system time before the step gives what it gave. */
  ghost predicate PastKept(db: Db, p: Proposal, authorized: Option<Scope>, at: int)
    requires ApplyEvolution(db, p, authorized, at).Success?
  {
    forall f: Filter, v | v in db.versions && db.versions[v].memory == p.target && f.systemAt < at ::
      Recallable(Evolved(db, p, authorized, at), f, v) <==> Recallable(db, f, v)
  }

  /** A narrowed head is no longer recalled at the new start, where it was recalled before. */
  lemma NarrowedHeadIsLost(db: Db, p: Proposal, authorized: Option<Scope>, at: int, head: Id, f: Filter)
    requires GraphOk(db) && ChainOk(db) && Evolves(db, p, authorized, at, head)
    requires db.versions[head].state == VersionCurrent && Narrows(db.versions[head], p.body.evolution.validTime.from)
    requires MemoryPasses(db.workingSets, f, db.memories[p.target])
    requires f.validAt == p.body.evolution.validTime.from && f.systemAt == db.versions[head].systemTime.from
    ensures Recallable(db, f, head) && !Recallable(Evolved(db, p, authorized, at), f, head)
  {
    EvolutionFacts(db, p, authorized, at, head);
    assert RowOk(db.memories[p.target], db.versions[head]);
    PastUnchanged(db, p, authorized, at, head, f, head);
  }

  /**
   * History is kept exactly when the head was current and the new start does not fall inside
   * its valid interval: the two guards of the closing update.
   */
  lemma PastKeptIff(db: Db, p: Proposal, authorized: Option<Scope>, at: int, head: Id)
    requires GraphOk(db) && ChainOk(db) && TasksOk(db) && OpenOk(db) && Evolves(db, p, authorized, at, head)
    ensures PastKept(db, p, authorized, at) <==>
      db.versions[head].state == VersionCurrent && !Narrows(db.versions[head], p.body.evolution.validTime.from)
  {
    EvolutionFacts(db, p, authorized, at, head);
    assert RowOk(db.memories[p.target], db.versions[head]);
    var m, current := db.memories[p.target], db.versions[head];
    if current.state == VersionStale {
      StartFilterPasses(db, p.target, head, current.validTime.from);
      StaleHeadReappears(db, p, authorized, at, head, StartFilter(m, current, current.validTime.from));
    } else if Narrows(current, p.body.evolution.validTime.from) {
      StartFilterPasses(db, p.target, head, p.body.evolution.validTime.from);
      NarrowedHeadIsLost(db, p, authorized, at, head, StartFilter(m, current, p.body.evolution.validTime.from));
    } else {
      CurrentPastKept(db, p, authorized, at, head);
    }
  }

  lemma CurrentPastKept(db: Db, p: Proposal, authorized: Option<Scope>, at: int, head: Id)
    requires GraphOk(db) && ChainOk(db) && Evolves(db, p, authorized, at, head)
    requires db.versions[head].state == VersionCurrent && !Narrows(db.versions[head], p.body.evolution.validTime.from)
    ensures PastKept(db, p, authorized, at)
  {
    forall f: Filter, v | v in db.versions && db.versions[v].memory == p.target && f.systemAt < at
      ensures Recallable(Evolved(db, p, authorized, at), f, v) <==> Recallable(db, f, v)
    {
      PastUnchanged(db, p, authorized, at, head, f, v);
    }
  }

  /** Every recall at a system time before the step gives what it gave, of any memory. */
  ghost predicate HistoryKept(db: Db, p: Proposal, authorized: Option<Scope>, at: int)
    requires ApplyEvolution(db, p, authorized, at).Success?
  {
    forall f: Filter, v | v in db.versions && f.systemAt < at ::
      Recallable(Evolved(db, p, authorized, at), f, v) <==> Recallable(db, f, v)
  }

  /** v is hidden by the step's stale marking although it was recalled before the step's system time. */
  ghost predicate HiddenByStep(db: Db, head: Id, at: int, v: Id) {
    && v in db.versions
    && Reaches(db.edges, head, v)
    && db.versions[v].state == VersionCurrent
    && db.versions[v].systemTime.from < at
  }

  lemma HiddenIsOther(db: Db, p: Proposal, authorized: Option<Scope>, at: int, head: Id, v: Id)
    requires GraphOk(db) && ChainOk(db) && Evolves(db, p, authorized, at, head) && HiddenByStep(db, head, at, v)
    ensures db.versions[v].memory != p.target && db.memories[db.versions[v].memory].state == MemoryActive
  {
    EvolutionFacts(db, p, authorized, at, head);
    assert RowOk(db.memories[db.versions[v].memory], db.versions[v]);
    if db.versions[v].memory == p.target && v != head {
      OldIsSuperseded(db, head, v);
    }
  }

  lemma HiddenIsLost(db: Db, p: Proposal, authorized: Option<Scope>, at: int, head: Id, v: Id)
    requires GraphOk(db) && ChainOk(db) && TasksOk(db) && OpenOk(db) && Evolves(db, p, authorized, at, head)
    requires HiddenByStep(db, head, at, v)
    ensures !HistoryKept(db, p, authorized, at)
  {
    HiddenIsOther(db, p, authorized, at, head, v);
    var m, row := db.memories[db.versions[v].memory], db.versions[v];
    var f := StartFilter(m, row, row.validTime.from);
    assert RowOk(m, row);
    StartFilterPasses(db, row.memory, v, row.validTime.from);
    OthersLoseOnlyStale(db, p, authorized, at, head, f, v);
    assert Recallable(db, f, v);
  }

  lemma VersionPastKept(db: Db, p: Proposal, authorized: Option<Scope>, at: int, head: Id, f: Filter, v: Id)
    requires GraphOk(db) && ChainOk(db) && Evolves(db, p, authorized, at, head)
    requires PastKept(db, p, authorized, at) && !HiddenByStep(db, head, at, v)
    requires v in db.versions && f.systemAt < at
    ensures Recallable(Evolved(db, p, authorized, at), f, v) <==> Recallable(db, f, v)
  {
    if db.versions[v].memory != p.target {
      OthersLoseOnlyStale(db, p, authorized, at, head, f, v);
    }
  }

  /**
   * History of the whole store is kept exactly when, besides, nothing derived from the head
   * that began before the step is current: stale marking hides a version at all its times.
   */
  lemma HistoryKeptIff(db: Db, p: Proposal, authorized: Option<Scope>, at: int, head: Id)
    requires GraphOk(db) && ChainOk(db) && TasksOk(db) && OpenOk(db) && Evolves(db, p, authorized, at, head)
    ensures HistoryKept(db, p, authorized, at) <==>
      && db.versions[head].state == VersionCurrent
      && !Narrows(db.versions[head], p.body.evolution.validTime.from)
      && !exists v :: HiddenByStep(db, head, at, v)
  {
    PastKeptIff(db, p, authorized, at, head);
    assert HistoryKept(db, p, authorized, at) ==> PastKept(db, p, authorized, at);
    if v :| HiddenByStep(db, head, at, v) {
      HiddenIsLost(db, p, authorized, at, head, v);
    } else if PastKept(db, p, authorized, at) {
      forall f: Filter, v | v in db.versions && f.systemAt < at
        ensures Recallable(Evolved(db, p, authorized, at), f, v) <==> Recallable(db, f, v)
      {
        VersionPastKept(db, p, authorized, at, head, f, v);
      }
    }
  }

  // ----- One version at a time -----

  /** Recall sees at most one version of a memory at any pair of valid and system times. */
  lemma RecallIsUnique(db: Db, f: Filter, v: Id, w: Id)
    requires ChainOk(db) && Recallable(db, f, v) && Recallable(db, f, w)
    requires db.versions[v].memory == db.versions[w].memory
    ensures v == w
  {
    OneVersionInForce(db, v, w, f.systemAt);
  }
}
