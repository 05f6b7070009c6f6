// Two short runs that reach the heads whose supersession loses history: a stale head, which
// comes back into view, and a current head whose valid interval is cut short.
module LostHistory {
  import opened Ids
  import opened Graph
  import opened Domain
  import opened Database
  import opened Lifecycle
  import opened Runs
  import opened ChainInvariant
  import opened Supersession

  const SCOPE := Scope(Text("space"), Text("owner"), Text("subject"), Text("actor"), NO_ID, Private)
  const CLAIM := FactualPayload(Text("subject"), "claim", "statement", Asserted, None)
  const ACTOR := Text("actor")

  function CreateOf(id: string, parents: seq<Id>): Proposal {
    Proposal(Text(id), SCOPE.namespace, [Text("observation")], Create, NO_ID,
             CreateBody(MemoryCreate(SCOPE, Factual, CLAIM, [Text("observation")], None, NO_ID, parents)), 0)
  }

  function UpdateOf(id: string, target: Id, validFrom: int): Proposal {
    Proposal(Text(id), SCOPE.namespace, [Text("observation")], Update, target,
             EvolutionBody(MemoryEvolution(Supersede, CLAIM, [Text("observation")], TimeRange(validFrom, None), NO_ID, [])), 0)
  }

  function MemoryOf(id: string): Id { MemoryIdOf(Text(id)) }
  function VersionOf(id: string): Id { VersionIdOf(Text(id)) }

  function Row1(id: string, parents: seq<Id>, at: int): Version {
    FirstVersion(MemoryOf(id), TimeRange(0, None), at, NO_ID, parents, [Text("observation")], CLAIM)
  }

  function Created(at: int): Memory {
    Memory(SCOPE, Factual, MemoryActive, 1, at)
  }

  /** A create whose ids are free and whose parents are allowed is accepted. */
  lemma CreateAccepted(db: Db, id: string, parents: seq<Id>, at: int)
    requires id != "" && Text(id) !in db.operations && MemoryOf(id) !in db.memories && VersionOf(id) !in db.versions
    requires DependenciesAllowed(db, SCOPE, None, parents)
    ensures var after := Next(db, ApplyStep(CreateOf(id, parents), None, ACTOR, at));
      && after.memories == db.memories[MemoryOf(id) := Created(at)]
      && after.versions == db.versions[VersionOf(id) := Row1(id, parents, at)]
      && after.edges == db.edges + EdgesInto(Elements(parents), VersionOf(id))
      && after.operations.Keys == db.operations.Keys + {Text(id)}
  {
    var p := CreateOf(id, parents);
    assert ValidCreate(p.body.create) && ReferencesExist(db, SCOPE, at, CLAIM);
    assert ApplyCreate(db, p, None, at).Success?;
  }

  /** An update of an active factual memory after its head began, under free ids, is accepted. */
  lemma UpdateEvolves(db: Db, id: string, target: Id, head: Id, validFrom: int, at: int)
    requires id != "" && UniqueNumbers(db.versions) && IsHead(db, target, head) && target != NO_ID
    requires db.memories[target].scope == SCOPE && db.memories[target].memoryFunction == Factual
    requires db.memories[target].state == MemoryActive && db.versions[head].systemTime.from < at
    requires VersionOf(id) !in db.versions && !NumberTaken(db.versions, target, db.versions[head].number + 1)
    ensures Evolves(db, UpdateOf(id, target, validFrom), None, at, head)
  {
    HeadUnique(db, target, head);
    var e := UpdateOf(id, target, validFrom).body.evolution;
    assert ValidEvolution(e, Factual) && ReferencesExist(db, SCOPE, at, CLAIM);
    assert DependenciesAllowed(db, SCOPE, Some(head), []);
  }

  /** The first run: A, B derived from A, and then a new version of A. */
  const STALE_RUN: seq<Step> := [
    ApplyStep(CreateOf("a", []), None, ACTOR, 1),
    ApplyStep(CreateOf("b", [VersionOf("a")]), None, ACTOR, 2),
    ApplyStep(UpdateOf("c", MemoryOf("a"), 0), None, ACTOR, 3)]

  ghost predicate OneMemory(db: Db) {
    && db.memories == map[MemoryOf("a") := Created(1)]
    && db.versions == map[VersionOf("a") := Row1("a", [], 1)]
    && db.edges == {}
    && db.operations.Keys == {Text("a")}
  }

  lemma FirstStep()
    ensures OneMemory(Run(STALE_RUN[..1]))
  {
    CreateAccepted(EMPTY, "a", [], 1);
    assert STALE_RUN[..1] == [] + [STALE_RUN[0]];
    RunOneMore([], STALE_RUN[0]);
  }

  ghost predicate TwoMemories(db: Db) {
    && db.memories == map[MemoryOf("a") := Created(1), MemoryOf("b") := Created(2)]
    && db.versions == map[VersionOf("a") := Row1("a", [], 1), VersionOf("b") := Row1("b", [VersionOf("a")], 2)]
    && db.edges == {Edge(VersionOf("a"), VersionOf("b"))}
    && db.operations.Keys == {Text("a"), Text("b")}
  }

  lemma SecondStep()
    ensures TwoMemories(Run(STALE_RUN[..2]))
  {
    var db := Run(STALE_RUN[..1]);
    FirstStep();
    assert DependencyAllowed(db, SCOPE, None, VersionOf("a"));
    CreateAccepted(db, "b", [VersionOf("a")], 2);
    assert STALE_RUN[..2] == STALE_RUN[..1] + [STALE_RUN[1]];
    RunOneMore(STALE_RUN[..1], STALE_RUN[1]);
    assert EdgesInto(Elements([VersionOf("a")]), VersionOf("b")) == {Edge(VersionOf("a"), VersionOf("b"))};
  }

  /** What an accepted update leaves: the tables of the evolution, and its operation. */
  lemma UpdateLeaves(db: Db, id: string, target: Id, head: Id, validFrom: int, at: int)
    requires id != "" && target != NO_ID && Text(id) !in db.operations
    requires Evolves(db, UpdateOf(id, target, validFrom), None, at, head)
    ensures var p := UpdateOf(id, target, validFrom);
      var after := Next(db, ApplyStep(p, None, ACTOR, at));
      && IsHead(db, target, head)
      && after.versions == AfterEvolution(db, p, head, p.body.evolution, at).versions
      && after.memories == AfterEvolution(db, p, head, p.body.evolution, at).memories
  {
    EvolutionFacts(db, UpdateOf(id, target, validFrom), None, at, head);
  }

  ghost predicate MemoryB(memories: map<Id, Memory>) {
    MemoryOf("b") in memories && memories[MemoryOf("b")] == Created(2)
  }

  /** The head of b is stale, and b has no later version. */
  ghost predicate StaleB(versions: map<Id, Version>) {
    && VersionOf("b") in versions
    && versions[VersionOf("b")] == Row1("b", [VersionOf("a")], 2).(state := VersionStale)
    && VersionOf("d") !in versions
    && forall v :: v in versions && versions[v].memory == MemoryOf("b") ==> v == VersionOf("b")
  }

  lemma OtherNames()
    ensures MemoryOf("a") != MemoryOf("b")
    ensures VersionOf("d") !in {VersionOf("a"), VersionOf("b"), VersionOf("c")}
    ensures VersionOf("c") !in {VersionOf("a"), VersionOf("b")}
  {
    assert "a"[0] == 'a' && "b"[0] == 'b' && "c"[0] == 'c' && "d"[0] == 'd';
  }

  /** Rows of b after any step that keeps a's and c's rows with a and turns the head of b stale. */
  lemma VersionsStaleB(versions: map<Id, Version>)
    requires versions.Keys == {VersionOf("a"), VersionOf("b"), VersionOf("c")}
    requires versions[VersionOf("a")].memory == MemoryOf("a") && versions[VersionOf("c")].memory == MemoryOf("a")
    requires versions[VersionOf("b")] == Row1("b", [VersionOf("a")], 2).(state := VersionStale)
    ensures StaleB(versions)
  {
    OtherNames();
  }

  /** What superseding a needs to know of the two memories. */
  ghost predicate Ready(db: Db) {
    && IsHead(db, MemoryOf("a"), VersionOf("a"))
    && db.memories[MemoryOf("a")] == Created(1)
    && MemoryB(db.memories)
    && db.versions.Keys == {VersionOf("a"), VersionOf("b")}
    && db.versions[VersionOf("a")] == Row1("a", [], 1)
    && db.versions[VersionOf("b")] == Row1("b", [VersionOf("a")], 2)
    && Edge(VersionOf("a"), VersionOf("b")) in db.edges
    && Text("c") !in db.operations
  }

  lemma TwoAreReady(db: Db)
    requires TwoMemories(db)
    ensures Ready(db)
  {
    OtherNames();
    assert "a"[0] == 'a' && "b"[0] == 'b' && "c"[0] == 'c';
  }

  lemma EvolvedB(db: Db)
    requires Ready(db) && ChainOk(db)
    ensures var p := UpdateOf("c", MemoryOf("a"), 0);
      var after := AfterEvolution(db, p, VersionOf("a"), p.body.evolution, 3);
      StaleB(after.versions) && MemoryB(after.memories)
  {
    var p := UpdateOf("c", MemoryOf("a"), 0);
    OtherNames();
    EdgeReaches(db.edges, VersionOf("a"), VersionOf("b"));
    EvolvedRows(db, p, VersionOf("a"), p.body.evolution, 3);
    VersionsStaleB(AfterEvolution(db, p, VersionOf("a"), p.body.evolution, 3).versions);
  }

  lemma NoSecondA(db: Db)
    requires Ready(db)
    ensures !NumberTaken(db.versions, MemoryOf("a"), 2)
  {
  }

  lemma UpdateA(db: Db)
    requires Ready(db) && ChainOk(db)
    ensures var after := Next(db, ApplyStep(UpdateOf("c", MemoryOf("a"), 0), None, ACTOR, 3));
      MemoryB(after.memories) && StaleB(after.versions)
  {
    OtherNames();
    NoSecondA(db);
    EvolvedB(db);
    UpdateEvolves(db, "c", MemoryOf("a"), VersionOf("a"), 0, 3);
    UpdateLeaves(db, "c", MemoryOf("a"), VersionOf("a"), 0, 3);
  }

  lemma LastStep()
    ensures Native(STALE_RUN) && Native(STALE_RUN[..2])
    ensures Run(STALE_RUN) == Next(Run(STALE_RUN[..2]), ApplyStep(UpdateOf("c", MemoryOf("a"), 0), None, ACTOR, 3))
  {
    assert STALE_RUN == STALE_RUN[..2] + [STALE_RUN[2]];
    RunOneMore(STALE_RUN[..2], STALE_RUN[2]);
  }

  /** Superseding a makes the head of b stale. */
  lemma ThirdStep()
    ensures MemoryB(Run(STALE_RUN).memories) && StaleB(Run(STALE_RUN).versions)
  {
    SecondStep();
    LastStep();
    EveryNativeRunIsKempt(STALE_RUN[..2]);
    TwoAreReady(Run(STALE_RUN[..2]));
    UpdateA(Run(STALE_RUN[..2]));
  }

  lemma StaleBEvolves(db: Db)
    requires MemoryB(db.memories) && StaleB(db.versions) && UniqueNumbers(db.versions)
    ensures Evolves(db, UpdateOf("d", MemoryOf("b"), 0), None, 4, VersionOf("b"))
  {
    UpdateEvolves(db, "d", MemoryOf("b"), VersionOf("b"), 0, 4);
  }

  /** p, applied next, supersedes this head. */
  ghost predicate Reached(steps: seq<Step>, p: Proposal, at: int, head: Id, state: VersionState) {
    && Native(steps)
    && Evolves(Run(steps), p, None, at, head)
    && Run(steps).versions[head].state == state
  }

  /** A reachable store in which the next update supersedes a stale head, which then reappears. */
  lemma StaleHeadIsReached()
    ensures Reached(STALE_RUN, UpdateOf("d", MemoryOf("b"), 0), 4, VersionOf("b"), VersionStale)
    ensures !NothingReappears(Run(STALE_RUN), UpdateOf("d", MemoryOf("b"), 0), None, 4)
    ensures !PastKept(Run(STALE_RUN), UpdateOf("d", MemoryOf("b"), 0), None, 4)
  {
    ThirdStep();
    LastStep();
    EveryNativeRunIsKempt(STALE_RUN);
    StaleBEvolves(Run(STALE_RUN));
    PastKeptInRuns(STALE_RUN, UpdateOf("d", MemoryOf("b"), 0), None, 4, VersionOf("b"));
  }

  /** A reachable store in which the next update cuts the valid interval of a current head short. */
  lemma NarrowedHeadIsReached()
    ensures Reached(STALE_RUN[..1], UpdateOf("c", MemoryOf("a"), 5), 3, VersionOf("a"), VersionCurrent)
    ensures NothingReappears(Run(STALE_RUN[..1]), UpdateOf("c", MemoryOf("a"), 5), None, 3)
    ensures !PastKept(Run(STALE_RUN[..1]), UpdateOf("c", MemoryOf("a"), 5), None, 3)
  {
    FirstStep();
    UpdateEvolves(Run(STALE_RUN[..1]), "c", MemoryOf("a"), VersionOf("a"), 5, 3);
    PastKeptInRuns(STALE_RUN[..1], UpdateOf("c", MemoryOf("a"), 5), None, 3, VersionOf("a"));
  }
}
