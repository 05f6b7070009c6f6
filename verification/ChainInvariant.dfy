// What each memory's version chain keeps: numbers 1..current without a gap, system-time
// intervals laid end to end, and only the head open.
module ChainInvariant {
  import opened Ids
  import opened Graph
  import opened Domain
  import opened Database
  import opened Lifecycle
  import opened Purge
  import opened WorkingSets

  predicate StatesAgree(m: MemoryState, v: VersionState) {
    match m
    case MemoryActive => v == VersionCurrent || v == VersionStale
    case MemoryArchived => v == VersionArchived
    case MemoryForgotten => v == VersionForgotten
  }

  /** One version row against the row of its memory. */
  predicate RowOk(m: Memory, v: Version) {
    && 1 <= v.number <= m.currentVersion
    && v.validTime.Valid()
    && if v.number == m.currentVersion then
         v.systemTime.to.None? && StatesAgree(m.state, v.state)
       else
         v.systemTime.to.Some? && v.state == VersionSuperseded
  }

  ghost predicate RowsOk(memories: map<Id, Memory>, versions: map<Id, Version>) {
    forall v :: v in versions ==> versions[v].memory in memories && RowOk(memories[versions[v].memory], versions[v])
  }

  ghost predicate Gapless(memories: map<Id, Memory>, versions: map<Id, Version>) {
    forall m, k: nat :: m in memories && 1 <= k <= memories[m].currentVersion ==> NumberTaken(versions, m, k)
  }

  predicate Consecutive(v: Version, w: Version) {
    v.memory == w.memory && v.number + 1 == w.number
  }

  /** v's system time ends exactly where that of its successor w begins. */
  predicate EndToEnd(v: Version, w: Version) {
    v.systemTime.from < w.systemTime.from && v.systemTime.to == Some(w.systemTime.from)
  }

  ghost predicate Linked(versions: map<Id, Version>) {
    forall v, w :: v in versions && w in versions && Consecutive(versions[v], versions[w]) ==>
      EndToEnd(versions[v], versions[w])
  }

  ghost predicate ChainInv(memories: map<Id, Memory>, versions: map<Id, Version>) {
    && RowsOk(memories, versions)
    && UniqueNumbers(versions)
    && Gapless(memories, versions)
    && Linked(versions)
  }

  ghost predicate ChainOk(db: Db) {
    ChainInv(db.memories, db.versions)
  }

  // ----- What the invariant means -----

  /** In one chain, a lower number's interval ends before a higher number's begins. */
  lemma {:induction false} IntervalsOrdered(db: Db, v: Id, w: Id)
    requires ChainOk(db) && v in db.versions && w in db.versions
    requires db.versions[v].memory == db.versions[w].memory && db.versions[v].number < db.versions[w].number
    ensures db.versions[v].systemTime.from < db.versions[w].systemTime.from
    ensures db.versions[v].systemTime.to.Some?
    ensures db.versions[v].systemTime.to.value <= db.versions[w].systemTime.from
    decreases db.versions[w].number - db.versions[v].number
  {
    var memory, number := db.versions[v].memory, db.versions[v].number;
    assert NumberTaken(db.versions, memory, number + 1);
    var next :| next in db.versions && db.versions[next].memory == memory && db.versions[next].number == number + 1;
    assert Consecutive(db.versions[v], db.versions[next]);
    if number + 1 < db.versions[w].number {
      IntervalsOrdered(db, next, w);
    } else {
      assert next == w;
    }
  }

  /** At any system time at most one version of a memory is in force. */
  lemma OneVersionInForce(db: Db, v: Id, w: Id, systemAt: int)
    requires ChainOk(db) && v in db.versions && w in db.versions
    requires db.versions[v].memory == db.versions[w].memory
    requires db.versions[v].systemTime.Contains(systemAt) && db.versions[w].systemTime.Contains(systemAt)
    ensures v == w
  {
    if db.versions[v].number < db.versions[w].number {
      IntervalsOrdered(db, v, w);
    } else if db.versions[w].number < db.versions[v].number {
      IntervalsOrdered(db, w, v);
    }
  }

  // ----- Changes to one chain -----

  /** Rows keep their memory, number and system time; only states, groups and the like change. */
  ghost predicate SameChain(before: map<Id, Version>, after: map<Id, Version>) {
    && before.Keys == after.Keys
    && forall v :: v in before ==>
      && after[v].memory == before[v].memory
      && after[v].number == before[v].number
      && after[v].systemTime == before[v].systemTime
  }

  lemma ChainRestated(memories: map<Id, Memory>, versions: map<Id, Version>, memories': map<Id, Memory>, versions': map<Id, Version>)
    requires ChainInv(memories, versions) && SameChain(versions, versions')
    requires memories.Keys == memories'.Keys
    requires forall m :: m in memories ==> memories'[m].currentVersion == memories[m].currentVersion
    requires RowsOk(memories', versions')
    ensures ChainInv(memories', versions')
  {
    forall m, k: nat | m in memories' && 1 <= k <= memories'[m].currentVersion ensures NumberTaken(versions', m, k) {
      assert NumberTaken(versions, m, k);
    }
    forall v, w | v in versions' && w in versions' && Consecutive(versions'[v], versions'[w])
      ensures EndToEnd(versions'[v], versions'[w])
    {
      assert Consecutive(versions[v], versions[w]);
    }
  }

  lemma ChainNewMemory(memories: map<Id, Memory>, versions: map<Id, Version>, memory: Memory, id: Id, v: Version)
    requires ChainInv(memories, versions)
    requires v.memory !in memories && id !in versions
    requires memory.currentVersion == 1 && v.number == 1 && RowOk(memory, v)
    ensures ChainInv(memories[v.memory := memory], versions[id := v])
  {
    var memories', versions' := memories[v.memory := memory], versions[id := v];
    forall m, k: nat | m in memories' && 1 <= k <= memories'[m].currentVersion ensures NumberTaken(versions', m, k) {
      if m == v.memory {
        assert id in versions' && versions'[id].number == k;
      } else {
        assert NumberTaken(versions, m, k);
        var w :| w in versions && versions[w].memory == m && versions[w].number == k;
        assert w in versions' && versions'[w].memory == m;
      }
    }
    forall x, y | x in versions' && y in versions' && Consecutive(versions'[x], versions'[y])
      ensures EndToEnd(versions'[x], versions'[y])
    {
      assert x != id && y != id;
      assert Consecutive(versions[x], versions[y]);
    }
  }

  lemma ChainDelete(db: Db, namespace: Id, doomed: set<Id>)
    requires ChainOk(db)
    ensures ChainOk(DeleteMemories(db, namespace, doomed))
  {
    var after := DeleteMemories(db, namespace, doomed);
    forall m, k: nat | m in after.memories && 1 <= k <= after.memories[m].currentVersion
      ensures NumberTaken(after.versions, m, k)
    {
      assert NumberTaken(db.versions, m, k);
      var w :| w in db.versions && db.versions[w].memory == m && db.versions[w].number == k;
      assert w in after.versions;
    }
    forall x, y | x in after.versions && y in after.versions && Consecutive(after.versions[x], after.versions[y])
      ensures EndToEnd(after.versions[x], after.versions[y])
    {
      assert Consecutive(db.versions[x], db.versions[y]);
    }
  }

  // ----- The steps of the store -----

  lemma ChainCreate(db: Db, p: Proposal, authorized: Option<Scope>, at: int)
    requires ChainOk(db)
    ensures var r := ApplyCreate(db, p, authorized, at); r.Success? ==> ChainOk(r.value.db)
  {
    var r := ApplyCreate(db, p, authorized, at);
    if r.Success? {
      var rows := r.value.rows;
      ChainNewMemory(db.memories, db.versions, rows.memory, rows.versionId, rows.version);
    }
  }

  lemma ChainConflict(db: Db, p: Proposal, head: Id, e: MemoryEvolution, at: int)
    requires ChainOk(db) && IsHead(db, p.target, head)
    requires db.memories[p.target].state == MemoryActive && e.validTime.Valid()
    ensures var r := ApplyConflict(db, p, head, e, at); r.Success? ==> ChainOk(r.value.db)
  {
    var r := ApplyConflict(db, p, head, e, at);
    if r.Success? {
      var rows := r.value.rows;
      var grouped := db.versions[head := db.versions[head].(conflictGroup := rows.version.conflictGroup)];
      ChainRestated(db.memories, db.versions, db.memories, grouped);
      ChainNewMemory(db.memories, grouped, rows.memory, rows.versionId, rows.version);
    }
  }

  /** The versions after a supersede or rebuild, row by row. */
  lemma EvolvedRows(db: Db, p: Proposal, head: Id, e: MemoryEvolution, at: int)
    requires ChainOk(db) && IsHead(db, p.target, head) && VersionIdOf(p.id) !in db.versions
    requires db.memories[p.target].state == MemoryActive
    ensures var after := AfterEvolution(db, p, head, e, at);
      && after.versions.Keys == db.versions.Keys + {VersionIdOf(p.id)}
      && after.versions[VersionIdOf(p.id)] == NextVersion(head, db.versions[head], e, at)
      && after.versions[head] == Closed(db.versions[head], at, e.validTime.from)
      && forall v :: v in db.versions && v != head ==>
           after.versions[v] == if Reaches(db.edges, head, v) && db.versions[v].state == VersionCurrent
                                then db.versions[v].(state := VersionStale) else db.versions[v]
  {
  }

  /** id follows head, the last version of its memory; every other row keeps its place in its chain. */
  ghost predicate Succession(before: map<Id, Version>, after: map<Id, Version>, head: Id, id: Id) {
    && head in before && id !in before
    && after.Keys == before.Keys + {id}
    && Consecutive(before[head], after[id])
    && (forall v :: v in before && before[v].memory == before[head].memory ==> before[v].number <= before[head].number)
    && (forall v :: v in before ==>
         && after[v].memory == before[v].memory
         && after[v].number == before[v].number
         && (v != head ==> after[v].systemTime == before[v].systemTime))
    && after[head].systemTime.from == before[head].systemTime.from
    && EndToEnd(after[head], after[id])
  }

  lemma SuccessionUnique(before: map<Id, Version>, after: map<Id, Version>, head: Id, id: Id)
    requires Succession(before, after, head, id) && UniqueNumbers(before)
    ensures UniqueNumbers(after)
  {
  }

  lemma SuccessionGapless(before: map<Id, Version>, after: map<Id, Version>, head: Id, id: Id,
                          memories: map<Id, Memory>, memories': map<Id, Memory>)
    requires Succession(before, after, head, id) && Gapless(memories, before) && before[head].memory in memories
    requires before[head].memory in memories' && memories' == memories[before[head].memory := memories'[before[head].memory]]
    requires memories[before[head].memory].currentVersion == before[head].number
    requires memories'[before[head].memory].currentVersion == after[id].number
    ensures Gapless(memories', after)
  {
    forall m, k: nat | m in memories' && 1 <= k <= memories'[m].currentVersion ensures NumberTaken(after, m, k) {
      if m == before[head].memory && k == after[id].number {
        assert after[id].memory == m && after[id].number == k;
      } else {
        assert NumberTaken(before, m, k);
        var w :| w in before && before[w].memory == m && before[w].number == k;
        assert w in after && after[w].memory == m && after[w].number == k;
      }
    }
  }

  lemma SuccessionLinked(before: map<Id, Version>, after: map<Id, Version>, head: Id, id: Id)
    requires Succession(before, after, head, id) && UniqueNumbers(before) && Linked(before)
    ensures Linked(after)
  {
    forall v, w | v in after && w in after && Consecutive(after[v], after[w]) ensures EndToEnd(after[v], after[w]) {
      if w == id {
        assert v == head;
      } else {
        assert v != id && Consecutive(before[v], before[w]);
        assert v != head;
      }
    }
  }

  lemma EvolvedRowsOk(db: Db, p: Proposal, head: Id, e: MemoryEvolution, at: int)
    requires ChainOk(db) && IsHead(db, p.target, head) && VersionIdOf(p.id) !in db.versions
    requires db.memories[p.target].state == MemoryActive && e.validTime.Valid()
    ensures var after := AfterEvolution(db, p, head, e, at); RowsOk(after.memories, after.versions)
  {
    var after, id := AfterEvolution(db, p, head, e, at), VersionIdOf(p.id);
    EvolvedRows(db, p, head, e, at);
    forall v | v in after.versions
      ensures after.versions[v].memory in after.memories && RowOk(after.memories[after.versions[v].memory], after.versions[v])
    {
      if v != id && v != head && db.versions[v].memory == p.target {
        assert db.versions[v].number != db.versions[head].number;
      }
    }
  }

  lemma EvolvedSucceeds(db: Db, p: Proposal, head: Id, e: MemoryEvolution, at: int)
    requires ChainOk(db) && IsHead(db, p.target, head) && VersionIdOf(p.id) !in db.versions
    requires db.memories[p.target].state == MemoryActive && db.versions[head].systemTime.from < at
    ensures Succession(db.versions, AfterEvolution(db, p, head, e, at).versions, head, VersionIdOf(p.id))
  {
    EvolvedRows(db, p, head, e, at);
  }

  lemma ChainAfterEvolution(db: Db, p: Proposal, head: Id, e: MemoryEvolution, at: int)
    requires ChainOk(db) && IsHead(db, p.target, head) && VersionIdOf(p.id) !in db.versions
    requires db.memories[p.target].state == MemoryActive
    requires db.versions[head].systemTime.from < at && e.validTime.Valid()
    ensures ChainOk(AfterEvolution(db, p, head, e, at))
  {
    var after, id := AfterEvolution(db, p, head, e, at), VersionIdOf(p.id);
    EvolvedRowsOk(db, p, head, e, at);
    EvolvedSucceeds(db, p, head, e, at);
    SuccessionUnique(db.versions, after.versions, head, id);
    SuccessionGapless(db.versions, after.versions, head, id, db.memories, after.memories);
    SuccessionLinked(db.versions, after.versions, head, id);
  }

  lemma ChainEvolution(db: Db, p: Proposal, authorized: Option<Scope>, at: int)
    requires ChainOk(db)
    ensures var r := ApplyEvolution(db, p, authorized, at); r.Success? ==> ChainOk(r.value.db)
  {
    var r := ApplyEvolution(db, p, authorized, at);
    if r.Success? {
      var head, e := Head(db, p.target).value, p.body.evolution;
      if e.mode == Conflict {
        ChainConflict(db, p, head, e, at);
      } else {
        ChainAfterEvolution(db, p, head, e, at);
      }
    }
  }

  lemma ChainAfterState(db: Db, target: Id, head: Id, ms: MemoryState, vs: VersionState, removeIndexes: bool)
    requires ChainOk(db) && StatesAgree(ms, vs) && IsHead(db, target, head)
    ensures ChainOk(AfterState(db, target, head, ms, vs, removeIndexes))
  {
    var memories := db.memories[target := db.memories[target].(state := ms)];
    var versions := db.versions[head := db.versions[head].(state := vs)];
    forall v | v in versions ensures versions[v].memory in memories && RowOk(memories[versions[v].memory], versions[v]) {
      if v != head && db.versions[v].memory == target {
        assert db.versions[v].number != db.versions[head].number;
      }
    }
    ChainRestated(db.memories, db.versions, memories, versions);
  }

  lemma ChainState(db: Db, p: Proposal, authorized: Option<Scope>, ms: MemoryState, vs: VersionState, removeIndexes: bool)
    requires ChainOk(db) && StatesAgree(ms, vs)
    ensures var r := ApplyState(db, p, authorized, ms, vs, removeIndexes); r.Success? ==> ChainOk(r.value.db)
  {
    if ApplyState(db, p, authorized, ms, vs, removeIndexes).Success? {
      ChainAfterState(db, p.target, Head(db, p.target).value, ms, vs, removeIndexes);
    }
  }

  lemma ChainApply(db: Db, p: Proposal, authorized: Option<Scope>, actor: Id, at: int)
    requires ChainOk(db)
    ensures var r := Apply(db, p, authorized, actor, at); r.Committed? ==> ChainOk(r.db)
  {
    ChainCreate(db, p, authorized, at);
    ChainEvolution(db, p, authorized, at);
    ChainState(db, p, authorized, MemoryArchived, VersionArchived, false);
    ChainState(db, p, authorized, MemoryForgotten, VersionForgotten, true);
  }

  lemma ChainMarked(memories: map<Id, Memory>, versions: map<Id, Version>, marked: set<Id>)
    requires ChainInv(memories, versions)
    ensures ChainInv(memories, StaleAmong(versions, marked))
  {
    ChainRestated(memories, versions, memories, StaleAmong(versions, marked));
  }

  lemma ChainPurge(db: Db, namespace: Id, memory: Id, mode: PurgeMode)
    requires ChainOk(db)
    ensures ChainOk(AfterPurge(db, namespace, memory, mode))
  {
    var marked := db.(versions := StaleAmong(db.versions, DerivedVersions(db, namespace, memory)));
    ChainMarked(db.memories, db.versions, DerivedVersions(db, namespace, memory));
    ChainDelete(if mode == Cascade then db else marked, namespace, Doomed(db, namespace, memory, mode));
  }

  lemma ExpiredRows(db: Db, now: int)
    requires RowsOk(db.memories, db.versions)
    ensures RowsOk(Expire(db, now).memories, Expire(db, now).versions)
  {
    var after := Expire(db, now);
    forall v | v in after.versions
      ensures after.versions[v].memory in after.memories && RowOk(after.memories[after.versions[v].memory], after.versions[v])
    {
      assert RowOk(db.memories[db.versions[v].memory], db.versions[v]);
    }
  }

  lemma ChainExpire(db: Db, now: int)
    requires ChainOk(db)
    ensures ChainOk(Expire(db, now))
  {
    var after := Expire(db, now);
    ExpiredRows(db, now);
    ChainRestated(db.memories, db.versions, after.memories, after.versions);
  }
}
