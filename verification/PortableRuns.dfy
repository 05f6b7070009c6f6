// Export, import and the round trip over whole runs: when an export of a native run succeeds,
// what then comes back, and a run of two steps that shows that it happens.
module PortableRuns {
  import opened Ids
  import opened Graph
  import opened Domain
  import opened Database
  import opened Lifecycle
  import Purge
  import opened WorkingSets
  import opened Embeddings
  import opened Bundles
  import opened Portable
  import opened Captures
  import opened PortableProofs
  import opened MutationShape
  import opened ContentInvariant
  import opened ExportSuccess
  import opened ApplyEffects
  import opened StoreEffects
  import opened Runs
  import opened LostHistory

  // ----- Content in every native run -----

  lemma ContentApplyStep(db: Db, p: Proposal, authorized: Option<Scope>, actor: Id, at: int)
    requires ContentOk(db) && Kempt(db)
    ensures ContentOk(Next(db, ApplyStep(p, authorized, actor, at)))
  {
    ContentApply(db, p, authorized, actor, at);
  }

  lemma ContentPurgeStep(db: Db, step: Step)
    requires ContentOk(db) && step.PurgeStep?
    ensures ContentOk(Next(db, step))
  {
    var after := Next(db, step);
    PurgeWrites(db, step.receipt, step.namespace, step.purger, step.memory, step.mode, step.purgedAt);
    if after != db {
      var purged := Purge.AfterPurge(db, step.namespace, step.memory, step.mode);
      ContentPurge(db, step.namespace, step.memory, step.mode);
      ContentAside(purged, after);
    }
  }

  lemma ContentEmbed(db: Db, key: EmbeddingKey, content: string, vector: seq<int>, at: int)
    requires ContentOk(db)
    ensures var r := PutEmbedding(db, key, content, vector, at); r.Success? ==> ContentOk(r.value)
  {
    var r := PutEmbedding(db, key, content, vector, at);
    if r.Success? {
      ContentAside(db, r.value);
    }
  }

  lemma ContentObservation(db: Db, id: Id, o: Observation)
    requires ContentOk(db)
    ensures var r := PutObservation(db, id, o); r.Success? ==> ContentOk(r.value)
  {
    var r := PutObservation(db, id, o);
    if r.Success? {
      ContentAside(db, r.value);
    }
  }

  lemma ContentStep(db: Db, step: Step)
    requires ContentOk(db) && Kempt(db) && !step.ImportStep?
    ensures ContentOk(Next(db, step))
  {
    match step {
      case ApplyStep(p, authorized, actor, at) => ContentApplyStep(db, p, authorized, actor, at);
      case ExpireStep(now) => ContentExpire(db, now);
      case PurgeStep(_, _, _, _, _, _) => ContentPurgeStep(db, step);
      case WorkingSetStep(id, set_) => ContentPutSet(db, id, set_);
      case GlobalRecallStep(namespace, task, enabled, at) => ContentSetGlobalRecall(db, namespace, task, enabled, at);
      case EpisodeStep(id, episode, outcomes) => ContentPutEpisode(db, id, episode, outcomes);
      case EmbedStep(key, content, vector, at) => ContentEmbed(db, key, content, vector, at);
      case ObservationStep(id, o) => ContentObservation(db, id, o);
    }
  }

  /**
   * In every native run payloads fit their memories, evidence, working sets and superseded
   * versions are stored, provenance is never empty, and stored parents are linked by edges.
   */
  lemma {:induction false} EveryNativeRunHasContent(steps: seq<Step>)
    requires Native(steps)
    ensures ContentOk(Run(steps))
    decreases |steps|
  {
    if steps != [] {
      var front := steps[..|steps| - 1];
      EveryNativeRunHasContent(front);
      EveryNativeRunIsKempt(front);
      ContentStep(Run(front), steps[|steps| - 1]);
    }
  }

  // ----- Exports of native runs -----

  /** The export of a native run succeeds if and only if what is shown refers only to what is stored and shown. */
  lemma ExportSucceedsInRuns(steps: seq<Step>, a: Access, subject: Id, at: int)
    requires Native(steps) && AccessComplete(a, subject)
    ensures ExportReady(Run(steps))
    ensures (exists b :: IsExport(Run(steps), a, subject, at, b) && ValidBundle(b)) <==> SelfContained(Run(steps), a, subject)
  {
    EveryNativeRunIsKempt(steps);
    EveryNativeRunHasContent(steps);
    ExportSucceedsIff(Run(steps), a, subject, at);
  }

  /** b is exported, and wherever it meets no row it is imported and exported again as itself. */
  ghost predicate ComesBack(source: seq<Step>, a: Access, subject: Id, at: int, b: Bundle, target: seq<Step>) {
    && IsExport(Run(source), a, subject, at, b)
    && (Untouched(Run(target), a.namespace, subject) && NoSharedKeys(Run(target), b) ==>
         && Import(Run(target), b).Success?
         && IsExport(Run(target + [ImportStep(b)]), a, subject, at, b)
         && forall c :: IsExport(Run(target + [ImportStep(b)]), a, subject, at, c) ==> c == b)
  }

  /** A subject that is closed under reference moves between stores: its export comes back from any store that does not know it. */
  lemma SelfContainedComesBack(source: seq<Step>, a: Access, subject: Id, at: int, target: seq<Step>)
    requires Native(source) && AccessComplete(a, subject) && SelfContained(Run(source), a, subject)
    ensures exists b :: ComesBack(source, a, subject, at, b, target)
  {
    ExportSucceedsInRuns(source, a, subject, at);
    var b :| IsExport(Run(source), a, subject, at, b) && ValidBundle(b);
    if Untouched(Run(target), a.namespace, subject) && NoSharedKeys(Run(target), b) {
      RoundTripInRuns(source, target, a, subject, at, b);
    }
    assert ComesBack(source, a, subject, at, b, target);
  }

  // ----- Exports after a purge -----

  /** A shown version outside the doomed memories has a parent inside them. */
  predicate Orphans(db: Db, a: Access, subject: Id, doomed: set<Id>) {
    exists v, p :: v in db.versions && ShowsVersion(db, a, subject, v) && db.versions[v].memory !in doomed
      && p in db.versions[v].derivedFrom && p in db.versions && db.versions[p].memory in doomed
  }

  lemma DeleteShows(db: Db, namespace: Id, doomed: set<Id>, a: Access, subject: Id, v: Id)
    ensures var after := Purge.DeleteMemories(db, namespace, doomed);
      && (ShowsVersion(after, a, subject, v) <==> ShowsVersion(db, a, subject, v) && db.versions[v].memory !in doomed)
      && (ShowsVersion(after, a, subject, v) ==> after.versions[v] == db.versions[v])
  {
  }

  lemma MarkShows(db: Db, marked: set<Id>, a: Access, subject: Id, v: Id)
    ensures var after := db.(versions := Purge.StaleAmong(db.versions, marked));
      && (ShowsVersion(after, a, subject, v) <==> ShowsVersion(db, a, subject, v))
      && (ShowsVersion(after, a, subject, v) ==> SameContent(db.versions[v], after.versions[v]))
  {
  }

  /** After a purge exactly the versions of the other memories are shown, with the same content. */
  lemma PurgeShows(db: Db, namespace: Id, memory: Id, mode: Purge.PurgeMode, a: Access, subject: Id, v: Id)
    ensures var (after, doomed) := (Purge.AfterPurge(db, namespace, memory, mode), Purge.Doomed(db, namespace, memory, mode));
      && (ShowsVersion(after, a, subject, v) <==> ShowsVersion(db, a, subject, v) && db.versions[v].memory !in doomed)
      && (ShowsVersion(after, a, subject, v) ==> SameContent(db.versions[v], after.versions[v]))
  {
    var doomed := Purge.Doomed(db, namespace, memory, mode);
    if mode == Purge.Cascade {
      DeleteShows(db, namespace, doomed, a, subject, v);
    } else {
      var marked := Purge.DerivedVersions(db, namespace, memory);
      MarkShows(db, marked, a, subject, v);
      DeleteShows(db.(versions := Purge.StaleAmong(db.versions, marked)), namespace, doomed, a, subject, v);
    }
  }

  lemma PurgeKeepsCaptures(db: Db, namespace: Id, memory: Id, mode: Purge.PurgeMode)
    ensures var after := Purge.AfterPurge(db, namespace, memory, mode);
      SameCaptures(db, after) && after.observations == db.observations
  {
  }

  lemma EnclosedAfterPurge(db: Db, namespace: Id, memory: Id, mode: Purge.PurgeMode, a: Access, subject: Id, v: Id)
    requires ShowsVersion(Purge.AfterPurge(db, namespace, memory, mode), a, subject, v)
    requires v in db.versions && Enclosed(db, a, subject, db.versions[v])
    ensures var (after, doomed) := (Purge.AfterPurge(db, namespace, memory, mode), Purge.Doomed(db, namespace, memory, mode));
      Enclosed(after, a, subject, after.versions[v]) <==>
        forall p :: p in db.versions[v].derivedFrom ==> db.versions[p].memory !in doomed
  {
    var after := Purge.AfterPurge(db, namespace, memory, mode);
    PurgeShows(db, namespace, memory, mode, a, subject, v);
    PurgeKeepsCaptures(db, namespace, memory, mode);
    forall p ensures ShowsVersion(after, a, subject, p) <==>
      ShowsVersion(db, a, subject, p) && db.versions[p].memory !in Purge.Doomed(db, namespace, memory, mode)
    {
      PurgeShows(db, namespace, memory, mode, a, subject, p);
    }
  }

  /** After a purge the subject can still be exported if and only if it leaves no shown version without a parent. */
  lemma PurgeKeepsExportIff(db: Db, namespace: Id, memory: Id, mode: Purge.PurgeMode, a: Access, subject: Id)
    requires SelfContained(db, a, subject)
    ensures SelfContained(Purge.AfterPurge(db, namespace, memory, mode), a, subject) <==>
      !Orphans(db, a, subject, Purge.Doomed(db, namespace, memory, mode))
  {
    var (after, doomed) := (Purge.AfterPurge(db, namespace, memory, mode), Purge.Doomed(db, namespace, memory, mode));
    PurgeKeepsCaptures(db, namespace, memory, mode);
    forall v | v in db.versions && ShowsVersion(db, a, subject, v)
      ensures ShowsVersion(after, a, subject, v) <==> db.versions[v].memory !in doomed
      ensures ShowsVersion(after, a, subject, v) ==>
        (Enclosed(after, a, subject, after.versions[v]) <==>
          forall p :: p in db.versions[v].derivedFrom ==> db.versions[p].memory !in doomed)
    {
      PurgeShows(db, namespace, memory, mode, a, subject, v);
      if ShowsVersion(after, a, subject, v) {
        EnclosedAfterPurge(db, namespace, memory, mode, a, subject, v);
      }
    }
    forall v | ShowsVersion(after, a, subject, v) ensures ShowsVersion(db, a, subject, v) {
      PurgeShows(db, namespace, memory, mode, a, subject, v);
    }
  }

  // ----- One memory goes over -----

  const SEEN := Observation(SCOPE, "statement", Untrusted, "", 0)
  const ONE_MEMORY: seq<Step> := [
    ObservationStep(Text("observation"), SEEN),
    ApplyStep(CreateOf("a", []), None, ACTOR, 1)]
  const ACCESS := Access(Text("space"), ACTOR, [Text("owner")], false, false)

  ghost predicate HoldsOne(db: Db) {
    && db.observations == map[Text("observation") := SEEN]
    && db.workingSets == map[]
    && db.memories == map[MemoryOf("a") := Created(1)]
    && db.versions == map[VersionOf("a") := Row1("a", [], 1)]
  }

  lemma ObservedFirst()
    ensures Run(ONE_MEMORY[..1]) == EMPTY.(observations := map[Text("observation") := SEEN])
  {
    assert ONE_MEMORY[..1] == [] + [ONE_MEMORY[0]];
    RunOneMore([], ONE_MEMORY[0]);
    assert Text("observation").s[0] == 'o';
    ObservationStored(EMPTY, Text("observation"), SEEN);
  }

  lemma MemorySecond()
    ensures Native(ONE_MEMORY) && HoldsOne(Run(ONE_MEMORY))
  {
    var db := Run(ONE_MEMORY[..1]);
    ObservedFirst();
    CreateAccepted(db, "a", [], 1);
    assert ONE_MEMORY == ONE_MEMORY[..1] + [ONE_MEMORY[1]];
    RunOneMore(ONE_MEMORY[..1], ONE_MEMORY[1]);
    assert db.versions[VersionOf("a") := Row1("a", [], 1)] == map[VersionOf("a") := Row1("a", [], 1)];
    CreateShape(db, CreateOf("a", []), 1);
  }

  lemma CreateShape(db: Db, p: Proposal, at: int)
    requires p.action == Create && p.id !in db.operations
    ensures Next(db, ApplyStep(p, None, ACTOR, at)).observations == db.observations
    ensures Next(db, ApplyStep(p, None, ACTOR, at)).workingSets == db.workingSets
  {
    ShapeMutation(db, p, None, at);
  }

  lemma OneIsSelfContained()
    ensures AccessComplete(ACCESS, Text("subject")) && SelfContained(Run(ONE_MEMORY), ACCESS, Text("subject"))
    ensures ShowsVersion(Run(ONE_MEMORY), ACCESS, Text("subject"), VersionOf("a"))
  {
    MemorySecond();
    assert "space"[0] == 's' && "subject"[0] == 's' && "actor"[0] == 'a' && "owner"[0] == 'o';
  }

  lemma EmptyKnowsNothing(b: Bundle, namespace: Id, subject: Id)
    ensures Untouched(Run([]), namespace, subject) && NoSharedKeys(Run([]), b)
  {
  }

  /** b holds the one memory with its one version. */
  ghost predicate HoldsMemory(b: Bundle) {
    exists m, r :: m in b.memories && m.id == MemoryOf("a") && r in m.versions && r.value == Row1("a", [], 1)
  }

  lemma ExportHoldsMemory(at: int, b: Bundle)
    requires IsExport(Run(ONE_MEMORY), ACCESS, Text("subject"), at, b)
    ensures HoldsMemory(b)
  {
    MemorySecond();
    OneIsSelfContained();
    var m, r := ShownRow(Run(ONE_MEMORY), ACCESS, Text("subject"), b.memories, VersionOf("a"));
  }

  /**
   * The round trip is not empty: after one observation and one create the export is a valid
   * bundle that holds the memory, an empty store takes it, and it comes back.
   */
  lemma OneMemoryComesBack(at: int)
    ensures exists b ::
      && IsExport(Run(ONE_MEMORY), ACCESS, Text("subject"), at, b) && ValidBundle(b) && HoldsMemory(b)
      && Untouched(Run([]), ACCESS.namespace, Text("subject")) && NoSharedKeys(Run([]), b)
      && Import(Run([]), b).Success?
      && IsExport(Run([] + [ImportStep(b)]), ACCESS, Text("subject"), at, b)
  {
    MemorySecond();
    OneIsSelfContained();
    ExportSucceedsInRuns(ONE_MEMORY, ACCESS, Text("subject"), at);
    var b :| IsExport(Run(ONE_MEMORY), ACCESS, Text("subject"), at, b) && ValidBundle(b);
    ExportHoldsMemory(at, b);
    EmptyKnowsNothing(b, ACCESS.namespace, Text("subject"));
    RoundTripInRuns(ONE_MEMORY, [], ACCESS, Text("subject"), at, b);
  }
}
