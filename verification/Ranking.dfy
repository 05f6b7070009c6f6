// Fusing two ranked candidate lists into one order.
module Ranking {
  import opened Ordering
  import opened Ids
  import opened Domain

  datatype Mode = Lexical | Semantic | Hybrid

  /** normalized is the candidate's text in lower case with its white space collapsed. */
  datatype Candidate = Candidate(
    memoryId: string,
    versionId: string,
    memoryFunction: MemoryFunction,
    conflictGroup: string,
    payload: Payload,
    text: string,
    normalized: string,
    lexical: Option<real>,
    semantic: Option<real>)

  datatype Ranked = Ranked(
    stored: Candidate,
    lexical: Option<real>,
    semantic: Option<real>,
    rrf: Option<real>,
    trust: real,
    total: real)

  // ----- Trust -----

  function FactualTrust(e: EpistemicStatus, confidence: real): real {
    match e
    case Observed => 0.9 * confidence
    case Asserted => 0.7 * confidence
    case Inferred => 0.5 * confidence
    case Contested => 0.2 * confidence
    case Unknown => 0.3 * confidence
  }

  function Trust(c: Candidate): real {
    match c.payload
    case FactualPayload(_, _, _, epistemic, confidence) =>
      FactualTrust(epistemic, if confidence.Some? then confidence.value else 1.0)
    case ExperientialPayload(_, _) => 0.7
    case WorkingPayload(_, _, _, _, _) => 0.6
  }

  /** For payloads that a store accepts, trust is a number the trace validator accepts. */
  lemma TrustInRange(c: Candidate, f: MemoryFunction)
    requires PayloadFits(c.payload, f)
    ensures 0.0 <= Trust(c) <= 1.0
  {
  }

  /**
   * Trust of facts follows how they are known and how sure they are: observed before
   * asserted, inferred, unknown and contested, and among equals the surer one.
   */
  lemma TrustOrder(c: Candidate, d: Candidate, confidence: real)
    requires c.payload.FactualPayload? && d.payload.FactualPayload? && confidence > 0.0
    requires c.payload.confidence == d.payload.confidence == Some(confidence)
    ensures Known(c.payload.epistemic) > Known(d.payload.epistemic) ==> Trust(c) > Trust(d)
    ensures Known(c.payload.epistemic) == Known(d.payload.epistemic) ==> Trust(c) == Trust(d)
  {
  }

  function Known(e: EpistemicStatus): nat {
    match e
    case Observed => 5
    case Asserted => 4
    case Inferred => 3
    case Unknown => 2
    case Contested => 1
  }

  lemma SurerIsTrustedMore(c: Candidate, d: Candidate)
    requires c.payload.FactualPayload? && d.payload.FactualPayload? && c.payload.epistemic == d.payload.epistemic
    requires c.payload.confidence.Some?
    ensures d.payload.confidence.Some? && c.payload.confidence.value < d.payload.confidence.value ==> Trust(c) < Trust(d)
    ensures d.payload.confidence == None && c.payload.confidence.value < 1.0 ==> Trust(c) < Trust(d)
  {
  }

  /** A lesson is trusted like a sure assertion, working memory between that and a sure inference. */
  lemma TrustAcrossFunctions(assertion: Candidate, inference: Candidate, lesson: Candidate, work: Candidate)
    requires assertion.payload.FactualPayload? && assertion.payload.epistemic == Asserted && assertion.payload.confidence == None
    requires inference.payload.FactualPayload? && inference.payload.epistemic == Inferred && inference.payload.confidence == None
    requires lesson.payload.ExperientialPayload? && work.payload.WorkingPayload?
    ensures Trust(assertion) == Trust(lesson) > Trust(work) > Trust(inference)
  {
  }

  // ----- Where a version stands in a list -----

  /** One more than the last index of v, or zero. */
  function RankIn(list: seq<Candidate>, v: string): (rank: nat)
    ensures rank <= |list|
    ensures rank > 0 ==> list[rank - 1].versionId == v
    ensures rank == 0 <==> forall c :: c in list ==> c.versionId != v
  {
    if list == [] then
      0
    else
      var front, last := list[..|list| - 1], list[|list| - 1];
      assert list == front + [last];
      if last.versionId == v then |list| else RankIn(front, v)
  }

  function FirstOf(list: seq<Candidate>, v: string): (c: Candidate)
    requires RankIn(list, v) > 0
    ensures c in list && c.versionId == v
  {
    var front, last := list[..|list| - 1], list[|list| - 1];
    assert list == front + [last];
    if RankIn(front, v) > 0 then FirstOf(front, v) else last
  }

  function LastScore(list: seq<Candidate>, v: string): Option<real> {
    if list == [] then
      None
    else
      var last := list[|list| - 1];
      if last.versionId == v && last.semantic.Some? then last.semantic else LastScore(list[..|list| - 1], v)
  }

  predicate Listed(lexical: seq<Candidate>, semantic: seq<Candidate>, v: string) {
    RankIn(lexical, v) > 0 || RankIn(semantic, v) > 0
  }

  /** The stored row kept for v: its lexical one if there is one. */
  function StoredFor(lexical: seq<Candidate>, semantic: seq<Candidate>, v: string): (c: Candidate)
    requires Listed(lexical, semantic, v)
    ensures c.versionId == v && (c in lexical || c in semantic)
  {
    if RankIn(lexical, v) > 0 then lexical[RankIn(lexical, v) - 1] else FirstOf(semantic, v)
  }

  // ----- Scores -----

  function Reciprocal(n: nat): (r: real)
    requires n > 0
    ensures r > 0.0
  {
    1.0 / (n as real)
  }

  lemma ReciprocalDecreases(m: nat, n: nat)
    requires 0 < m < n
    ensures Reciprocal(n) < Reciprocal(m)
  {
    var x, y := m as real, n as real;
    assert (1.0 / x) * x == 1.0 && (1.0 / y) * y == 1.0;
    if 1.0 / y >= 1.0 / x {
      assert (1.0 / y) * y >= (1.0 / x) * y;
      assert (1.0 / x) * y > (1.0 / x) * x;
    }
  }

  function RankShare(k: nat, rank: nat): (share: real)
    requires k > 0
    ensures share >= 0.0
  {
    if rank > 0 then Reciprocal(k + rank) else 0.0
  }

  function Rrf(k: nat, lexicalRank: nat, semanticRank: nat): real
    requires k > 0
  {
    RankShare(k, lexicalRank) + RankShare(k, semanticRank)
  }

  function Score(mode: Mode, k: nat, lexicalRank: nat, semanticRank: nat, semantic: Option<real>, trust: real): real
    requires k > 0
  {
    match mode
    case Lexical => Reciprocal(k + lexicalRank) + trust * 0.001
    case Semantic => if semantic.Some? then semantic.value + trust * 0.001 else 0.0
    case Hybrid => Rrf(k, lexicalRank, semanticRank) + trust * 0.001
  }

  function Scored(mode: Mode, k: nat, item: Ranked, lexicalRank: nat, semanticRank: nat): Ranked
    requires k > 0
  {
    item.(trust := Trust(item.stored),
          rrf := if mode == Hybrid then Some(Rrf(k, lexicalRank, semanticRank)) else None,
          total := Score(mode, k, lexicalRank, semanticRank, item.semantic, Trust(item.stored)))
  }

  /** What is known of v before it is scored. */
  function EntryFor(lexical: seq<Candidate>, semantic: seq<Candidate>, v: string): Ranked
    requires Listed(lexical, semantic, v)
  {
    var stored := StoredFor(lexical, semantic, v);
    Ranked(stored, if RankIn(lexical, v) > 0 then stored.lexical else None, LastScore(semantic, v), None, 0.0, 0.0)
  }

  function RankedFor(mode: Mode, k: nat, lexical: seq<Candidate>, semantic: seq<Candidate>, v: string): (r: Ranked)
    requires k > 0 && Listed(lexical, semantic, v)
    ensures r.stored.versionId == v
  {
    Scored(mode, k, EntryFor(lexical, semantic, v), RankIn(lexical, v), RankIn(semantic, v))
  }

  ghost function AllRanked(mode: Mode, k: nat, lexical: seq<Candidate>, semantic: seq<Candidate>): (all: set<Ranked>)
    requires k > 0
    ensures forall r :: r in all <==> exists v :: Listed(lexical, semantic, v) && r == RankedFor(mode, k, lexical, semantic, v)
  {
    var versions := set c | c in lexical + semantic :: c.versionId;
    assert forall v :: v in versions <==> Listed(lexical, semantic, v) by {
      forall v ensures v in versions <==> Listed(lexical, semantic, v) {
        if Listed(lexical, semantic, v) {
          assert StoredFor(lexical, semantic, v) in lexical + semantic;
        }
      }
    }
    set v | v in versions :: RankedFor(mode, k, lexical, semantic, v)
  }

  // ----- The order -----

  predicate Better(a: Ranked, b: Ranked) {
    || a.total > b.total
    || (a.total == b.total && (a.trust > b.trust || (a.trust == b.trust && TextLess(a.stored.versionId, b.stored.versionId))))
  }

  predicate OnePerVersion(all: set<Ranked>) {
    forall a, b | a in all && b in all :: a.stored.versionId == b.stored.versionId ==> a == b
  }

  lemma RankedOrdered(all: set<Ranked>)
    requires OnePerVersion(all)
    ensures OrderOn(Better, all)
  {
    forall a, b | a in all && b in all ensures !Better(a, a) && (a == b || Better(a, b) || Better(b, a)) {
      TextOrder(a.stored.versionId, b.stored.versionId);
    }
    forall a, b, c | a in all && b in all && c in all && Better(a, b) && Better(b, c) ensures Better(a, c) {
      if TextLess(a.stored.versionId, b.stored.versionId) && TextLess(b.stored.versionId, c.stored.versionId) {
        TextTransitive(a.stored.versionId, b.stored.versionId, c.stored.versionId);
      }
    }
  }

  /** The output is the same whatever order the map was walked in. */
  lemma RankingCanonical(mode: Mode, k: nat, lexical: seq<Candidate>, semantic: seq<Candidate>, x: seq<Ranked>, y: seq<Ranked>)
    requires k > 0
    requires ListsBy(Better, x, AllRanked(mode, k, lexical, semantic)) && ListsBy(Better, y, AllRanked(mode, k, lexical, semantic))
    ensures x == y
  {
    RankedOrdered(AllRanked(mode, k, lexical, semantic));
    ListingUnique(Better, x, y, AllRanked(mode, k, lexical, semantic));
  }

  /** Totals fall; of equal ones trust falls; of equally trusted ones the version ids rise. */
  lemma BestFirst(mode: Mode, k: nat, lexical: seq<Candidate>, semantic: seq<Candidate>, out: seq<Ranked>, i: nat, j: nat)
    requires k > 0 && ListsBy(Better, out, AllRanked(mode, k, lexical, semantic)) && i < j < |out|
    ensures out[i].total >= out[j].total
    ensures out[i].total == out[j].total ==> out[i].trust >= out[j].trust
    ensures out[i].total == out[j].total && out[i].trust == out[j].trust ==>
      TextLess(out[i].stored.versionId, out[j].stored.versionId)
  {
    assert Better(out[i], out[j]);
  }

  /** Every listed version appears in the output exactly once, and nothing else does. */
  lemma EachVersionOnce(mode: Mode, k: nat, lexical: seq<Candidate>, semantic: seq<Candidate>, out: seq<Ranked>)
    requires k > 0 && ListsBy(Better, out, AllRanked(mode, k, lexical, semantic))
    ensures forall v :: Listed(lexical, semantic, v) <==> exists r :: r in out && r.stored.versionId == v
    ensures forall i, j :: 0 <= i < j < |out| ==> out[i].stored.versionId != out[j].stored.versionId
  {
    RankedOrdered(AllRanked(mode, k, lexical, semantic));
    forall v | Listed(lexical, semantic, v) ensures exists r :: r in out && r.stored.versionId == v {
      assert RankedFor(mode, k, lexical, semantic, v) in out;
    }
    forall i, j | 0 <= i < j < |out| ensures out[i].stored.versionId != out[j].stored.versionId {
      assert out[i] in out && out[j] in out && Better(out[i], out[j]);
    }
  }

  /** v stands ahead of w in a list that has w. */
  predicate Ahead(list: seq<Candidate>, v: string, w: string) {
    RankIn(list, w) > 0 ==> 0 < RankIn(list, v) < RankIn(list, w)
  }

  lemma ShareMonotone(k: nat, list: seq<Candidate>, v: string, w: string)
    requires k > 0 && Ahead(list, v, w)
    ensures RankShare(k, RankIn(list, v)) >= RankShare(k, RankIn(list, w))
    ensures RankIn(list, w) > 0 ==> RankShare(k, RankIn(list, v)) > RankShare(k, RankIn(list, w))
  {
    if RankIn(list, w) > 0 {
      ReciprocalDecreases(k + RankIn(list, v), k + RankIn(list, w));
    }
  }

  /**
   * Hybrid ranking is monotone: a version ahead of another in every list the other appears
   * in, with at least its trust, comes strictly before it.
   */
  lemma HybridMonotone(k: nat, lexical: seq<Candidate>, semantic: seq<Candidate>, out: seq<Ranked>, i: nat, j: nat)
    requires k > 0 && ListsBy(Better, out, AllRanked(Hybrid, k, lexical, semantic))
    requires i < |out| && j < |out|
    requires Ahead(lexical, out[i].stored.versionId, out[j].stored.versionId)
    requires Ahead(semantic, out[i].stored.versionId, out[j].stored.versionId)
    requires out[i].trust >= out[j].trust
    ensures i < j
  {
    var v, w := out[i].stored.versionId, out[j].stored.versionId;
    assert out[i] in out && out[j] in out;
    assert out[i] == RankedFor(Hybrid, k, lexical, semantic, v) && out[j] == RankedFor(Hybrid, k, lexical, semantic, w);
    ShareMonotone(k, lexical, v, w);
    ShareMonotone(k, semantic, v, w);
    assert out[i].total > out[j].total && !Better(out[j], out[i]);
  }

  lemma LexicalScoreFalls(k: nat, rank: nat, later: nat, trust: real, lessTrust: real)
    requires k > 0 && rank < later && trust >= lessTrust
    ensures forall r, q, s, t :: Score(Lexical, k, rank, r, s, trust) > Score(Lexical, k, later, q, t, lessTrust)
  {
    ReciprocalDecreases(k + rank, k + later);
  }

  /** In lexical mode the place in the lexical list decides, for a version with no less trust. */
  lemma LexicalMonotone(k: nat, lexical: seq<Candidate>, semantic: seq<Candidate>, out: seq<Ranked>, i: nat, j: nat)
    requires k > 0 && ListsBy(Better, out, AllRanked(Lexical, k, lexical, semantic))
    requires i < |out| && j < |out|
    requires RankIn(lexical, out[i].stored.versionId) < RankIn(lexical, out[j].stored.versionId)
    requires out[i].trust >= out[j].trust
    ensures i < j
  {
    var v, w := out[i].stored.versionId, out[j].stored.versionId;
    assert out[i] in out && out[j] in out;
    assert out[i] == RankedFor(Lexical, k, lexical, semantic, v) && out[j] == RankedFor(Lexical, k, lexical, semantic, w);
    LexicalScoreFalls(k, RankIn(lexical, v), RankIn(lexical, w), out[i].trust, out[j].trust);
    assert out[i].total > out[j].total && !Better(out[j], out[i]);
  }

  predicate Scores(a: Ranked, b: Ranked) {
    a.semantic.Some? && b.semantic.Some? && a.semantic.value > b.semantic.value
  }

  /** In semantic mode the score decides, for a version with no less trust; what has no score totals nothing. */
  lemma SemanticMonotone(k: nat, lexical: seq<Candidate>, semantic: seq<Candidate>, out: seq<Ranked>, i: nat, j: nat)
    requires k > 0 && ListsBy(Better, out, AllRanked(Semantic, k, lexical, semantic))
    requires i < |out| && j < |out|
    ensures out[i].semantic == LastScore(semantic, out[i].stored.versionId)
    ensures out[i].semantic.None? ==> out[i].total == 0.0
    ensures Scores(out[i], out[j]) && out[i].trust >= out[j].trust ==> i < j
  {
    var v, w := out[i].stored.versionId, out[j].stored.versionId;
    assert out[i] in out && out[j] in out;
    assert out[i] == RankedFor(Semantic, k, lexical, semantic, v) && out[j] == RankedFor(Semantic, k, lexical, semantic, w);
    if out[i].total > out[j].total {
      assert !Better(out[j], out[i]);
    }
  }

  /** With distinct ids a version's score and rank are those of its one place in the list. */
  lemma {:induction false} ListedOnce(list: seq<Candidate>, r: nat)
    requires r < |list| && forall x, y :: 0 <= x < y < |list| ==> list[x].versionId != list[y].versionId
    ensures RankIn(list, list[r].versionId) == r + 1
    ensures LastScore(list, list[r].versionId) == list[r].semantic
  {
    var front := list[..|list| - 1];
    if r < |front| {
      assert front[r] == list[r];
      ListedOnce(front, r);
    } else {
      forall c | c in front ensures c.versionId != list[r].versionId {
      }
      AbsentHasNoScore(front, list[r].versionId);
    }
  }

  lemma EntryKeeps(mode: Mode, k: nat, lexical: seq<Candidate>, semantic: seq<Candidate>, v: string)
    requires k > 0 && Listed(lexical, semantic, v)
    ensures var r := RankedFor(mode, k, lexical, semantic, v);
      && r.stored.versionId == v && (r.stored in lexical || (r.stored in semantic && RankIn(lexical, v) == 0))
      && r.trust == Trust(r.stored)
      && r.lexical == (if RankIn(lexical, v) > 0 then r.stored.lexical else None)
      && (mode == Hybrid <==> r.rrf.Some?)
  {
  }

  /** What a place in a list is worth in hybrid mode; no place is worth nothing. */
  function Worth(k: nat, list: seq<Candidate>, v: string): real
    requires k > 0
  {
    if RankIn(list, v) > 0 then 1.0 / ((k + RankIn(list, v)) as real) else 0.0
  }

  lemma FusedScore(k: nat, lexical: seq<Candidate>, semantic: seq<Candidate>, v: string)
    requires k > 0 && Listed(lexical, semantic, v)
    ensures RankedFor(Hybrid, k, lexical, semantic, v).rrf == Some(Worth(k, lexical, v) + Worth(k, semantic, v))
  {
  }

  /**
   * Every entry keeps the scores it came with: the trust of its payload, its lexical score,
   * and in hybrid mode only, its fused score.
   */
  lemma EntriesExplained(mode: Mode, k: nat, lexical: seq<Candidate>, semantic: seq<Candidate>, out: seq<Ranked>, i: nat)
    requires k > 0 && ListsBy(Better, out, AllRanked(mode, k, lexical, semantic)) && i < |out|
    ensures out[i].stored in lexical || (out[i].stored in semantic && RankIn(lexical, out[i].stored.versionId) == 0)
    ensures out[i].trust == Trust(out[i].stored)
    ensures out[i].lexical == if RankIn(lexical, out[i].stored.versionId) > 0 then out[i].stored.lexical else None
    ensures mode == Hybrid <==> out[i].rrf.Some?
    ensures mode == Hybrid ==>
      out[i].rrf.value == Worth(k, lexical, out[i].stored.versionId) + Worth(k, semantic, out[i].stored.versionId)
  {
    assert out[i] in out;
    var v :| Listed(lexical, semantic, v) && out[i] == RankedFor(mode, k, lexical, semantic, v);
    EntryKeeps(mode, k, lexical, semantic, v);
    if mode == Hybrid {
      FusedScore(k, lexical, semantic, v);
    }
  }

  /** Trust can lift a version past another only where their ranks are worth less than a thousandth apart. */
  lemma TrustOnlyBreaksNearTies(k: nat, lexical: seq<Candidate>, semantic: seq<Candidate>, out: seq<Ranked>, i: nat, j: nat)
    requires k > 0 && ListsBy(Better, out, AllRanked(Hybrid, k, lexical, semantic))
    requires i < |out| && j < |out| && out[j].rrf.Some? && out[i].rrf.Some?
    requires PayloadFits(out[i].stored.payload, out[i].stored.memoryFunction)
    requires PayloadFits(out[j].stored.payload, out[j].stored.memoryFunction)
    requires out[i].rrf.value > out[j].rrf.value + 0.001
    ensures i < j
  {
    var v, w := out[i].stored.versionId, out[j].stored.versionId;
    assert out[i] in out && out[j] in out;
    assert out[i] == RankedFor(Hybrid, k, lexical, semantic, v) && out[j] == RankedFor(Hybrid, k, lexical, semantic, w);
    TrustInRange(out[i].stored, out[i].stored.memoryFunction);
    TrustInRange(out[j].stored, out[j].stored.memoryFunction);
    assert out[i].total > out[j].total && !Better(out[j], out[i]);
  }

  // ----- The algorithm -----

  ghost predicate Collected(byVersion: map<string, Ranked>, lexical: seq<Candidate>, semantic: seq<Candidate>) {
    && (forall v :: v in byVersion <==> Listed(lexical, semantic, v))
    && forall v :: v in byVersion ==> byVersion[v] == EntryFor(lexical, semantic, v)
  }

  ghost predicate RanksOf(ranks: map<string, nat>, list: seq<Candidate>) {
    forall v :: RankIn(list, v) == if v in ranks then ranks[v] else 0
  }

  lemma RankOneMore(list: seq<Candidate>, i: nat, v: string)
    requires i < |list|
    ensures RankIn(list[..i + 1], v) == if list[i].versionId == v then i + 1 else RankIn(list[..i], v)
  {
    assert list[..i + 1][..i] == list[..i];
  }

  lemma LexicalEntry(lexical: seq<Candidate>, i: nat, v: string)
    requires i < |lexical| && Listed(lexical[..i + 1], [], v)
    ensures EntryFor(lexical[..i + 1], [], v) ==
      if lexical[i].versionId == v then Ranked(lexical[i], lexical[i].lexical, None, None, 0.0, 0.0)
      else (RankOneMore(lexical, i, v); EntryFor(lexical[..i], [], v))
  {
    RankOneMore(lexical, i, v);
  }

  lemma OneMoreLexical(byVersion: map<string, Ranked>, lexical: seq<Candidate>, i: nat)
    requires i < |lexical| && Collected(byVersion, lexical[..i], [])
    ensures var c := lexical[i];
      Collected(byVersion[c.versionId := Ranked(c, c.lexical, None, None, 0.0, 0.0)], lexical[..i + 1], [])
  {
    var c := lexical[i];
    var after := byVersion[c.versionId := Ranked(c, c.lexical, None, None, 0.0, 0.0)];
    forall v ensures v in after <==> Listed(lexical[..i + 1], [], v) {
      RankOneMore(lexical, i, v);
    }
    forall v | v in after ensures after[v] == EntryFor(lexical[..i + 1], [], v) {
      LexicalEntry(lexical, i, v);
    }
  }

  /** What one semantic candidate adds to the entry of its version. */
  function WithSemantic(byVersion: map<string, Ranked>, c: Candidate): Ranked {
    var item := if c.versionId in byVersion then byVersion[c.versionId] else Ranked(c, None, None, None, 0.0, 0.0);
    if c.semantic.Some? then item.(semantic := c.semantic) else item
  }

  lemma OneMoreSemantic(byVersion: map<string, Ranked>, lexical: seq<Candidate>, semantic: seq<Candidate>, i: nat)
    requires i < |semantic| && Collected(byVersion, lexical, semantic[..i])
    ensures Collected(byVersion[semantic[i].versionId := WithSemantic(byVersion, semantic[i])], lexical, semantic[..i + 1])
  {
    assert semantic[..i + 1][..i] == semantic[..i];
    AbsentHasNoScore(semantic[..i], semantic[i].versionId);
  }

  lemma {:induction false} AbsentHasNoScore(list: seq<Candidate>, v: string)
    ensures RankIn(list, v) == 0 ==> LastScore(list, v) == None
  {
    if list != [] {
      AbsentHasNoScore(list[..|list| - 1], v);
    }
  }

  lemma RanksOneMore(ranks: map<string, nat>, list: seq<Candidate>, i: nat)
    requires i < |list| && RanksOf(ranks, list[..i])
    ensures RanksOf(ranks[list[i].versionId := i + 1], list[..i + 1])
  {
    assert list[..i + 1][..i] == list[..i];
  }

  method RankCandidates(mode: Mode, lexical: seq<Candidate>, semantic: seq<Candidate>, k: nat) returns (result: seq<Ranked>)
    requires k > 0
    ensures ListsBy(Better, result, AllRanked(mode, k, lexical, semantic))
  {
    var byVersion: map<string, Ranked> := map[];
    var lexicalRanks: map<string, nat>, semanticRanks: map<string, nat> := map[], map[];
    for i := 0 to |lexical|
      invariant Collected(byVersion, lexical[..i], []) && RanksOf(lexicalRanks, lexical[..i])
    {
      OneMoreLexical(byVersion, lexical, i);
      RanksOneMore(lexicalRanks, lexical, i);
      byVersion := byVersion[lexical[i].versionId := Ranked(lexical[i], lexical[i].lexical, None, None, 0.0, 0.0)];
      lexicalRanks := lexicalRanks[lexical[i].versionId := i + 1];
    }
    assert lexical[..|lexical|] == lexical;
    assert semantic[..0] == [];
    for i := 0 to |semantic|
      invariant Collected(byVersion, lexical, semantic[..i]) && RanksOf(semanticRanks, semantic[..i])
    {
      OneMoreSemantic(byVersion, lexical, semantic, i);
      RanksOneMore(semanticRanks, semantic, i);
      byVersion := byVersion[semantic[i].versionId := WithSemantic(byVersion, semantic[i])];
      semanticRanks := semanticRanks[semantic[i].versionId := i + 1];
    }
    assert semantic[..|semantic|] == semantic;
    result := ScoreAll(mode, k, byVersion, lexicalRanks, semanticRanks, lexical, semantic);
  }

  lemma ValuesRanked(mode: Mode, k: nat, lexical: seq<Candidate>, semantic: seq<Candidate>, scored: map<string, Ranked>)
    requires k > 0 && forall v :: v in scored <==> Listed(lexical, semantic, v)
    requires forall v :: v in scored ==> scored[v] == RankedFor(mode, k, lexical, semantic, v)
    ensures scored.Values == AllRanked(mode, k, lexical, semantic)
    ensures OnePerVersion(scored.Values)
  {
    forall r | r in AllRanked(mode, k, lexical, semantic) ensures r in scored.Values {
      var v :| Listed(lexical, semantic, v) && r == RankedFor(mode, k, lexical, semantic, v);
      assert v in scored && scored[v] == r;
    }
  }

  /** Walks the map in any order, scores each entry, and sorts. */
  method ScoreAll(mode: Mode, k: nat, byVersion: map<string, Ranked>, lexicalRanks: map<string, nat>, semanticRanks: map<string, nat>,
                  ghost lexical: seq<Candidate>, ghost semantic: seq<Candidate>)
    returns (result: seq<Ranked>)
    requires k > 0 && Collected(byVersion, lexical, semantic)
    requires RanksOf(lexicalRanks, lexical) && RanksOf(semanticRanks, semantic)
    ensures ListsBy(Better, result, AllRanked(mode, k, lexical, semantic))
  {
    var scored: map<string, Ranked> := map[];
    var pending := byVersion.Keys;
    while pending != {}
      invariant pending <= byVersion.Keys && scored.Keys == byVersion.Keys - pending
      invariant forall v :: v in scored ==> scored[v] == RankedFor(mode, k, lexical, semantic, v)
      decreases pending
    {
      var v :| v in pending;
      pending := pending - {v};
      var lexicalRank := if v in lexicalRanks then lexicalRanks[v] else 0;
      var semanticRank := if v in semanticRanks then semanticRanks[v] else 0;
      scored := scored[v := Scored(mode, k, byVersion[v], lexicalRank, semanticRank)];
    }
    ValuesRanked(mode, k, lexical, semantic, scored);
    RankedOrdered(scored.Values);
    result := ListBy(Better, scored.Values);
  }
}
