// Scopes, payloads, memories and their immutable versions, and the rule that says which
// derivations may cross owners and visibilities.
module Domain {
  import opened Ids

  datatype Visibility = Private | Shared | Public

  datatype MemoryFunction = Factual | Experiential | Working

  datatype Scope = Scope(
    namespace: Id,
    owner: Id,
    subject: Id,
    actor: Id,
    context: Id,
    visibility: Visibility)

  /** A half-open interval; no upper end means unbounded. */
  datatype TimeRange = TimeRange(from: int, to: Option<int>) {
    predicate Valid() {
      to.Some? ==> from < to.value
    }

    predicate Contains(t: int) {
      from <= t && (to.None? || t < to.value)
    }
  }

  datatype EpistemicStatus = Observed | Asserted | Inferred | Contested | Unknown

  datatype LessonEvidence = LessonEvidence(episode: Id, outcomes: seq<Id>)

  /** One function-specific representation. */
  datatype Payload =
    | FactualPayload(claimSubject: Id, claim: string, statement: string, epistemic: EpistemicStatus, confidence: Option<real>)
    | ExperientialPayload(lesson: string, evidence: seq<LessonEvidence>)
    | WorkingPayload(workingSet: Id, task: Id, goal: string, progress: string, compactedFrom: seq<Id>)

  datatype MemoryState = MemoryActive | MemoryArchived | MemoryForgotten

  datatype VersionState =
    | VersionCurrent
    | VersionSuperseded
    | VersionArchived
    | VersionForgotten
    | VersionStale

  datatype Memory = Memory(
    scope: Scope,
    memoryFunction: MemoryFunction,
    state: MemoryState,
    currentVersion: nat,
    createdAt: int)

  datatype Version = Version(
    memory: Id,
    number: nat,
    state: VersionState,
    validTime: TimeRange,
    systemTime: TimeRange,
    conflictGroup: Id,
    supersedes: seq<Id>,
    derivedFrom: seq<Id>,
    provenance: seq<Id>,
    payload: Payload)

  /** The text that is indexed and embedded for one payload. */
  function MemoryText(p: Payload): string {
    match p
    case FactualPayload(_, claim, statement, _, _) => claim + "\n" + statement
    case ExperientialPayload(lesson, _) => lesson
    case WorkingPayload(_, _, goal, progress, _) => goal + "\n" + progress
  }

  /** The text holds its parts in order, each whole, with one line end between two of them. */
  lemma TextParts(p: Payload)
    ensures p.FactualPayload? ==> Joined(MemoryText(p), p.claim, p.statement)
    ensures p.ExperientialPayload? ==> MemoryText(p) == p.lesson
    ensures p.WorkingPayload? ==> Joined(MemoryText(p), p.goal, p.progress)
  {
  }

  predicate Joined(text: string, first: string, second: string) {
    && |text| == |first| + 1 + |second|
    && text[..|first|] == first && text[|first|] == '\n' && text[|first| + 1..] == second
  }

  predicate PayloadFits(p: Payload, f: MemoryFunction) {
    match p
    case FactualPayload(_, _, _, _, confidence) =>
      f == Factual && (confidence.Some? ==> 0.0 <= confidence.value <= 1.0)
    case ExperientialPayload(_, evidence) =>
      f == Experiential && evidence != [] && forall e :: e in evidence ==> e.outcomes != []
    case WorkingPayload(_, _, _, _, _) =>
      f == Working
  }

  predicate Distinct(ids: seq<Id>) {
    forall i, j :: 0 <= i < j < |ids| ==> ids[i] != ids[j]
  }

  function Elements(ids: seq<Id>): (s: set<Id>)
    ensures forall x :: x in s <==> x in ids
  {
    set x | x in ids
  }

  // ----- Which derivations are allowed -----

  /** The portable bundle's rule: may a version in scope child derive from one in scope parent? */
  predicate FlowAllowed(parent: Scope, child: Scope) {
    && parent.namespace == child.namespace
    && parent.subject == child.subject
    && match parent.visibility
       case Private => child.visibility == Private && parent.owner == child.owner
       case Shared => child.visibility != Public
       case Public => true
  }

  /** The store's rule, written as its sequence of refusals. */
  predicate FlowRefused(parent: Scope, target: Scope) {
    || parent.namespace != target.namespace
    || parent.subject != target.subject
    || (parent.visibility == Private && (parent.owner != target.owner || target.visibility != Private))
    || (parent.visibility == Shared && target.visibility == Public)
  }

  /** The store and the bundle checker accept the same pairs of scopes. */
  lemma FlowChecksAgree(parent: Scope, target: Scope)
    ensures FlowAllowed(parent, target) <==> !FlowRefused(parent, target)
  {
  }

  /** Allowed flows compose, so a chain of derivations cannot widen what one step may not. */
  lemma FlowTransitive(a: Scope, b: Scope, c: Scope)
    requires FlowAllowed(a, b) && FlowAllowed(b, c)
    ensures FlowAllowed(a, c)
  {
  }
}
