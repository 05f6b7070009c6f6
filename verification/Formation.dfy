// Generator-free formation: one observation becomes one create proposal, the same one
// however often it is formed.
module Formation {
  import opened Ids
  import opened Domain
  import opened Database
  import opened Lifecycle

  datatype FormationError = MissingContext | UnfitPayload | UnfitProposal

  function FunctionName(f: MemoryFunction): string {
    match f
    case Factual => "factual"
    case Experiential => "experiential"
    case Working => "working"
  }

  // The strategy hash depends only on the function, and the encoded payload only on the
  // observation and the function, so these two stand for all that the id hashes.
  function ProposalIdOf(observation: Id, f: MemoryFunction): Id {
    Derived(ProposalKind, observation, Text(FunctionName(f)))
  }

  function EpisodeIdOf(observation: Id): Id { Derived(EpisodeKind, observation, NO_ID) }
  function OutcomeIdOf(observation: Id): Id { Derived(OutcomeKind, observation, NO_ID) }
  function WorkingSetIdOf(scope: Scope): Id { Derived(WorkingSetKind, scope.namespace, scope.context) }

  function BaselinePayload(f: MemoryFunction, id: Id, o: Observation): Result<Payload, FormationError> {
    match f
    case Factual =>
      Success(FactualPayload(o.scope.subject, "observed-content", o.content,
                             if o.evidenceClass == Untrusted then Asserted else Observed, None))
    case Experiential =>
      Success(ExperientialPayload(o.content, [LessonEvidence(EpisodeIdOf(id), [OutcomeIdOf(id)])]))
    case Working =>
      if o.scope.context == NO_ID then Failure(MissingContext)
      else Success(WorkingPayload(WorkingSetIdOf(o.scope), o.scope.context, if o.goal != "" then o.goal else o.content, o.content, [id]))
  }

  function Propose(f: MemoryFunction, id: Id, o: Observation): Result<Proposal, FormationError> {
    match BaselinePayload(f, id, o)
    case Failure(error) => Failure(error)
    case Success(payload) =>
      if !PayloadFits(payload, f) then Failure(UnfitPayload) else
      var create := MemoryCreate(o.scope, f, payload, [id], None, NO_ID, []);
      var p := Proposal(ProposalIdOf(id, f), o.scope.namespace, [id], Create, NO_ID, CreateBody(create), o.capturedAt);
      if !ValidProposal(p) then Failure(UnfitProposal) else Success(p)
  }

  /** What a formed proposal asks for is never refused for its form. */
  lemma ProposalWellFormed(f: MemoryFunction, id: Id, o: Observation)
    ensures var r := Propose(f, id, o); r.Success? ==>
      && ValidProposal(r.value)
      && r.value.action == Create
      && r.value.body.CreateBody?
      && ValidCreate(r.value.body.create)
      && AuthorizesCreate(Some(o.scope), r.value.body.create.scope)
      && r.value.body.create.scope.namespace == r.value.namespace
    ensures Propose(f, id, o).Success? <==> o.scope.namespace != NO_ID && (f == Working ==> o.scope.context != NO_ID)
  {
  }

  /** Different observations or functions never share a proposal, hence never a memory. */
  lemma ProposalIdsDistinct(a: Id, f: MemoryFunction, b: Id, g: MemoryFunction)
    ensures MemoryIdOf(ProposalIdOf(a, f)) == MemoryIdOf(ProposalIdOf(b, g)) <==> a == b && f == g
  {
    assert FunctionName(Factual)[0] == 'f' && FunctionName(Experiential)[0] == 'e' && FunctionName(Working)[0] == 'w';
  }
}
