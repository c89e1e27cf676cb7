/** The Validation and Ratification message handlers over their aggregators and
    the shared registry. */
module Handlers {
  import opened Config
  import opened Messages
  import opened Collections
  import opened Committees
  import opened Verifiers
  import opened Aggregation
  import opened Registry

  datatype ConsensusError =
    | InvalidVote(vote: Vote) | InvalidMsgIteration(iteration: Byte)
    | VoteMismatch(expected: Vote, got: Vote) | InvalidVoteSet(reason: StepSigError)

  datatype Outcome<+T> = Failed(error: ConsensusError) | Pending | Ready(value: T)

  /** A Ratification message carries the Validation result it votes for. */
  datatype RatificationVote = RatificationVote(sv: StepVote, result: ValidationResult)

  function QuorumTypeFor(vote: Vote): QuorumType {
    match vote
    case NoCandidate => NoCandidateQuorum
    case Invalid(_) => InvalidQuorum
    case Valid(_) => ValidQuorum
    case NoQuorum => NoQuorumType
  }

  // ------------------------------------------------------------ validation

  /** The aggregator and the registry after recording one collected vote. */
  datatype Recorded = Recorded(votes: Votes, reg: Attestations, result: Collected, ready: Option<Attestation>)

  /** Collects a vote and records the outcome under its iteration. */
  function Record(bls: Bls, a: Votes, reg: Attestations, c: Committee, v: StepVote,
                  generator: PublicKey): Recorded
    requires c.Valid()
  {
    var (a', r) := Collect(bls, a, c, v);
    if r.Err? then Recorded(a', reg, r, None)
    else
      var (reg', ready) := RecordVotes(reg, v.header.iteration, v.vote, r.value.0, v.step, r.value.1, generator);
      Recorded(a', reg', r, ready)
  }

  /** `ValidationHandler::collect` */
  function ValidationCollect(bls: Bls, a: Votes, curr: Byte, reg: Attestations, c: Committee,
                             v: StepVote, generator: PublicKey)
    : (Votes, Attestations, Outcome<ValidationResult>)
    requires c.Valid()
  {
    if v.vote.NoQuorum? then (a, reg, Failed(InvalidVote(v.vote)))
    else if v.header.iteration != curr then (a, reg, Failed(InvalidMsgIteration(v.header.iteration)))
    else
      var d := Record(bls, a, reg, c, v, generator);
      (d.votes, d.reg,
       if d.result.Err? then Failed(InvalidVote(v.vote))
       else if d.result.value.1 then
         Ready(ValidationResult(QuorumTypeFor(v.vote), v.vote, d.result.value.0))
       else Pending)
  }

  /** `ValidationHandler::collect_from_past`, for a Validation vote: only a Valid
      quorum is reported. */
  function ValidationPast(bls: Bls, a: Votes, reg: Attestations, c: Committee,
                          v: StepVote, generator: PublicKey)
    : (Votes, Attestations, Outcome<ValidationResult>)
    requires c.Valid()
  {
    if v.vote.NoQuorum? then (a, reg, Failed(InvalidVote(v.vote)))
    else
      var d := Record(bls, a, reg, c, v, generator);
      (d.votes, d.reg,
       if d.result.Ok? && d.result.value.1 && v.vote.Valid? then
         Ready(ValidationResult(ValidQuorum, v.vote, d.result.value.0))
       else Pending)
  }

  class ValidationHandler {
    const aggr: Aggregator
    const svRegistry: AttInfoRegistry
    var currIteration: Byte

    constructor (svRegistry: AttInfoRegistry)
      ensures this.svRegistry == svRegistry && fresh(aggr) && currIteration == 0
      ensures aggr.Model() == Votes(map[], map[])
    {
      aggr := new Aggregator();
      this.svRegistry := svRegistry;
      currIteration := 0;
    }

    method Reset(iteration: Byte)
      modifies this
      ensures currIteration == iteration
    {
      currIteration := iteration;
    }

    method Collect(bls: Bls, v: StepVote, committee: Committee, generator: PublicKey)
      returns (r: Outcome<ValidationResult>)
      requires committee.Valid()
      modifies aggr, svRegistry
      ensures (aggr.Model(), svRegistry.attList, r) ==
              ValidationCollect(bls, old(aggr.Model()), currIteration, old(svRegistry.attList),
                                committee, v, generator)
    {
      hide Aggregation.Collect, RecordVotes;
      if v.vote.NoQuorum? {
        return Failed(InvalidVote(v.vote));
      }
      if v.header.iteration != currIteration {
        return Failed(InvalidMsgIteration(v.header.iteration));
      }
      var collected := aggr.CollectVote(bls, committee, v);
      if collected.Err? {
        return Failed(InvalidVote(v.vote));
      }
      var (sv, quorumReached) := collected.value;
      var _ := svRegistry.SetStepVotes(v.header.iteration, v.vote, sv, v.step, quorumReached, generator);
      if quorumReached {
        return Ready(ValidationResult(QuorumTypeFor(v.vote), v.vote, sv));
      }
      return Pending;
    }

    method CollectFromPast(bls: Bls, v: StepVote, committee: Committee, generator: PublicKey)
      returns (r: Outcome<ValidationResult>)
      requires committee.Valid()
      modifies aggr, svRegistry
      ensures (aggr.Model(), svRegistry.attList, r) ==
              ValidationPast(bls, old(aggr.Model()), old(svRegistry.attList), committee, v, generator)
    {
      hide Aggregation.Collect, RecordVotes;
      if v.vote.NoQuorum? {
        return Failed(InvalidVote(v.vote));
      }
      var collected := aggr.CollectVote(bls, committee, v);
      if collected.Ok? {
        var (sv, quorumReached) := collected.value;
        var _ := svRegistry.SetStepVotes(v.header.iteration, v.vote, sv, v.step, quorumReached, generator);
        if v.vote.Valid? && quorumReached {
          return Ready(ValidationResult(ValidQuorum, v.vote, sv));
        }
      }
      return Pending;
    }
  }

  // ---------------------------------------------------------- ratification

  /** `verify_validation_result` */
  function VerifyValidationResult(bls: Bls, header: ConsensusHeader, result: ValidationResult,
                                  validationCommittee: Committee): Option<StepSigError>
  {
    match VerifyVotes(bls, header, Validation, result.vote, result.sv, validationCommittee)
    case Err(e) => Some(e)
    case Ok(_) => None
  }

  /** The local Validation result after looking at the one in the message. */
  function MatchResult(bls: Bls, local: ValidationResult, rv: RatificationVote,
                       validationCommittee: Committee): Result<ValidationResult, ConsensusError>
  {
    var vote := rv.sv.vote;
    if rv.result.vote != vote then Err(VoteMismatch(rv.result.vote, vote))
    else if vote.NoQuorum? || vote == local.vote then Ok(local)
    else if !local.vote.NoQuorum? && !IsEmergencyIter(rv.sv.header.iteration) then
      Err(VoteMismatch(local.vote, vote))
    else
      match VerifyValidationResult(bls, rv.sv.header, rv.result, validationCommittee)
      case Some(e) => Err(InvalidVoteSet(e))
      case None => Ok(rv.result)
  }

  /** `RatificationHandler::collect` */
  function RatificationCollect(bls: Bls, a: Votes, local: ValidationResult, curr: Byte,
                               reg: Attestations, header: ConsensusHeader, c: Committee,
                               validationCommittee: Committee, rv: RatificationVote, generator: PublicKey)
    : (Votes, ValidationResult, Attestations, Outcome<Quorum>)
    requires c.Valid()
  {
    var v := rv.sv;
    if v.header.iteration != curr then
      (a, local, reg, Failed(InvalidMsgIteration(v.header.iteration)))
    else
      match MatchResult(bls, local, rv, validationCommittee)
      case Err(e) => (a, local, reg, Failed(e))
      case Ok(result) =>
        var d := Record(bls, a, reg, c, v, generator);
        (d.votes, result, d.reg,
         if d.result.Err? then Failed(InvalidVote(v.vote))
         else if d.result.value.1 then
           Ready(Quorum(header, Attestation(ResultOf(v.vote), result.sv, d.result.value.0)))
         else Pending)
  }

  /** `RatificationHandler::collect_from_past`: a quorum is reported when the
      registry holds both sides of the attestation. */
  function RatificationPast(bls: Bls, a: Votes, reg: Attestations, header: ConsensusHeader,
                            c: Committee, rv: RatificationVote, generator: PublicKey)
    : (Votes, Attestations, Outcome<Quorum>)
    requires c.Valid()
  {
    var d := Record(bls, a, reg, c, rv.sv, generator);
    (d.votes, d.reg, if d.ready.Some? then Ready(Quorum(header, d.ready.value)) else Pending)
  }

  class RatificationHandler {
    const svRegistry: AttInfoRegistry
    const aggregator: Aggregator
    var validationResult: ValidationResult
    var currIteration: Byte

    constructor (svRegistry: AttInfoRegistry)
      ensures this.svRegistry == svRegistry && fresh(aggregator)
      ensures aggregator.Model() == Votes(map[], map[])
      ensures validationResult == DEFAULT_VALIDATION_RESULT && currIteration == 0
    {
      aggregator := new Aggregator();
      this.svRegistry := svRegistry;
      validationResult, currIteration := DEFAULT_VALIDATION_RESULT, 0;
    }

    method Reset(iteration: Byte, validation: ValidationResult)
      modifies this
      ensures validationResult == validation && currIteration == iteration
    {
      validationResult := validation;
      currIteration := iteration;
    }

    method Collect(bls: Bls, rv: RatificationVote, header: ConsensusHeader, committee: Committee,
                   validationCommittee: Committee, generator: PublicKey)
      returns (r: Outcome<Quorum>)
      requires committee.Valid()
      modifies this, aggregator, svRegistry
      ensures currIteration == old(currIteration)
      ensures (aggregator.Model(), validationResult, svRegistry.attList, r) ==
              RatificationCollect(bls, old(aggregator.Model()), old(validationResult), currIteration,
                                  old(svRegistry.attList), header, committee, validationCommittee,
                                  rv, generator)
    {
      hide Aggregation.Collect, RecordVotes, VerifyValidationResult;
      var v := rv.sv;
      var vote, iteration := v.vote, v.header.iteration;
      if iteration != currIteration {
        return Failed(InvalidMsgIteration(iteration));
      }
      if rv.result.vote != vote {
        return Failed(VoteMismatch(rv.result.vote, vote));
      }
      if !vote.NoQuorum? {
        var localVote := validationResult.vote;
        if localVote.NoQuorum? {
          var bad := VerifyValidationResult(bls, v.header, rv.result, validationCommittee);
          if bad.Some? { return Failed(InvalidVoteSet(bad.value)); }
          validationResult := rv.result;
        } else if vote != localVote {
          if !IsEmergencyIter(iteration) {
            return Failed(VoteMismatch(localVote, vote));
          }
          var bad := VerifyValidationResult(bls, v.header, rv.result, validationCommittee);
          if bad.Some? { return Failed(InvalidVoteSet(bad.value)); }
          validationResult := rv.result;
        }
      }
      var collected := aggregator.CollectVote(bls, committee, v);
      if collected.Err? {
        return Failed(InvalidVote(vote));
      }
      var (sv, quorumReached) := collected.value;
      var _ := svRegistry.SetStepVotes(iteration, vote, sv, v.step, quorumReached, generator);
      if quorumReached {
        return Ready(Quorum(header, Attestation(ResultOf(vote), validationResult.sv, sv)));
      }
      return Pending;
    }

    method CollectFromPast(bls: Bls, rv: RatificationVote, header: ConsensusHeader,
                           committee: Committee, generator: PublicKey)
      returns (r: Outcome<Quorum>)
      requires committee.Valid()
      modifies aggregator, svRegistry
      ensures (aggregator.Model(), svRegistry.attList, r) ==
              RatificationPast(bls, old(aggregator.Model()), old(svRegistry.attList), header,
                               committee, rv, generator)
    {
      hide Aggregation.Collect, RecordVotes;
      var v := rv.sv;
      var collected := aggregator.CollectVote(bls, committee, v);
      if collected.Ok? {
        var (sv, quorumReached) := collected.value;
        var ready := svRegistry.SetStepVotes(v.header.iteration, v.vote, sv, v.step, quorumReached, generator);
        if ready.Some? {
          return Ready(Quorum(header, ready.value));
        }
      }
      return Pending;
    }
  }
}
