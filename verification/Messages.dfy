/** Votes, headers, attestations and the other values the consensus exchanges. */
module Messages {
  type Byte = n: nat | n < 256
  type Bytes = seq<Byte>
  type Hash = b: Bytes | |b| == 32 witness seq(32, _ => 0)
  type Signature = b: Bytes | |b| == 48 witness seq(48, _ => 0)
  type PublicKeyBytes = b: Bytes | |b| == 96 witness seq(96, _ => 0)
  type U16 = n: nat | n < 0x1_0000
  type U64 = n: nat | n < 0x1_0000_0000_0000_0000

  /** A public key, as the number its 96 bytes spell in big-endian order: keys
      compare like their byte strings. */
  type PublicKey = nat

  datatype Vote = NoCandidate | Valid(hash: Hash) | Invalid(hash: Hash) | NoQuorum

  datatype ConsensusHeader = ConsensusHeader(prevBlockHash: Hash, round: U64, iteration: Byte)

  datatype StepVotes = StepVotes(bitset: U64, aggregateSignature: Signature)

  function Zeros(n: nat): (b: Bytes)
    ensures |b| == n
  {
    if n == 0 then [] else [0] + Zeros(n - 1)
  }

  const EMPTY_SIGNATURE: Signature := Zeros(48)
  const DEFAULT_STEP_VOTES := StepVotes(0, EMPTY_SIGNATURE)

  datatype RatificationResult = Fail(vote: Vote) | Success(vote: Vote)

  function ResultOf(vote: Vote): RatificationResult {
    if vote.Valid? then Success(vote) else Fail(vote)
  }

  datatype Attestation = Attestation(
    result: RatificationResult, validation: StepVotes, ratification: StepVotes)

  datatype QuorumType = ValidQuorum | InvalidQuorum | NoCandidateQuorum | NoQuorumType

  datatype ValidationResult = ValidationResult(quorum: QuorumType, vote: Vote, sv: StepVotes)

  const DEFAULT_VALIDATION_RESULT :=
    ValidationResult(NoQuorumType, NoQuorum, DEFAULT_STEP_VOTES)

  datatype Quorum = Quorum(header: ConsensusHeader, att: Attestation)
}
