/** The registry of the attestations a round has gathered, by iteration and vote. */
module Registry {
  import opened Config
  import opened Messages
  import opened Collections

  datatype AttestationInfo = AttestationInfo(
    att: Attestation, quorumValidation: bool, quorumRatification: bool)
  {
    /** Both quorums, or the ratification quorum alone for NoQuorum. */
    predicate IsReady() {
      match att.result
      case Fail(NoQuorum) => quorumRatification
      case Fail(Invalid(_)) => quorumValidation && quorumRatification
      case Fail(NoCandidate) => quorumValidation && quorumRatification
      case Success(Valid(_)) => quorumValidation && quorumRatification
      case _ => false
    }

    /** `set_sv`: the votes are replaced, a quorum flag is never taken back. */
    function SetSv(sv: StepVotes, step: StepName, quorumReached: bool): AttestationInfo {
      match step
      case Validation => AttestationInfo(
        att.(validation := sv), quorumValidation || quorumReached, quorumRatification)
      case Ratification => AttestationInfo(
        att.(ratification := sv), quorumValidation, quorumRatification || quorumReached)
      case Proposal => this
    }
  }

  function NewInfo(vote: Vote): AttestationInfo {
    AttestationInfo(Attestation(ResultOf(vote), DEFAULT_STEP_VOTES, DEFAULT_STEP_VOTES), false, false)
  }

  datatype IterationAtts = IterationAtts(votes: map<Vote, AttestationInfo>, generator: PublicKey)

  type Attestations = map<nat, IterationAtts>

  function Info(reg: Attestations, it: nat, vote: Vote): AttestationInfo {
    if it in reg && vote in reg[it].votes then reg[it].votes[vote] else NewInfo(vote)
  }

  function PutInfo(reg: Attestations, it: nat, vote: Vote, info: AttestationInfo, generator: PublicKey)
    : Attestations
  {
    if it in reg then reg[it := IterationAtts(reg[it].votes[vote := info], reg[it].generator)]
    else reg[it := IterationAtts(map[vote := info], generator)]
  }

  lemma InfoOfPut(reg: Attestations, it: nat, vote: Vote, info: AttestationInfo, generator: PublicKey)
    ensures Info(PutInfo(reg, it, vote, info, generator), it, vote) == info
    ensures forall i: nat, v: Vote | (i, v) != (it, vote) ::
              Info(PutInfo(reg, it, vote, info, generator), i, v) == Info(reg, i, v)
  {
  }

  lemma PutTwice(reg: Attestations, it: nat, vote: Vote, i1: AttestationInfo, i2: AttestationInfo,
                 generator: PublicKey)
    ensures PutInfo(PutInfo(reg, it, vote, i1, generator), it, vote, i2, generator)
            == PutInfo(reg, it, vote, i2, generator)
  {
    var once, twice := PutInfo(reg, it, vote, i2, generator),
      PutInfo(PutInfo(reg, it, vote, i1, generator), it, vote, i2, generator);
    assert twice[it].votes == once[it].votes;
  }

  /** `set_step_votes`: records the votes and returns the attestation when ready. */
  function RecordVotes(reg: Attestations, it: nat, vote: Vote, sv: StepVotes, step: StepName,
                        quorumReached: bool, generator: PublicKey)
    : (Attestations, Option<Attestation>)
  {
    if sv == DEFAULT_STEP_VOTES then (reg, None)
    else
      var info := Info(reg, it, vote).SetSv(sv, step, quorumReached);
      (PutInfo(reg, it, vote, info, generator), if info.IsReady() then Some(info.att) else None)
  }

  /** `set_attestation`: a received attestation, with its flags set. */
  function RecordAttestation(reg: Attestations, it: nat, att: Attestation, generator: PublicKey): Attestations {
    var vote := att.result.vote;
    var info := Info(reg, it, vote).SetSv(att.validation, Validation, !vote.NoQuorum?);
    PutInfo(reg, it, vote, info.SetSv(att.ratification, Ratification, true), generator)
  }

  // ------------------------------------------------- failed attestations

  /** An attestation that `failed()` may return. */
  predicate ReadyFailed(info: AttestationInfo) {
    info.IsReady() && info.att.result.Fail?
  }

  predicate HasFailed(reg: Attestations, it: nat) {
    it in reg && exists v | v in reg[it].votes :: ReadyFailed(reg[it].votes[v])
  }

  /** No two different votes of an iteration have a ready Fail attestation. */
  ghost predicate FailedUnique(reg: Attestations, it: nat) {
    forall u, v | ReadyFailed(Info(reg, it, u)) && ReadyFailed(Info(reg, it, v)) :: u == v
  }

  lemma HasFailedInfo(reg: Attestations, it: nat)
    ensures HasFailed(reg, it) <==> exists v :: ReadyFailed(Info(reg, it, v))
  {
    if v :| ReadyFailed(Info(reg, it, v)) {
      assert it in reg && v in reg[it].votes;
    }
    if HasFailed(reg, it) {
      var v :| v in reg[it].votes && ReadyFailed(reg[it].votes[v]);
      assert ReadyFailed(Info(reg, it, v));
    }
  }

  /** The failed attestation of an iteration, when there is one. */
  ghost function FailedOf(reg: Attestations, it: nat): Option<AttestationInfo> {
    if HasFailed(reg, it) then
      var v :| v in reg[it].votes && ReadyFailed(reg[it].votes[v]);
      Some(reg[it].votes[v])
    else None
  }

  /** The failed attestation of an iteration with the generator it is held against. */
  ghost function ReportedAt(reg: Attestations, it: nat): Option<(Attestation, PublicKey)> {
    match FailedOf(reg, it)
    case None => None
    case Some(info) => Some((info.att, reg[it].generator))
  }

  /** `AttInfoRegistry`: the attestations, updated in place. */
  class AttInfoRegistry {
    var attList: Attestations

    constructor ()
      ensures attList == map[]
    {
      attList := map[];
    }

    method GetOrInsert(it: nat, vote: Vote, generator: PublicKey) returns (info: AttestationInfo)
      modifies this
      ensures info == Info(old(attList), it, vote)
      ensures attList == PutInfo(old(attList), it, vote, info, generator)
    {
      if it !in attList {
        attList := attList[it := IterationAtts(map[], generator)];
      }
      var atts := attList[it];
      if vote !in atts.votes {
        atts := IterationAtts(atts.votes[vote := NewInfo(vote)], atts.generator);
        attList := attList[it := atts];
      }
      info := atts.votes[vote];
      assert atts.votes[vote := info] == atts.votes;
      assert attList[it := atts] == attList;
      assert attList == PutInfo(old(attList), it, vote, info, generator);
    }

    method SetStepVotes(it: nat, vote: Vote, sv: StepVotes, step: StepName,
                        quorumReached: bool, generator: PublicKey)
      returns (ready: Option<Attestation>)
      modifies this
      ensures (attList, ready) ==
              RecordVotes(old(attList), it, vote, sv, step, quorumReached, generator)
    {
      if sv == DEFAULT_STEP_VOTES {
        return None;
      }
      var info := GetOrInsert(it, vote, generator);
      PutTwice(old(attList), it, vote, info, info.SetSv(sv, step, quorumReached), generator);
      info := info.SetSv(sv, step, quorumReached);
      Replace(it, vote, info, generator);
      return if info.IsReady() then Some(info.att) else None;
    }

    method SetAttestation(it: nat, att: Attestation, generator: PublicKey)
      modifies this
      ensures attList == RecordAttestation(old(attList), it, att, generator)
    {
      var vote := att.result.vote;
      var info := GetOrInsert(it, vote, generator);
      info := info.SetSv(att.validation, Validation, !vote.NoQuorum?);
      info := info.SetSv(att.ratification, Ratification, true);
      PutTwice(old(attList), it, vote, Info(old(attList), it, vote), info, generator);
      Replace(it, vote, info, generator);
    }

    /** Writes through the reference that `GetOrInsert` handed out. */
    method Replace(it: nat, vote: Vote, info: AttestationInfo, ghost generator: PublicKey)
      requires it in attList && vote in attList[it].votes
      modifies this
      ensures attList == PutInfo(old(attList), it, vote, info, generator)
    {
      attList := attList[it := IterationAtts(attList[it].votes[vote := info], attList[it].generator)];
    }

    /** `failed`: searches the votes in the arbitrary order of a hash map. */
    method Failed(it: nat) returns (r: Option<AttestationInfo>)
      ensures r.None? <==> !HasFailed(attList, it)
      ensures r.Some? ==> it in attList && r.value in attList[it].votes.Values && ReadyFailed(r.value)
      ensures FailedUnique(attList, it) ==> r == FailedOf(attList, it)
    {
      if it !in attList {
        return None;
      }
      var votes := attList[it].votes;
      var rest := votes.Keys;
      while rest != {}
        invariant rest <= votes.Keys
        invariant forall v | v in votes && v !in rest :: !ReadyFailed(votes[v])
        decreases rest
      {
        var v :| v in rest;
        if ReadyFailed(votes[v]) {
          if FailedUnique(attList, it) {
            var w :| w in votes && ReadyFailed(votes[w]) && FailedOf(attList, it) == Some(votes[w]);
            assert ReadyFailed(Info(attList, it, v)) && ReadyFailed(Info(attList, it, w));
          }
          return Some(votes[v]);
        }
        rest := rest - {v};
      }
      return None;
    }

    /** `get_failed_atts`: one entry per iteration below `to`. When failures are
        unique the list does not depend on the order of any hash map. */
    method GetFailedAtts(to: nat) returns (res: seq<Option<(Attestation, PublicKey)>>)
      ensures |res| == to
      ensures forall it | 0 <= it < to && FailedUnique(attList, it) :: res[it] == ReportedAt(attList, it)
    {
      res := [];
      for it := 0 to to
        invariant |res| == it
        invariant forall i | 0 <= i < it && FailedUnique(attList, i) :: res[i] == ReportedAt(attList, i)
      {
        var failed := Failed(it);
        res := res + [match failed
                      case None => None
                      case Some(info) => Some((info.att, attList[it].generator))];
      }
    }
  }
}
