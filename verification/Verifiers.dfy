/** Verification of step votes from their bitset, and what two verified quorums
    have in common. */
module Verifiers {
  import opened Config
  import opened Messages
  import opened Collections
  import opened Committees
  import opened Wire

  /** The multisignature scheme: which byte strings are signatures, how two are
      aggregated, and when one verifies for a set of keys and a message. */
  datatype Bls = Bls(
    parses: Signature -> bool,
    aggregate: (Signature, Signature) -> Signature,
    verify: (set<PublicKey>, Bytes, Signature) -> bool)
  {
    /** Adding one more signature on the same message extends the key set. */
    ghost predicate Aggregates() {
      forall keys: set<PublicKey>, k: PublicKey, msg: Bytes, s: Signature, t: Signature ::
        Extends(keys, k, msg, s, t)
    }

    ghost predicate Extends(keys: set<PublicKey>, k: PublicKey, msg: Bytes, s: Signature, t: Signature) {
      k !in keys && verify(keys, msg, s) && verify({k}, msg, t)
      ==> verify(keys + {k}, msg, aggregate(s, t))
    }

    /** A signature verifies only for keys that signed the message. */
    ghost predicate Unforgeable(signed: (PublicKey, Bytes) -> bool) {
      forall keys: set<PublicKey>, msg: Bytes, s: Signature, k: PublicKey ::
        verify(keys, msg, s) && k in keys ==> signed(k, msg)
    }
  }

  datatype StepSigError = VoteSetTooSmall | VerificationFailed | InvalidType

  datatype QuorumResult = QuorumResult(total: nat, targetQuorum: nat)

  function VerifyStepSignature(bls: Bls, header: ConsensusHeader, step: StepName, vote: Vote,
                               keys: set<PublicKey>, signature: Signature): Option<StepSigError>
  {
    if step.Proposal? then Some(InvalidType)
    else if bls.verify(keys, Signable(header, step, vote), signature) then None
    else Some(VerificationFailed)
  }

  /** `verify_votes` */
  function VerifyVotes(bls: Bls, header: ConsensusHeader, step: StepName, vote: Vote,
                       sv: StepVotes, c: Committee): Result<(QuorumResult, Cluster), StepSigError>
  {
    var voters := Intersect(c, sv.bitset);
    var quorum := QuorumResult(c.TotalOccurrences(voters), c.Target(vote));
    var skipQuorum := step.Validation? && vote.NoQuorum?;
    if !skipQuorum && quorum.total < quorum.targetQuorum then Err(VoteSetTooSmall)
    else if sv.bitset > 0 then
      match VerifyStepSignature(bls, header, step, vote, voters.Keys, sv.aggregateSignature)
      case Some(e) => Err(e)
      case None => Ok((quorum, voters))
    else Ok((quorum, voters))
  }

  /** The credits a vote needs out of a credit total: two thirds for a Valid one,
      more than half for any other. */
  function Needed(vote: Vote, credits: nat): nat {
    if vote.Valid? then Supermajority(credits) else Majority(credits)
  }

  lemma NeededOf64(vote: Vote)
    ensures Needed(vote, 64) == if vote.Valid? then 43 else 33
  {
  }

  /** Votes are refused as too few exactly when the members they name hold less
      than the vote needs of the committee's credits. Only the Validation side of a
      NoQuorum needs none. */
  lemma RefusedIffTooFew(bls: Bls, header: ConsensusHeader, step: StepName, vote: Vote,
                         sv: StepVotes, c: Committee)
    requires c.Valid()
    ensures VerifyVotes(bls, header, step, vote, sv, c) == Err(VoteSetTooSmall) <==>
              !(step.Validation? && vote.NoQuorum?)
              && Total(Intersect(c, sv.bitset)) < Needed(vote, Total(c.members))
  {
    hide Total, Intersect, SortedKeys, Bls.Aggregates;
    IntersectIsPart(c, sv.bitset);
    OccurrencesOfSubmap(c, Intersect(c, sv.bitset));
  }

  lemma IntersectIsPart(c: Committee, bitset: nat)
    ensures Submap(Intersect(c, bitset), c.members)
  {
    hide SortedKeys;
  }

  /** An accepted quorum weighs at least its target and is signed by every
      member it counts. */
  lemma AcceptedQuorum(bls: Bls, signed: (PublicKey, Bytes) -> bool, header: ConsensusHeader,
                       step: StepName, vote: Vote, sv: StepVotes, c: Committee)
    requires c.Valid() && bls.Unforgeable(signed)
    requires !step.Proposal? && !(step.Validation? && vote.NoQuorum?)
    requires VerifyVotes(bls, header, step, vote, sv, c).Ok?
    ensures Submap(Intersect(c, sv.bitset), c.members)
    ensures Total(Intersect(c, sv.bitset)) >= c.Target(vote)
    ensures forall k | k in Intersect(c, sv.bitset) :: signed(k, Signable(header, step, vote))
  {
    hide Total, Signable, SortedKeys;
    var voters := Intersect(c, sv.bitset);
    OccurrencesOfSubmap(c, voters);
    if sv.bitset == 0 {
      IntersectZero(c);
    } else {
      assert bls.verify(voters.Keys, Signable(header, step, vote), sv.aggregateSignature);
    }
  }

  /** The members outside `faulty` sign at most one vote of this step. */
  ghost predicate HonestVoteOnce(c: Committee, faulty: set<PublicKey>,
                                 signed: (PublicKey, Bytes) -> bool,
                                 header: ConsensusHeader, step: StepName)
    requires !step.Proposal?
  {
    forall k, u, v | k in c.members && k !in faulty
                     && signed(k, Signable(header, step, u)) && signed(k, Signable(header, step, v))
      :: u == v
  }

  /** Two accepted quorums of one step are for the same vote as long as the
      faulty credits are fewer than the credits the two quorums must share. */
  lemma QuorumsAgree(bls: Bls, signed: (PublicKey, Bytes) -> bool, header: ConsensusHeader,
                     step: StepName, c: Committee, faulty: set<PublicKey>,
                     v1: Vote, sv1: StepVotes, v2: Vote, sv2: StepVotes)
    requires c.Valid() && bls.Unforgeable(signed)
    requires !step.Proposal? && !(step.Validation? && (v1.NoQuorum? || v2.NoQuorum?))
    requires VerifyVotes(bls, header, step, v1, sv1, c).Ok?
    requires VerifyVotes(bls, header, step, v2, sv2, c).Ok?
    requires HonestVoteOnce(c, faulty, signed, header, step)
    requires Total(Restrict(c.members, faulty)) + Total(c.members) < c.Target(v1) + c.Target(v2)
    ensures v1 == v2
  {
    hide VerifyVotes, Intersect, Total;
    AcceptedQuorum(bls, signed, header, step, v1, sv1, c);
    AcceptedQuorum(bls, signed, header, step, v2, sv2, c);
    var a, b := Intersect(c, sv1.bitset), Intersect(c, sv2.bitset);
    Overlap(a, b, c.members);
    var common := Restrict(c.members, a.Keys * b.Keys);
    if common.Keys <= faulty {
      SubmapTotal(common, Restrict(c.members, faulty));
    } else {
      var k :| k in common && k !in faulty;
      assert signed(k, Signable(header, step, v1)) && signed(k, Signable(header, step, v2));
    }
  }

  /** Agreement inside one iteration: with 64 ratification credits, at most 21 of
      them faulty, no two block hashes can both be ratified. */
  lemma PerIterationAgreement(bls: Bls, signed: (PublicKey, Bytes) -> bool, header: ConsensusHeader,
                              c: Committee, faulty: set<PublicKey>,
                              h1: Hash, sv1: StepVotes, h2: Hash, sv2: StepVotes)
    requires c.Valid() && Total(c.members) == RATIFICATION_COMMITTEE_CREDITS
    requires bls.Unforgeable(signed)
    requires HonestVoteOnce(c, faulty, signed, header, Ratification)
    requires Total(Restrict(c.members, faulty)) <= 21
    requires VerifyVotes(bls, header, Ratification, Valid(h1), sv1, c).Ok?
    requires VerifyVotes(bls, header, Ratification, Valid(h2), sv2, c).Ok?
    ensures h1 == h2
  {
    hide VerifyVotes, Total;
    QuorumsAgree(bls, signed, header, Ratification, c, faulty, Valid(h1), sv1, Valid(h2), sv2);
  }

  // ------------------------------------------------- the bound is tight

  /** The ideal scheme over a record of who signed what. */
  function IdealBls(signed: (PublicKey, Bytes) -> bool): Bls {
    Bls(_ => true, (s, _) => s,
        (keys: set<PublicKey>, m: Bytes, _: Signature) => forall k | k in keys :: signed(k, m))
  }

  /** The laws asked of a scheme are met by the ideal one. */
  lemma IdealBlsLaws(signed: (PublicKey, Bytes) -> bool)
    ensures IdealBls(signed).Aggregates() && IdealBls(signed).Unforgeable(signed)
  {
  }

  /** Key 1 signs the first message, key 3 the second, key 2 both. */
  function TwoFaced(m1: Bytes, m2: Bytes): (PublicKey, Bytes) -> bool {
    (k: PublicKey, m: Bytes) => (m == m1 && (k == 1 || k == 2)) || (m == m2 && (k == 2 || k == 3))
  }

  /** Three members that share 64 credits. */
  const THREE := Committee(map[1 := 21, 2 := 22, 3 := 21], 43, 33, [])

  lemma ThreeValid()
    ensures THREE.Valid() && Total(THREE.members) == 64
  {
    hide Total;
    ThreeMembers();
    assert THREE.members.Keys == {1, 2, 3};
  }

  /** 21 is the most that works: 22 faulty credits, held by one member, can ratify
      two different hashes. */
  lemma AgreementBoundIsTight(header: ConsensusHeader, h1: Hash, h2: Hash)
    returns (signed: (PublicKey, Bytes) -> bool, c: Committee, faulty: set<PublicKey>,
             sv1: StepVotes, sv2: StepVotes)
    requires h1 != h2
    ensures c.Valid() && Total(c.members) == RATIFICATION_COMMITTEE_CREDITS
    ensures IdealBls(signed).Unforgeable(signed)
    ensures HonestVoteOnce(c, faulty, signed, header, Ratification)
    ensures Total(Restrict(c.members, faulty)) == 22
    ensures VerifyVotes(IdealBls(signed), header, Ratification, Valid(h1), sv1, c).Ok?
    ensures VerifyVotes(IdealBls(signed), header, Ratification, Valid(h2), sv2, c).Ok?
  {
    hide Signable, Total, VerifyVotes, IdealBls;
    signed := TwoFaced(Signable(header, Ratification, Valid(h1)), Signable(header, Ratification, Valid(h2)));
    IdealBlsLaws(signed);
    c := THREE;
    faulty := {2};
    ThreeMembers();
    ThreeValid();
    assert Restrict(c.members, faulty) == map[2 := 22];
    sv1 := IdealQuorum(signed, header, Ratification, Valid(h1), c, map[1 := 21, 2 := 22]);
    sv2 := IdealQuorum(signed, header, Ratification, Valid(h2), c, map[2 := 22, 3 := 21]);
    SignableApart(header, h1, h2);
    forall k, u, v | k in c.members && k !in faulty
                     && signed(k, Signable(header, Ratification, u))
                     && signed(k, Signable(header, Ratification, v))
      ensures u == v
    {
      SignableInjective(header, Ratification, u, header, Ratification, v);
    }
  }

  /** Members that all signed, and weigh enough, can present a quorum. */
  lemma IdealQuorum(signed: (PublicKey, Bytes) -> bool, header: ConsensusHeader, step: StepName,
                    vote: Vote, c: Committee, voters: Cluster) returns (sv: StepVotes)
    requires !step.Proposal?
    requires |c.members| <= 64 && Submap(voters, c.members) && voters != map[]
    requires Total(voters) >= c.Target(vote)
    requires forall k | k in voters :: signed(k, Signable(header, step, vote))
    ensures VerifyVotes(IdealBls(signed), header, step, vote, sv, c).Ok?
  {
    hide Total, Signable, SortedKeys, Intersect;
    BitsFit(c, voters);
    sv := StepVotes(Bits(c, voters), EMPTY_SIGNATURE);
    IntersectOfBits(c, voters);
    assert Restrict(c.members, voters.Keys) == voters;
    OccurrencesOfSubmap(c, voters);
  }

  lemma SignableApart(header: ConsensusHeader, h1: Hash, h2: Hash)
    requires h1 != h2
    ensures Signable(header, Ratification, Valid(h1)) != Signable(header, Ratification, Valid(h2))
  {
    hide Signable;
    if Signable(header, Ratification, Valid(h1)) == Signable(header, Ratification, Valid(h2)) {
      SignableInjective(header, Ratification, Valid(h1), header, Ratification, Valid(h2));
    }
  }

  lemma ThreeMembers()
    ensures Total(map[2 := 22]) == 22
    ensures Total(map[1 := 21, 2 := 22]) == 43 && Total(map[2 := 22, 3 := 21]) == 43
    ensures Total(map[1 := 21, 2 := 22, 3 := 21]) == 64
  {
    TotalInsert(map[], 2, 22);
    TotalInsert(map[2 := 22], 1, 21);
    TotalInsert(map[2 := 22], 3, 21);
    TotalInsert(map[1 := 21, 2 := 22], 3, 21);
    assert map[1 := 21, 2 := 22] == map[2 := 22][1 := 21];
    assert map[2 := 22, 3 := 21] == map[2 := 22][3 := 21];
    assert map[1 := 21, 2 := 22, 3 := 21] == map[1 := 21, 2 := 22][3 := 21];
    assert map[2 := 22] == map[][2 := 22];
  }
}
