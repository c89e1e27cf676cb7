/** Agreement between nodes: what sortition, aggregation, verification and the
    round loop give together. */
module Agreement {
  import opened Config
  import opened Messages
  import opened Collections
  import opened Sortition
  import opened Committees
  import opened Wire
  import opened Verifiers
  import opened IterationContext
  import opened Aggregation
  import opened RoundRun
  import opened RoundLoop

  /** A node in a round: the iteration it starts at, the iterations whose committees
      it is asked for, by its loop and by the headers of received messages, and
      what happens to it. A cached committee is never replaced, so the one in the
      cache at the end is the one in use all along. */
  datatype Peer = Peer(iter: Byte, requests: seq<Byte>, events: seq<Event>)

  predicate Playable(rs: RoundSeed) {
    rs.Eligible() && rs.round < 0x1_0000_0000_0000_0000
  }

  /** The committee a node uses for a step number; one that is not cached is not
      used. */
  function SlotOf(rs: RoundSeed, requests: seq<Byte>, s: nat): Committee
    requires rs.Eligible()
  {
    NothingCached();
    var cache := CacheAfter(rs, map[], requests);
    if s in cache then cache[s] else Expected(rs, s)
  }

  function GeneratorOf(rs: RoundSeed, requests: seq<Byte>, it: nat): PublicKey
    requires rs.Eligible()
  {
    var order := SlotOf(rs, requests, ToStep(Proposal, it)).Order();
    if order == [] then 0 else order[0]
  }

  /** The round as a node with this cache sees it. */
  function RoundOf(bls: Bls, tip: Hash, rs: RoundSeed, requests: seq<Byte>): Round
    requires Playable(rs)
  {
    Round(bls, tip, rs.round, (s: nat) => SlotOf(rs, requests, s), (it: nat) => GeneratorOf(rs, requests, it))
  }

  lemma SlotValid(rs: RoundSeed, requests: seq<Byte>, s: nat)
    requires rs.Eligible()
    ensures SlotOf(rs, requests, s).Valid()
  {
    hide RoundSeed.Eligible, CacheAfter, Expected, Committee.Valid;
    ExpectedValid(rs, s);
  }

  lemma ExpectedValid(rs: RoundSeed, step: nat)
    requires rs.Eligible()
    ensures Expected(rs, step).Valid()
  {
    hide Eligibles, NewCommittee, GetGenerator;
    StepCommitteeValid(rs, step / 3, StepOf(step));
  }

  /** Whatever was requested, the committees of a node are well formed. */
  lemma RoundOfValid(bls: Bls, tip: Hash, rs: RoundSeed, requests: seq<Byte>)
    requires Playable(rs) && bls.Aggregates()
    ensures RoundOf(bls, tip, rs, requests).Valid()
    ensures RoundOf(bls, tip, rs, requests).bls == bls
    ensures RoundOf(bls, tip, rs, requests).prevBlockHash == tip
    ensures RoundOf(bls, tip, rs, requests).round == rs.round
  {
    hide RoundSeed.Eligible, SlotOf, GeneratorOf, Committee.Valid, Bls.Aggregates;
    forall s: nat ensures SlotOf(rs, requests, s).Valid() {
      SlotValid(rs, requests, s);
    }
  }

  /** When no request clashes they are the committees a verifier builds. */
  lemma SlotFromScratch(bls: Bls, tip: Hash, rs: RoundSeed, requests: seq<Byte>, it: Byte, step: StepName)
    requires Playable(rs) && Fits(it, step)
    requires NoClashes(rs, map[], requests)
    ensures RoundOf(bls, tip, rs, requests).committee(ToStep(step, it)) == rs.StepCommittee(it, step)
  {
    hide RoundSeed.Eligible, CacheAfter, Expected, NoClashes, ToStep, RoundSeed.StepCommittee;
    NothingCached();
    CacheExact(rs, map[], requests);
    ExpectedAt(rs, it, step);
  }

  /** The quorum's two sets pass for a verifier that builds the committees itself. */
  ghost predicate VerifiesFromScratch(bls: Bls, rs: RoundSeed, q: Quorum)
    requires rs.Eligible()
  {
    var it, vote := q.header.iteration, q.att.result.vote;
    && VerifyVotes(bls, q.header, Ratification, vote, q.att.ratification, rs.StepCommittee(it, Ratification)).Ok?
    && (!vote.NoQuorum? ==>
          VerifyVotes(bls, q.header, Validation, vote, q.att.validation, rs.StepCommittee(it, Validation)).Ok?)
  }

  /** A node that went through its events has emitted, or relayed, `q`. */
  ghost predicate Emits(bls: Bls, tip: Hash, rs: RoundSeed, peer: Peer, q: Quorum)
    requires Playable(rs) && bls.Aggregates()
  {
    RoundOfValid(bls, tip, rs, peer.requests);
    peer.iter < CONSENSUS_MAX_ITER
    && q in AfterRun(RoundOf(bls, tip, rs, peer.requests), peer.iter, peer.events).emitted
  }

  ghost predicate Sends(bls: Bls, tip: Hash, rs: RoundSeed, peer: Peer, q: Quorum)
    requires Playable(rs) && bls.Aggregates()
  {
    RoundOfValid(bls, tip, rs, peer.requests);
    Emits(bls, tip, rs, peer, q)
    || (peer.iter < CONSENSUS_MAX_ITER
        && q in AfterRun(RoundOf(bls, tip, rs, peer.requests), peer.iter, peer.events).relayed)
  }

  /** Every Quorum that a step of a node returns, over any run, verifies against the
      committees built from scratch, as long as no request for committees clashed;
      none does when no header names an iteration above 84. */
  lemma EmittedVerifiesFromScratch(bls: Bls, tip: Hash, rs: RoundSeed, peer: Peer, q: Quorum)
    requires Playable(rs) && bls.Aggregates() && Emits(bls, tip, rs, peer, q)
    ensures q.header.iteration < CONSENSUS_MAX_ITER
            && q.header == ConsensusHeader(tip, rs.round, q.header.iteration)
            && q.att.result == ResultOf(q.att.result.vote)
    ensures NoClashes(rs, map[], peer.requests) ==> VerifiesFromScratch(bls, rs, q)
    ensures (forall it | it in peer.requests :: it <= 84) ==> NoClashes(rs, map[], peer.requests)
  {
    hide RoundSeed.Eligible, RoundOf, AfterRun, VerifyVotes, ToStep, NoClashes, RoundSeed.StepCommittee;
    var rd, it := RoundOf(bls, tip, rs, peer.requests), q.header.iteration;
    RoundOfValid(bls, tip, rs, peer.requests);
    EmittedQuorumsVerify(rd, peer.iter, peer.events, q);
    if NoClashes(rs, map[], peer.requests) {
      SlotFromScratch(bls, tip, rs, peer.requests, it, Ratification);
      SlotFromScratch(bls, tip, rs, peer.requests, it, Validation);
    }
    if forall it | it in peer.requests :: it <= 84 {
      NothingCached();
      SmallRequests(rs, map[], peer.requests);
    }
  }

  /** What a node sends out for a normal iteration comes from a step of its own. */
  lemma NormalIsEmitted(bls: Bls, tip: Hash, rs: RoundSeed, peer: Peer, q: Quorum)
    requires Playable(rs) && bls.Aggregates() && Sends(bls, tip, rs, peer, q)
    requires q.header.iteration < EMERGENCY_MODE_ITERATION_THRESHOLD
    ensures Emits(bls, tip, rs, peer, q)
  {
    hide RoundSeed.Eligible, RoundOf, AfterRun;
    RoundOfValid(bls, tip, rs, peer.requests);
    var rd := RoundOf(bls, tip, rs, peer.requests);
    if q in AfterRun(rd, peer.iter, peer.events).relayed {
      RelayedQuorumsVerify(rd, peer.iter, peer.events, q);
    }
  }

  /** The condition matters: asked for iteration 100 before iteration 14, a node
      takes a single vote for a ratification quorum of iteration 14, where a
      verifier counts 64 credits. */
  lemma SpoiledRound(bls: Bls, tip: Hash, rs: RoundSeed, before: seq<Byte>, after: seq<Byte>, k: PublicKey, vote: Vote)
    requires Playable(rs) && forall it | it in before :: it < 14
    ensures var requests := before + [100] + after;
            var c := RoundOf(bls, tip, rs, requests).committee(ToStep(Ratification, 14));
            && Total(rs.StepCommittee(14, Ratification).members) == 64
            && c.Valid() && Total(c.members) == 1
            && (k in c.members ==> c.members[k] >= c.Target(vote))
  {
    hide RoundSeed.Eligible, CacheAfter, Expected, RoundSeed.StepCommittee, Total, ToStep, Consistent;
    var requests := before + [100] + after;
    SpoiledCache(rs, before, after);
    SlotValid(rs, requests, ToStep(Ratification, 14));
    StepCommitteeValid(rs, 14, Ratification);
  }

  // ---------------------------------------------------------- honest keys

  /** A node's history on the tip: what was stored before, and its loop events. */
  datatype History = History(stored: (Hash, Byte), events: seq<LoopEvent>)

  function LoopOf(h: History): Loop {
    RunLoop(Fresh(h.stored), h.events)
  }

  /** The keys outside `faulty` sign ratification votes of this round only through
      their round loop, in which the iterations on this tip are contiguous. */
  ghost predicate HonestKeys(tip: Hash, round: U64, faulty: set<PublicKey>,
                             signed: (PublicKey, Bytes) -> bool, history: PublicKey -> History)
  {
    forall k | k !in faulty ::
      Contiguous(LoopOf(history(k)).executed, tip)
      && forall it: Byte, vote: Vote | signed(k, Signable(ConsensusHeader(tip, round, it), Ratification, vote)) ::
           Ballot(tip, it, vote) in LoopOf(history(k)).signed
  }

  /** Running the loop is voting once. */
  lemma HonestKeysVoteOnce(tip: Hash, round: U64, faulty: set<PublicKey>, signed: (PublicKey, Bytes) -> bool,
                           history: PublicKey -> History, c: Committee, it: Byte)
    requires HonestKeys(tip, round, faulty, signed, history) && it < EMERGENCY_MODE_ITERATION_THRESHOLD
    ensures HonestVoteOnce(c, faulty, signed, ConsensusHeader(tip, round, it), Ratification)
  {
    hide Signable, RunLoop;
    var header := ConsensusHeader(tip, round, it);
    forall k, u, v | k in c.members && k !in faulty
                     && signed(k, Signable(header, Ratification, u))
                     && signed(k, Signable(header, Ratification, v))
      ensures u == v
    {
      OneBallotPerIteration(history(k).stored, history(k).events, tip, Ballot(tip, it, u), Ballot(tip, it, v));
    }
  }

  // ------------------------------------------------------------ agreement

  /** Any two nodes, whatever votes and Quorums each has seen in whatever order:
      the Success quorums they send for one normal iteration are for one block, as
      long as at most 21 of the 64 credits sortition gave are faulty and no request
      made a committee of theirs clash. */
  lemma NetworkAgreement(bls: Bls, signed: (PublicKey, Bytes) -> bool, tip: Hash, rs: RoundSeed,
                         faulty: set<PublicKey>, history: PublicKey -> History,
                         p1: Peer, q1: Quorum, p2: Peer, q2: Quorum)
    requires Playable(rs) && bls.Aggregates() && bls.Unforgeable(signed)
    requires HonestKeys(tip, rs.round, faulty, signed, history)
    requires NoClashes(rs, map[], p1.requests) && NoClashes(rs, map[], p2.requests)
    requires Sends(bls, tip, rs, p1, q1) && Sends(bls, tip, rs, p2, q2)
    requires q1.header.iteration == q2.header.iteration < EMERGENCY_MODE_ITERATION_THRESHOLD
    requires q1.att.result.vote.Valid? && q2.att.result.vote.Valid?
    requires Total(Restrict(rs.StepCommittee(q1.header.iteration, Ratification).members, faulty)) <= 21
    ensures q1.att.result == q2.att.result
  {
    hide Emits, Sends, VerifyVotes, HonestKeys, HonestVoteOnce, Total, RoundSeed.StepCommittee, NoClashes,
      RoundSeed.Eligible, Bls.Aggregates, Bls.Unforgeable;
    var it := q1.header.iteration;
    var c, header := rs.StepCommittee(it, Ratification), ConsensusHeader(tip, rs.round, it);
    NormalIsEmitted(bls, tip, rs, p1, q1);
    NormalIsEmitted(bls, tip, rs, p2, q2);
    EmittedVerifiesFromScratch(bls, tip, rs, p1, q1);
    EmittedVerifiesFromScratch(bls, tip, rs, p2, q2);
    StepCommitteeValid(rs, it, Ratification);
    HonestKeysVoteOnce(tip, rs.round, faulty, signed, history, c, it);
    PerIterationAgreement(bls, signed, header, c, faulty,
                          q1.att.result.vote.hash, q1.att.ratification,
                          q2.att.result.vote.hash, q2.att.ratification);
  }
}
