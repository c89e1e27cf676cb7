/** When a node must emit a Quorum: from any local result of an emergency iteration,
    and for any vote of a normal one. */
module Emission {
  import opened Config
  import opened Messages
  import opened Collections
  import opened Committees
  import opened Verifiers
  import opened Aggregation
  import opened Tallies
  import opened Registry
  import opened Handlers
  import opened RoundRun
  import opened Liveness

  // ----------------------------------------------------- what is accepted

  /** The validation votes in a message pass for its vote. */
  predicate Supported(rd: Round, rv: RatificationVote) {
    VerifyVotes(rd.bls, rv.sv.header, Validation, rv.sv.vote, rv.result.sv,
                ValCommittee(rd, rv.sv.header.iteration)).Ok?
  }

  /** A message gets as far as the aggregator exactly when it is of the handler's
      iteration, its vote is that of the validation result it carries, and that vote
      is NoQuorum, is the local one, or is supported by the votes it carries while
      the local result is NoQuorum or the iteration an emergency one. */
  predicate Heard(rd: Round, n: Node, rv: RatificationVote) {
    var vote, local := rv.sv.vote, n.result.vote;
    && rv.sv.header.iteration == n.ratIter && rv.result.vote == vote
    && (vote.NoQuorum? || vote == local
        || ((local.NoQuorum? || rv.sv.header.iteration >= 16) && Supported(rd, rv)))
  }

  /** What is heard is tallied, and becomes the local result unless it is NoQuorum or
      agrees with it; what is not heard changes nothing. */
  lemma RatificationIsHeard(rd: Round, n: Node, rv: RatificationVote)
    requires rd.Valid() && Present(rd, n, rv.sv, Ratification)
    ensures var n' := OnRatification(rd, n, rv);
            if Heard(rd, n, rv) then
              && n'.rat == OneVote(rd, n.rat, rv.sv)
              && n'.result == if rv.sv.vote.NoQuorum? || rv.sv.vote == n.result.vote then n.result else rv.result
            else n' == n
  {
    hide Collect, ToStep, RecordVotes, VerifyVotes;
  }

  /** A message that is not heard is refused for the first reason that applies. */
  lemma RefusalIsNamed(rd: Round, n: Node, rv: RatificationVote, generator: PublicKey)
    requires rd.Valid() && !Heard(rd, n, rv)
    ensures var it, vote := rv.sv.header.iteration, rv.sv.vote;
            var (rat, result, reg, outcome) := RatificationCollect(
              rd.bls, n.rat, n.result, n.ratIter, n.reg, rd.Header(it), rd.committee(rv.sv.Step()),
              ValCommittee(rd, it), rv, generator);
            && rat == n.rat && result == n.result && reg == n.reg && outcome.Failed?
            && (outcome.error.InvalidMsgIteration? <==> it != n.ratIter)
            && (outcome.error == VoteMismatch(rv.result.vote, vote) <==> it == n.ratIter && rv.result.vote != vote)
            && (outcome.error == VoteMismatch(n.result.vote, vote) && rv.result.vote == vote <==>
                  it == n.ratIter && rv.result.vote == vote && !n.result.vote.NoQuorum? && it < 16)
            && (outcome.error.InvalidVoteSet? <==>
                  it == n.ratIter && rv.result.vote == vote && (n.result.vote.NoQuorum? || it >= 16))
  {
    hide Record, ToStep, VerifyVotes;
  }

  /** A validation vote gets as far as the aggregator exactly when it is not NoQuorum
      and of the handler's iteration; otherwise nothing changes. A past vote need
      not be of that iteration. */
  lemma ValidationIsHeard(bls: Bls, a: Votes, curr: Byte, reg: Attestations, c: Committee, v: StepVote,
                          generator: PublicKey)
    requires c.Valid()
    ensures var (a1, reg1, now) := ValidationCollect(bls, a, curr, reg, c, v, generator);
            var (a2, reg2, past) := ValidationPast(bls, a, reg, c, v, generator);
            && (if v.vote.NoQuorum? || v.header.iteration != curr
                then a1 == a && reg1 == reg && now.Failed? else a1 == Collect(bls, a, c, v).0)
            && (if v.vote.NoQuorum? then a2 == a && reg2 == reg && past.Failed? else a2 == Collect(bls, a, c, v).0)
            && (now.Failed? && now.error.InvalidMsgIteration? <==> !v.vote.NoQuorum? && v.header.iteration != curr)
  {
    hide Collect, RecordVotes;
  }

  /** The kind of quorum a vote makes. */
  predicate OfKind(quorum: QuorumType, vote: Vote) {
    (quorum.ValidQuorum? <==> vote.Valid?) && (quorum.InvalidQuorum? <==> vote.Invalid?)
    && (quorum.NoCandidateQuorum? <==> vote.NoCandidate?) && (quorum.NoQuorumType? <==> vote.NoQuorum?)
  }

  /** The voter joins the tally of its vote, which then weighs what the vote needs. */
  ghost predicate Completes(rd: Round, a: Votes, a': Votes, v: StepVote) {
    var t, t' := a.At(v.Step(), v.vote), a'.At(v.Step(), v.vote);
    && v.signer !in t.voters && v.signer in t'.voters
    && Total(t'.voters) >= Needed(v.vote, Total(rd.committee(v.Step()).members))
  }

  /** A validation result comes out exactly when a vote completes its tally; it is of
      that vote and its kind, and its votes pass. Of a past step only a Valid one does. */
  lemma ResultComesOut(rd: Round, a: Votes, reg: Attestations, v: StepVote, generator: PublicKey)
    requires rd.Valid() && Sound(rd, Validation, a) && rd.Admits(v) && v.step == Validation && !v.vote.NoQuorum?
    ensures var c := rd.committee(v.Step());
            var (a1, _, now) := ValidationCollect(rd.bls, a, v.header.iteration, reg, c, v, generator);
            var (a2, _, past) := ValidationPast(rd.bls, a, reg, c, v, generator);
            && (now.Ready? <==> Completes(rd, a, a1, v))
            && (past.Ready? <==> v.vote.Valid? && Completes(rd, a, a2, v))
            && (now.Ready? ==> ResultOfVote(rd, v, now.value)) && (past.Ready? ==> ResultOfVote(rd, v, past.value))
  {
    hide Collect, ToStep, Total, TallyVotes, VerifyVotes, Intersect, Sound, RecordVotes, AddSignature;
    var c := rd.committee(v.Step());
    var (a', r) := Collect(rd.bls, a, c, v);
    CollectEffect(rd.bls, a, c, v);
    if r.Ok? && !Skipped(v) {
      ReportedIffEnough(rd, a, v);
    }
  }

  ghost predicate ResultOfVote(rd: Round, v: StepVote, r: ValidationResult) {
    r.vote == v.vote && OfKind(r.quorum, v.vote)
    && VerifyVotes(rd.bls, v.header, Validation, v.vote, r.sv, rd.committee(v.Step())).Ok?
  }

  // ------------------------------------------------------------ one ballot

  /** The node has emitted a Quorum for the vote at its iteration. */
  ghost predicate HasQuorumFor(rd: Round, n: Node, vote: Vote) {
    exists q | q in n.emitted :: q.header == rd.Header(n.cur) && q.att.result == ResultOf(vote)
  }

  /** The Ratification step of an open iteration, in which the vote can win: any
      Valid vote in an emergency one; in a normal one a NoQuorum, or what the local
      result says, or anything as long as that is NoQuorum. */
  predicate Collecting(n: Node, vote: Vote) {
    && !n.closed && n.ratIter == n.cur
    && if n.cur >= 16 then vote.Valid?
       else vote.NoQuorum? || n.result.vote.NoQuorum? || n.result.vote == vote
  }

  /** A ballot of `k` for the vote, with validation votes that pass. */
  predicate Ballots(rd: Round, rv: RatificationVote, it: Byte, k: PublicKey, vote: Vote) {
    && IsVoteOf(rd, Ratification, rv.sv, it, k) && Usable(rd, rv.sv, vote)
    && rv.result.vote == vote && (vote.NoQuorum? || Supported(rd, rv))
  }

  /** A message whose validation votes pass for another vote: in a normal iteration
      the first of them would take the local result away. */
  predicate Rival(rd: Round, rv: RatificationVote, it: Byte, vote: Vote) {
    && rv.sv.header.iteration == it < 16 && !vote.NoQuorum? && rv.result.vote == rv.sv.vote
    && rv.sv.vote != vote && !rv.sv.vote.NoQuorum? && Supported(rd, rv)
  }

  lemma OneBallot(rd: Round, n: Node, rv: RatificationVote, vote: Vote)
    requires rd.Valid() && Collecting(n, vote) && !Rival(rd, rv, n.cur, vote)
    ensures var n' := Next(rd, n, RatificationMsg(rv));
            && Collecting(n', vote) && n'.cur == n.cur
            && (n'.rat == n.rat || (rd.Admits(rv.sv) && rv.sv.step == Ratification
                                    && rv.sv.header.iteration == n.cur && n'.rat == OneVote(rd, n.rat, rv.sv)))
            && (forall k :: Ballots(rd, rv, n.cur, k, vote) ==> n'.rat == OneVote(rd, n.rat, rv.sv))
  {
    hide Collect, ToStep, RecordVotes, Supported, OnRatification;
    if Present(rd, n, rv.sv, Ratification) {
      RatificationIsHeard(rd, n, rv);
      RatificationFrame(rd, n, rv);
    }
  }

  lemma RatificationFrame(rd: Round, n: Node, rv: RatificationVote)
    requires rd.Valid()
    ensures var n' := OnRatification(rd, n, rv);
            n'.cur == n.cur && n'.closed == n.closed && n'.ratIter == n.ratIter && n.emitted <= n'.emitted
  {
    hide Record, MatchResult;
  }

  lemma Grown(rd: Round, n: Node, n': Node, vote: Vote)
    requires n.emitted <= n'.emitted && n'.cur == n.cur && HasQuorumFor(rd, n, vote)
    ensures HasQuorumFor(rd, n', vote)
  {
    var q :| q in n.emitted && q.header == rd.Header(n.cur) && q.att.result == ResultOf(vote);
    assert q in n'.emitted;
  }

  /** A present message that completes the quorum of its vote is answered by it. */
  lemma CompletedIsEmitted(rd: Round, n: Node, rv: RatificationVote, vote: Vote)
    requires rd.Valid() && Present(rd, n, rv.sv, Ratification)
    ensures var n' := OnRatification(rd, n, rv);
            RatReached(rd, n', vote) ==> RatReached(rd, n, vote) || HasQuorumFor(rd, n', vote)
  {
    hide Collect, ToStep, Reached, TallyVotes, RecordVotes, VerifyVotes, Total, MatchResult;
    var n' := OnRatification(rd, n, rv);
    CollectEffect(rd.bls, n.rat, rd.committee(rv.sv.Step()), rv.sv);
    if |n'.emitted| > |n.emitted| {
      assert n'.emitted[|n.emitted|] in n'.emitted;
    }
  }

  /** The vote that completes a quorum makes the node emit it. */
  lemma BallotEmits(rd: Round, n: Node, rv: RatificationVote, vote: Vote)
    requires rd.Valid() && Collecting(n, vote)
    ensures var n' := Next(rd, n, RatificationMsg(rv));
            && (HasQuorumFor(rd, n, vote) ==> HasQuorumFor(rd, n', vote))
            && (RatReached(rd, n', vote) ==> RatReached(rd, n, vote) || HasQuorumFor(rd, n', vote))
  {
    hide OnRatification, RatReached, HasQuorumFor, Present, Collecting;
    if Present(rd, n, rv.sv, Ratification) {
      RatificationFrame(rd, n, rv);
      CompletedIsEmitted(rd, n, rv, vote);
      if HasQuorumFor(rd, n, vote) { Grown(rd, n, OnRatification(rd, n, rv), vote); }
    }
  }

  // --------------------------------------------------------- many ballots

  /** The messages of a member can only help: in a normal iteration all of them are
      ballots for the vote, and it has voted for nothing else. */
  ghost predicate Loyal(rd: Round, n: Node, msgs: seq<RatificationVote>, k: PublicKey, vote: Vote) {
    n.cur < 16 ==>
      && (k in RatTally(n, vote).voters || k !in n.rat.Voted(ToStep(Ratification, n.cur)))
      && forall rv | rv in msgs && IsVoteOf(rd, Ratification, rv.sv, n.cur, k) :: Ballots(rd, rv, n.cur, k, vote)
  }

  lemma BallotCounts(rd: Round, n: Node, msgs: seq<RatificationVote>, vote: Vote, k: PublicKey)
    requires rd.Valid() && Collecting(n, vote) && Sound(rd, Ratification, n.rat) && msgs != []
    requires !Rival(rd, msgs[0], n.cur, vote) && k in RatCommittee(rd, n.cur).members && Loyal(rd, n, msgs, k, vote)
    ensures var n' := Next(rd, n, RatificationMsg(msgs[0]));
            && Sound(rd, Ratification, n'.rat) && Loyal(rd, n', msgs[1..], k, vote)
            && (k in RatTally(n, vote).voters || Ballots(rd, msgs[0], n.cur, k, vote) ==> k in RatTally(n', vote).voters)
  {
    hide Sound, Collect, ToStep, Next, Ballots, Rival, OneVote, IsVoteOf;
    var rv := msgs[0];
    var n' := Next(rd, n, RatificationMsg(rv));
    OneBallot(rd, n, rv, vote);
    assert rv in msgs;
    assert forall x | x in msgs[1..] :: x in msgs;
    if n'.rat != n.rat {
      OneVoteSound(rd, n.rat, rv.sv);
      BallotIs(rd, rv, n.cur, k, vote);
      if n.cur < 16 {
        NormalVote(rd, Ratification, n.rat, rv.sv, n.cur, vote, k);
      } else {
        EmergencyVote(rd, Ratification, n.rat, rv.sv, n.cur, vote, k);
      }
    } else if Ballots(rd, rv, n.cur, k, vote) {
      BallotIs(rd, rv, n.cur, k, vote);
      if n.cur < 16 {
        NormalVote(rd, Ratification, n.rat, rv.sv, n.cur, vote, k);
      } else {
        EmergencyVote(rd, Ratification, n.rat, rv.sv, n.cur, vote, k);
      }
    }
  }

  lemma OneVoteSound(rd: Round, a: Votes, v: StepVote)
    requires rd.Valid() && rd.Admits(v) && v.step == Ratification && Sound(rd, Ratification, a)
    ensures Sound(rd, Ratification, OneVote(rd, a, v))
  {
    hide Sound, Collect;
    CollectSound(rd, a, v);
  }

  lemma BallotIs(rd: Round, rv: RatificationVote, it: Byte, k: PublicKey, vote: Vote)
    ensures Ballots(rd, rv, it, k, vote) ==>
              && IsVoteOf(rd, Ratification, rv.sv, it, k) && Usable(rd, rv.sv, vote)
              && rd.Admits(rv.sv) && rv.sv.step == Ratification
  {
  }

  ghost predicate NoRivals(rd: Round, msgs: seq<RatificationVote>, it: Byte, vote: Vote) {
    forall rv | rv in msgs :: !Rival(rd, rv, it, vote)
  }

  lemma {:induction false} AllBallots(rd: Round, n: Node, msgs: seq<RatificationVote>, vote: Vote)
    requires rd.Valid() && Collecting(n, vote) && NoRivals(rd, msgs, n.cur, vote)
    requires RatReached(rd, n, vote) ==> HasQuorumFor(rd, n, vote)
    ensures var n' := Run(rd, n, Ratifications(msgs));
            n'.cur == n.cur && (RatReached(rd, n', vote) ==> HasQuorumFor(rd, n', vote))
    decreases |msgs|
  {
    hide Next, RatReached, HasQuorumFor, Collecting, Rival;
    if msgs != [] {
      assert msgs[0] in msgs;
      assert forall x | x in msgs[1..] :: x in msgs;
      OneBallot(rd, n, msgs[0], vote);
      BallotEmits(rd, n, msgs[0], vote);
      RunFirst(rd, n, RatificationMsg(msgs[0]), Ratifications(msgs[1..]));
      AllBallots(rd, Next(rd, n, RatificationMsg(msgs[0])), msgs[1..], vote);
    }
  }

  lemma {:induction false} BallotOf(rd: Round, n: Node, msgs: seq<RatificationVote>, vote: Vote, k: PublicKey)
    requires rd.Valid() && Collecting(n, vote) && NoRivals(rd, msgs, n.cur, vote) && Sound(rd, Ratification, n.rat)
    requires k in RatCommittee(rd, n.cur).members && Loyal(rd, n, msgs, k, vote)
    ensures var n' := Run(rd, n, Ratifications(msgs));
            && n'.cur == n.cur && Sound(rd, Ratification, n'.rat)
            && (k in RatTally(n, vote).voters || (exists rv :: rv in msgs && Ballots(rd, rv, n.cur, k, vote)) ==>
                  k in RatTally(n', vote).voters)
    decreases |msgs|
  {
    hide Next, Collecting, Rival, Ballots, Loyal, Sound, ToStep;
    if msgs != [] {
      assert msgs[0] in msgs;
      assert forall x :: x in msgs <==> x == msgs[0] || x in msgs[1..];
      OneBallot(rd, n, msgs[0], vote);
      BallotCounts(rd, n, msgs, vote, k);
      RunFirst(rd, n, RatificationMsg(msgs[0]), Ratifications(msgs[1..]));
      BallotOf(rd, Next(rd, n, RatificationMsg(msgs[0])), msgs[1..], vote, k);
    }
  }

  /** Ballots that weigh what the vote needs of the committee's credits make the node
      emit its Quorum, in any order and whatever else is sent to it. */
  lemma QuorumFollows(rd: Round, n: Node, msgs: seq<RatificationVote>, vote: Vote, backers: set<PublicKey>)
    requires rd.Valid() && Sound(rd, Ratification, n.rat) && Collecting(n, vote) && NoRivals(rd, msgs, n.cur, vote)
    requires RatReached(rd, n, vote) ==> HasQuorumFor(rd, n, vote)
    requires forall k | k in backers ::
               Loyal(rd, n, msgs, k, vote) && exists rv :: rv in msgs && Ballots(rd, rv, n.cur, k, vote)
    requires var c := RatCommittee(rd, n.cur);
             Total(Restrict(c.members, backers)) >= Needed(vote, Total(c.members))
    ensures HasQuorumFor(rd, Run(rd, n, Ratifications(msgs)), vote)
  {
    hide Total, ToStep, Run, Ratifications, Ballots, Loyal, Collecting, NoRivals, HasQuorumFor;
    AllBallots(rd, n, msgs, vote);
    var n', c := Run(rd, n, Ratifications(msgs)), RatCommittee(rd, n.cur);
    var t := RatTally(n', vote);
    forall k | k in Restrict(c.members, backers) ensures k in t.voters {
      BallotOf(rd, n, msgs, vote, k);
    }
    assert exists k :: k in Restrict(c.members, backers) by { SomeWeight(c, backers, vote); }
    var k :| k in Restrict(c.members, backers);
    BallotOf(rd, n, msgs, vote, k);
    assert TallySound(rd, Ratification, n.cur, vote, t);
    SubmapTotal(Restrict(c.members, backers), t.voters);
  }

  lemma SomeWeight(c: Committee, backers: set<PublicKey>, vote: Vote)
    requires c.Valid() && Total(Restrict(c.members, backers)) >= Needed(vote, Total(c.members))
    ensures exists k :: k in Restrict(c.members, backers)
  {
    hide Total;
    if forall k :: k !in Restrict(c.members, backers) {
      assert Restrict(c.members, backers) == map[];
      assert Total(map[]) == 0 by { EmptyTotal(); }
    }
  }

  /** The Quorum for the vote that the node has emitted passes verification. */
  ghost predicate HasSoundQuorum(rd: Round, n: Node, vote: Vote) {
    exists q | q in n.emitted ::
      q.header == rd.Header(n.cur) && q.att.result == ResultOf(vote) && EmittedSound(rd, q)
  }

  lemma QuorumIsSound(rd: Round, n: Node, msgs: seq<RatificationVote>, vote: Vote)
    requires rd.Valid() && Inv(rd, n) && HasQuorumFor(rd, Run(rd, n, Ratifications(msgs)), vote)
    ensures HasSoundQuorum(rd, Run(rd, n, Ratifications(msgs)), vote)
  {
    hide Run, Ratifications, Sound, RegistrySound, NoQuorumUntallied, RelayedSound, EmittedSound;
    var n' := Run(rd, n, Ratifications(msgs));
    RunKeepsInv(rd, n, Ratifications(msgs));
    var q :| q in n'.emitted && q.header == rd.Header(n'.cur) && q.att.result == ResultOf(vote);
    assert EmittedSound(rd, q);
  }

  /** In an emergency iteration, from any local result: members with a supermajority
      of the credits that ratify `hash` with validation votes that pass make the node
      emit its Success quorum, whatever else they or others send. */
  lemma EmergencyQuorumIsEmitted(rd: Round, n: Node, msgs: seq<RatificationVote>, hash: Hash,
                                 backers: set<PublicKey>)
    requires rd.Valid() && Inv(rd, n) && n.cur >= 16 && !n.closed && n.ratIter == n.cur
    requires RatReached(rd, n, Valid(hash)) ==> HasQuorumFor(rd, n, Valid(hash))
    requires forall k | k in backers :: exists rv :: rv in msgs && Ballots(rd, rv, n.cur, k, Valid(hash))
    requires var c := RatCommittee(rd, n.cur);
             Total(Restrict(c.members, backers)) >= Supermajority(Total(c.members))
    ensures HasSoundQuorum(rd, Run(rd, n, Ratifications(msgs)), Valid(hash))
  {
    hide Total, ToStep, Run, Ratifications, Ballots, HasQuorumFor, RegistrySound, Sound, NoQuorumUntallied, RatReached;
    QuorumFollows(rd, n, msgs, Valid(hash), backers);
    QuorumIsSound(rd, n, msgs, Valid(hash));
  }

  /** In a normal iteration, while the local result is NoQuorum: members that weigh
      what the vote needs, vote for nothing else, and carry validation votes that pass
      make the node emit its Quorum, as long as no message carries votes that pass for
      another one. For a NoQuorum vote no such condition is left. */
  lemma NormalQuorumIsEmitted(rd: Round, n: Node, msgs: seq<RatificationVote>, vote: Vote,
                              backers: set<PublicKey>)
    requires rd.Valid() && Inv(rd, n) && n.cur < 16 && !n.closed && n.ratIter == n.cur
    requires vote.NoQuorum? || (n.result.vote.NoQuorum? && NoRivals(rd, msgs, n.cur, vote))
    requires Untouched(n, Ratification)
    requires forall k | k in backers ::
               && (exists rv :: rv in msgs && Ballots(rd, rv, n.cur, k, vote))
               && forall rv | rv in msgs && IsVoteOf(rd, Ratification, rv.sv, n.cur, k) ::
                    Ballots(rd, rv, n.cur, k, vote)
    requires var c := RatCommittee(rd, n.cur);
             Total(Restrict(c.members, backers)) >= Needed(vote, Total(c.members))
    ensures HasSoundQuorum(rd, Run(rd, n, Ratifications(msgs)), vote)
  {
    hide Total, ToStep, Run, Ratifications, Ballots, HasQuorumFor, RegistrySound, NoQuorumUntallied;
    assert TallyUnique(n.rat, Ratification, n.cur, vote);
    NothingReached(RatCommittee(rd, n.cur), vote, RatTally(n, vote));
    QuorumFollows(rd, n, msgs, vote, backers);
    QuorumIsSound(rd, n, msgs, vote);
  }
}
