/** Vote aggregation: one tally per step and vote, one vote per voter and step in
    normal iterations, several Valid votes in emergency ones. */
module Aggregation {
  import opened Config
  import opened Messages
  import opened Collections
  import opened Committees
  import opened Wire
  import opened Verifiers

  /** A Validation or Ratification vote, as the aggregator sees it. */
  datatype StepVote = StepVote(
    step: StepName, header: ConsensusHeader, vote: Vote, signer: PublicKey, signature: Signature)
  {
    function Step(): nat { ToStep(step, header.iteration) }
  }

  datatype AggregatorError =
    | DuplicatedVote | ConflictingVote(previous: StepVote) | NotCommitteeMember | InvalidSignature

  datatype Tally = Tally(signature: Option<Signature>, voters: Cluster)

  const EMPTY_TALLY := Tally(None, map[])

  datatype Votes = Votes(
    votes: map<(nat, Vote), Tally>, uniqueness: map<nat, map<PublicKey, StepVote>>)
  {
    function At(step: nat, vote: Vote): Tally {
      if (step, vote) in votes then votes[(step, vote)] else EMPTY_TALLY
    }

    function Voted(step: nat): map<PublicKey, StepVote> {
      if step in uniqueness then uniqueness[step] else map[]
    }
  }

  type Collected = Result<(StepVotes, bool), AggregatorError>

  /** `AggrSignature::add` */
  function AddSignature(bls: Bls, s: Option<Signature>, t: Signature): Option<Signature> {
    if !bls.parses(t) then None else if s.Some? then Some(bls.aggregate(s.value, t)) else Some(t)
  }

  /** The votes of a tally in the form they are published. */
  function TallyVotes(c: Committee, t: Tally): StepVotes
    requires |c.members| <= 64
  {
    BitsFit(c, t.voters);
    if t.signature.Some? then StepVotes(Bits(c, t.voters), t.signature.value) else DEFAULT_STEP_VOTES
  }

  predicate Reached(c: Committee, vote: Vote, t: Tally) {
    Total(t.voters) >= c.Target(vote)
  }

  /** What `collect_vote` does to the tallies, and what it returns. */
  function Collect(bls: Bls, a: Votes, c: Committee, v: StepVote): (r: (Votes, Collected))
    requires c.Valid()
  {
    if IsEmergencyIter(v.header.iteration) && !v.vote.Valid? then
      (a, Ok((DEFAULT_STEP_VOTES, false)))
    else if v.signer !in c.members then (a, Err(NotCommitteeMember))
    else
      var tally := a.At(v.Step(), v.vote);
      var votes := a.votes[(v.Step(), v.vote) := tally];
      var voted := a.Voted(v.Step());
      if v.signer in tally.voters then (Votes(votes, a.uniqueness), Err(DuplicatedVote))
      else if IsEmergencyIter(v.header.iteration) then
        Tallied(bls, Votes(votes, a.uniqueness), c, v)
      else if v.signer in voted then
        (Votes(votes, a.uniqueness[v.Step() := voted]), Err(ConflictingVote(voted[v.signer])))
      else
        Tallied(bls, Votes(votes, a.uniqueness[v.Step() := voted[v.signer := v]]), c, v)
  }

  /** The signature is added last; the voter is noted even when that fails. */
  function Tallied(bls: Bls, a: Votes, c: Committee, v: StepVote): (r: (Votes, Collected))
    requires c.Valid() && v.signer in c.members
  {
    var tally := a.At(v.Step(), v.vote);
    var signature := AddSignature(bls, tally.signature, v.signature);
    if signature.None? then (a, Err(InvalidSignature))
    else
      var added := Tally(signature, tally.voters[v.signer := c.members[v.signer]]);
      (Votes(a.votes[(v.Step(), v.vote) := added], a.uniqueness),
       Ok((TallyVotes(c, added), Reached(c, v.vote, added))))
  }

  /** `Aggregator`: the tallies as fields that `collect_vote` updates. */
  class Aggregator {
    var votes: map<(nat, Vote), Tally>
    var uniqueness: map<nat, map<PublicKey, StepVote>>

    ghost function Model(): Votes
      reads this
    {
      Votes(votes, uniqueness)
    }

    constructor ()
      ensures Model() == Votes(map[], map[])
    {
      votes, uniqueness := map[], map[];
    }

    method CollectVote(bls: Bls, committee: Committee, v: StepVote) returns (r: Collected)
      requires committee.Valid()
      modifies this
      ensures (Model(), r) == Collect(bls, old(Model()), committee, v)
    {
      hide Tallied, Total, ToStep, SortedKeys;
      var emergency := IsEmergencyIter(v.header.iteration);
      if emergency && !v.vote.Valid? {
        return Ok((DEFAULT_STEP_VOTES, false));
      }
      var weight := committee.VotesFor(v.signer);
      if weight.None? {
        return Err(NotCommitteeMember);
      }
      var step := v.Step();
      var key := (step, v.vote);
      if key !in votes {
        votes := votes[key := EMPTY_TALLY];
      }
      var tally := votes[key];
      assert votes == old(votes)[key := tally];
      if v.signer in tally.voters {
        return Err(DuplicatedVote);
      }
      if !emergency {
        if step !in uniqueness {
          uniqueness := uniqueness[step := map[]];
        }
        assert uniqueness == old(uniqueness)[step := uniqueness[step]];
        if v.signer in uniqueness[step] {
          return Err(ConflictingVote(uniqueness[step][v.signer]));
        }
        var voted: map<PublicKey, StepVote> := uniqueness[step];
        voted := voted[v.signer := v];
        uniqueness := uniqueness[step := voted];
        assert uniqueness == old(uniqueness)[step := voted];
      }
      r := AddToTally(bls, committee, v, weight.value);
    }

    /** The fallible end of `collect_vote`: the signature, then the voter. */
    method AddToTally(bls: Bls, committee: Committee, v: StepVote, weight: nat) returns (r: Collected)
      requires committee.Valid() && committee.VotesFor(v.signer) == Some(weight)
      requires (v.Step(), v.vote) in votes
      modifies this`votes
      ensures (Model(), r) == Tallied(bls, old(Model()), committee, v)
    {
      hide Bits, Total, ToStep, SortedKeys;
      var key := (v.Step(), v.vote);
      var tally := votes[key];
      var signature := AddSignature(bls, tally.signature, v.signature);
      if signature.None? {
        return Err(InvalidSignature);
      }
      tally := Tally(signature, tally.voters[v.signer := weight]);
      votes := votes[key := tally];
      var total := Total(tally.voters);
      var bitset := BitsLoop(committee, tally.voters);
      BitsFit(committee, tally.voters);
      var target := if v.vote.Valid? then committee.superMajority else committee.majority;
      return Ok((StepVotes(bitset, signature.value), total >= target));
    }
  }

  // ------------------------------------------------------------ the round

  /** What is fixed for one node during one round: the signature scheme, the tip,
      the round number, the committee of each step and the generators. */
  datatype Round = Round(bls: Bls, prevBlockHash: Hash, round: U64,
                         committee: nat -> Committee, generator: nat -> PublicKey)
  {
    ghost predicate Valid() {
      bls.Aggregates() && forall s :: committee(s).Valid()
    }

    function Header(iteration: Byte): ConsensusHeader {
      ConsensusHeader(prevBlockHash, round, iteration)
    }

    /** The vote belongs to this round, and its signature verifies. */
    predicate Admits(v: StepVote) {
      v.header == Header(v.header.iteration)
      && !v.step.Proposal?
      && bls.verify({v.signer}, Signable(v.header, v.step, v.vote), v.signature)
    }
  }

  /** A tally holds committee members with their credits, under an aggregate
      signature of all of them. */
  ghost predicate TallySound(rd: Round, name: StepName, it: Byte, vote: Vote, t: Tally)
    requires !name.Proposal?
  {
    Submap(t.voters, rd.committee(ToStep(name, it)).members)
    && (t.voters == map[] <==> t.signature.None?)
    && (t.signature.Some? ==>
          rd.bls.verify(t.voters.Keys, Signable(rd.Header(it), name, vote), t.signature.value))
  }

  /** In a normal iteration the voters of a tally are noted with that vote; in an
      emergency iteration only Valid votes are tallied. */
  ghost predicate TallyUnique(a: Votes, name: StepName, it: Byte, vote: Vote) {
    if IsEmergencyIter(it) then vote.Valid? || a.At(ToStep(name, it), vote) == EMPTY_TALLY
    else NotedWith(a.At(ToStep(name, it), vote).voters, a.Voted(ToStep(name, it)), vote)
  }

  ghost predicate NotedWith(voters: Cluster, voted: map<PublicKey, StepVote>, vote: Vote) {
    forall k | k in voters :: k in voted && voted[k].vote == vote
  }

  ghost predicate Sound(rd: Round, name: StepName, a: Votes)
    requires !name.Proposal?
  {
    forall it: Byte, vote: Vote ::
      TallySound(rd, name, it, vote, a.At(ToStep(name, it), vote)) && TallyUnique(a, name, it, vote)
  }

  lemma EmptySound(rd: Round, name: StepName)
    requires !name.Proposal?
    ensures Sound(rd, name, Votes(map[], map[]))
  {
  }

  // ------------------------------------------------- one collected vote

  /** Non-Valid votes of an emergency iteration leave no trace. */
  predicate Skipped(v: StepVote) {
    IsEmergencyIter(v.header.iteration) && !v.vote.Valid?
  }

  ghost predicate Noted(a: Votes, a': Votes, v: StepVote, added: bool) {
    (forall s: nat | s != v.Step() :: a'.Voted(s) == a.Voted(s))
    && (forall k | k in a.Voted(v.Step()) ::
          k in a'.Voted(v.Step()) && a'.Voted(v.Step())[k] == a.Voted(v.Step())[k])
    && (added && !IsEmergencyIter(v.header.iteration) ==>
          v.signer !in a.Voted(v.Step())
          && v.signer in a'.Voted(v.Step()) && a'.Voted(v.Step())[v.signer] == v)
  }

  ghost predicate Added(bls: Bls, c: Committee, t: Tally, t': Tally, v: StepVote) {
    v.signer in c.members && v.signer !in t.voters
    && t'.signature.Some? && t'.signature == AddSignature(bls, t.signature, v.signature)
    && t'.voters == t.voters[v.signer := c.members[v.signer]]
  }

  /** What changed between two tallies, given what the call returned. */
  ghost predicate Effect(bls: Bls, a: Votes, a': Votes, c: Committee, v: StepVote, r: Collected)
    requires c.Valid()
  {
    var t, t' := a.At(v.Step(), v.vote), a'.At(v.Step(), v.vote);
    && (forall s: nat, u: Vote | (s, u) != (v.Step(), v.vote) :: a'.At(s, u) == a.At(s, u))
    && if r.Ok? && !Skipped(v)
       then Added(bls, c, t, t', v) && r.value == (TallyVotes(c, t'), Reached(c, v.vote, t'))
       else t' == t
  }

  lemma TalliedEffect(bls: Bls, a: Votes, c: Committee, v: StepVote)
    requires c.Valid() && v.signer in c.members && !Skipped(v)
    requires v.signer !in a.At(v.Step(), v.vote).voters
    ensures var (a', r) := Tallied(bls, a, c, v);
            Effect(bls, a, a', c, v, r) && a'.uniqueness == a.uniqueness
  {
    hide Bits, Total, ToStep, TallyVotes, Reached, AddSignature;
    var (a', r) := Tallied(bls, a, c, v);
    forall s: nat, u: Vote | (s, u) != (v.Step(), v.vote) ensures a'.At(s, u) == a.At(s, u) {
    }
  }

  /** A call touches the tally of its own step and vote only, and that one only
      when it succeeds; what it returns is the tally in published form. A noted
      voter is never forgotten or overwritten. */
  lemma CollectEffect(bls: Bls, a: Votes, c: Committee, v: StepVote)
    requires c.Valid()
    ensures var (a', r) := Collect(bls, a, c, v);
            && Effect(bls, a, a', c, v, r)
            && Noted(a, a', v, r.Ok? && !Skipped(v))
            && (Skipped(v) ==> r == Ok((DEFAULT_STEP_VOTES, false)))
  {
    hide Tallied, ToStep, TallyVotes, Reached, Added;
    if !Skipped(v) && v.signer in c.members {
      var tally := a.At(v.Step(), v.vote);
      var votes := a.votes[(v.Step(), v.vote) := tally];
      var voted := a.Voted(v.Step());
      if v.signer !in tally.voters {
        if IsEmergencyIter(v.header.iteration) {
          TalliedEffect(bls, Votes(votes, a.uniqueness), c, v);
        } else if v.signer !in voted {
          TalliedEffect(bls, Votes(votes, a.uniqueness[v.Step() := voted[v.signer := v]]), c, v);
        }
      }
    }
  }

  lemma TallyStep(rd: Round, v: StepVote, t: Tally, t': Tally)
    requires rd.Valid() && rd.Admits(v)
    requires TallySound(rd, v.step, v.header.iteration, v.vote, t)
    requires Added(rd.bls, rd.committee(v.Step()), t, t', v)
    ensures TallySound(rd, v.step, v.header.iteration, v.vote, t')
  {
    hide Signable, ToStep;
    var msg := Signable(v.header, v.step, v.vote);
    assert t'.voters.Keys == t.voters.Keys + {v.signer};
    if t.signature.Some? {
      assert rd.bls.Extends(t.voters.Keys, v.signer, msg, t.signature.value, v.signature);
    } else {
      assert t'.voters.Keys == {v.signer};
    }
  }

  /** Every call keeps the tallies sound and unique. */
  lemma CollectSound(rd: Round, a: Votes, v: StepVote)
    requires rd.Valid() && rd.Admits(v) && Sound(rd, v.step, a)
    ensures Sound(rd, v.step, Collect(rd.bls, a, rd.committee(v.Step()), v).0)
  {
    hide Collect, Signable, ToStep, Total, TallyVotes, TallySound;
    var name := v.step;
    var c := rd.committee(v.Step());
    var (a', r) := Collect(rd.bls, a, c, v);
    CollectEffect(rd.bls, a, c, v);
    forall it: Byte, vote: Vote
      ensures TallySound(rd, name, it, vote, a'.At(ToStep(name, it), vote))
      ensures TallyUnique(a', name, it, vote)
    {
      assert TallySound(rd, name, it, vote, a.At(ToStep(name, it), vote));
      assert TallyUnique(a, name, it, vote);
      SameStep(name, it, v.header.iteration);
      if ToStep(name, it) == v.Step() {
        if vote == v.vote && r.Ok? && !Skipped(v) {
          TallyStep(rd, v, a.At(v.Step(), v.vote), a'.At(v.Step(), v.vote));
        }
      }
    }
  }

  // ------------------------------------------------ quorums of one step

  lemma ThresholdsOverlap(n: nat)
    requires n >= 1
    ensures 2 * Majority(n) > n && Majority(n) + Supermajority(n) > n && 2 * Supermajority(n) > n
  {
  }

  lemma NothingReached(c: Committee, vote: Vote, t: Tally)
    requires c.Valid() && t.voters == map[]
    ensures !Reached(c, vote, t)
  {
    EmptyTotal();
  }

  /** In a normal iteration no voter is tallied under two votes, so no two votes
      of one step ever both reach their target. */
  lemma AtMostOneQuorum(rd: Round, name: StepName, a: Votes, it: Byte, v1: Vote, v2: Vote)
    requires rd.Valid() && !name.Proposal? && Sound(rd, name, a)
    requires it < EMERGENCY_MODE_ITERATION_THRESHOLD && v1 != v2
    ensures var s := ToStep(name, it);
            && a.At(s, v1).voters.Keys !! a.At(s, v2).voters.Keys
            && !(Reached(rd.committee(s), v1, a.At(s, v1)) && Reached(rd.committee(s), v2, a.At(s, v2)))
  {
    hide Total, ToStep, Signable;
    var s := ToStep(name, it);
    var c := rd.committee(s);
    var a1, a2 := a.At(s, v1).voters, a.At(s, v2).voters;
    assert TallySound(rd, name, it, v1, a.At(s, v1)) && TallyUnique(a, name, it, v1);
    assert TallySound(rd, name, it, v2, a.At(s, v2)) && TallyUnique(a, name, it, v2);
    assert a1.Keys !! a2.Keys;
    Overlap(a1, a2, c.members);
    assert Restrict(c.members, a1.Keys * a2.Keys) == map[];
    assert Total(map[]) == 0 by { EmptyTotal(); }
    ThresholdsOverlap(Total(c.members));
  }

  /** The verifier decodes a published tally to exactly its voters and weights,
      and accepts it if and only if the aggregator reports a quorum. */
  lemma AggregatorMeetsVerifier(rd: Round, name: StepName, a: Votes, it: Byte, vote: Vote)
    requires rd.Valid() && !name.Proposal? && Sound(rd, name, a)
    requires a.At(ToStep(name, it), vote).voters != map[]
    ensures var c := rd.committee(ToStep(name, it));
            var t := a.At(ToStep(name, it), vote);
            var sv := TallyVotes(c, t);
            var checked := VerifyVotes(rd.bls, rd.Header(it), name, vote, sv, c);
            && sv != DEFAULT_STEP_VOTES
            && Intersect(c, sv.bitset) == t.voters
            && (Reached(c, vote, t) ==>
                  checked == Ok((QuorumResult(Total(t.voters), c.Target(vote)), t.voters)))
            && (!Reached(c, vote, t) && !(name.Validation? && vote.NoQuorum?) ==>
                  checked == Err(VoteSetTooSmall))
  {
    hide Total, ToStep, Signable, SortedKeys, Bits, Intersect;
    var c := rd.committee(ToStep(name, it));
    var t := a.At(ToStep(name, it), vote);
    assert TallySound(rd, name, it, vote, t);
    IntersectOfBits(c, t.voters);
    assert Restrict(c.members, t.voters.Keys) == t.voters;
    OccurrencesOfSubmap(c, t.voters);
    IntersectZero(c);
  }

  /** A taken vote is reported as a quorum, and its votes are accepted by the
      verifier, exactly when the tally then weighs what the vote needs of the
      committee's credits: of 64 credits 43 for a Valid vote and 33 for any other. */
  lemma ReportedIffEnough(rd: Round, a: Votes, v: StepVote)
    requires rd.Valid() && rd.Admits(v) && Sound(rd, v.step, a) && !Skipped(v)
    requires Collect(rd.bls, a, rd.committee(v.Step()), v).1.Ok?
    ensures var c := rd.committee(v.Step());
            var (a', r) := Collect(rd.bls, a, c, v);
            var weight := Total(a'.At(v.Step(), v.vote).voters);
            && (r.value.1 <==> weight >= Needed(v.vote, Total(c.members)))
            && (!(v.step.Validation? && v.vote.NoQuorum?) ==>
                  (VerifyVotes(rd.bls, v.header, v.step, v.vote, r.value.0, c).Ok?
                   <==> weight >= Needed(v.vote, Total(c.members))))
            && (Total(c.members) == 64 ==>
                  (r.value.1 <==> weight >= if v.vote.Valid? then 43 else 33))
  {
    hide Collect, ToStep, Total, TallyVotes, VerifyVotes, Intersect, Sound, AddSignature;
    var c := rd.committee(v.Step());
    var (a', r) := Collect(rd.bls, a, c, v);
    CollectEffect(rd.bls, a, c, v);
    CollectSound(rd, a, v);
    assert v.signer in a'.At(v.Step(), v.vote).voters;
    AggregatorMeetsVerifier(rd, v.step, a', v.header.iteration, v.vote);
    NeededOf64(v.vote);
  }

  // ----------------------------------------------------------- all runs

  /** The aggregator after a run of messages; those that are not admitted are dropped. */
  function Feed(rd: Round, name: StepName, a: Votes, msgs: seq<StepVote>): Votes
    requires forall s :: rd.committee(s).Valid()
    decreases |msgs|
  {
    if msgs == [] then a
    else if rd.Admits(msgs[0]) && msgs[0].step == name then
      Feed(rd, name, Collect(rd.bls, a, rd.committee(msgs[0].Step()), msgs[0]).0, msgs[1..])
    else Feed(rd, name, a, msgs[1..])
  }

  lemma FeedNothing(rd: Round, name: StepName, a: Votes)
    requires rd.Valid()
    ensures Feed(rd, name, a, []) == a
  {
  }

  lemma FeedFirst(rd: Round, name: StepName, a: Votes, v: StepVote, msgs: seq<StepVote>)
    requires rd.Valid()
    ensures Feed(rd, name, a, [v] + msgs) == Feed(rd, name, Feed(rd, name, a, [v]), msgs)
  {
    hide Collect;
    assert ([v] + msgs)[1..] == msgs && [v][1..] == [];
  }

  lemma {:induction false} FeedSound(rd: Round, name: StepName, a: Votes, msgs: seq<StepVote>)
    requires rd.Valid() && !name.Proposal? && Sound(rd, name, a)
    ensures Sound(rd, name, Feed(rd, name, a, msgs))
    decreases |msgs|
  {
    hide Sound, Collect;
    if msgs != [] {
      var v := msgs[0];
      if rd.Admits(v) && v.step == name {
        CollectSound(rd, a, v);
        FeedSound(rd, name, Collect(rd.bls, a, rd.committee(v.Step()), v).0, msgs[1..]);
      } else {
        FeedSound(rd, name, a, msgs[1..]);
      }
    }
  }

  /** Over any run of votes, in any order, a normal step reaches at most one quorum. */
  lemma OneQuorumPerStep(rd: Round, name: StepName, msgs: seq<StepVote>, it: Byte, v1: Vote, v2: Vote)
    requires rd.Valid() && !name.Proposal? && it < EMERGENCY_MODE_ITERATION_THRESHOLD
    ensures var a := Feed(rd, name, Votes(map[], map[]), msgs);
            var s := ToStep(name, it);
            Reached(rd.committee(s), v1, a.At(s, v1)) && Reached(rd.committee(s), v2, a.At(s, v2))
            ==> v1 == v2
  {
    hide Sound, Feed, Reached, ToStep;
    EmptySound(rd, name);
    FeedSound(rd, name, Votes(map[], map[]), msgs);
    if v1 != v2 {
      AtMostOneQuorum(rd, name, Feed(rd, name, Votes(map[], map[]), msgs), it, v1, v2);
    }
  }
}
