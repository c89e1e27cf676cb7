/** Exactly whose votes an aggregator holds after any run of messages: the first
    vote of each member in a normal step, every Valid vote in an emergency one. */
module Tallies {
  import opened Config
  import opened Messages
  import opened Collections
  import opened Committees
  import opened Verifiers
  import opened Aggregation

  /** `v` is a vote of `k` in iteration `it` of the step that is let through. */
  predicate IsVoteOf(rd: Round, name: StepName, v: StepVote, it: Byte, k: PublicKey) {
    rd.Admits(v) && v.step == name && v.header.iteration == it && v.signer == k
  }

  /** The first such vote in a run of messages. */
  function First(rd: Round, name: StepName, msgs: seq<StepVote>, it: Byte, k: PublicKey)
    : Option<StepVote>
    decreases |msgs|
  {
    if msgs == [] then None
    else if IsVoteOf(rd, name, msgs[0], it, k) then Some(msgs[0])
    else First(rd, name, msgs[1..], it, k)
  }

  /** The vote is for `vote` and carries a signature that can be aggregated. */
  predicate Usable(rd: Round, v: StepVote, vote: Vote) {
    v.vote == vote && rd.bls.parses(v.signature)
  }

  predicate Backs(rd: Round, v: Option<StepVote>, vote: Vote) {
    v.Some? && Usable(rd, v.value, vote)
  }

  ghost predicate BackedIn(rd: Round, name: StepName, msgs: seq<StepVote>, it: Byte, k: PublicKey, vote: Vote) {
    exists v | v in msgs :: IsVoteOf(rd, name, v, it, k) && Usable(rd, v, vote)
  }

  function OneVote(rd: Round, a: Votes, v: StepVote): Votes
    requires forall s :: rd.committee(s).Valid()
  {
    Collect(rd.bls, a, rd.committee(v.Step()), v).0
  }

  // ------------------------------------------------------ normal iterations

  /** When a vote of a normal iteration is taken, and who is noted afterwards. */
  lemma NormalOutcome(bls: Bls, a: Votes, c: Committee, v: StepVote)
    requires c.Valid() && !IsEmergencyIter(v.header.iteration)
    ensures var (a', r) := Collect(bls, a, c, v);
            var isNew := v.signer in c.members && v.signer !in a.At(v.Step(), v.vote).voters;
            && (r.Ok? <==> isNew && v.signer !in a.Voted(v.Step()) && bls.parses(v.signature))
            && a'.Voted(v.Step()).Keys == a.Voted(v.Step()).Keys + if isNew then {v.signer} else {}
  {
    hide ToStep, TallyVotes, Reached;
  }

  /** Why a vote is refused. The vote named in a conflict is the one noted. */
  lemma RefusedVote(bls: Bls, a: Votes, c: Committee, v: StepVote)
    requires c.Valid() && !Skipped(v)
    ensures var r := Collect(bls, a, c, v).1;
            var tallied := v.signer in a.At(v.Step(), v.vote).voters;
            var noted := !IsEmergencyIter(v.header.iteration) && v.signer in a.Voted(v.Step());
            && (r == Err(NotCommitteeMember) <==> v.signer !in c.members)
            && (r == Err(DuplicatedVote) <==> v.signer in c.members && tallied)
            && (r.Err? && r.error.ConflictingVote? <==> v.signer in c.members && !tallied && noted)
            && (r.Err? && r.error.ConflictingVote? ==> r.error.previous == a.Voted(v.Step())[v.signer])
            && (r == Err(InvalidSignature) <==>
                  v.signer in c.members && !tallied && !noted && !bls.parses(v.signature))
  {
    hide ToStep, TallyVotes, Reached;
  }

  /** One vote of a normal step: a member is tallied under its vote if it was not
      noted before, and is noted from then on. Nobody else is affected. */
  lemma NormalVote(rd: Round, name: StepName, a: Votes, v: StepVote, it: Byte, vote: Vote, k: PublicKey)
    requires rd.Valid() && !name.Proposal? && Sound(rd, name, a) && rd.Admits(v) && v.step == name
    requires it < EMERGENCY_MODE_ITERATION_THRESHOLD && k in rd.committee(ToStep(name, it)).members
    ensures var s := ToStep(name, it);
            var a' := OneVote(rd, a, v);
            && (k in a'.At(s, vote).voters <==>
                  k in a.At(s, vote).voters
                  || (IsVoteOf(rd, name, v, it, k) && k !in a.Voted(s) && Usable(rd, v, vote)))
            && (k in a'.Voted(s) <==> k in a.Voted(s) || IsVoteOf(rd, name, v, it, k))
  {
    hide TallySound, TallyVotes, Reached, Collect, ToStep;
    var s, c := ToStep(name, it), rd.committee(v.Step());
    SameStep(name, v.header.iteration, it);
    CollectEffect(rd.bls, a, c, v);
    if v.header.iteration == it {
      NormalOutcome(rd.bls, a, c, v);
      assert TallyUnique(a, name, it, v.vote);
    }
  }

  /** In a normal step the first vote of a member decides, whatever follows it. */
  lemma {:induction false} FirstVoteWins(rd: Round, name: StepName, a: Votes, msgs: seq<StepVote>,
                                         it: Byte, vote: Vote, k: PublicKey)
    requires rd.Valid() && !name.Proposal? && Sound(rd, name, a)
    requires it < EMERGENCY_MODE_ITERATION_THRESHOLD && k in rd.committee(ToStep(name, it)).members
    ensures var s := ToStep(name, it);
            k in Feed(rd, name, a, msgs).At(s, vote).voters <==>
              k in a.At(s, vote).voters
              || (k !in a.Voted(s) && Backs(rd, First(rd, name, msgs, it, k), vote))
    decreases |msgs|
  {
    hide Sound, Collect, ToStep;
    if msgs != [] {
      var v := msgs[0];
      if rd.Admits(v) && v.step == name {
        NormalVote(rd, name, a, v, it, vote, k);
        CollectSound(rd, a, v);
        FirstVoteWins(rd, name, OneVote(rd, a, v), msgs[1..], it, vote, k);
      } else {
        FirstVoteWins(rd, name, a, msgs[1..], it, vote, k);
      }
    }
  }

  lemma NotedStays(rd: Round, name: StepName, a: Votes, v: StepVote, it: Byte, k: PublicKey)
    requires rd.Valid() && !name.Proposal? && Sound(rd, name, a) && rd.Admits(v) && v.step == name
    requires it < EMERGENCY_MODE_ITERATION_THRESHOLD && k in rd.committee(ToStep(name, it)).members
    ensures var s := ToStep(name, it);
            k in OneVote(rd, a, v).Voted(s) ==>
              OneVote(rd, a, v).Voted(s)[k] == if k in a.Voted(s) then a.Voted(s)[k] else v
  {
    hide TallySound, TallyVotes, Reached, Tallied, ToStep;
    SameStep(name, v.header.iteration, it);
    TalliedNotes(rd, a, v);
  }

  lemma TalliedNotes(rd: Round, a: Votes, v: StepVote)
    requires rd.Valid()
    ensures v.signer in rd.committee(v.Step()).members ==>
              forall b: Votes :: Tallied(rd.bls, b, rd.committee(v.Step()), v).0.uniqueness == b.uniqueness
  {
    hide ToStep, TallyVotes, Reached;
  }

  /** What is noted of a member of a normal step is its first vote. */
  lemma {:induction false} FirstIsNoted(rd: Round, name: StepName, a: Votes, msgs: seq<StepVote>, it: Byte, k: PublicKey)
    requires rd.Valid() && !name.Proposal? && Sound(rd, name, a)
    requires it < EMERGENCY_MODE_ITERATION_THRESHOLD && k in rd.committee(ToStep(name, it)).members
    ensures var s := ToStep(name, it);
            var noted := Feed(rd, name, a, msgs).Voted(s);
            if k in a.Voted(s) then k in noted && noted[k] == a.Voted(s)[k]
            else var first := First(rd, name, msgs, it, k);
                 (k in noted <==> first.Some?) && (k in noted ==> noted[k] == first.value)
    decreases |msgs|
  {
    hide Sound, Collect, ToStep;
    if msgs != [] {
      var v := msgs[0];
      if rd.Admits(v) && v.step == name {
        NormalVote(rd, name, a, v, it, v.vote, k);
        NotedStays(rd, name, a, v, it, k);
        CollectSound(rd, a, v);
        FirstIsNoted(rd, name, OneVote(rd, a, v), msgs[1..], it, k);
      } else {
        FirstIsNoted(rd, name, a, msgs[1..], it, k);
      }
    }
  }

  function Empty(): Votes { Votes(map[], map[]) }

  /** The members whose first vote is a usable one for `vote`, with their credits. */
  function FirstBackers(rd: Round, name: StepName, msgs: seq<StepVote>, it: Byte, vote: Vote): Cluster {
    var c := rd.committee(ToStep(name, it));
    map k | k in c.members && Backs(rd, First(rd, name, msgs, it, k), vote) :: c.members[k]
  }

  /** After any run the tally of a normal step is its first backers, neither more
      nor fewer, and a quorum is reached exactly when they weigh enough. */
  lemma TallyIsFirstBackers(rd: Round, name: StepName, msgs: seq<StepVote>, it: Byte, vote: Vote)
    requires rd.Valid() && !name.Proposal? && it < EMERGENCY_MODE_ITERATION_THRESHOLD
    ensures var s := ToStep(name, it);
            var t := Feed(rd, name, Empty(), msgs).At(s, vote);
            && t.voters == FirstBackers(rd, name, msgs, it, vote)
            && (Reached(rd.committee(s), vote, t) <==>
                  Total(FirstBackers(rd, name, msgs, it, vote)) >= rd.committee(s).Target(vote))
  {
    hide ToStep, Feed, Total, Backs;
    EmptySound(rd, name);
    FeedSound(rd, name, Empty(), msgs);
    var s := ToStep(name, it);
    var t := Feed(rd, name, Empty(), msgs).At(s, vote);
    assert TallySound(rd, name, it, vote, t);
    forall k | k in rd.committee(s).members
      ensures k in t.voters <==> Backs(rd, First(rd, name, msgs, it, k), vote)
    {
      FirstVoteWins(rd, name, Empty(), msgs, it, vote, k);
    }
    assert t.voters == FirstBackers(rd, name, msgs, it, vote);
  }

  // --------------------------------------------------- emergency iterations

  lemma EmergencyVote(rd: Round, name: StepName, a: Votes, v: StepVote, it: Byte, vote: Vote, k: PublicKey)
    requires rd.Valid() && !name.Proposal? && rd.Admits(v) && v.step == name && vote.Valid?
    requires IsEmergencyIter(it) && k in rd.committee(ToStep(name, it)).members
    ensures var s := ToStep(name, it);
            k in OneVote(rd, a, v).At(s, vote).voters <==>
              k in a.At(s, vote).voters || (IsVoteOf(rd, name, v, it, k) && Usable(rd, v, vote))
  {
    hide TallyVotes, Reached;
    SameStep(name, v.header.iteration, it);
  }

  /** In an emergency step every usable Valid vote of a member is tallied, and a
      member may back several hashes. */
  lemma {:induction false} EveryVoteCounts(rd: Round, name: StepName, a: Votes, msgs: seq<StepVote>,
                                           it: Byte, vote: Vote, k: PublicKey)
    requires rd.Valid() && !name.Proposal? && vote.Valid?
    requires IsEmergencyIter(it) && k in rd.committee(ToStep(name, it)).members
    ensures var s := ToStep(name, it);
            k in Feed(rd, name, a, msgs).At(s, vote).voters <==>
              k in a.At(s, vote).voters || BackedIn(rd, name, msgs, it, k, vote)
    decreases |msgs|
  {
    hide Collect, ToStep, IsVoteOf, Usable;
    if msgs != [] {
      var v := msgs[0];
      BackedHead(rd, name, msgs, it, k, vote);
      if rd.Admits(v) && v.step == name {
        EmergencyVote(rd, name, a, v, it, vote, k);
        EveryVoteCounts(rd, name, OneVote(rd, a, v), msgs[1..], it, vote, k);
      } else {
        EveryVoteCounts(rd, name, a, msgs[1..], it, vote, k);
        NotAVote(rd, name, v, it, k);
      }
    }
  }

  lemma NotAVote(rd: Round, name: StepName, v: StepVote, it: Byte, k: PublicKey)
    requires !rd.Admits(v) || v.step != name
    ensures !IsVoteOf(rd, name, v, it, k)
  {
  }

  lemma BackedHead(rd: Round, name: StepName, msgs: seq<StepVote>, it: Byte, k: PublicKey, vote: Vote)
    requires msgs != []
    ensures BackedIn(rd, name, msgs, it, k, vote) <==>
              (IsVoteOf(rd, name, msgs[0], it, k) && Usable(rd, msgs[0], vote))
              || BackedIn(rd, name, msgs[1..], it, k, vote)
  {
    hide IsVoteOf, Usable;
    assert msgs[0] in msgs;
    assert forall v :: v in msgs <==> v == msgs[0] || v in msgs[1..];
  }

  // -------------------------------------------------------------- liveness

  /** Every vote of `k` in the step is a usable one for `vote`, and there is one. */
  ghost predicate Faithful(rd: Round, name: StepName, msgs: seq<StepVote>, it: Byte, k: PublicKey, vote: Vote) {
    BackedIn(rd, name, msgs, it, k, vote)
    && forall v | v in msgs && IsVoteOf(rd, name, v, it, k) :: Usable(rd, v, vote)
  }

  lemma {:induction false} FaithfulBacks(rd: Round, name: StepName, msgs: seq<StepVote>, it: Byte,
                                         k: PublicKey, vote: Vote)
    requires Faithful(rd, name, msgs, it, k, vote)
    ensures Backs(rd, First(rd, name, msgs, it, k), vote)
    decreases |msgs|
  {
    hide IsVoteOf, Usable;
    if msgs != [] {
      BackedHead(rd, name, msgs, it, k, vote);
      assert msgs[0] in msgs;
      if !IsVoteOf(rd, name, msgs[0], it, k) {
        FaithfulBacks(rd, name, msgs[1..], it, k, vote);
      }
    }
  }

  /** Members that weigh enough and vote for one thing reach their quorum, in any
      order and whatever else arrives in between. */
  lemma QuorumIsReached(rd: Round, name: StepName, msgs: seq<StepVote>, it: Byte, vote: Vote,
                        backers: set<PublicKey>)
    requires rd.Valid() && !name.Proposal?
    requires IsEmergencyIter(it) ==> vote.Valid?
    requires forall k | k in backers :: Faithful(rd, name, msgs, it, k, vote)
    requires var c := rd.committee(ToStep(name, it));
             Total(Restrict(c.members, backers)) >= c.Target(vote)
    ensures var s := ToStep(name, it);
            Reached(rd.committee(s), vote, Feed(rd, name, Empty(), msgs).At(s, vote))
  {
    hide ToStep, Feed, Total, Faithful, BackedIn, Backs, First;
    var s := ToStep(name, it);
    var c, t := rd.committee(s), Feed(rd, name, Empty(), msgs).At(s, vote);
    EmptySound(rd, name);
    FeedSound(rd, name, Empty(), msgs);
    assert TallySound(rd, name, it, vote, t);
    forall k | k in Restrict(c.members, backers) ensures k in t.voters {
      assert Faithful(rd, name, msgs, it, k, vote);
      FaithfulTallied(rd, name, msgs, it, vote, k);
    }
    SubmapTotal(Restrict(c.members, backers), t.voters);
  }

  lemma FaithfulTallied(rd: Round, name: StepName, msgs: seq<StepVote>, it: Byte, vote: Vote, k: PublicKey)
    requires rd.Valid() && !name.Proposal?
    requires IsEmergencyIter(it) ==> vote.Valid?
    requires Faithful(rd, name, msgs, it, k, vote) && k in rd.committee(ToStep(name, it)).members
    ensures k in Feed(rd, name, Empty(), msgs).At(ToStep(name, it), vote).voters
  {
    hide ToStep, Feed;
    EmptySound(rd, name);
    if IsEmergencyIter(it) {
      EveryVoteCounts(rd, name, Empty(), msgs, it, vote, k);
    } else {
      FaithfulBacks(rd, name, msgs, it, k, vote);
      FirstVoteWins(rd, name, Empty(), msgs, it, vote, k);
    }
  }
}
