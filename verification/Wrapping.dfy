/** Relayed Quorums for a verifier that builds the committees itself, and what
    wrapped step numbers do to them. */
module Wrapping {
  import opened Config
  import opened Messages
  import opened Collections
  import opened Bitset
  import opened Committees
  import opened Verifiers
  import opened IterationContext
  import opened Aggregation
  import opened Tallies
  import opened Registry
  import opened Handlers
  import opened RoundRun
  import opened Relays
  import opened RoundLoop
  import opened Agreement

  // ------------------------------------------------- iterations that fit

  /** Both sides pass for a verifier that builds the committees itself. */
  ghost predicate PassesFromScratch(bls: Bls, rs: RoundSeed, q: Quorum)
    requires rs.Eligible()
  {
    var it, vote := q.header.iteration, q.att.result.vote;
    && VerifyVotes(bls, q.header, Ratification, vote, q.att.ratification, rs.StepCommittee(it, Ratification)).Ok?
    && VerifyVotes(bls, q.header, Validation, vote, q.att.validation, rs.StepCommittee(it, Validation)).Ok?
  }

  lemma FitsFromScratch(bls: Bls, tip: Hash, rs: RoundSeed, requests: seq<Byte>, q: Quorum)
    requires Playable(rs) && bls.Aggregates() && NoClashes(rs, map[], requests)
    requires q.header == RoundOf(bls, tip, rs, requests).Header(q.header.iteration)
    requires q.att.result == ResultOf(q.att.result.vote) && Fits(q.header.iteration, Ratification)
    ensures FullySound(RoundOf(bls, tip, rs, requests), q) <==> PassesFromScratch(bls, rs, q)
  {
    hide RoundSeed.Eligible, RoundSeed.StepCommittee, NoClashes, VerifyVotes, RoundOf, ToStep;
    RoundOfValid(bls, tip, rs, requests);
    SlotFromScratch(bls, tip, rs, requests, q.header.iteration, Ratification);
    SlotFromScratch(bls, tip, rs, requests, q.header.iteration, Validation);
  }

  /** When no request clashed: the relayed Quorums whose step numbers fit all verify
      from scratch if and only if no event is a short relay. */
  lemma RelaysFromScratchIff(bls: Bls, tip: Hash, rs: RoundSeed, peer: Peer)
    requires Playable(rs) && bls.Aggregates() && NoClashes(rs, map[], peer.requests)
    requires peer.iter < CONSENSUS_MAX_ITER && RoundOf(bls, tip, rs, peer.requests).Valid()
    ensures var rd := RoundOf(bls, tip, rs, peer.requests);
            (forall q | q in AfterRun(rd, peer.iter, peer.events).relayed && Fits(q.header.iteration, Ratification) ::
               PassesFromScratch(bls, rs, q))
            <==> NoShortRelay(rd, Start(peer.iter), peer.events)
  {
    hide RoundSeed.Eligible, NoClashes, RoundOf, Run, Start, FullySound, PassesFromScratch, NoShortRelay;
    var rd := RoundOf(bls, tip, rs, peer.requests);
    var n := AfterRun(rd, peer.iter, peer.events);
    RelayedVerifyIff(rd, peer.iter, peer.events);
    StartInv(rd, peer.iter);
    RunKeepsInv(rd, Start(peer.iter), peer.events);
    forall q | q in n.relayed
      ensures !Fits(q.header.iteration, Ratification) ==> FullySound(rd, q)
      ensures Fits(q.header.iteration, Ratification) ==> (FullySound(rd, q) <==> PassesFromScratch(bls, rs, q))
    {
      RelayedShape(rd, n, q);
      if Fits(q.header.iteration, Ratification) {
        FitsFromScratch(bls, tip, rs, peer.requests, q);
      }
    }
  }

  lemma RelayedShape(rd: Round, n: Node, q: Quorum)
    requires rd.Valid() && Inv(rd, n) && q in n.relayed
    ensures q.header == rd.Header(q.header.iteration) && q.att.result == ResultOf(q.att.result.vote)
    ensures !Fits(q.header.iteration, Ratification) ==> FullySound(rd, q)
  {
    hide Sound, RegistrySound, NoQuorumUntallied, FullySound, EmittedSound, FailedUnique;
    assert RelayedSound(rd, n, q);
  }

  /** No past ratification vote names an iteration above 84. */
  predicate SmallVotes(events: seq<Event>) {
    forall e | e in events && e.PastRatification? :: e.rv.sv.header.iteration <= 84
  }

  ghost predicate AllFit(n: Node) {
    forall q | q in n.relayed :: Fits(q.header.iteration, Ratification)
  }

  lemma StepFits(rd: Round, n: Node, e: Event)
    requires rd.Valid() && AllFit(n) && (e.PastRatification? ==> e.rv.sv.header.iteration <= 84)
    ensures AllFit(Next(rd, n, e))
  {
    hide Record, MatchResult, VerifyVotes, RecordAttestation, HasFailed;
    var n' := Next(rd, n, e);
    forall q | q in n'.relayed ensures Fits(q.header.iteration, Ratification) {
      var i :| 0 <= i < |n'.relayed| && n'.relayed[i] == q;
      if i < |n.relayed| { assert n.relayed[i] == q; }
    }
  }

  lemma {:induction false} RunFits(rd: Round, n: Node, events: seq<Event>)
    requires rd.Valid() && AllFit(n) && SmallVotes(events)
    ensures AllFit(Run(rd, n, events))
    decreases |events|
  {
    hide Next, AllFit;
    if events != [] {
      assert events[0] in events;
      assert forall e | e in events[1..] :: e in events;
      StepFits(rd, n, events[0]);
      RunFits(rd, Next(rd, n, events[0]), events[1..]);
    }
  }

  /** When moreover no past vote names an iteration above 84, that is all of them. */
  lemma SmallVotesFromScratch(bls: Bls, tip: Hash, rs: RoundSeed, peer: Peer)
    requires Playable(rs) && bls.Aggregates() && NoClashes(rs, map[], peer.requests)
    requires peer.iter < CONSENSUS_MAX_ITER && RoundOf(bls, tip, rs, peer.requests).Valid()
    requires SmallVotes(peer.events)
    ensures var rd := RoundOf(bls, tip, rs, peer.requests);
            (forall q | q in AfterRun(rd, peer.iter, peer.events).relayed :: PassesFromScratch(bls, rs, q))
            <==> NoShortRelay(rd, Start(peer.iter), peer.events)
  {
    hide RoundSeed.Eligible, NoClashes, RoundOf, Run, Start, PassesFromScratch, NoShortRelay, Fits;
    var rd := RoundOf(bls, tip, rs, peer.requests);
    RelaysFromScratchIff(bls, tip, rs, peer);
    StartUnmarked(peer.iter);
    RunFits(rd, Start(peer.iter), peer.events);
  }

  // ---------------------------------------- a run of past ratification votes

  function PastRatifications(msgs: seq<RatificationVote>): seq<Event> {
    if msgs == [] then [] else [PastRatification(msgs[0])] + PastRatifications(msgs[1..])
  }

  function VotesIn(msgs: seq<RatificationVote>): seq<StepVote> {
    if msgs == [] then [] else [msgs[0].sv] + VotesIn(msgs[1..])
  }

  function ValTally(n: Node, it: Byte, vote: Vote): Tally {
    n.val.At(ToStep(Validation, it), vote)
  }

  ghost predicate RatReachedAt(rd: Round, n: Node, it: Byte, vote: Vote) {
    Reached(RatCommittee(rd, it), vote, n.rat.At(ToStep(Ratification, it), vote))
  }

  /** The node has relayed a Quorum with these validation votes. */
  ghost predicate HasRelayed(rd: Round, n: Node, it: Byte, vote: Vote, validation: StepVotes) {
    exists q | q in n.relayed ::
      q.header == rd.Header(it) && q.att.result == Success(vote) && q.att.validation == validation
  }

  /** An unmarked Valid entry of an emergency iteration with a validation quorum. */
  ghost predicate Waiting(rd: Round, n: Node, it: Byte, vote: Vote)
    requires forall s :: rd.committee(s).Valid()
  {
    && Inv(rd, n) && IsEmergencyIter(it) && vote.Valid? && (it, vote) !in n.marked
    && Reached(ValCommittee(rd, it), vote, ValTally(n, it, vote))
    && (RatReachedAt(rd, n, it, vote) ==>
          HasRelayed(rd, n, it, vote, TallyVotes(ValCommittee(rd, it), ValTally(n, it, vote))))
  }

  predicate PastVote(rd: Round, n: Node, rv: RatificationVote, it: Byte, vote: Vote) {
    Past(rd, n, rv.sv, Ratification) && rv.sv.header.iteration == it && rv.sv.vote == vote
  }

  lemma OnePast(rd: Round, n: Node, rv: RatificationVote, it: Byte, vote: Vote)
    requires rd.Valid() && Waiting(rd, n, it, vote) && PastVote(rd, n, rv, it, vote)
    ensures var n' := Next(rd, n, PastRatification(rv));
            && Waiting(rd, n', it, vote) && n'.cur == n.cur && n'.val == n.val
            && n'.rat == Feed(rd, Ratification, n.rat, [rv.sv])
  {
    hide Inv, ToStep, Total, TallyVotes, Reached, Record, Collect, Intersect, VerifyVotes, SideVerifies, FullySound;
    var n' := Next(rd, n, PastRatification(rv));
    NextKeepsInv(rd, n, PastRatification(rv));
    PastFrame(rd, n, rv);
    PastTally(rd, n, rv);
    if Taken(rd, n, rv) {
      RelayExact(rd, n, rv);
      RelayAppends(rd, n, rv);
      ShownValidation(rd, n, rv);
      if Reaches(rd, n, rv) {
        assert n'.relayed[|n.relayed|] in n'.relayed;
      }
      assert forall q | q in n.relayed :: q in n'.relayed;
    } else {
      OnlyTaken(rd, n, rv);
    }
  }

  lemma PastFrame(rd: Round, n: Node, rv: RatificationVote)
    requires rd.Valid() && Past(rd, n, rv.sv, Ratification)
    ensures var n' := OnPastRatification(rd, n, rv);
            && n'.cur == n.cur && n'.val == n.val && n'.marked == n.marked
            && n'.rat == Feed(rd, Ratification, n.rat, [rv.sv])
  {
    hide Collect, RecordVotes, ToStep;
    assert [rv.sv][1..] == [];
  }

  /** A vote that is not taken leaves its tally alone. */
  lemma PastTally(rd: Round, n: Node, rv: RatificationVote)
    requires rd.Valid() && Inv(rd, n) && Past(rd, n, rv.sv, Ratification) && rv.sv.vote.Valid?
    ensures !Taken(rd, n, rv) ==> After(rd, n, rv) == n.rat.At(rv.sv.Step(), rv.sv.vote)
  {
    hide ToStep, Total, TallyVotes, Reached, Sound, VerifyVotes, Intersect, Record, RegistrySound, NoQuorumUntallied, RelayedSound;
    RecordEffect(rd, n.rat, n.reg, rv.sv, rd.generator(rv.sv.header.iteration));
  }

  lemma ShownValidation(rd: Round, n: Node, rv: RatificationVote)
    requires rd.Valid() && Inv(rd, n) && Past(rd, n, rv.sv, Ratification) && rv.sv.vote.Valid?
    requires (rv.sv.header.iteration, rv.sv.vote) !in n.marked
    ensures var it := rv.sv.header.iteration;
            Info(n.reg, it, rv.sv.vote).att.validation
            == TallyVotes(ValCommittee(rd, it), ValTally(n, it, rv.sv.vote))
  {
    hide Inv, ToStep, TallyVotes, Reached;
    AcceptedMirrors(rd, n, rv.sv);
  }

  lemma {:induction false} AllPast(rd: Round, n: Node, msgs: seq<RatificationVote>, it: Byte, vote: Vote)
    requires rd.Valid() && Waiting(rd, n, it, vote)
    requires forall rv | rv in msgs :: PastVote(rd, n, rv, it, vote)
    ensures var n' := Run(rd, n, PastRatifications(msgs));
            && Waiting(rd, n', it, vote) && n'.val == n.val
            && n'.rat == Feed(rd, Ratification, n.rat, VotesIn(msgs))
    decreases |msgs|
  {
    hide Waiting, Next, Feed;
    if msgs == [] {
      FeedNothing(rd, Ratification, n.rat);
    } else {
      var rv, rest := msgs[0], msgs[1..];
      assert rv in msgs;
      assert forall x | x in rest :: x in msgs;
      OnePast(rd, n, rv, it, vote);
      var n1 := Next(rd, n, PastRatification(rv));
      AllPast(rd, n1, rest, it, vote);
      RunFirst(rd, n, PastRatification(rv), PastRatifications(rest));
      FeedFirst(rd, Ratification, n.rat, rv.sv, VotesIn(rest));
    }
  }

  /** Past ratification votes that weigh enough beside a validation quorum are
      relayed as a Quorum. */
  lemma PastQuorumIsRelayed(rd: Round, n: Node, msgs: seq<RatificationVote>, it: Byte, vote: Vote,
                            backers: set<PublicKey>)
    requires rd.Valid() && Waiting(rd, n, it, vote)
    requires forall rv | rv in msgs :: PastVote(rd, n, rv, it, vote)
    requires forall k | k in backers :: BackedIn(rd, Ratification, VotesIn(msgs), it, k, vote)
    requires var c := RatCommittee(rd, it);
             Total(Restrict(c.members, backers)) >= c.superMajority
    ensures HasRelayed(rd, Run(rd, n, PastRatifications(msgs)), it, vote,
                       TallyVotes(ValCommittee(rd, it), ValTally(n, it, vote)))
  {
    hide Inv, Total, ToStep, Feed, Run, BackedIn, HasRelayed, PastRatifications, VotesIn, TallyVotes;
    AllPast(rd, n, msgs, it, vote);
    var n', s, c := Run(rd, n, PastRatifications(msgs)), ToStep(Ratification, it), RatCommittee(rd, it);
    var t := n'.rat.At(s, vote);
    RatSound(rd, n', it, vote);
    forall k | k in Restrict(c.members, backers) ensures k in t.voters {
      EveryVoteCounts(rd, Ratification, n.rat, VotesIn(msgs), it, vote, k);
    }
    SubmapTotal(Restrict(c.members, backers), t.voters);
  }

  lemma RatSound(rd: Round, n: Node, it: Byte, vote: Vote)
    requires rd.Valid() && Inv(rd, n)
    ensures TallySound(rd, Ratification, it, vote, n.rat.At(ToStep(Ratification, it), vote))
  {
    hide TallySound, RegistrySound, NoQuorumUntallied, RelayedSound, EmittedSound;
  }

  // ------------------------------------------------- iteration 90 at iteration 6

  /** Iterations 0 to 6, and then 90. */
  function Requests(): seq<Byte> {
    FirstIterations(7) + [90]
  }

  /** The steps of iteration 90 have the numbers of steps of iterations 4 and 5. */
  lemma StepsOf90()
    ensures ToStep(Proposal, 90) == 14 == ToStep(Ratification, 4)
    ensures ToStep(Validation, 90) == 15 == ToStep(Proposal, 5)
    ensures ToStep(Ratification, 90) == 16 == ToStep(Validation, 5)
    ensures ToStep(Ratification, 6) == 20
  {
  }

  /** Asking for iteration 90 at iteration 6 does no harm to the cache: all three
      step numbers are taken. */
  lemma NoHarm(rs: RoundSeed)
    requires rs.Eligible()
    ensures NoClashes(rs, map[], Requests())
  {
    hide RoundSeed.Eligible, WellFormed, CacheAfter, Consistent, NoClashes, ToStep, AddIteration, Harmless;
    NothingCached();
    var first: seq<Byte> := FirstIterations(7);
    var cache := CacheAfter(rs, map[], first);
    assert forall it | it in first :: it <= 84;
    assert first[4] in first && first[5] in first;
    SmallRequests(rs, map[], first);
    assert Consistent(rs, map[]) by { EmptyConsistent(rs); }
    CacheExact(rs, map[], first);
    Requested(rs, map[], first, 4, Ratification);
    Requested(rs, map[], first, 5, Proposal);
    Requested(rs, map[], first, 5, Validation);
    StepsOf90();
    forall step ensures ToStep(step, 90) in cache {
      match step
      case Proposal =>
      case Validation =>
      case Ratification =>
    }
    TakenIsHarmless(rs, cache, 90);
    RequestExact(rs, cache, 90);
    CacheOne(rs, cache, 90);
    CacheAppend(rs, map[], first, [90]);
    CacheExact(rs, map[], Requests());
  }

  lemma EmptyConsistent(rs: RoundSeed)
    requires rs.Eligible()
    ensures Consistent(rs, map[])
  {
  }

  lemma TakenIsHarmless(rs: RoundSeed, cache: Cache, iteration: Byte)
    requires rs.Eligible() && WellFormed(cache)
    requires forall step :: ToStep(step, iteration) in cache
    ensures Harmless(rs, cache, iteration)
  {
    hide RoundSeed.Eligible, WellFormed, ToStep, AddCommittee;
    CachedSlot(rs, cache, iteration, Proposal);
    CachedSlot(rs, cache, iteration, Validation);
    CachedSlot(rs, cache, iteration, Ratification);
  }

  /** A committee of one credit has one member, and every voter set that counts is
      its first bit. */
  lemma OneCredit(c: Committee, voters: Cluster, k: PublicKey)
    requires c.Valid() && Total(c.members) == 1 && k in c.members && k in voters
    ensures Bits(c, voters) == 1 && c.members[k] == 1
  {
    hide Total, SortedKeys;
    TotalAtLeastSize(c.members);
    assert |c.members.Keys| == |c.members|;
    assert |c.Order()| == 1;
    assert k in c.Order();
    assert c.Order()[0] == k;
    assert BitsUpTo(c.Order(), voters, 0) == 0;
    assert SetBit(0, 0) == 1;
    TotalRemove(c.members, k);
  }

  /** The first bit alone stands for the first member alone. */
  lemma FirstBit(c: Committee)
    requires c.Valid() && c.Order() != []
    ensures c.TotalOccurrences(Intersect(c, 1)) == c.members[c.Order()[0]]
  {
    hide Total, SortedKeys;
    var first := c.Order()[0];
    assert first in c.Order();
    var selected := Intersect(c, 1);
    forall k | k in c.members ensures k in selected <==> k == first {
      BitsOfOne(Position(c.Order(), k));
    }
    assert selected == map[first := c.members[first]];
    OccurrencesOfSubmap(c, selected);
    EmptyTotal();
    TotalInsert(map[], first, c.members[first]);
    assert map[][first := c.members[first]] == selected;
  }

  lemma BitsOfOne(i: nat)
    ensures Bit(1, i) <==> i == 0
  {
    if i > 0 { ZeroBit(i - 1); }
  }

  /** The first validation vote of a step, taken from the past. */
  lemma FirstValidation(rd: Round, n: Node, v: StepVote)
    requires rd.Valid() && Past(rd, n, v, Validation) && v.vote.Valid?
    requires n.val == Votes(map[], map[]) && rd.bls.parses(v.signature)
    requires v.signer in rd.committee(v.Step()).members
    ensures var n' := OnPastValidation(rd, n, v);
            var t := n'.val.At(v.Step(), v.vote);
            && t.signature.Some? && t.voters == map[v.signer := rd.committee(v.Step()).members[v.signer]]
            && n'.rat == n.rat && n'.cur == n.cur && n'.marked == n.marked && n'.relayed == n.relayed
  {
    hide ToStep, TallyVotes, Reached, VerifyVotes, RecordVotes;
  }

  function Ninety(bls: Bls, tip: Hash, rs: RoundSeed): Round
    requires Playable(rs)
  {
    RoundOf(bls, tip, rs, Requests())
  }

  /** For the validation of iteration 90 the node uses the Proposal committee of
      iteration 5, of one credit; a verifier draws one of 64. */
  lemma NinetyCommittees(bls: Bls, tip: Hash, rs: RoundSeed)
    requires Playable(rs)
    ensures var c := ValCommittee(Ninety(bls, tip, rs), 90);
            c == rs.StepCommittee(5, Proposal) && Total(c.members) == 1 && c.superMajority == 1
    ensures RatCommittee(Ninety(bls, tip, rs), 90) == rs.StepCommittee(5, Validation)
    ensures Total(rs.StepCommittee(90, Validation).members) == 64
  {
    hide RoundSeed.Eligible, RoundSeed.StepCommittee, RoundOf, NoClashes, ToStep, Total;
    NoHarm(rs);
    StepsOf90();
    SlotFromScratch(bls, tip, rs, Requests(), 5, Proposal);
    SlotFromScratch(bls, tip, rs, Requests(), 5, Validation);
    StepCommitteeValid(rs, 5, Proposal);
    StepCommitteeValid(rs, 90, Validation);
  }

  function NinetyEvents(v: StepVote, msgs: seq<RatificationVote>): seq<Event> {
    [PastValidation(v)] + PastRatifications(msgs)
  }

  /** A vote of iteration 90 for `vote`. */
  predicate OfNinety(rd: Round, v: StepVote, name: StepName, vote: Vote) {
    rd.Admits(v) && v.step == name && v.header.iteration == 90 && v.vote == vote
  }

  /** After the one validation vote the node waits for ratifications. */
  lemma NinetyWaits(bls: Bls, tip: Hash, rs: RoundSeed, v: StepVote)
    requires Playable(rs) && bls.Aggregates() && v.vote.Valid?
    requires Ninety(bls, tip, rs).Valid() && OfNinety(Ninety(bls, tip, rs), v, Validation, v.vote)
    requires bls.parses(v.signature) && v.signer in rs.StepCommittee(5, Proposal).members
    ensures var rd := Ninety(bls, tip, rs);
            var n := Next(rd, Start(6), PastValidation(v));
            && Waiting(rd, n, 90, v.vote) && n.cur == 6
            && TallyVotes(ValCommittee(rd, 90), ValTally(n, 90, v.vote)).bitset == 1
  {
    hide RoundSeed.Eligible, RoundSeed.StepCommittee, RoundOf, ToStep, Total, Inv, OnPastValidation, Bits, Committee.Valid;
    var rd := Ninety(bls, tip, rs);
    RoundOfValid(bls, tip, rs, Requests());
    NinetyCommittees(bls, tip, rs);
    StepsOf90();
    var c := ValCommittee(rd, 90);
    assert rd.committee(ToStep(Validation, 90)).Valid() && rd.committee(ToStep(Ratification, 90)).Valid();
    StartInv(rd, 6);
    NextKeepsInv(rd, Start(6), PastValidation(v));
    FirstValidation(rd, Start(6), v);
    var n := Next(rd, Start(6), PastValidation(v));
    var t := ValTally(n, 90, v.vote);
    OneCredit(c, t.voters, v.signer);
    EmptyTotal();
    TotalInsert(map[], v.signer, 1);
    assert t.voters == map[][v.signer := 1];
    NothingReached(RatCommittee(rd, 90), v.vote, n.rat.At(ToStep(Ratification, 90), v.vote));
  }

  /** The first member alone is no supermajority. */
  predicate LightFirst(c: Committee) {
    c.Order() != [] && c.members[c.Order()[0]] < c.superMajority
  }

  /** At iteration 6, without any Quorum received and with a cache that is right:
      the generator of iteration 5 validates `hash` for iteration 90, members with a
      supermajority of the Validation committee of iteration 5 ratify that, and the
      node relays a Quorum whose validation votes a verifier refuses as too few,
      unless the first member of its own committee weighs a supermajority. */
  lemma WrappedRelay(bls: Bls, tip: Hash, rs: RoundSeed, v: StepVote, msgs: seq<RatificationVote>,
                     backers: set<PublicKey>) returns (q: Quorum)
    requires Playable(rs) && bls.Aggregates() && v.vote.Valid? && Ninety(bls, tip, rs).Valid()
    requires OfNinety(Ninety(bls, tip, rs), v, Validation, v.vote) && bls.parses(v.signature)
    requires v.signer in rs.StepCommittee(5, Proposal).members
    requires forall rv | rv in msgs :: OfNinety(Ninety(bls, tip, rs), rv.sv, Ratification, v.vote)
    requires forall k | k in backers :: BackedIn(Ninety(bls, tip, rs), Ratification, VotesIn(msgs), 90, k, v.vote)
    requires var c := rs.StepCommittee(5, Validation);
             Total(Restrict(c.members, backers)) >= c.superMajority
    requires LightFirst(rs.StepCommittee(90, Validation))
    ensures NoClashes(rs, map[], Requests())
    ensures NoShortRelay(Ninety(bls, tip, rs), Start(6), NinetyEvents(v, msgs))
    ensures q in AfterRun(Ninety(bls, tip, rs), 6, NinetyEvents(v, msgs)).relayed
    ensures q.header.iteration == 90 && q.att.result == Success(v.vote)
    ensures VerifyVotes(bls, q.header, Validation, v.vote, q.att.validation, rs.StepCommittee(90, Validation))
            == Err(VoteSetTooSmall)
  {
    hide RoundSeed.Eligible, RoundSeed.StepCommittee, RoundOf, NoClashes, BackedIn, Restrict, Committee.Valid,
      LightFirst, NoShortRelay, AfterRun, Total, OfNinety, Bls.Aggregates, VerifyVotes, VotesIn;
    NoHarm(rs);
    q := NinetyRelayed(bls, tip, rs, v, msgs, backers);
    StepCommitteeValid(rs, 90, Validation);
    FirstBitRefused(bls, q.header, v.vote, q.att.validation, rs.StepCommittee(90, Validation));
    NothingMarked(Ninety(bls, tip, rs), v, msgs);
  }

  lemma NinetyRelayed(bls: Bls, tip: Hash, rs: RoundSeed, v: StepVote, msgs: seq<RatificationVote>,
                      backers: set<PublicKey>) returns (q: Quorum)
    requires Playable(rs) && bls.Aggregates() && v.vote.Valid? && Ninety(bls, tip, rs).Valid()
    requires OfNinety(Ninety(bls, tip, rs), v, Validation, v.vote) && bls.parses(v.signature)
    requires v.signer in rs.StepCommittee(5, Proposal).members
    requires forall rv | rv in msgs :: OfNinety(Ninety(bls, tip, rs), rv.sv, Ratification, v.vote)
    requires forall k | k in backers :: BackedIn(Ninety(bls, tip, rs), Ratification, VotesIn(msgs), 90, k, v.vote)
    requires var c := rs.StepCommittee(5, Validation);
             Total(Restrict(c.members, backers)) >= c.superMajority
    ensures q in AfterRun(Ninety(bls, tip, rs), 6, NinetyEvents(v, msgs)).relayed
    ensures q.header.iteration == 90 && q.att.result == Success(v.vote) && q.att.validation.bitset == 1
  {
    hide RoundSeed.Eligible, RoundSeed.StepCommittee, RoundOf, ToStep, Total, Waiting, Next, Run, PastRatifications,
      BackedIn, Restrict, Committee.Order, Start, TallyVotes, VotesIn, Bls.Aggregates;
    var rd, vote := Ninety(bls, tip, rs), v.vote;
    StepsOf90();
    NinetyCommittees(bls, tip, rs);
    NinetyWaits(bls, tip, rs, v);
    var n := Next(rd, Start(6), PastValidation(v));
    PastQuorumIsRelayed(rd, n, msgs, 90, vote, backers);
    RunFirst(rd, Start(6), PastValidation(v), PastRatifications(msgs));
    q := TakeRelayed(rd, Run(rd, n, PastRatifications(msgs)), 90, vote,
                     TallyVotes(ValCommittee(rd, 90), ValTally(n, 90, vote)));
  }

  lemma TakeRelayed(rd: Round, n: Node, it: Byte, vote: Vote, validation: StepVotes) returns (q: Quorum)
    requires HasRelayed(rd, n, it, vote, validation)
    ensures q in n.relayed && q.header == rd.Header(it) && q.att.result == Success(vote)
    ensures q.att.validation == validation
  {
    q :| q in n.relayed && q.header == rd.Header(it) && q.att.result == Success(vote)
         && q.att.validation == validation;
  }

  lemma FirstBitRefused(bls: Bls, header: ConsensusHeader, vote: Vote, sv: StepVotes, c: Committee)
    requires c.Valid() && LightFirst(c)
    requires vote.Valid? && sv.bitset == 1
    ensures VerifyVotes(bls, header, Validation, vote, sv, c) == Err(VoteSetTooSmall)
  {
    hide Intersect, Committee.TotalOccurrences, Committee.Order;
    FirstBit(c);
  }

  /** Without a received Quorum no relay is short. */
  lemma NothingMarked(rd: Round, v: StepVote, msgs: seq<RatificationVote>)
    requires rd.Valid()
    ensures NoShortRelay(rd, Start(6), NinetyEvents(v, msgs))
  {
    hide Next, ShortRelay, Run, Inv;
    NoQuorumEvents(msgs);
    StartUnmarked(6);
    UnmarkedRun(rd, Start(6), NinetyEvents(v, msgs));
  }

  lemma {:induction false} NoQuorumEvents(msgs: seq<RatificationVote>)
    ensures forall e | e in PastRatifications(msgs) :: !e.NetworkQuorum?
  {
    if msgs != [] { NoQuorumEvents(msgs[1..]); }
  }

  lemma {:induction false} UnmarkedRun(rd: Round, n: Node, events: seq<Event>)
    requires rd.Valid() && n.marked == {} && forall e | e in events :: !e.NetworkQuorum?
    ensures NoShortRelay(rd, n, events)
    decreases |events|
  {
    hide Next, Relays.Taken, Relays.Reaches, SideHolds;
    if events != [] {
      assert events[0] in events;
      assert forall e | e in events[1..] :: e in events;
      MarkedStep(rd, n, events[0]);
      UnmarkedRun(rd, Next(rd, n, events[0]), events[1..]);
    }
  }
}
