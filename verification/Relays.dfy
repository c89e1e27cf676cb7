/** Quorums relayed from votes of past iterations: exactly when they verify. */
module Relays {
  import opened Config
  import opened Messages
  import opened Collections
  import opened Committees
  import opened Verifiers
  import opened Aggregation
  import opened Registry
  import opened Handlers
  import opened RoundRun

  /** The votes a past ratification vote leaves behind. */
  function After(rd: Round, n: Node, rv: RatificationVote): Tally
    requires forall s :: rd.committee(s).Valid()
  {
    OnPastRatification(rd, n, rv).rat.At(rv.sv.Step(), rv.sv.vote)
  }

  /** The aggregator takes the vote. */
  predicate Taken(rd: Round, n: Node, rv: RatificationVote)
    requires forall s :: rd.committee(s).Valid()
  {
    Past(rd, n, rv.sv, Ratification) && rv.sv.vote.Valid? && RecordAt(rd, n, rv.sv).result.Ok?
  }

  ghost predicate Reaches(rd: Round, n: Node, rv: RatificationVote)
    requires forall s :: rd.committee(s).Valid()
  {
    Reached(rd.committee(rv.sv.Step()), rv.sv.vote, After(rd, n, rv))
  }

  ghost predicate Validated(rd: Round, n: Node, rv: RatificationVote)
    requires forall s :: rd.committee(s).Valid()
  {
    var it := rv.sv.header.iteration;
    Reached(ValCommittee(rd, it), rv.sv.vote, n.val.At(ToStep(Validation, it), rv.sv.vote))
  }

  predicate UnderMark(n: Node, rv: RatificationVote) {
    (rv.sv.header.iteration, rv.sv.vote) in n.marked
  }

  /** The Quorum the vote makes the node relay, if it relays one. */
  function Relay(rd: Round, n: Node, rv: RatificationVote): Option<Quorum>
    requires forall s :: rd.committee(s).Valid()
  {
    var n' := OnPastRatification(rd, n, rv);
    if |n'.relayed| > |n.relayed| then Some(n'.relayed[|n.relayed|]) else None
  }

  /** The ratification votes of the Quorum are refused as too few. */
  ghost predicate TooSmall(rd: Round, q: Quorum) {
    VerifyVotes(rd.bls, q.header, Ratification, q.att.result.vote, q.att.ratification,
                RatCommittee(rd, q.header.iteration)) == Err(VoteSetTooSmall)
  }

  /** A taken vote is relayed exactly when both tallies reach their quorum or the
      entry is marked, and what is relayed carries the current ratification tally,
      so that it passes `verify_votes` exactly when that tally reaches its quorum. */
  lemma RelayExact(rd: Round, n: Node, rv: RatificationVote)
    requires rd.Valid() && Inv(rd, n) && Taken(rd, n, rv)
    ensures var it := rv.sv.header.iteration;
            var relay := Relay(rd, n, rv);
            && (relay.Some? <==> UnderMark(n, rv) || (Validated(rd, n, rv) && Reaches(rd, n, rv)))
            && (relay.Some? ==>
                  var q := relay.value;
                  && q.header == rd.Header(it) && q.att.result == Success(rv.sv.vote)
                  && q.att.validation == Info(n.reg, it, rv.sv.vote).att.validation
                  && (Reaches(rd, n, rv) ==> SideVerifies(rd, it, rv.sv.vote, Ratification, q.att.ratification))
                  && (!Reaches(rd, n, rv) ==> TooSmall(rd, q))
                  && (!UnderMark(n, rv) ==> FullySound(rd, q)))
  {
    hide ToStep, Total, TallyVotes, Reached, Sound, VerifyVotes, Intersect, Record, FullySound, NoQuorumUntallied, SideVerifies;
    var v, it := rv.sv, rv.sv.header.iteration;
    var d := RecordAt(rd, n, v);
    RecordEffect(rd, n.rat, n.reg, v, rd.generator(it));
    RecordOutcome(rd, n, v);
    ResultKept(rd, n, v);
    RecordRegistry(rd, n, v);
    AggregatorMeetsVerifier(rd, Ratification, d.votes, it, v.vote);
    assert EntrySound(rd, n, it, v.vote);
    if !UnderMark(n, rv) { AcceptedMirrors(rd, n, v); }
  }

  // --------------------------------------------------------------- all runs

  /** The event adds to a marked entry a ratification vote that does not complete
      a quorum, or does so beside the votes of a validation tally that has none. */
  ghost predicate ShortRelay(rd: Round, n: Node, e: Event)
    requires forall s :: rd.committee(s).Valid()
  {
    e.PastRatification? && Taken(rd, n, e.rv) && UnderMark(n, e.rv)
    && !(Reaches(rd, n, e.rv) && SideHolds(rd, n, e.rv.sv.header.iteration, e.rv.sv.vote, Validation))
  }

  ghost predicate NoShortRelay(rd: Round, n: Node, events: seq<Event>)
    requires forall s :: rd.committee(s).Valid()
    decreases |events|
  {
    events == [] || (!ShortRelay(rd, n, events[0]) && NoShortRelay(rd, Next(rd, n, events[0]), events[1..]))
  }

  ghost predicate AllSound(rd: Round, n: Node) {
    forall q | q in n.relayed :: FullySound(rd, q)
  }

  /** A vote that is not taken is not relayed. */
  lemma OnlyTaken(rd: Round, n: Node, rv: RatificationVote)
    requires rd.Valid() && Inv(rd, n) && Past(rd, n, rv.sv, Ratification) && !Taken(rd, n, rv)
    ensures OnPastRatification(rd, n, rv).relayed == n.relayed
  {
    hide ToStep, Total, TallyVotes, Reached, Sound, VerifyVotes, Intersect, RegistrySound, NoQuorumUntallied, Collect, RelayedSound;
    if !Skipped(rv.sv) { ResultKept(rd, n, rv.sv); } else { RecordFrame(rd, n.rat, n.reg, rv.sv, rd.generator(rv.sv.header.iteration)); }
  }

  lemma RelayAppends(rd: Round, n: Node, rv: RatificationVote)
    requires rd.Valid()
    ensures OnPastRatification(rd, n, rv).relayed
            == n.relayed + if Relay(rd, n, rv).Some? then [Relay(rd, n, rv).value] else []
  {
    hide Record;
  }

  /** What is relayed verifies exactly when the ratification tally reaches its
      quorum and the validation votes are received ones or reach theirs. */
  lemma RelayFull(rd: Round, n: Node, rv: RatificationVote)
    requires rd.Valid() && Inv(rd, n) && Taken(rd, n, rv) && Relay(rd, n, rv).Some?
    ensures FullySound(rd, Relay(rd, n, rv).value) <==>
              (UnderMark(n, rv) ==>
                 Reaches(rd, n, rv) && SideHolds(rd, n, rv.sv.header.iteration, rv.sv.vote, Validation))
  {
    hide Inv, Record, OnPastRatification, Reaches, VerifyVotes, SideHolds;
    RelayExact(rd, n, rv);
    if UnderMark(n, rv) {
      MarkedEntry(rd, n, rv.sv.header.iteration, rv.sv.vote);
      MarkedSide(rd, n, rv.sv.header.iteration, rv.sv.vote, Validation);
    }
  }

  lemma RelayStep(rd: Round, n: Node, e: Event)
    requires rd.Valid() && Inv(rd, n)
    ensures AllSound(rd, Next(rd, n, e)) <==> AllSound(rd, n) && !ShortRelay(rd, n, e)
  {
    hide Inv, FullySound, Record, MatchResult, OnPastRatification, Reaches, SideVerifies, SideHolds, VerifyVotes, AdmitsQuorum;
    if e.PastRatification? && Past(rd, n, e.rv.sv, Ratification) {
      if Taken(rd, n, e.rv) {
        RelayExact(rd, n, e.rv);
        RelayAppends(rd, n, e.rv);
        if Relay(rd, n, e.rv).Some? { RelayFull(rd, n, e.rv); }
      } else {
        OnlyTaken(rd, n, e.rv);
      }
    }
  }

  lemma {:induction false} RelaysFrom(rd: Round, n: Node, events: seq<Event>)
    requires rd.Valid() && Inv(rd, n)
    ensures AllSound(rd, Run(rd, n, events)) <==> AllSound(rd, n) && NoShortRelay(rd, n, events)
    decreases |events|
  {
    hide Inv, Next, ShortRelay, AllSound;
    if events != [] {
      RelayStep(rd, n, events[0]);
      NextKeepsInv(rd, n, events[0]);
      RelaysFrom(rd, Next(rd, n, events[0]), events[1..]);
    }
  }

  /** Over any run, all relayed Quorums verify if and only if no event adds to a
      marked entry a vote that leaves it short. */
  lemma RelayedVerifyIff(rd: Round, iter: Byte, events: seq<Event>)
    requires rd.Valid() && iter < CONSENSUS_MAX_ITER
    ensures (forall q | q in AfterRun(rd, iter, events).relayed :: FullySound(rd, q))
            <==> NoShortRelay(rd, Start(iter), events)
  {
    hide Inv, Run, NoShortRelay, FullySound, Start;
    StartInv(rd, iter);
    StartUnmarked(iter);
    RelaysFrom(rd, Start(iter), events);
  }

  // -------------------------------------------------------- a run that fails

  /** A received Quorum, the next iteration, one vote. */
  function ThreeEvents(q: Quorum, rv: RatificationVote): seq<Event> {
    [NetworkQuorum(q), Begin, PastRatification(rv)]
  }

  /** With a Fail tag on a Valid vote, the first past ratification vote of a member
      that is no quorum by itself is relayed as a Quorum that does not verify. */
  lemma MistaggedRelay(rd: Round, q: Quorum, rv: RatificationVote)
    requires rd.Valid() && q.header.iteration < CONSENSUS_MAX_ITER - 1 && Mistagged(q)
    requires AdmitsQuorum(rd, Start(q.header.iteration), q)
    requires rd.Admits(rv.sv) && rv.sv.step == Ratification && (rv.sv.header.iteration, rv.sv.vote) == Entry(q)
    requires var c := RatCommittee(rd, q.header.iteration);
             rv.sv.signer in c.members && c.members[rv.sv.signer] < c.superMajority
    requires rd.bls.parses(rv.sv.signature)
    ensures var relayed := AfterRun(rd, q.header.iteration, ThreeEvents(q, rv)).relayed;
            |relayed| == 1 && relayed[0].att.result == Success(rv.sv.vote) && TooSmall(rd, relayed[0])
  {
    hide ToStep, TooSmall, Inv, AdmitsQuorum, Run, Start, Next, Taken, Total, OnPastRatification, SideVerifies;
    var n := MarkedNode(rd, q);
    AfterMark(rd, q);
    assert Past(rd, n, rv.sv, Ratification) by { EarlierIsPast(q.header.iteration, n.cur); }
    FirstVote(rd, n, rv);
    RelayExact(rd, n, rv);
    RelayAppends(rd, n, rv);
    RunMarked(rd, q, rv);
  }

  lemma EarlierIsPast(it: Byte, cur: Byte)
    requires it < cur < CONSENSUS_MAX_ITER
    ensures ToStep(Ratification, it) < ToStep(Ratification, cur)
  {
  }

  function MarkedNode(rd: Round, q: Quorum): Node
    requires forall s :: rd.committee(s).Valid()
  {
    Next(rd, Next(rd, Start(q.header.iteration), NetworkQuorum(q)), Begin)
  }

  lemma AfterMark(rd: Round, q: Quorum)
    requires rd.Valid() && q.header.iteration < CONSENSUS_MAX_ITER - 1 && Mistagged(q)
    requires AdmitsQuorum(rd, Start(q.header.iteration), q)
    ensures var n := MarkedNode(rd, q);
            && Inv(rd, n) && Entry(q) in n.marked && n.rat == Votes(map[], map[]) && n.relayed == []
            && q.header.iteration < n.cur < CONSENSUS_MAX_ITER
  {
    hide Inv, AdmitsQuorum, RecordAttestation;
    var n0 := Start(q.header.iteration);
    StartInv(rd, q.header.iteration);
    NextKeepsInv(rd, n0, NetworkQuorum(q));
    NextKeepsInv(rd, Next(rd, n0, NetworkQuorum(q)), Begin);
    assert !HasFailed(n0.reg, q.header.iteration);
  }

  lemma RunMarked(rd: Round, q: Quorum, rv: RatificationVote)
    requires rd.Valid() && Past(rd, MarkedNode(rd, q), rv.sv, Ratification)
    ensures AfterRun(rd, q.header.iteration, ThreeEvents(q, rv)) == OnPastRatification(rd, MarkedNode(rd, q), rv)
  {
    hide OnPastRatification, OnNetworkQuorum, AdmitsQuorum, Past;
    var n0, e := Start(q.header.iteration), PastRatification(rv);
    assert ThreeEvents(q, rv) == [NetworkQuorum(q)] + ([Begin] + ([e] + []));
    RunFirst(rd, n0, NetworkQuorum(q), [Begin] + ([e] + []));
    RunFirst(rd, Next(rd, n0, NetworkQuorum(q)), Begin, [e] + []);
    RunFirst(rd, MarkedNode(rd, q), e, []);
  }

  /** The first vote of a step is taken, and weighs what its signer weighs. */
  lemma FirstVote(rd: Round, n: Node, rv: RatificationVote)
    requires rd.Valid() && Past(rd, n, rv.sv, Ratification) && rv.sv.vote.Valid?
    requires n.rat == Votes(map[], map[]) && rd.bls.parses(rv.sv.signature)
    requires rv.sv.signer in rd.committee(rv.sv.Step()).members
    ensures Taken(rd, n, rv)
    ensures After(rd, n, rv).voters
            == map[rv.sv.signer := rd.committee(rv.sv.Step()).members[rv.sv.signer]]
    ensures Total(After(rd, n, rv).voters) == rd.committee(rv.sv.Step()).members[rv.sv.signer]
  {
    hide ToStep, TallyVotes, Reached, VerifyVotes, RecordVotes;
    var w := rd.committee(rv.sv.Step()).members[rv.sv.signer];
    EmptyTotal();
    TotalInsert(map[], rv.sv.signer, w);
    assert map[][rv.sv.signer := w] == map[rv.sv.signer := w];
  }

  function EverySigned(): (PublicKey, Bytes) -> bool {
    (_: PublicKey, _: Bytes) => true
  }

  /** A round of three members that signed everything. */
  function ThreeRound(tip: Hash, round: U64): Round {
    Round(IdealBls(EverySigned()), tip, round, (_: nat) => THREE, (_: nat) => 1)
  }

  /** Such a run exists in every emergency iteration but the last, whose votes are
      never past, and for every hash: the condition on received tags cannot be
      dropped. */
  lemma MistaggedRunExists(tip: Hash, round: U64, it: Byte, hash: Hash)
    returns (rd: Round, events: seq<Event>, q: Quorum)
    requires IsEmergencyIter(it) && it < CONSENSUS_MAX_ITER - 1
    ensures rd.Valid() && q in AfterRun(rd, it, events).relayed && TooSmall(rd, q)
    ensures !Untagged(events, it, Valid(hash))
  {
    hide VerifyVotes, Total, AfterRun, TooSmall, IdealBls;
    rd := ThreeRound(tip, round);
    ThreeValid();
    ThreeMembers();
    IdealBlsLaws(EverySigned());
    var vote, header := Valid(hash), rd.Header(it);
    var voters: map<PublicKey, nat> := map[1 := 21, 2 := 22];
    var validation := IdealQuorum(EverySigned(), header, Validation, vote, THREE, voters);
    var ratification := IdealQuorum(EverySigned(), header, Ratification, vote, THREE, voters);
    var received := Quorum(header, Attestation(Fail(vote), validation, ratification));
    var v := StepVote(Ratification, header, vote, 1, EMPTY_SIGNATURE);
    IdealAdmits(rd, v);
    var rv := RatificationVote(v, DEFAULT_VALIDATION_RESULT);
    MistaggedRelay(rd, received, rv);
    events := ThreeEvents(received, rv);
    q := AfterRun(rd, it, events).relayed[0];
    assert events[0] == NetworkQuorum(received) && events[0] in events;
  }

  lemma IdealAdmits(rd: Round, v: StepVote)
    requires rd.bls == IdealBls(EverySigned()) && !v.step.Proposal?
    requires v.header == rd.Header(v.header.iteration)
    ensures rd.Admits(v) && rd.bls.parses(v.signature)
  {
  }
}
