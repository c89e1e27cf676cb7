/** A node that hears enough faithful members emits their quorum, whatever the
    other members send in between. */
module Liveness {
  import opened Config
  import opened Messages
  import opened Collections
  import opened Verifiers
  import opened Aggregation
  import opened Tallies
  import opened Registry
  import opened Handlers
  import opened RoundRun

  // ---------------------------------------------------- the ratification step

  /** In a normal iteration, waiting for the ratification of `hash`. */
  predicate Ratifying(n: Node, hash: Hash) {
    n.cur < EMERGENCY_MODE_ITERATION_THRESHOLD && !n.closed && n.ratIter == n.cur
    && n.result.vote == Valid(hash)
  }

  /** The messages that the checks of the handler let through to the aggregator. */
  predicate LetThrough(cur: Byte, local: Vote, rv: RatificationVote) {
    rv.sv.header.iteration == cur && rv.result.vote == rv.sv.vote
    && (rv.sv.vote.NoQuorum? || rv.sv.vote == local)
  }

  function Passed(cur: Byte, local: Vote, msgs: seq<RatificationVote>): seq<StepVote> {
    if msgs == [] then []
    else (if LetThrough(cur, local, msgs[0]) then [msgs[0].sv] else []) + Passed(cur, local, msgs[1..])
  }

  function Ratifications(msgs: seq<RatificationVote>): seq<Event> {
    if msgs == [] then [] else [RatificationMsg(msgs[0])] + Ratifications(msgs[1..])
  }

  /** The node has emitted a Success quorum for `hash` at its iteration. */
  ghost predicate HasQuorum(rd: Round, n: Node, hash: Hash) {
    exists q | q in n.emitted :: q.header == rd.Header(n.cur) && q.att.result == Success(Valid(hash))
  }

  function RatTally(n: Node, vote: Vote): Tally {
    n.rat.At(ToStep(Ratification, n.cur), vote)
  }

  ghost predicate RatReached(rd: Round, n: Node, vote: Vote) {
    Reached(RatCommittee(rd, n.cur), vote, RatTally(n, vote))
  }

  /** One message: the aggregator sees it if it is taken, and the vote that
      completes a quorum makes the node emit it. */
  lemma OneRatification(rd: Round, n: Node, rv: RatificationVote, hash: Hash)
    requires rd.Valid() && Ratifying(n, hash)
    ensures var n' := Next(rd, n, RatificationMsg(rv));
            && Ratifying(n', hash) && n'.cur == n.cur
            && n'.rat == (if LetThrough(n.cur, Valid(hash), rv) then Feed(rd, Ratification, n.rat, [rv.sv]) else n.rat)
            && (HasQuorum(rd, n, hash) ==> HasQuorum(rd, n', hash))
            && (RatReached(rd, n', Valid(hash)) ==> RatReached(rd, n, Valid(hash)) || HasQuorum(rd, n', hash))
  {
    hide Collect, ToStep, Reached, TallyVotes, RecordVotes, VerifyValidationResult, Total;
    var n' := Next(rd, n, RatificationMsg(rv));
    assert [rv.sv][1..] == [];
    if Present(rd, n, rv.sv, Ratification) && LetThrough(n.cur, Valid(hash), rv) {
      var c := rd.committee(rv.sv.Step());
      CollectEffect(rd.bls, n.rat, c, rv.sv);
      var (a', r) := Collect(rd.bls, n.rat, c, rv.sv);
      assert n'.rat == a';
      if r.Ok? && r.value.1 && rv.sv.vote == Valid(hash) {
        assert n'.emitted[|n.emitted|] in n'.emitted;
      }
    }
  }

  /** A run of messages: the aggregator holds those that were taken, and a quorum
      reached on the way has been emitted. */
  lemma {:induction false} AllRatifications(rd: Round, n: Node, msgs: seq<RatificationVote>, hash: Hash)
    requires rd.Valid() && Ratifying(n, hash)
    requires RatReached(rd, n, Valid(hash)) ==> HasQuorum(rd, n, hash)
    ensures var n' := Run(rd, n, Ratifications(msgs));
            && Ratifying(n', hash) && n'.cur == n.cur
            && n'.rat == Feed(rd, Ratification, n.rat, Passed(n.cur, Valid(hash), msgs))
            && (RatReached(rd, n', Valid(hash)) ==> HasQuorum(rd, n', hash))
    decreases |msgs|
  {
    hide Next, HasQuorum, RatReached, Ratifying, LetThrough, Feed;
    if msgs == [] {
      assert Feed(rd, Ratification, n.rat, []) == n.rat by { FeedNothing(rd, Ratification, n.rat); }
    } else {
      var rv, rest := msgs[0], msgs[1..];
      OneRatification(rd, n, rv, hash);
      var n1 := Next(rd, n, RatificationMsg(rv));
      AllRatifications(rd, n1, rest, hash);
      assert Ratifications(msgs)[1..] == Ratifications(rest);
      assert Run(rd, n, Ratifications(msgs)) == Run(rd, n1, Ratifications(rest));
      FeedFirst(rd, Ratification, n.rat, rv.sv, Passed(n.cur, Valid(hash), rest));
      assert [] + Passed(n.cur, Valid(hash), rest) == Passed(n.cur, Valid(hash), rest);
    }
  }

  /** All ratification votes of `k` at `it` are usable ones for `vote`, carry a
      matching validation result, and there is one. */
  ghost predicate Ratifies(rd: Round, msgs: seq<RatificationVote>, it: Byte, k: PublicKey, vote: Vote) {
    (exists rv :: rv in msgs && IsVoteOf(rd, Ratification, rv.sv, it, k))
    && forall rv | rv in msgs && IsVoteOf(rd, Ratification, rv.sv, it, k) ::
         Usable(rd, rv.sv, vote) && rv.result.vote == vote
  }

  lemma {:induction false} PassedFrom(cur: Byte, local: Vote, msgs: seq<RatificationVote>, v: StepVote)
    requires v in Passed(cur, local, msgs)
    ensures exists rv :: rv in msgs && rv.sv == v
  {
    hide LetThrough;
    if !(LetThrough(cur, local, msgs[0]) && msgs[0].sv == v) {
      PassedFrom(cur, local, msgs[1..], v);
      var rv :| rv in msgs[1..] && rv.sv == v;
      assert rv in msgs;
    } else {
      assert msgs[0] in msgs;
    }
  }

  lemma {:induction false} PassedInto(cur: Byte, local: Vote, msgs: seq<RatificationVote>, rv: RatificationVote)
    requires rv in msgs && LetThrough(cur, local, rv)
    ensures rv.sv in Passed(cur, local, msgs)
  {
    hide LetThrough;
    if msgs[0] != rv { PassedInto(cur, local, msgs[1..], rv); }
  }

  lemma RatifiesIsFaithful(rd: Round, msgs: seq<RatificationVote>, it: Byte, k: PublicKey, vote: Vote)
    requires Ratifies(rd, msgs, it, k, vote)
    ensures Faithful(rd, Ratification, Passed(it, vote, msgs), it, k, vote)
  {
    var passed := Passed(it, vote, msgs);
    var rv :| rv in msgs && IsVoteOf(rd, Ratification, rv.sv, it, k);
    assert Usable(rd, rv.sv, vote);
    PassedInto(it, vote, msgs, rv);
    assert rv.sv in passed && IsVoteOf(rd, Ratification, rv.sv, it, k);
    forall v | v in passed && IsVoteOf(rd, Ratification, v, it, k) ensures Usable(rd, v, vote) {
      PassedFrom(it, vote, msgs, v);
      var w :| w in msgs && w.sv == v;
      assert IsVoteOf(rd, Ratification, w.sv, it, k);
    }
  }

  /** A node that has seen `hash` validated and hears ratifications of it that
      weigh enough emits the Success quorum, whatever else is sent to it. */
  lemma QuorumIsEmitted(rd: Round, n: Node, msgs: seq<RatificationVote>, hash: Hash, backers: set<PublicKey>)
    requires rd.Valid() && Sound(rd, Ratification, n.rat) && Ratifying(n, hash)
    requires n.rat.Voted(ToStep(Ratification, n.cur)) == map[]
    requires forall k | k in backers :: Ratifies(rd, msgs, n.cur, k, Valid(hash))
    requires var c := RatCommittee(rd, n.cur);
             Total(Restrict(c.members, backers)) >= c.superMajority
    ensures var n' := Run(rd, n, Ratifications(msgs));
            HasQuorum(rd, n', hash) && n'.cur == n.cur
  {
    hide Total, ToStep, Feed, Faithful, Ratifies, Run, Passed, Ratifications, First, Backs, HasQuorum;
    var vote, it, s := Valid(hash), n.cur, ToStep(Ratification, n.cur);
    var c := RatCommittee(rd, it);
    assert TallySound(rd, Ratification, it, vote, RatTally(n, vote)) && TallyUnique(n.rat, Ratification, it, vote);
    assert RatTally(n, vote).voters == map[];
    NothingReached(c, vote, RatTally(n, vote));
    AllRatifications(rd, n, msgs, hash);
    var passed := Passed(it, vote, msgs);
    FeedSound(rd, Ratification, n.rat, passed);
    var t := Feed(rd, Ratification, n.rat, passed).At(s, vote);
    assert TallySound(rd, Ratification, it, vote, t);
    forall k | k in Restrict(c.members, backers) ensures k in t.voters {
      RatifiesIsFaithful(rd, msgs, it, k, vote);
      FaithfulBacks(rd, Ratification, passed, it, k, vote);
      FirstVoteWins(rd, Ratification, n.rat, passed, it, vote, k);
    }
    SubmapTotal(Restrict(c.members, backers), t.voters);
  }

  // ------------------------------------------------------ the validation step

  predicate Validating(n: Node) {
    n.cur < EMERGENCY_MODE_ITERATION_THRESHOLD && !n.closed && n.valIter == n.cur
  }

  function Kept(cur: Byte, msgs: seq<StepVote>): seq<StepVote> {
    if msgs == [] then []
    else (if IsKept(cur, msgs[0]) then [msgs[0]] else []) + Kept(cur, msgs[1..])
  }

  predicate IsKept(cur: Byte, v: StepVote) {
    v.header.iteration == cur && !v.vote.NoQuorum?
  }

  function Validations(msgs: seq<StepVote>): seq<Event> {
    if msgs == [] then [] else [ValidationMsg(msgs[0])] + Validations(msgs[1..])
  }

  ghost predicate ValReached(rd: Round, n: Node, vote: Vote) {
    Reached(ValCommittee(rd, n.cur), vote, n.val.At(ToStep(Validation, n.cur), vote))
  }

  /** One message: the vote that completes a quorum becomes the result handed to
      Ratification, and no later one replaces it by another. */
  lemma OneValidation(rd: Round, n: Node, v: StepVote, vote: Vote)
    requires rd.Valid() && Validating(n) && Sound(rd, Validation, n.val)
    requires ValReached(rd, n, vote) ==> n.pending.vote == vote
    ensures var n' := Next(rd, n, ValidationMsg(v));
            && Validating(n') && n'.cur == n.cur && n'.rat == n.rat && Sound(rd, Validation, n'.val)
            && n'.val == (if IsKept(n.cur, v) then Feed(rd, Validation, n.val, [v]) else n.val)
            && (ValReached(rd, n', vote) ==> n'.pending.vote == vote)
  {
    hide Collect, ToStep, Reached, TallyVotes, RecordVotes, Total, Sound;
    var n' := Next(rd, n, ValidationMsg(v));
    assert [v][1..] == [];
    if Present(rd, n, v, Validation) && IsKept(n.cur, v) {
      var c := rd.committee(v.Step());
      CollectEffect(rd.bls, n.val, c, v);
      CollectSound(rd, n.val, v);
      if v.vote != vote {
        AtMostOneQuorum(rd, Validation, n'.val, n.cur, v.vote, vote);
      }
    }
  }

  lemma {:induction false} AllValidations(rd: Round, n: Node, msgs: seq<StepVote>, vote: Vote)
    requires rd.Valid() && Validating(n) && Sound(rd, Validation, n.val)
    requires ValReached(rd, n, vote) ==> n.pending.vote == vote
    ensures var n' := Run(rd, n, Validations(msgs));
            && Validating(n') && n'.cur == n.cur && n'.rat == n.rat
            && n'.val == Feed(rd, Validation, n.val, Kept(n.cur, msgs))
            && (ValReached(rd, n', vote) ==> n'.pending.vote == vote)
    decreases |msgs|
  {
    hide Next, ValReached, Validating, IsKept, Feed, Sound;
    if msgs == [] {
      FeedNothing(rd, Validation, n.val);
    } else {
      var v, rest := msgs[0], msgs[1..];
      OneValidation(rd, n, v, vote);
      var n1 := Next(rd, n, ValidationMsg(v));
      AllValidations(rd, n1, rest, vote);
      assert Validations(msgs)[1..] == Validations(rest);
      assert Run(rd, n, Validations(msgs)) == Run(rd, n1, Validations(rest));
      FeedFirst(rd, Validation, n.val, v, Kept(n.cur, rest));
      assert [] + Kept(n.cur, rest) == Kept(n.cur, rest);
    }
  }

  lemma {:induction false} KeptVotes(cur: Byte, msgs: seq<StepVote>, v: StepVote)
    ensures v in Kept(cur, msgs) <==> v in msgs && IsKept(cur, v)
  {
    if msgs != [] { KeptVotes(cur, msgs[1..], v); }
  }

  lemma KeptIsFaithful(rd: Round, msgs: seq<StepVote>, it: Byte, k: PublicKey, vote: Vote)
    requires Faithful(rd, Validation, msgs, it, k, vote) && !vote.NoQuorum?
    ensures Faithful(rd, Validation, Kept(it, msgs), it, k, vote)
  {
    var v :| v in msgs && IsVoteOf(rd, Validation, v, it, k) && Usable(rd, v, vote);
    KeptVotes(it, msgs, v);
    forall w | w in Kept(it, msgs) && IsVoteOf(rd, Validation, w, it, k) ensures Usable(rd, w, vote) {
      KeptVotes(it, msgs, w);
    }
  }

  // ----------------------------------------------------------- one iteration

  lemma {:induction false} RunAppend(rd: Round, n: Node, x: seq<Event>, y: seq<Event>)
    requires rd.Valid()
    ensures Run(rd, n, x + y) == Run(rd, Run(rd, n, x), y)
    decreases |x|
  {
    hide Next;
    if x == [] {
      assert x + y == y;
    } else {
      assert (x + y)[1..] == x[1..] + y;
      RunAppend(rd, Next(rd, n, x[0]), x[1..], y);
    }
  }

  /** Nobody has voted in the step yet. */
  predicate Untouched(n: Node, name: StepName) {
    VotesOf(n, name).Voted(ToStep(name, n.cur)) == map[]
  }

  /** Members that weigh enough and validate `hash` make it the local result. */
  lemma ResultIsReached(rd: Round, n: Node, msgs: seq<StepVote>, hash: Hash, backers: set<PublicKey>)
    requires rd.Valid() && Sound(rd, Validation, n.val) && Validating(n) && Untouched(n, Validation)
    requires forall k | k in backers :: Faithful(rd, Validation, msgs, n.cur, k, Valid(hash))
    requires var c := ValCommittee(rd, n.cur);
             Total(Restrict(c.members, backers)) >= c.superMajority
    ensures var n' := Run(rd, n, Validations(msgs));
            n'.pending.vote == Valid(hash) && Validating(n') && n'.cur == n.cur && n'.rat == n.rat
  {
    hide Total, ToStep, Feed, Faithful, Run, Kept, Validations, First, Backs;
    var vote, it, s := Valid(hash), n.cur, ToStep(Validation, n.cur);
    var c := ValCommittee(rd, it);
    assert TallyUnique(n.val, Validation, it, vote);
    assert n.val.At(s, vote).voters == map[];
    NothingReached(c, vote, n.val.At(s, vote));
    AllValidations(rd, n, msgs, vote);
    var kept := Kept(it, msgs);
    FeedSound(rd, Validation, n.val, kept);
    var t := Feed(rd, Validation, n.val, kept).At(s, vote);
    assert TallySound(rd, Validation, it, vote, t);
    forall k | k in Restrict(c.members, backers) ensures k in t.voters {
      KeptIsFaithful(rd, msgs, it, k, vote);
      FaithfulBacks(rd, Validation, kept, it, k, vote);
      FirstVoteWins(rd, Validation, n.val, kept, it, vote, k);
    }
    SubmapTotal(Restrict(c.members, backers), t.voters);
  }

  /** The events of an iteration in which both voting steps hear from the members. */
  function Iteration(validations: seq<StepVote>, ratifications: seq<RatificationVote>): seq<Event> {
    [StartValidation] + (Validations(validations) + ([StartRatification(false)] + Ratifications(ratifications)))
  }

  lemma IterationRun(rd: Round, n: Node, validations: seq<StepVote>, ratifications: seq<RatificationVote>)
    requires rd.Valid()
    ensures var validated := Run(rd, Next(rd, n, StartValidation), Validations(validations));
            Run(rd, n, Iteration(validations, ratifications))
            == Run(rd, Next(rd, validated, StartRatification(false)), Ratifications(ratifications))
  {
    hide Validations, Ratifications, Next;
    var x, y, z := Validations(validations), [StartRatification(false)], Ratifications(ratifications);
    var n1 := Next(rd, n, StartValidation);
    RunFirst(rd, n, StartValidation, x + (y + z));
    RunAppend(rd, n1, x, y + z);
    RunFirst(rd, Run(rd, n1, x), StartRatification(false), z);
  }

  /** A normal iteration succeeds, from any sound state in which it is open and
      nobody has voted in it: when members with a supermajority of each committee
      vote for `hash`, the node emits a Success quorum for it that passes
      verification, in any order of the votes and whatever the other members send
      in between. */
  lemma IterationSucceeds(rd: Round, n: Node, hash: Hash,
                          validations: seq<StepVote>, validators: set<PublicKey>,
                          ratifications: seq<RatificationVote>, ratifiers: set<PublicKey>)
    returns (q: Quorum)
    requires rd.Valid() && Inv(rd, n) && n.cur < EMERGENCY_MODE_ITERATION_THRESHOLD && !n.closed
    requires Untouched(n, Validation) && Untouched(n, Ratification)
    requires forall k | k in validators :: Faithful(rd, Validation, validations, n.cur, k, Valid(hash))
    requires forall k | k in ratifiers :: Ratifies(rd, ratifications, n.cur, k, Valid(hash))
    requires Total(Restrict(ValCommittee(rd, n.cur).members, validators)) >= ValCommittee(rd, n.cur).superMajority
    requires Total(Restrict(RatCommittee(rd, n.cur).members, ratifiers)) >= RatCommittee(rd, n.cur).superMajority
    ensures q in Run(rd, n, Iteration(validations, ratifications)).emitted
    ensures q.header == rd.Header(n.cur) && q.att.result == Success(Valid(hash)) && FullySound(rd, q)
  {
    hide Total, ToStep, Faithful, Ratifies, VerifyVotes, Run, Validations, Ratifications, Sound, RegistrySound, NoQuorumUntallied;
    var n1 := Next(rd, n, StartValidation);
    var n2 := Run(rd, n1, Validations(validations));
    ResultIsReached(rd, n1, validations, hash, validators);
    var n3 := Next(rd, n2, StartRatification(false));
    QuorumIsEmitted(rd, n3, ratifications, hash, ratifiers);
    IterationRun(rd, n, validations, ratifications);
    var last := Run(rd, n3, Ratifications(ratifications));
    q :| q in last.emitted && q.header == rd.Header(last.cur) && q.att.result == Success(Valid(hash));
    RunKeepsInv(rd, n, Iteration(validations, ratifications));
    assert EmittedSound(rd, q);
  }

  // -------------------------------------------------- it is always reached

  /** Nobody has voted in an iteration that has not begun. */
  ghost predicate FutureUntouched(n: Node) {
    n.cur < CONSENSUS_MAX_ITER &&
    forall it: Byte, name: StepName | n.cur < it < CONSENSUS_MAX_ITER && !name.Proposal? ::
      VotesOf(n, name).Voted(ToStep(name, it)) == map[]
  }

  lemma CollectTouches(rd: Round, a: Votes, v: StepVote, it: Byte, name: StepName)
    requires rd.Valid() && rd.Admits(v) && v.step == name && v.header.iteration != it
    ensures Collect(rd.bls, a, rd.committee(v.Step()), v).0.Voted(ToStep(name, it)) == a.Voted(ToStep(name, it))
  {
    hide Collect, ToStep, TallyVotes, Reached, Added;
    SameStep(name, v.header.iteration, it);
    CollectEffect(rd.bls, a, rd.committee(v.Step()), v);
  }

  /** A vote of an iteration begun, or with a wrapped step number. */
  predicate Counted(n: Node, v: StepVote) {
    v.header.iteration <= n.cur || v.header.iteration >= CONSENSUS_MAX_ITER
  }

  /** A step changes at most one of the two tallies, by one accepted vote. */
  ghost predicate Collects(rd: Round, n: Node, n': Node, name: StepName)
    requires forall s :: rd.committee(s).Valid()
  {
    VotesOf(n', name) == VotesOf(n, name)
    || exists v: StepVote :: rd.Admits(v) && v.step == name && Counted(n, v)
                             && VotesOf(n', name) == OneVote(rd, VotesOf(n, name), v)
  }

  lemma NextCollects(rd: Round, n: Node, e: Event, name: StepName)
    requires rd.Valid() && !name.Proposal?
    ensures Collects(rd, n, Next(rd, n, e), name)
  {
    hide Collect, ToStep, MatchResult, RecordVotes, VerifyVotes, RecordAttestation, HasFailed;
    match e
    case ValidationMsg(v) => CollectsVote(rd, n, Next(rd, n, e), v, name);
    case PastValidation(v) => CollectsVote(rd, n, Next(rd, n, e), v, name);
    case RatificationMsg(rv) => CollectsVote(rd, n, Next(rd, n, e), rv.sv, name);
    case PastRatification(rv) => CollectsVote(rd, n, Next(rd, n, e), rv.sv, name);
    case _ =>
  }

  lemma CollectsVote(rd: Round, n: Node, n': Node, v: StepVote, name: StepName)
    requires rd.Valid()
    requires VotesOf(n', name) == VotesOf(n, name)
             || (rd.Admits(v) && v.step == name && Counted(n, v)
                 && VotesOf(n', name) == OneVote(rd, VotesOf(n, name), v))
    ensures Collects(rd, n, n', name)
  {
  }

  lemma NextUntouched(rd: Round, n: Node, e: Event)
    requires rd.Valid() && FutureUntouched(n)
    ensures FutureUntouched(Next(rd, n, e)) && n.cur <= Next(rd, n, e).cur
  {
    hide ToStep, OnValidation, OnRatification, OnPastValidation, OnPastRatification, OnNetworkQuorum, Collect;
    var n' := Next(rd, n, e);
    assert n.cur <= n'.cur < CONSENSUS_MAX_ITER by { CurGrows(rd, n, e); }
    forall it: Byte, name: StepName | n'.cur < it < CONSENSUS_MAX_ITER && !name.Proposal?
      ensures VotesOf(n', name).Voted(ToStep(name, it)) == map[]
    {
      assert VotesOf(n, name).Voted(ToStep(name, it)) == map[];
      NextCollects(rd, n, e, name);
      if VotesOf(n', name) != VotesOf(n, name) {
        var v :| rd.Admits(v) && v.step == name && Counted(n, v)
                 && VotesOf(n', name) == OneVote(rd, VotesOf(n, name), v);
        CollectTouches(rd, VotesOf(n, name), v, it, name);
      }
    }
  }

  lemma CurGrows(rd: Round, n: Node, e: Event)
    requires rd.Valid() && n.cur < CONSENSUS_MAX_ITER
    ensures n.cur <= Next(rd, n, e).cur < CONSENSUS_MAX_ITER
  {
    hide Record, MatchResult, VerifyVotes, RecordAttestation, HasFailed;
  }

  lemma {:induction false} RunUntouched(rd: Round, n: Node, events: seq<Event>)
    requires rd.Valid() && FutureUntouched(n)
    ensures FutureUntouched(Run(rd, n, events))
    decreases |events|
  {
    hide FutureUntouched, Next;
    if events != [] {
      NextUntouched(rd, n, events[0]);
      RunUntouched(rd, Next(rd, n, events[0]), events[1..]);
    }
  }

  lemma StartUntouched(iter: Byte)
    requires iter < CONSENSUS_MAX_ITER
    ensures FutureUntouched(Start(iter))
  {
    hide ToStep;
  }

  /** After any run whatever, the next normal iteration is one that can succeed:
      open, sound and with no vote yet. */
  lemma NextIterationIsOpen(rd: Round, iter: Byte, events: seq<Event>)
    requires rd.Valid() && iter < CONSENSUS_MAX_ITER
    requires AfterRun(rd, iter, events).cur < EMERGENCY_MODE_ITERATION_THRESHOLD - 1
    ensures var n := Next(rd, AfterRun(rd, iter, events), Begin);
            && Inv(rd, n) && n.cur < EMERGENCY_MODE_ITERATION_THRESHOLD && !n.closed
            && Untouched(n, Validation) && Untouched(n, Ratification)
  {
    hide Run, Inv, ToStep, Start;
    var before := AfterRun(rd, iter, events);
    StartInv(rd, iter);
    StartUntouched(iter);
    RunKeepsInv(rd, Start(iter), events);
    RunUntouched(rd, Start(iter), events);
    NextKeepsInv(rd, before, Begin);
    assert VotesOf(before, Validation).Voted(ToStep(Validation, before.cur + 1)) == map[];
    assert VotesOf(before, Ratification).Voted(ToStep(Ratification, before.cur + 1)) == map[];
  }
}
