/** One node during one round: every message it may receive, in any order, and
    what holds of its tallies, its registry and the quorums it emits. */
module RoundRun {
  import opened Config
  import opened Messages
  import opened Collections
  import opened Committees
  import opened Verifiers
  import opened Aggregation
  import opened Registry
  import opened Handlers

  /** `closed` is set when a received attestation ends the current iteration;
      `pending` is the message the Validation step hands to Ratification;
      `emitted` are the Quorums that steps returned and `relayed` those found
      among votes of past iterations. `marked` is a record, read by no step, of
      the emergency entries a Fail tag on a Valid vote was filed under. */
  datatype Node = Node(
    cur: Byte, closed: bool, valIter: Byte, ratIter: Byte,
    val: Votes, rat: Votes, reg: Attestations,
    pending: ValidationResult, result: ValidationResult,
    emitted: seq<Quorum>, relayed: seq<Quorum>, marked: set<(Byte, Vote)>)

  datatype Event =
    | Begin
    | StartValidation
    | StartRatification(timedOut: bool)
    | ValidationMsg(v: StepVote)
    | RatificationMsg(rv: RatificationVote)
    | PastValidation(v: StepVote)
    | PastRatification(rv: RatificationVote)
    | NetworkQuorum(q: Quorum)

  function Start(iter: Byte): Node {
    Node(iter, false, 0, 0, Votes(map[], map[]), Votes(map[], map[]), map[],
         DEFAULT_VALIDATION_RESULT, DEFAULT_VALIDATION_RESULT, [], [], {})
  }

  function ValCommittee(rd: Round, it: Byte): Committee { rd.committee(ToStep(Validation, it)) }

  function RatCommittee(rd: Round, it: Byte): Committee { rd.committee(ToStep(Ratification, it)) }

  /** Admitted by `is_valid` as a message of the current step. */
  predicate Present(rd: Round, n: Node, v: StepVote, name: StepName) {
    rd.Admits(v) && v.step == name && v.header.iteration == n.cur && !n.closed
  }

  /** Let through by `handle_past_msg`: emergency iterations only, with a step
      number before the running one. A wrapped number can be that too. */
  predicate Past(rd: Round, n: Node, v: StepVote, name: StepName) {
    rd.Admits(v) && v.step == name && IsEmergencyIter(v.header.iteration)
    && v.Step() < ToStep(Ratification, n.cur)
  }

  /** A Quorum message for this branch and an iteration already begun whose two
      vote sets verify. Nothing ties its Success or Fail tag to its vote. */
  predicate AdmitsQuorum(rd: Round, n: Node, q: Quorum) {
    var it := q.header.iteration;
    var vote := q.att.result.vote;
    q.header == rd.Header(it) && it <= n.cur
    && VerifyVotes(rd.bls, q.header, Validation, vote, q.att.validation, ValCommittee(rd, it)).Ok?
    && VerifyVotes(rd.bls, q.header, Ratification, vote, q.att.ratification, RatCommittee(rd, it)).Ok?
  }

  function OnValidation(rd: Round, n: Node, v: StepVote): Node
    requires forall s :: rd.committee(s).Valid()
  {
    var (val, reg, outcome) := ValidationCollect(
      rd.bls, n.val, n.valIter, n.reg, rd.committee(v.Step()), v, rd.generator(v.header.iteration));
    n.(val := val, reg := reg, pending := if outcome.Ready? then outcome.value else n.pending)
  }

  function OnRatification(rd: Round, n: Node, rv: RatificationVote): Node
    requires forall s :: rd.committee(s).Valid()
  {
    var it := rv.sv.header.iteration;
    var (rat, result, reg, outcome) := RatificationCollect(
      rd.bls, n.rat, n.result, n.ratIter, n.reg, rd.Header(it), rd.committee(rv.sv.Step()),
      ValCommittee(rd, it), rv, rd.generator(it));
    n.(rat := rat, result := result, reg := reg,
       emitted := if outcome.Ready? then n.emitted + [outcome.value] else n.emitted)
  }

  function OnPastValidation(rd: Round, n: Node, v: StepVote): Node
    requires forall s :: rd.committee(s).Valid()
  {
    var (val, reg, _) := ValidationPast(
      rd.bls, n.val, n.reg, rd.committee(v.Step()), v, rd.generator(v.header.iteration));
    n.(val := val, reg := reg)
  }

  /** Only Valid quorums of past iterations are propagated. */
  function OnPastRatification(rd: Round, n: Node, rv: RatificationVote): Node
    requires forall s :: rd.committee(s).Valid()
  {
    var it := rv.sv.header.iteration;
    var (rat, reg, outcome) := RatificationPast(
      rd.bls, n.rat, n.reg, rd.Header(it), rd.committee(rv.sv.Step()), rv, rd.generator(it));
    n.(rat := rat, reg := reg,
       relayed := if outcome.Ready? && outcome.value.att.result.vote.Valid?
                  then n.relayed + [outcome.value] else n.relayed)
  }

  /** A Fail tag on the vote of a Success, in an emergency iteration. */
  predicate Mistagged(q: Quorum) {
    q.att.result.Fail? && q.att.result.vote.Valid? && IsEmergencyIter(q.header.iteration)
  }

  function Entry(q: Quorum): (Byte, Vote) {
    (q.header.iteration, q.att.result.vote)
  }

  /** An attestation tagged Fail is stored unless a Fail attestation is known; a
      Quorum of the current iteration ends it. */
  function OnNetworkQuorum(rd: Round, n: Node, q: Quorum): Node {
    var it := q.header.iteration;
    var stored := q.att.result.Fail? && !HasFailed(n.reg, it);
    n.(reg := if stored then RecordAttestation(n.reg, it, q.att, rd.generator(it)) else n.reg,
       closed := n.closed || it == n.cur,
       marked := if stored && Mistagged(q) then n.marked + {Entry(q)} else n.marked)
  }

  function Next(rd: Round, n: Node, e: Event): Node
    requires forall s :: rd.committee(s).Valid()
  {
    match e
    case Begin =>
      n.(cur := NextIter(n.cur), closed := false, pending := DEFAULT_VALIDATION_RESULT)
    case StartValidation => n.(valIter := n.cur, pending := DEFAULT_VALIDATION_RESULT)
    case StartRatification(timedOut) =>
      n.(ratIter := n.cur, result := if timedOut then DEFAULT_VALIDATION_RESULT else n.pending)
    case ValidationMsg(v) => if Present(rd, n, v, Validation) then OnValidation(rd, n, v) else n
    case RatificationMsg(rv) => if Present(rd, n, rv.sv, Ratification) then OnRatification(rd, n, rv) else n
    case PastValidation(v) => if Past(rd, n, v, Validation) then OnPastValidation(rd, n, v) else n
    case PastRatification(rv) => if Past(rd, n, rv.sv, Ratification) then OnPastRatification(rd, n, rv) else n
    case NetworkQuorum(q) => if AdmitsQuorum(rd, n, q) then OnNetworkQuorum(rd, n, q) else n
  }

  function Run(rd: Round, n: Node, events: seq<Event>): Node
    requires forall s :: rd.committee(s).Valid()
    decreases |events|
  {
    if events == [] then n else Run(rd, Next(rd, n, events[0]), events[1..])
  }

  lemma RunFirst(rd: Round, n: Node, e: Event, rest: seq<Event>)
    requires rd.Valid()
    ensures Run(rd, n, [e] + rest) == Run(rd, Next(rd, n, e), rest)
  {
    hide Next;
    assert ([e] + rest)[1..] == rest;
  }

  // ------------------------------------------------------------ invariant

  /** A non-NoQuorum result passes `verify_votes` at its iteration. */
  ghost predicate ResultSound(rd: Round, it: Byte, r: ValidationResult) {
    r.vote.NoQuorum? ||
    VerifyVotes(rd.bls, rd.Header(it), Validation, r.vote, r.sv, ValCommittee(rd, it)).Ok?
  }

  function Side(info: AttestationInfo, name: StepName): (StepVotes, bool) {
    if name.Validation? then (info.att.validation, info.quorumValidation)
    else (info.att.ratification, info.quorumRatification)
  }

  /** One side of an attestation shows a tally, and its flag the tally's quorum. */
  ghost predicate Shows(c: Committee, vote: Vote, t: Tally, side: (StepVotes, bool))
    requires c.Valid()
  {
    side.0 == TallyVotes(c, t) && side.1 == Reached(c, vote, t)
  }

  /** Both sides of the attestation show the current tallies. */
  ghost predicate Mirrors(rd: Round, n: Node, it: Byte, vote: Vote)
    requires forall s :: rd.committee(s).Valid()
  {
    var info := Info(n.reg, it, vote);
    && info.att.result == ResultOf(vote)
    && Shows(ValCommittee(rd, it), vote, n.val.At(ToStep(Validation, it), vote), Side(info, Validation))
    && Shows(RatCommittee(rd, it), vote, n.rat.At(ToStep(Ratification, it), vote), Side(info, Ratification))
  }

  /** No vote can be recorded under the entry any more. */
  predicate Frozen(n: Node, it: Byte, vote: Vote) {
    if IsEmergencyIter(it) then !vote.Valid? else it < n.cur || (it == n.cur && n.closed)
  }

  ghost predicate SideVerifies(rd: Round, it: Byte, vote: Vote, name: StepName, sv: StepVotes)
    requires !name.Proposal?
  {
    VerifyVotes(rd.bls, rd.Header(it), name, vote, sv, rd.committee(ToStep(name, it))).Ok?
  }

  /** A received attestation that no vote can touch. */
  ghost predicate Received(rd: Round, n: Node, it: Byte, vote: Vote) {
    var info := Info(n.reg, it, vote);
    && info.att.result == ResultOf(vote) && info.quorumRatification
    && SideVerifies(rd, it, vote, Validation, info.att.validation)
    && SideVerifies(rd, it, vote, Ratification, info.att.ratification)
    && Frozen(n, it, vote)
  }

  /** A marked entry keeps both flags, while its votes are the received ones or a
      tally that may be short of a quorum. */
  ghost predicate Marked(rd: Round, n: Node, it: Byte, vote: Vote)
    requires forall s :: rd.committee(s).Valid()
  {
    var info := Info(n.reg, it, vote);
    && IsEmergencyIter(it) && vote.Valid? && info.att.result == ResultOf(vote)
    && info.quorumValidation && info.quorumRatification
    && (SideVerifies(rd, it, vote, Validation, info.att.validation)
        || IsTally(ValCommittee(rd, it), n.val.At(ToStep(Validation, it), vote), info.att.validation))
    && (SideVerifies(rd, it, vote, Ratification, info.att.ratification)
        || IsTally(RatCommittee(rd, it), n.rat.At(ToStep(Ratification, it), vote), info.att.ratification))
  }

  ghost predicate IsTally(c: Committee, t: Tally, sv: StepVotes)
    requires c.Valid()
  {
    sv == TallyVotes(c, t)
  }

  ghost predicate EntrySound(rd: Round, n: Node, it: Byte, vote: Vote)
    requires forall s :: rd.committee(s).Valid()
  {
    if (it, vote) in n.marked then Marked(rd, n, it, vote)
    else Mirrors(rd, n, it, vote) || Received(rd, n, it, vote)
  }

  ghost predicate RegistrySound(rd: Round, n: Node)
    requires forall s :: rd.committee(s).Valid()
  {
    forall it: Byte, vote: Vote :: EntrySound(rd, n, it, vote)
  }

  /** A Quorum of this round with two vote sets that pass for its vote; when it
      comes from `collect`, a NoQuorum may carry the votes of another result. */
  ghost predicate EmittedSound(rd: Round, q: Quorum) {
    var it := q.header.iteration;
    var vote := q.att.result.vote;
    && it < CONSENSUS_MAX_ITER && q.header == rd.Header(it) && q.att.result == ResultOf(vote)
    && SideVerifies(rd, it, vote, Ratification, q.att.ratification)
    && (vote.NoQuorum? || SideVerifies(rd, it, vote, Validation, q.att.validation))
  }

  ghost predicate FullySound(rd: Round, q: Quorum) {
    var it := q.header.iteration;
    var vote := q.att.result.vote;
    && q.header == rd.Header(it) && q.att.result == ResultOf(vote)
    && SideVerifies(rd, it, vote, Ratification, q.att.ratification)
    && SideVerifies(rd, it, vote, Validation, q.att.validation)
  }

  ghost predicate RelayedSound(rd: Round, n: Node, q: Quorum) {
    && q.att.result.vote.Valid? && IsEmergencyIter(q.header.iteration)
    && q.header == rd.Header(q.header.iteration) && q.att.result == ResultOf(q.att.result.vote)
    && (Entry(q) in n.marked || FullySound(rd, q))
  }

  /** No NoQuorum vote is ever tallied in a Validation step. */
  ghost predicate NoQuorumUntallied(n: Node) {
    forall it: Byte :: n.val.At(ToStep(Validation, it), NoQuorum) == EMPTY_TALLY
  }

  ghost predicate Inv(rd: Round, n: Node)
    requires forall s :: rd.committee(s).Valid()
  {
    && n.cur < CONSENSUS_MAX_ITER && n.valIter <= n.cur && n.ratIter <= n.cur
    && Sound(rd, Validation, n.val) && Sound(rd, Ratification, n.rat) && NoQuorumUntallied(n)
    && RegistrySound(rd, n)
    && (forall it: Byte :: FailedUnique(n.reg, it))
    && ResultSound(rd, n.cur, n.pending) && ResultSound(rd, n.ratIter, n.result)
    && (forall q | q in n.emitted :: EmittedSound(rd, q))
    && (forall q | q in n.relayed :: RelayedSound(rd, n, q))
    && (forall x | x in n.marked :: x.0 < CONSENSUS_MAX_ITER)
  }

  lemma StartInv(rd: Round, iter: Byte)
    requires rd.Valid() && iter < CONSENSUS_MAX_ITER
    ensures Inv(rd, Start(iter))
  {
    hide ToStep;
    EmptySound(rd, Validation);
    EmptySound(rd, Ratification);
    EmptyTotal();
    ZeroTargets(rd);
  }

  lemma ZeroTargets(rd: Round)
    requires rd.Valid()
    ensures forall s, vote :: !Reached(rd.committee(s), vote, EMPTY_TALLY)
    ensures forall s :: TallyVotes(rd.committee(s), EMPTY_TALLY) == DEFAULT_STEP_VOTES
  {
    EmptyTotal();
    forall s ensures rd.committee(s).superMajority >= 1 && rd.committee(s).majority >= 1 {
      assert rd.committee(s).Valid();
    }
  }

  // ------------------------------------------- recording a collected vote

  lemma ReachedGrows(c: Committee, vote: Vote, t: Tally, t': Tally, pk: PublicKey, w: nat)
    requires pk !in t.voters && t'.voters == t.voters[pk := w]
    requires Reached(c, vote, t)
    ensures Reached(c, vote, t')
  {
    TotalInsert(t.voters, pk, w);
  }

  /** A collected vote replaces one side of its attestation by the current tally
      and raises that side's flag if the tally reaches its quorum; nothing else
      changes. */
  lemma RecordEffect(rd: Round, a: Votes, reg: Attestations, v: StepVote, generator: PublicKey)
    requires rd.Valid() && rd.Admits(v) && Sound(rd, v.step, a) && !Skipped(v)
    ensures var c := rd.committee(v.Step());
            var it := v.header.iteration;
            var d := Record(rd.bls, a, reg, c, v, generator);
            var t, t' := a.At(v.Step(), v.vote), d.votes.At(v.Step(), v.vote);
            var before, after := Info(reg, it, v.vote), Info(d.reg, it, v.vote);
            && after.att.result == before.att.result
            && (v.step.Validation? ==> Side(after, Ratification) == Side(before, Ratification))
            && (v.step.Ratification? ==> Side(after, Validation) == Side(before, Validation))
            && if d.result.Ok? then
                 && d.result.value == (TallyVotes(c, t'), Reached(c, v.vote, t')) && t'.voters != map[]
                 && Side(after, v.step) == (TallyVotes(c, t'), Side(before, v.step).1 || Reached(c, v.vote, t'))
                 && (Reached(c, v.vote, t) ==> Reached(c, v.vote, t'))
                 && d.ready == if after.IsReady() then Some(after.att) else None
               else d.reg == reg && t' == t && d.ready.None?
  {
    hide Collect, ToStep, Total, TallyVotes, Reached, PutInfo, Sound, VerifyVotes, Intersect, AddSignature, AttestationInfo.IsReady;
    var c := rd.committee(v.Step());
    var it := v.header.iteration;
    var (a', r) := Collect(rd.bls, a, c, v);
    CollectEffect(rd.bls, a, c, v);
    if r.Ok? {
      CollectSound(rd, a, v);
      var t, t' := a.At(v.Step(), v.vote), a'.At(v.Step(), v.vote);
      assert v.signer in t'.voters;
      AggregatorMeetsVerifier(rd, v.step, a', it, v.vote);
      if Reached(c, v.vote, t) {
        ReachedGrows(c, v.vote, t, t', v.signer, c.members[v.signer]);
      }
      var info := Info(reg, it, v.vote).SetSv(r.value.0, v.step, r.value.1);
      InfoOfPut(reg, it, v.vote, info, generator);
    }
  }

  lemma RecordFrame(rd: Round, a: Votes, reg: Attestations, v: StepVote, generator: PublicKey)
    requires rd.Valid() && rd.Admits(v) && Sound(rd, v.step, a)
    ensures var d := Record(rd.bls, a, reg, rd.committee(v.Step()), v, generator);
            && Sound(rd, v.step, d.votes)
            && (forall s: nat, u: Vote | (s, u) != (v.Step(), v.vote) :: d.votes.At(s, u) == a.At(s, u))
            && (forall i: nat, u: Vote | (i, u) != (v.header.iteration, v.vote) ::
                  Info(d.reg, i, u) == Info(reg, i, u))
            && (Skipped(v) ==> d.reg == reg && d.votes == a && d.ready.None?
                               && d.result == Ok((DEFAULT_STEP_VOTES, false)))
  {
    hide ToStep, Total, TallyVotes, Reached, PutInfo, Sound, Tallied;
    var c := rd.committee(v.Step());
    var (a', r) := Collect(rd.bls, a, c, v);
    CollectEffect(rd.bls, a, c, v);
    CollectSound(rd, a, v);
    if r.Ok? {
      var info := Info(reg, v.header.iteration, v.vote).SetSv(r.value.0, v.step, r.value.1);
      InfoOfPut(reg, v.header.iteration, v.vote, info, generator);
    }
  }

  lemma ReachedNonEmpty(c: Committee, vote: Vote, t: Tally)
    requires c.Valid() && Reached(c, vote, t)
    ensures t.voters != map[]
  {
    EmptyTotal();
  }

  /** A ready attestation passes `verify_votes` on both sides, whatever votes
      replaced one another on the way. */
  lemma ReadySound(rd: Round, n: Node, it: Byte, vote: Vote)
    requires rd.Valid() && NoQuorumUntallied(n)
    requires Sound(rd, Validation, n.val) && Sound(rd, Ratification, n.rat)
    requires EntrySound(rd, n, it, vote) && (it, vote) !in n.marked
    requires Info(n.reg, it, vote).IsReady()
    ensures FullySound(rd, Quorum(rd.Header(it), Info(n.reg, it, vote).att))
  {
    hide ToStep, Total, TallyVotes, Reached, Sound, VerifyVotes, Intersect;
    if Mirrors(rd, n, it, vote) {
      var vs, rs := ToStep(Validation, it), ToStep(Ratification, it);
      ReachedNonEmpty(rd.committee(rs), vote, n.rat.At(rs, vote));
      AggregatorMeetsVerifier(rd, Ratification, n.rat, it, vote);
      if vote.NoQuorum? {
        DefaultVerifies(rd, it);
      } else {
        ReachedNonEmpty(rd.committee(vs), vote, n.val.At(vs, vote));
        AggregatorMeetsVerifier(rd, Validation, n.val, it, vote);
      }
    }
  }

  /** The empty vote set passes as the validation side of a NoQuorum. */
  lemma DefaultVerifies(rd: Round, it: Byte)
    requires rd.Valid()
    ensures TallyVotes(ValCommittee(rd, it), EMPTY_TALLY) == DEFAULT_STEP_VOTES
    ensures SideVerifies(rd, it, NoQuorum, Validation, DEFAULT_STEP_VOTES)
  {
    hide ToStep;
  }

  function VotesOf(n: Node, name: StepName): Votes {
    if name.Validation? then n.val else n.rat
  }

  function Updated(n: Node, name: StepName, d: Recorded): Node {
    if name.Validation? then n.(val := d.votes, reg := d.reg) else n.(rat := d.votes, reg := d.reg)
  }

  function RecordAt(rd: Round, n: Node, v: StepVote): Recorded
    requires forall s :: rd.committee(s).Valid()
  {
    Record(rd.bls, VotesOf(n, v.step), n.reg, rd.committee(v.Step()), v, rd.generator(v.header.iteration))
  }

  predicate Accepted(rd: Round, n: Node, v: StepVote) {
    Present(rd, n, v, v.step) || Past(rd, n, v, v.step)
  }

  /** The attestation an accepted vote is recorded in shows the tallies, unless it
      is marked. */
  lemma AcceptedMirrors(rd: Round, n: Node, v: StepVote)
    requires rd.Valid() && Inv(rd, n) && Accepted(rd, n, v) && !Skipped(v)
    requires (v.header.iteration, v.vote) !in n.marked
    ensures Mirrors(rd, n, v.header.iteration, v.vote)
  {
    hide Mirrors, VerifyVotes, Sound;
    assert EntrySound(rd, n, v.header.iteration, v.vote);
    assert !Received(rd, n, v.header.iteration, v.vote);
  }

  /** Recording an accepted vote keeps every mirrored attestation mirrored. */
  lemma RecordMirrors(rd: Round, n: Node, v: StepVote, it: Byte, vote: Vote)
    requires rd.Valid() && Inv(rd, n) && Accepted(rd, n, v)
    requires Mirrors(rd, n, it, vote)
    ensures Mirrors(rd, Updated(n, v.step, RecordAt(rd, n, v)), it, vote)
  {
    hide ToStep, Total, TallyVotes, Reached, Sound, VerifyVotes, Intersect, Record;
    RecordFrame(rd, VotesOf(n, v.step), n.reg, v, rd.generator(v.header.iteration));
    if (it, vote) == (v.header.iteration, v.vote) {
      if !Skipped(v) {
        RecordEffect(rd, VotesOf(n, v.step), n.reg, v, rd.generator(v.header.iteration));
      }
    } else {
      StepsDiffer(it, vote, v);
    }
  }

  /** Recording an accepted vote keeps a marked attestation marked. */
  lemma RecordMarked(rd: Round, n: Node, v: StepVote, it: Byte, vote: Vote)
    requires rd.Valid() && Inv(rd, n) && Accepted(rd, n, v)
    requires Marked(rd, n, it, vote)
    ensures Marked(rd, Updated(n, v.step, RecordAt(rd, n, v)), it, vote)
  {
    hide ToStep, Total, TallyVotes, Reached, Sound, SideVerifies, Intersect, Record;
    RecordFrame(rd, VotesOf(n, v.step), n.reg, v, rd.generator(v.header.iteration));
    if (it, vote) == (v.header.iteration, v.vote) {
      RecordEffect(rd, VotesOf(n, v.step), n.reg, v, rd.generator(v.header.iteration));
    } else {
      StepsDiffer(it, vote, v);
    }
  }

  /** Recording an accepted vote keeps every attestation in order. */
  lemma RecordRegistry(rd: Round, n: Node, v: StepVote)
    requires rd.Valid() && Inv(rd, n) && Accepted(rd, n, v)
    ensures RegistrySound(rd, Updated(n, v.step, RecordAt(rd, n, v)))
    ensures Sound(rd, v.step, RecordAt(rd, n, v).votes)
  {
    hide ToStep, Total, TallyVotes, Reached, Sound, VerifyVotes, Intersect, Record, Mirrors, Marked, SideVerifies;
    var d := RecordAt(rd, n, v);
    var n' := Updated(n, v.step, d);
    RecordFrame(rd, VotesOf(n, v.step), n.reg, v, rd.generator(v.header.iteration));
    forall it: Byte, vote: Vote
      ensures EntrySound(rd, n', it, vote)
    {
      assert EntrySound(rd, n, it, vote);
      if (it, vote) in n.marked {
        RecordMarked(rd, n, v, it, vote);
      } else {
        if (it, vote) == (v.header.iteration, v.vote) && !Skipped(v) {
          AcceptedMirrors(rd, n, v);
        }
        if Mirrors(rd, n, it, vote) {
          RecordMirrors(rd, n, v, it, vote);
        }
      }
    }
  }

  lemma StepsDiffer(it: Byte, vote: Vote, v: StepVote)
    requires (it, vote) != (v.header.iteration, v.vote)
    ensures (ToStep(v.step, it), vote) != (v.Step(), v.vote)
  {
    SameStep(v.step, it, v.header.iteration);
  }

  /** In an iteration in which all attestations show the tallies, at most one is
      ready. */
  lemma MirrorsUnique(rd: Round, n: Node, it: Byte)
    requires rd.Valid() && Sound(rd, Ratification, n.rat) && it < EMERGENCY_MODE_ITERATION_THRESHOLD
    requires forall vote :: Mirrors(rd, n, it, vote)
    ensures forall u, w | Info(n.reg, it, u).IsReady() && Info(n.reg, it, w).IsReady() :: u == w
  {
    hide ToStep, Total, TallyVotes, Reached, Sound;
    forall u, w | Info(n.reg, it, u).IsReady() && Info(n.reg, it, w).IsReady() ensures u == w {
      assert Mirrors(rd, n, it, u) && Mirrors(rd, n, it, w);
      if u != w {
        AtMostOneQuorum(rd, Ratification, n.rat, it, u, w);
      }
    }
  }

  /** Recording an accepted vote never makes a second Fail attestation ready. */
  lemma RecordUnique(rd: Round, n: Node, v: StepVote, it: Byte)
    requires rd.Valid() && Inv(rd, n) && Accepted(rd, n, v)
    ensures FailedUnique(RecordAt(rd, n, v).reg, it)
  {
    hide ToStep, Total, TallyVotes, Reached, Sound, VerifyVotes, Intersect, Record, Mirrors;
    var d := RecordAt(rd, n, v);
    var n' := Updated(n, v.step, d);
    RecordFrame(rd, VotesOf(n, v.step), n.reg, v, rd.generator(v.header.iteration));
    if it != v.header.iteration || Skipped(v) {
      assert FailedUnique(n.reg, it);
      assert forall u :: Info(d.reg, it, u) == Info(n.reg, it, u);
    } else if IsEmergencyIter(it) {
      // only a Valid vote was recorded
      assert FailedUnique(n.reg, it);
      ResultKept(rd, n, v);
    } else {
      RecordRegistry(rd, n, v);
      forall u ensures Mirrors(rd, n', it, u) {
        assert EntrySound(rd, n', it, u) && !Received(rd, n', it, u);
        assert (it, u) !in n'.marked;
      }
      MirrorsUnique(rd, n', it);
    }
  }

  lemma ResultKept(rd: Round, n: Node, v: StepVote)
    requires rd.Valid() && Inv(rd, n) && Accepted(rd, n, v) && !Skipped(v)
    ensures Info(RecordAt(rd, n, v).reg, v.header.iteration, v.vote).att.result == ResultOf(v.vote)
  {
    hide ToStep, Total, TallyVotes, Reached, Sound, VerifyVotes, Intersect, Record;
    InfoResult(rd, n, v.header.iteration, v.vote);
    RecordEffect(rd, VotesOf(n, v.step), n.reg, v, rd.generator(v.header.iteration));
  }

  lemma InfoResult(rd: Round, n: Node, it: Byte, vote: Vote)
    requires rd.Valid() && RegistrySound(rd, n)
    ensures Info(n.reg, it, vote).att.result == ResultOf(vote)
  {
    hide Shows, VerifyVotes, ToStep;
    assert EntrySound(rd, n, it, vote);
  }

  /** The handlers turn NoQuorum votes of a Validation step away. */
  predicate Eligible(v: StepVote) {
    !(v.step.Validation? && v.vote.NoQuorum?)
  }

  /** Recording an accepted vote keeps the invariant; the outcome is a verified
      quorum, and a ready attestation a verified one unless it is marked. */
  lemma RecordInv(rd: Round, n: Node, v: StepVote)
    requires rd.Valid() && Inv(rd, n) && Accepted(rd, n, v) && Eligible(v)
    ensures var d := RecordAt(rd, n, v);
            var it := v.header.iteration;
            && Inv(rd, Updated(n, v.step, d))
            && (d.ready.Some? ==>
                  && d.ready.value.result == ResultOf(v.vote)
                  && ((it, v.vote) in n.marked || FullySound(rd, Quorum(rd.Header(it), d.ready.value))))
            && (d.result.Ok? && d.result.value.1 ==> SideVerifies(rd, it, v.vote, v.step, d.result.value.0))
  {
    hide ToStep, Total, TallyVotes, Reached, Sound, SideVerifies, Intersect, Record, RegistrySound, EmittedSound, FullySound;
    var d := RecordAt(rd, n, v);
    var it := v.header.iteration;
    RecordRegistry(rd, n, v);
    forall i: Byte ensures FailedUnique(d.reg, i) {
      RecordUnique(rd, n, v, i);
    }
    RecordFrame(rd, VotesOf(n, v.step), n.reg, v, rd.generator(it));
    RecordUntallied(rd, n, v);
    if !Skipped(v) {
      RecordOutcome(rd, n, v);
    }
  }

  lemma RecordUntallied(rd: Round, n: Node, v: StepVote)
    requires rd.Valid() && Inv(rd, n) && Accepted(rd, n, v) && Eligible(v)
    ensures NoQuorumUntallied(Updated(n, v.step, RecordAt(rd, n, v)))
  {
    hide ToStep, Sound, SideVerifies, Record, RegistrySound;
    RecordFrame(rd, VotesOf(n, v.step), n.reg, v, rd.generator(v.header.iteration));
  }

  lemma RecordOutcome(rd: Round, n: Node, v: StepVote)
    requires rd.Valid() && Inv(rd, n) && Accepted(rd, n, v) && Eligible(v) && !Skipped(v)
    ensures var d := RecordAt(rd, n, v);
            var it := v.header.iteration;
            && (d.ready.Some? ==>
                  && d.ready.value.result == ResultOf(v.vote)
                  && ((it, v.vote) in n.marked || FullySound(rd, Quorum(rd.Header(it), d.ready.value))))
            && (d.result.Ok? && d.result.value.1 ==> SideVerifies(rd, it, v.vote, v.step, d.result.value.0))
  {
    hide ToStep, Total, TallyVotes, Reached, Sound, VerifyVotes, Intersect, Record, FullySound, EntrySound, NoQuorumUntallied;
    var d := RecordAt(rd, n, v);
    var it := v.header.iteration;
    ResultKept(rd, n, v);
    RecordEffect(rd, VotesOf(n, v.step), n.reg, v, rd.generator(it));
    RecordRegistry(rd, n, v);
    RecordUntallied(rd, n, v);
    var n' := Updated(n, v.step, d);
    if d.result.Ok? && d.result.value.1 {
      AggregatorMeetsVerifier(rd, v.step, d.votes, it, v.vote);
    }
    if d.ready.Some? && (it, v.vote) !in n.marked {
      assert EntrySound(rd, n', it, v.vote);
      ReadySound(rd, n', it, v.vote);
    }
  }

  // -------------------------------------------------------- every event

  lemma RegistryFrame(rd: Round, n: Node, n': Node)
    requires rd.Valid() && RegistrySound(rd, n)
    requires n'.val == n.val && n'.rat == n.rat && n'.reg == n.reg && n'.marked == n.marked
    requires n.cur <= n'.cur && (n.closed ==> n'.closed || n.cur < n'.cur || IsEmergencyIter(n.cur))
    ensures RegistrySound(rd, n')
  {
    hide Mirrors, SideVerifies, ToStep;
    forall i: Byte, u: Vote ensures EntrySound(rd, n', i, u) {
      assert EntrySound(rd, n, i, u);
      if Mirrors(rd, n, i, u) { MirrorsFrame(rd, n, n', i, u); }
    }
  }

  lemma ValidationKeepsInv(rd: Round, n: Node, v: StepVote)
    requires rd.Valid() && Inv(rd, n) && Present(rd, n, v, Validation)
    ensures Inv(rd, OnValidation(rd, n, v))
  {
    hide ToStep, Sound, VerifyVotes, Record, EmittedSound, RegistrySound, RelayedSound, NoQuorumUntallied;
    var n' := OnValidation(rd, n, v);
    if !v.vote.NoQuorum? && v.header.iteration == n.valIter {
      RecordInv(rd, n, v);
      KeptApart(rd, Updated(n, v.step, RecordAt(rd, n, v)), n');
    } else {
      KeptApart(rd, n, n');
    }
  }

  /** The part of the invariant about tallies, registry and relayed Quorums does
      not depend on the rest of the node. */
  lemma KeptApart(rd: Round, n: Node, n': Node)
    requires rd.Valid() && RegistrySound(rd, n) && NoQuorumUntallied(n)
    requires forall q | q in n.relayed :: RelayedSound(rd, n, q)
    requires n'.val == n.val && n'.rat == n.rat && n'.reg == n.reg && n'.marked == n.marked
    requires n'.cur == n.cur && n'.closed == n.closed && n'.relayed == n.relayed
    ensures RegistrySound(rd, n') && NoQuorumUntallied(n')
    ensures forall q | q in n'.relayed :: RelayedSound(rd, n', q)
  {
    hide RegistrySound, FullySound, ToStep;
    RegistryFrame(rd, n, n');
  }

  lemma PastValidationKeepsInv(rd: Round, n: Node, v: StepVote)
    requires rd.Valid() && Inv(rd, n) && Past(rd, n, v, Validation)
    ensures Inv(rd, OnPastValidation(rd, n, v))
  {
    hide ToStep, Sound, VerifyVotes, Record, EmittedSound, RegistrySound, RelayedSound, NoQuorumUntallied;
    var n' := OnPastValidation(rd, n, v);
    if !v.vote.NoQuorum? {
      RecordInv(rd, n, v);
      KeptApart(rd, Updated(n, v.step, RecordAt(rd, n, v)), n');
    } else {
      KeptApart(rd, n, n');
    }
  }

  lemma Appended(rd: Round, n: Node, n': Node)
    requires forall q | q in n.emitted :: EmittedSound(rd, q)
    requires n'.emitted == n.emitted
             || (|n'.emitted| == |n.emitted| + 1 && n'.emitted[..|n.emitted|] == n.emitted
                 && EmittedSound(rd, n'.emitted[|n.emitted|]))
    ensures forall q | q in n'.emitted :: EmittedSound(rd, q)
  {
    hide EmittedSound;
    forall q | q in n'.emitted ensures EmittedSound(rd, q) {
      var i :| 0 <= i < |n'.emitted| && n'.emitted[i] == q;
      if i < |n.emitted| { assert n.emitted[i] == q; }
    }
  }

  lemma PastRatificationKeepsInv(rd: Round, n: Node, rv: RatificationVote)
    requires rd.Valid() && Inv(rd, n) && Past(rd, n, rv.sv, Ratification)
    ensures Inv(rd, OnPastRatification(rd, n, rv))
  {
    hide ToStep, Sound, VerifyVotes, Record, EmittedSound, FullySound, RegistrySound, NoQuorumUntallied;
    RecordInv(rd, n, rv.sv);
    var n' := OnPastRatification(rd, n, rv);
    var u := Updated(n, rv.sv.step, RecordAt(rd, n, rv.sv));
    RegistryFrame(rd, u, n');
    UntalliedFrame(u, n');
    forall q | q in n'.relayed ensures RelayedSound(rd, n', q) {
      var i :| 0 <= i < |n'.relayed| && n'.relayed[i] == q;
      if i < |n.relayed| { assert n.relayed[i] == q; }
    }
  }

  /** The local result agrees with a collected vote and passes verification. */
  lemma MatchedResult(rd: Round, n: Node, rv: RatificationVote)
    requires rd.Valid() && Inv(rd, n) && Present(rd, n, rv.sv, Ratification)
    requires rv.sv.header.iteration == n.ratIter
    requires MatchResult(rd.bls, n.result, rv, ValCommittee(rd, n.ratIter)).Ok?
    ensures var result := MatchResult(rd.bls, n.result, rv, ValCommittee(rd, n.ratIter)).value;
            ResultSound(rd, n.ratIter, result) && (rv.sv.vote.NoQuorum? || result.vote == rv.sv.vote)
  {
    hide ToStep, Sound, VerifyVotes, EmittedSound, RegistrySound;
  }

  lemma RatificationKeepsInv(rd: Round, n: Node, rv: RatificationVote)
    requires rd.Valid() && Inv(rd, n) && Present(rd, n, rv.sv, Ratification)
    ensures Inv(rd, OnRatification(rd, n, rv))
  {
    hide ToStep, Sound, VerifyVotes, Record, RegistrySound, MatchResult, RelayedSound, NoQuorumUntallied;
    var it := rv.sv.header.iteration;
    var n' := OnRatification(rd, n, rv);
    if it == n.ratIter && MatchResult(rd.bls, n.result, rv, ValCommittee(rd, it)).Ok? {
      RecordInv(rd, n, rv.sv);
      MatchedResult(rd, n, rv);
      KeptApart(rd, Updated(n, rv.sv.step, RecordAt(rd, n, rv.sv)), n');
      Appended(rd, n, n');
    } else {
      KeptApart(rd, n, n');
    }
  }

  /** A received attestation keeps the invariant, whatever its tag: what is stored
      is frozen or marked. */
  lemma NetworkQuorumKeepsInv(rd: Round, n: Node, q: Quorum)
    requires rd.Valid() && Inv(rd, n) && AdmitsQuorum(rd, n, q)
    ensures Inv(rd, OnNetworkQuorum(rd, n, q))
  {
    hide ToStep, Sound, VerifyVotes, EmittedSound, FullySound, RegistrySound, RecordAttestation, NoQuorumUntallied;
    var n' := OnNetworkQuorum(rd, n, q);
    assert NoQuorumUntallied(n') by { UntalliedFrame(n, n'); }
    if q.att.result.Fail? && !HasFailed(n.reg, q.header.iteration) {
      StoredSound(rd, n, q);
      StoredUnique(rd, n, q);
    } else {
      RegistryFrame(rd, n, n');
    }
  }

  lemma UntalliedFrame(n: Node, n': Node)
    requires NoQuorumUntallied(n) && n'.val == n.val
    ensures NoQuorumUntallied(n')
  {
  }

  lemma StoredSound(rd: Round, n: Node, q: Quorum)
    requires rd.Valid() && Inv(rd, n) && AdmitsQuorum(rd, n, q) && q.att.result.Fail?
    requires !HasFailed(n.reg, q.header.iteration)
    ensures RegistrySound(rd, OnNetworkQuorum(rd, n, q))
  {
    hide ToStep, Sound, VerifyVotes, EmittedSound, Mirrors, RecordAttestation, TallyVotes, NoQuorumUntallied;
    var it, vote := q.header.iteration, q.att.result.vote;
    var n' := OnNetworkQuorum(rd, n, q);
    StoredInfo(n.reg, it, q.att, rd.generator(it));
    InfoResult(rd, n, it, vote);
    forall i: Byte, u: Vote ensures EntrySound(rd, n', i, u) {
      assert EntrySound(rd, n, i, u);
      if (i, u) != (it, vote) && Mirrors(rd, n, i, u) {
        MirrorsFrame(rd, n, n', i, u);
      }
    }
  }

  lemma StoredUnique(rd: Round, n: Node, q: Quorum)
    requires rd.Valid() && Inv(rd, n) && AdmitsQuorum(rd, n, q) && q.att.result.Fail?
    requires !HasFailed(n.reg, q.header.iteration)
    ensures forall i: Byte :: FailedUnique(OnNetworkQuorum(rd, n, q).reg, i)
  {
    hide ToStep, Sound, VerifyVotes, EmittedSound, RegistrySound, RecordAttestation, NoQuorumUntallied;
    var it := q.header.iteration;
    var n' := OnNetworkQuorum(rd, n, q);
    StoredInfo(n.reg, it, q.att, rd.generator(it));
    HasFailedInfo(n.reg, it);
    forall i: Byte ensures FailedUnique(n'.reg, i) {
      assert FailedUnique(n.reg, i);
      assert forall u | (i, u) != (it, q.att.result.vote) :: Info(n'.reg, i, u) == Info(n.reg, i, u);
    }
  }

  lemma MirrorsFrame(rd: Round, n: Node, n': Node, it: Byte, vote: Vote)
    requires rd.Valid() && Mirrors(rd, n, it, vote)
    requires n'.val == n.val && n'.rat == n.rat && Info(n'.reg, it, vote) == Info(n.reg, it, vote)
    ensures Mirrors(rd, n', it, vote)
  {
  }

  lemma StoredInfo(reg: Attestations, it: nat, att: Attestation, generator: PublicKey)
    ensures var reg' := RecordAttestation(reg, it, att, generator);
            var info := Info(reg, it, att.result.vote);
            && Info(reg', it, att.result.vote) ==
                 AttestationInfo(Attestation(info.att.result, att.validation, att.ratification),
                                 info.quorumValidation || !att.result.vote.NoQuorum?, true)
            && forall i: nat, u: Vote | (i, u) != (it, att.result.vote) :: Info(reg', i, u) == Info(reg, i, u)
  {
    hide PutInfo;
    var info := Info(reg, it, att.result.vote).SetSv(att.validation, Validation, !att.result.vote.NoQuorum?)
                .SetSv(att.ratification, Ratification, true);
    InfoOfPut(reg, it, att.result.vote, info, generator);
  }

  lemma ControlKeepsInv(rd: Round, n: Node, e: Event)
    requires rd.Valid() && Inv(rd, n) && (e.Begin? || e.StartValidation? || e.StartRatification?)
    ensures Inv(rd, Next(rd, n, e))
  {
    hide ToStep, Sound, VerifyVotes, EmittedSound, FullySound, RegistrySound, NoQuorumUntallied;
    RegistryFrame(rd, n, Next(rd, n, e));
    UntalliedFrame(n, Next(rd, n, e));
  }

  lemma NextKeepsInv(rd: Round, n: Node, e: Event)
    requires rd.Valid() && Inv(rd, n)
    ensures Inv(rd, Next(rd, n, e))
  {
    hide Inv, OnValidation, OnRatification, OnPastValidation, OnPastRatification, OnNetworkQuorum;
    match e
    case ValidationMsg(v) => if Present(rd, n, v, Validation) { ValidationKeepsInv(rd, n, v); }
    case RatificationMsg(rv) => if Present(rd, n, rv.sv, Ratification) { RatificationKeepsInv(rd, n, rv); }
    case PastValidation(v) => if Past(rd, n, v, Validation) { PastValidationKeepsInv(rd, n, v); }
    case PastRatification(rv) => if Past(rd, n, rv.sv, Ratification) { PastRatificationKeepsInv(rd, n, rv); }
    case NetworkQuorum(q) => if AdmitsQuorum(rd, n, q) { NetworkQuorumKeepsInv(rd, n, q); }
    case _ => ControlKeepsInv(rd, n, e);
  }

  lemma {:induction false} RunKeepsInv(rd: Round, n: Node, events: seq<Event>)
    requires rd.Valid() && Inv(rd, n)
    ensures Inv(rd, Run(rd, n, events))
    decreases |events|
  {
    hide Inv, Next;
    if events != [] {
      NextKeepsInv(rd, n, events[0]);
      RunKeepsInv(rd, Next(rd, n, events[0]), events[1..]);
    }
  }

  // ------------------------------------------------------------ theorems

  function AfterRun(rd: Round, iter: Byte, events: seq<Event>): Node
    requires forall s :: rd.committee(s).Valid()
  {
    Run(rd, Start(iter), events)
  }

  /** Whatever a node receives, every Quorum it emits carries a ratification set
      that passes `verify_votes` and, unless the vote is NoQuorum, a validation
      set that passes for the same vote. */
  lemma EmittedQuorumsVerify(rd: Round, iter: Byte, events: seq<Event>, q: Quorum)
    requires rd.Valid() && iter < CONSENSUS_MAX_ITER
    requires q in AfterRun(rd, iter, events).emitted
    ensures q.header.iteration < CONSENSUS_MAX_ITER && q.header == rd.Header(q.header.iteration)
    ensures q.att.result == ResultOf(q.att.result.vote)
    ensures VerifyVotes(rd.bls, q.header, Ratification, q.att.result.vote, q.att.ratification,
                        RatCommittee(rd, q.header.iteration)).Ok?
    ensures !q.att.result.vote.NoQuorum? ==>
              VerifyVotes(rd.bls, q.header, Validation, q.att.result.vote, q.att.validation,
                          ValCommittee(rd, q.header.iteration)).Ok?
  {
    hide VerifyVotes, Run, RegistrySound, Sound, Start;
    StartInv(rd, iter);
    RunKeepsInv(rd, Start(iter), events);
    assert EmittedSound(rd, q);
  }

  /** The votes on a side of an entry, if they are those of the tally, reach the
      tally's quorum. */
  ghost predicate SideHolds(rd: Round, n: Node, it: Byte, vote: Vote, name: StepName)
    requires forall s :: rd.committee(s).Valid()
  {
    var c, t := rd.committee(ToStep(name, it)), VotesOf(n, name).At(ToStep(name, it), vote);
    IsTally(c, t, Side(Info(n.reg, it, vote), name).0) ==> Reached(c, vote, t)
  }

  lemma MarkedEntry(rd: Round, n: Node, it: Byte, vote: Vote)
    requires rd.Valid() && Inv(rd, n) && (it, vote) in n.marked
    ensures Marked(rd, n, it, vote)
    ensures Sound(rd, Validation, n.val) && Sound(rd, Ratification, n.rat)
  {
    hide Marked, Mirrors, Sound, VerifyVotes, NoQuorumUntallied;
    assert EntrySound(rd, n, it, vote);
  }

  /** A side of a marked entry verifies exactly when it is not a short tally. */
  lemma MarkedSide(rd: Round, n: Node, it: Byte, vote: Vote, name: StepName)
    requires rd.Valid() && !name.Proposal? && Marked(rd, n, it, vote)
    requires Sound(rd, Validation, n.val) && Sound(rd, Ratification, n.rat)
    ensures SideVerifies(rd, it, vote, name, Side(Info(n.reg, it, vote), name).0)
            <==> SideHolds(rd, n, it, vote, name)
  {
    hide ToStep, Total, TallyVotes, Reached, Sound, Intersect, VerifyVotes;
    var c, t := rd.committee(ToStep(name, it)), VotesOf(n, name).At(ToStep(name, it), vote);
    var sv := Side(Info(n.reg, it, vote), name).0;
    if IsTally(c, t, sv) {
      if t.voters == map[] {
        EmptyVotesRefused(rd, it, vote, name, VotesOf(n, name));
      } else {
        AggregatorMeetsVerifier(rd, name, VotesOf(n, name), it, vote);
      }
    }
  }

  lemma EmptyVotesRefused(rd: Round, it: Byte, vote: Vote, name: StepName, a: Votes)
    requires rd.Valid() && !name.Proposal? && vote.Valid? && Sound(rd, name, a)
    requires a.At(ToStep(name, it), vote).voters == map[]
    ensures var c, t := rd.committee(ToStep(name, it)), a.At(ToStep(name, it), vote);
            !Reached(c, vote, t) && !SideVerifies(rd, it, vote, name, TallyVotes(c, t))
  {
    hide ToStep, Total, SortedKeys, Bits;
    var c := rd.committee(ToStep(name, it));
    assert TallySound(rd, name, it, vote, a.At(ToStep(name, it), vote));
    IntersectZero(c);
    assert Restrict(c.members, {}) == map[];
    assert Total(map[]) == 0 by { EmptyTotal(); }
  }

  /** After any run `failed()` has at most one candidate per iteration, received
      attestations included. A ready attestation verifies on both sides, except
      exactly when it is marked and a side of it is a tally short of its quorum;
      only a received Fail tag on its Valid vote marks it. */
  lemma RegistryAfterRun(rd: Round, iter: Byte, events: seq<Event>, it: Byte, vote: Vote)
    requires rd.Valid() && iter < CONSENSUS_MAX_ITER
    ensures var n := AfterRun(rd, iter, events);
            && FailedUnique(n.reg, it)
            && (Info(n.reg, it, vote).IsReady() ==>
                  (FullySound(rd, Quorum(rd.Header(it), Info(n.reg, it, vote).att)) <==>
                     ((it, vote) in n.marked ==>
                        SideHolds(rd, n, it, vote, Validation) && SideHolds(rd, n, it, vote, Ratification))))
            && (Untagged(events, it, vote) ==> (it, vote) !in n.marked)
  {
    hide VerifyVotes, Run, Start, Sound, EntrySound, FailedUnique, AttestationInfo.IsReady, NoQuorumUntallied, SideHolds, RegistrySound;
    StartInv(rd, iter);
    RunKeepsInv(rd, Start(iter), events);
    var n := AfterRun(rd, iter, events);
    if (it, vote) in n.marked {
      MarkedFrom(rd, Start(iter), events, (it, vote));
      StartUnmarked(iter);
      MarkedEntry(rd, n, it, vote);
      MarkedSide(rd, n, it, vote, Validation);
      MarkedSide(rd, n, it, vote, Ratification);
    } else if Info(n.reg, it, vote).IsReady() {
      EntryOf(rd, n, it, vote);
      ReadySound(rd, n, it, vote);
    }
  }

  lemma EntryOf(rd: Round, n: Node, it: Byte, vote: Vote)
    requires rd.Valid() && RegistrySound(rd, n)
    ensures EntrySound(rd, n, it, vote)
  {
    hide EntrySound;
  }

  lemma StartUnmarked(iter: Byte)
    ensures Start(iter).marked == {} && Start(iter).relayed == []
  {
  }

  /** No received Quorum puts a Fail tag on this Valid vote of an emergency
      iteration. */
  predicate Untagged(events: seq<Event>, it: Byte, vote: Vote) {
    forall e | e in events && e.NetworkQuorum? && Mistagged(e.q) :: Entry(e.q) != (it, vote)
  }

  lemma {:induction false} MarkedFrom(rd: Round, n: Node, events: seq<Event>, x: (Byte, Vote))
    requires rd.Valid() && x in Run(rd, n, events).marked
    ensures x in n.marked || !Untagged(events, x.0, x.1)
    decreases |events|
  {
    hide OnValidation, OnRatification, OnPastValidation, OnPastRatification, AdmitsQuorum;
    if events != [] {
      var e, n1 := events[0], Next(rd, n, events[0]);
      MarkedFrom(rd, n1, events[1..], x);
      MarkedStep(rd, n, e);
      if x in n1.marked && x !in n.marked {
        assert e in events;
      }
    }
  }

  lemma MarkedStep(rd: Round, n: Node, e: Event)
    requires rd.Valid()
    ensures var marked := Next(rd, n, e).marked;
            marked == n.marked || (e.NetworkQuorum? && Mistagged(e.q) && marked == n.marked + {Entry(e.q)})
  {
    hide Record, MatchResult, VerifyVotes, HasFailed, RecordAttestation;
  }

  /** Quorums of past iterations that a node relays verify on both sides, as long
      as no received Quorum put a Fail tag on that Valid vote. */
  lemma RelayedQuorumsVerify(rd: Round, iter: Byte, events: seq<Event>, q: Quorum)
    requires rd.Valid() && iter < CONSENSUS_MAX_ITER
    requires q in AfterRun(rd, iter, events).relayed
    ensures q.att.result.vote.Valid? && IsEmergencyIter(q.header.iteration)
    ensures Untagged(events, q.header.iteration, q.att.result.vote) ==> FullySound(rd, q)
  {
    hide Run, RegistrySound, Sound, Start, FullySound, NoQuorumUntallied;
    StartInv(rd, iter);
    RunKeepsInv(rd, Start(iter), events);
    var n := AfterRun(rd, iter, events);
    assert RelayedSound(rd, n, q);
    if Entry(q) in n.marked {
      MarkedFrom(rd, Start(iter), events, Entry(q));
      StartUnmarked(iter);
    }
  }

  ghost predicate AllMirror(rd: Round, n: Node)
    requires forall s :: rd.committee(s).Valid()
  {
    forall it: Byte, vote: Vote :: Mirrors(rd, n, it, vote)
  }

  lemma MirrorsSame(rd: Round, n: Node, n': Node)
    requires rd.Valid() && AllMirror(rd, n)
    requires n'.val == n.val && n'.rat == n.rat && n'.reg == n.reg
    ensures AllMirror(rd, n')
  {
    hide Mirrors;
    forall it: Byte, vote: Vote ensures Mirrors(rd, n', it, vote) {
      MirrorsFrame(rd, n, n', it, vote);
    }
  }

  lemma RecordAllMirror(rd: Round, n: Node, v: StepVote)
    requires rd.Valid() && Inv(rd, n) && Accepted(rd, n, v) && AllMirror(rd, n)
    ensures AllMirror(rd, Updated(n, v.step, RecordAt(rd, n, v)))
  {
    hide Mirrors, Inv, Record;
    forall it: Byte, vote: Vote
      ensures Mirrors(rd, Updated(n, v.step, RecordAt(rd, n, v)), it, vote)
    {
      RecordMirrors(rd, n, v, it, vote);
    }
  }

  predicate SameBooks(n: Node, n': Node) {
    n'.val == n.val && n'.rat == n.rat && n'.reg == n.reg
  }

  /** A message changes the books as recording its vote does, or not at all. */
  lemma BooksAfterVote(rd: Round, n: Node, v: StepVote, result: ValidationResult)
    requires rd.Valid() && Accepted(rd, n, v)
    ensures var u := Updated(n, v.step, RecordAt(rd, n, v));
            var rv := RatificationVote(v, result);
            && (v.step.Validation? ==>
                  (SameBooks(n, OnValidation(rd, n, v)) || SameBooks(u, OnValidation(rd, n, v)))
                  && (SameBooks(n, OnPastValidation(rd, n, v)) || SameBooks(u, OnPastValidation(rd, n, v))))
            && (v.step.Ratification? ==>
                  (SameBooks(n, OnRatification(rd, n, rv)) || SameBooks(u, OnRatification(rd, n, rv)))
                  && SameBooks(u, OnPastRatification(rd, n, rv)))
  {
    hide Record, MatchResult, ToStep, VerifyVotes;
  }

  lemma BooksKept(rd: Round, n: Node, v: StepVote, n': Node)
    requires rd.Valid() && Inv(rd, n) && AllMirror(rd, n) && Accepted(rd, n, v)
    requires SameBooks(n, n') || SameBooks(Updated(n, v.step, RecordAt(rd, n, v)), n')
    ensures AllMirror(rd, n')
  {
    hide AllMirror, Inv, Record;
    RecordAllMirror(rd, n, v);
    MirrorsSame(rd, if SameBooks(n, n') then n else Updated(n, v.step, RecordAt(rd, n, v)), n');
  }

  lemma NextAllMirror(rd: Round, n: Node, e: Event)
    requires rd.Valid() && Inv(rd, n) && AllMirror(rd, n) && !e.NetworkQuorum?
    ensures AllMirror(rd, Next(rd, n, e))
  {
    hide AllMirror, Inv, OnValidation, OnRatification, OnPastValidation, OnPastRatification, RecordAt;
    var n' := Next(rd, n, e);
    if SameBooks(n, n') {
      MirrorsSame(rd, n, n');
    } else {
      match e {
        case ValidationMsg(v) =>
          BooksAfterVote(rd, n, v, n.result);
          BooksKept(rd, n, v, n');
        case PastValidation(v) =>
          BooksAfterVote(rd, n, v, n.result);
          BooksKept(rd, n, v, n');
        case RatificationMsg(rv) =>
          BooksAfterVote(rd, n, rv.sv, rv.result);
          BooksKept(rd, n, rv.sv, n');
        case PastRatification(rv) =>
          BooksAfterVote(rd, n, rv.sv, rv.result);
          BooksKept(rd, n, rv.sv, n');
        case _ =>
      }
    }
  }

  lemma {:induction false} RunAllMirror(rd: Round, n: Node, events: seq<Event>)
    requires rd.Valid() && Inv(rd, n) && AllMirror(rd, n)
    requires forall e | e in events :: !e.NetworkQuorum?
    ensures AllMirror(rd, Run(rd, n, events)) && Inv(rd, Run(rd, n, events))
    decreases |events|
  {
    hide AllMirror, Inv, Next;
    if events != [] {
      assert events[0] in events;
      NextAllMirror(rd, n, events[0]);
      NextKeepsInv(rd, n, events[0]);
      RunAllMirror(rd, Next(rd, n, events[0]), events[1..]);
    }
  }

  /** Fed by the aggregators alone, the registry shows exactly their tallies: a
      flag is set if and only if that tally reaches its quorum, and in a normal
      iteration at most one vote is ready. */
  lemma RegistryMirrorsTallies(rd: Round, iter: Byte, events: seq<Event>, it: Byte)
    requires rd.Valid() && iter < CONSENSUS_MAX_ITER
    requires forall e | e in events :: !e.NetworkQuorum?
    ensures var n := AfterRun(rd, iter, events);
            && (forall vote :: Mirrors(rd, n, it, vote))
            && (it < EMERGENCY_MODE_ITERATION_THRESHOLD ==>
                  forall u, w | Info(n.reg, it, u).IsReady() && Info(n.reg, it, w).IsReady() :: u == w)
  {
    hide Mirrors, Run, AttestationInfo.IsReady;
    StartInv(rd, iter);
    StartAllMirror(rd, iter);
    RunAllMirror(rd, Start(iter), events);
    if it < EMERGENCY_MODE_ITERATION_THRESHOLD {
      MirrorsUnique(rd, AfterRun(rd, iter, events), it);
    }
  }

  lemma StartAllMirror(rd: Round, iter: Byte)
    requires rd.Valid()
    ensures AllMirror(rd, Start(iter))
  {
    hide ToStep;
    EmptyTotal();
    ZeroTargets(rd);
  }
}
