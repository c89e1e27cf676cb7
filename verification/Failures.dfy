/** Which failed iterations a node reports, and with what. */
module Failures {
  import opened Config
  import opened Messages
  import opened Collections
  import opened Verifiers
  import opened Aggregation
  import opened Registry
  import opened Handlers
  import opened RoundRun

  function TallyOf(n: Node, name: StepName, it: Byte, vote: Vote): Tally {
    VotesOf(n, name).At(ToStep(name, it), vote)
  }

  /** The tally weighs what its vote needs of the committee's credits. */
  ghost predicate Enough(rd: Round, n: Node, name: StepName, it: Byte, vote: Vote) {
    Total(TallyOf(n, name, it, vote).voters) >= Needed(vote, Total(rd.committee(ToStep(name, it)).members))
  }

  /** An iteration fails by a vote: for want of a candidate or by an invalid one with
      both tallies, for want of a quorum with the ratification tally alone. */
  ghost predicate FailsBy(rd: Round, n: Node, it: Byte, vote: Vote) {
    match vote
    case NoCandidate => Enough(rd, n, Validation, it, vote) && Enough(rd, n, Ratification, it, vote)
    case Invalid(_) => Enough(rd, n, Validation, it, vote) && Enough(rd, n, Ratification, it, vote)
    case NoQuorum => Enough(rd, n, Ratification, it, vote)
    case Valid(_) => false
  }

  lemma ReachedIsEnough(rd: Round, n: Node, name: StepName, it: Byte, vote: Vote)
    requires rd.Valid()
    ensures Reached(rd.committee(ToStep(name, it)), vote, TallyOf(n, name, it, vote))
            <==> Enough(rd, n, name, it, vote)
  {
    hide Total, ToStep;
    assert rd.committee(ToStep(name, it)).Valid();
  }

  lemma ReadyIffFails(rd: Round, n: Node, it: Byte, vote: Vote)
    requires rd.Valid() && Mirrors(rd, n, it, vote)
    ensures ReadyFailed(Info(n.reg, it, vote)) <==> FailsBy(rd, n, it, vote)
  {
    hide Total, ToStep, Reached, TallyVotes, Enough;
    ReachedIsEnough(rd, n, Validation, it, vote);
    ReachedIsEnough(rd, n, Ratification, it, vote);
  }

  // ------------------------------------------------------------ generators

  /** Every iteration is registered with its own generator. */
  ghost predicate Labelled(rd: Round, reg: Attestations) {
    forall it | it in reg :: reg[it].generator == rd.generator(it)
  }

  lemma PutLabelled(rd: Round, reg: Attestations, it: nat, vote: Vote, info: AttestationInfo)
    requires Labelled(rd, reg)
    ensures Labelled(rd, PutInfo(reg, it, vote, info, rd.generator(it)))
  {
  }

  lemma RecordLabelled(rd: Round, a: Votes, reg: Attestations, v: StepVote)
    requires rd.Valid() && Labelled(rd, reg)
    ensures Labelled(rd, Record(rd.bls, a, reg, rd.committee(v.Step()), v, rd.generator(v.header.iteration)).reg)
  {
    hide Labelled, Collect, ToStep, PutInfo;
    var (a', r) := Collect(rd.bls, a, rd.committee(v.Step()), v);
    if r.Ok? {
      var info := Info(reg, v.header.iteration, v.vote).SetSv(r.value.0, v.step, r.value.1);
      PutLabelled(rd, reg, v.header.iteration, v.vote, info);
    }
  }

  lemma StoredLabelled(rd: Round, reg: Attestations, it: nat, att: Attestation)
    requires Labelled(rd, reg)
    ensures Labelled(rd, RecordAttestation(reg, it, att, rd.generator(it)))
  {
    hide Labelled, PutInfo;
    var info := Info(reg, it, att.result.vote).SetSv(att.validation, Validation, !att.result.vote.NoQuorum?);
    PutLabelled(rd, reg, it, att.result.vote, info.SetSv(att.ratification, Ratification, true));
  }

  lemma NextLabelled(rd: Round, n: Node, e: Event)
    requires rd.Valid() && Labelled(rd, n.reg)
    ensures Labelled(rd, Next(rd, n, e).reg)
  {
    hide Labelled, Record, MatchResult, RecordAttestation, HasFailed, VerifyVotes;
    match e
    case ValidationMsg(v) => RecordLabelled(rd, n.val, n.reg, v);
    case PastValidation(v) => RecordLabelled(rd, n.val, n.reg, v);
    case RatificationMsg(rv) => RecordLabelled(rd, n.rat, n.reg, rv.sv);
    case PastRatification(rv) => RecordLabelled(rd, n.rat, n.reg, rv.sv);
    case NetworkQuorum(q) => StoredLabelled(rd, n.reg, q.header.iteration, q.att);
    case _ =>
  }

  lemma {:induction false} RunLabelled(rd: Round, n: Node, events: seq<Event>)
    requires rd.Valid() && Labelled(rd, n.reg)
    ensures Labelled(rd, Run(rd, n, events).reg)
    decreases |events|
  {
    hide Labelled, Next;
    if events != [] {
      NextLabelled(rd, n, events[0]);
      RunLabelled(rd, Next(rd, n, events[0]), events[1..]);
    }
  }

  // --------------------------------------------------------------- reports

  /** The attestation of an iteration that fails by a vote. */
  function FailAtt(rd: Round, n: Node, it: Byte, vote: Vote): Attestation
    requires forall s :: rd.committee(s).Valid()
  {
    assert rd.committee(ToStep(Validation, it)).Valid() && rd.committee(ToStep(Ratification, it)).Valid();
    Attestation(Fail(vote),
                TallyVotes(rd.committee(ToStep(Validation, it)), TallyOf(n, Validation, it, vote)),
                TallyVotes(rd.committee(ToStep(Ratification, it)), TallyOf(n, Ratification, it, vote)))
  }

  /** After any run fed by the aggregators, an iteration is reported as failed exactly
      when it fails by some vote, and then with the two tallies of that vote and the
      iteration's generator. */
  lemma FailuresAreReported(rd: Round, iter: Byte, events: seq<Event>, it: Byte)
    requires rd.Valid() && iter < CONSENSUS_MAX_ITER && forall e | e in events :: !e.NetworkQuorum?
    ensures var n := AfterRun(rd, iter, events);
            var reported := ReportedAt(n.reg, it);
            && FailedUnique(n.reg, it)
            && (reported.Some? <==> exists vote :: FailsBy(rd, n, it, vote))
            && (forall vote | FailsBy(rd, n, it, vote) ::
                  reported == Some((FailAtt(rd, n, it, vote), rd.generator(it))))
  {
    hide Run, Start, Mirrors, FailsBy, FailedUnique, AttestationInfo.IsReady, TallyVotes, ToStep;
    var n := AfterRun(rd, iter, events);
    RegistryMirrorsTallies(rd, iter, events, it);
    RegistryAfterRun(rd, iter, events, it, NoQuorum);
    StartLabelled(rd, iter);
    RunLabelled(rd, Start(iter), events);
    HasFailedInfo(n.reg, it);
    forall vote ensures ReadyFailed(Info(n.reg, it, vote)) <==> FailsBy(rd, n, it, vote) {
      ReadyIffFails(rd, n, it, vote);
    }
    forall vote | FailsBy(rd, n, it, vote)
      ensures ReportedAt(n.reg, it) == Some((FailAtt(rd, n, it, vote), rd.generator(it)))
    {
      OnlyReady(n.reg, it, vote);
      ShownAtt(rd, n, it, vote);
    }
  }

  lemma StartLabelled(rd: Round, iter: Byte)
    ensures Labelled(rd, Start(iter).reg)
  {
  }

  /** With failures unique, the ready one is the reported one. */
  lemma OnlyReady(reg: Attestations, it: nat, vote: Vote)
    requires FailedUnique(reg, it) && ReadyFailed(Info(reg, it, vote))
    ensures it in reg && ReportedAt(reg, it) == Some((Info(reg, it, vote).att, reg[it].generator))
  {
    HasFailedInfo(reg, it);
    var v :| v in reg[it].votes && ReadyFailed(reg[it].votes[v]) && FailedOf(reg, it) == Some(reg[it].votes[v]);
    assert ReadyFailed(Info(reg, it, v));
  }

  lemma ShownAtt(rd: Round, n: Node, it: Byte, vote: Vote)
    requires rd.Valid() && Mirrors(rd, n, it, vote) && FailsBy(rd, n, it, vote)
    ensures Info(n.reg, it, vote).att == FailAtt(rd, n, it, vote)
  {
    hide TallyVotes, ToStep, Reached, Enough;
  }

  /** A received attestation that fails its iteration is reported from then on, with
      its own votes, when no failure was known. */
  lemma ReceivedIsReported(rd: Round, n: Node, q: Quorum)
    requires rd.Valid() && Inv(rd, n) && Labelled(rd, n.reg) && AdmitsQuorum(rd, n, q)
    requires q.att.result.Fail? && !q.att.result.vote.Valid? && ReportedAt(n.reg, q.header.iteration).None?
    ensures var it := q.header.iteration;
            ReportedAt(Next(rd, n, NetworkQuorum(q)).reg, it) == Some((q.att, rd.generator(it)))
  {
    hide Inv, VerifyVotes, RecordAttestation, Labelled, FailedUnique;
    var it, vote := q.header.iteration, q.att.result.vote;
    var n' := Next(rd, n, NetworkQuorum(q));
    InvResult(rd, n, it, vote);
    StoredInfo(n.reg, it, q.att, rd.generator(it));
    NextKeepsInv(rd, n, NetworkQuorum(q));
    InvUnique(rd, n', it);
    NextLabelled(rd, n, NetworkQuorum(q));
    OnlyReady(n'.reg, it, vote);
    LabelAt(rd, n'.reg, it);
  }

  lemma InvResult(rd: Round, n: Node, it: Byte, vote: Vote)
    requires rd.Valid() && Inv(rd, n)
    ensures Info(n.reg, it, vote).att.result == ResultOf(vote)
  {
    hide RegistrySound, Sound, NoQuorumUntallied, RelayedSound, EmittedSound;
    InfoResult(rd, n, it, vote);
  }

  lemma InvUnique(rd: Round, n: Node, it: Byte)
    requires rd.Valid() && Inv(rd, n)
    ensures FailedUnique(n.reg, it)
  {
    hide RegistrySound, Sound, NoQuorumUntallied, RelayedSound, EmittedSound, FailedUnique;
  }

  lemma LabelAt(rd: Round, reg: Attestations, it: nat)
    requires Labelled(rd, reg) && it in reg
    ensures reg[it].generator == rd.generator(it)
  {
  }
}
