/** Committees of a round: the incremental cache of the iteration context against
    the from-scratch construction of the verifier. */
module IterationContext {
  import opened Config
  import opened Messages
  import opened Collections
  import opened Sortition
  import opened Committees
  import opened Verifiers

  /** What every committee of a round is computed from. */
  datatype RoundSeed = RoundSeed(hash: SortitionHash, provisioners: Provisioners, seed: Seed, round: nat)
  {
    predicate Eligible() {
      Eligibles(provisioners, round) != map[]
    }

    function Generator(iteration: nat): PublicKey
      requires Eligible()
    {
      GetGenerator(hash, provisioners, iteration, seed, round)
    }

    /** The exclusion list the verifier builds: this generator and the next one. */
    function Exclusion(iteration: nat): seq<PublicKey>
      requires Eligible()
    {
      [Generator(iteration)]
      + if ExcludeNextGenerator(iteration) then [Generator(iteration + 1)] else []
    }

    function StepConfig(iteration: nat, step: StepName): SortitionConfig
      requires Eligible()
    {
      NewConfig(seed, round, iteration, step, if step.Proposal? then [] else Exclusion(iteration))
    }

    /** The committee of a step, computed from scratch. */
    function StepCommittee(iteration: nat, step: StepName): Committee
      requires Eligible()
    {
      NewCommittee(hash, provisioners, StepConfig(iteration, step))
    }
  }

  function StepOf(step: nat): StepName {
    if step % 3 == 0 then Proposal else if step % 3 == 1 then Validation else Ratification
  }

  /** The committee a step number stands for. */
  function Expected(rs: RoundSeed, step: nat): Committee
    requires rs.Eligible()
  {
    rs.StepCommittee(step / 3, StepOf(step))
  }

  /** The step number is not cut to eight bits. */
  predicate Fits(iteration: nat, step: StepName) {
    iteration * 3 + StepIndex(step) < 256
  }

  lemma ExpectedAt(rs: RoundSeed, iteration: nat, step: StepName)
    requires rs.Eligible() && Fits(iteration, step)
    ensures Expected(rs, ToStep(step, iteration)) == rs.StepCommittee(iteration, step)
  {
    hide NewCommittee, GetGenerator, Eligibles;
    StepNumber(iteration, step);
  }

  lemma StepNumber(iteration: nat, step: StepName)
    requires Fits(iteration, step)
    ensures ToStep(step, iteration) == iteration * 3 + StepIndex(step)
    ensures ToStep(step, iteration) / 3 == iteration && StepOf(ToStep(step, iteration)) == step
  {
  }

  /** Every committee of a round distributes its full credits. */
  lemma StepCommitteeValid(rs: RoundSeed, iteration: nat, step: StepName)
    requires rs.Eligible()
    ensures rs.StepCommittee(iteration, step).Valid()
    ensures Total(rs.StepCommittee(iteration, step).members) == Credits(step)
  {
    NewCommitteeValid(rs.hash, rs.provisioners, rs.StepConfig(iteration, step));
  }

  /** The generators of this and the next iteration have no vote in a voting step,
      as long as somebody else is eligible. */
  lemma GeneratorsDoNotVote(rs: RoundSeed, iteration: nat, step: StepName, other: PublicKey)
    requires rs.Eligible() && !step.Proposal?
    requires other in Eligibles(rs.provisioners, rs.round) && other !in rs.Exclusion(iteration)
    ensures rs.Generator(iteration) !in rs.StepCommittee(iteration, step).members
    ensures iteration < 49 ==> rs.Generator(iteration + 1) !in rs.StepCommittee(iteration, step).members
    ensures iteration >= 49 ==> rs.StepCommittee(iteration, step).excluded == [rs.Generator(iteration)]
  {
    hide GetGenerator, CommitteeKeys, Eligibles;
    var cfg := rs.StepConfig(iteration, step);
    CommitteeIsFull(rs.hash, rs.provisioners, cfg);
    OccurrencesCount(CommitteeKeys(rs.hash, rs.provisioners, cfg));
    assert rs.Generator(iteration) in cfg.exclusion;
    assert ExcludeNextGenerator(iteration) ==> rs.Generator(iteration + 1) in cfg.exclusion;
  }

  /** The first member of a cached Proposal committee is the generator. */
  lemma ProposalLeader(rs: RoundSeed, iteration: nat)
    requires rs.Eligible()
    ensures var c := rs.StepCommittee(iteration, Proposal);
            c.Order() != [] && c.Order()[0] == rs.Generator(iteration)
  {
    hide NewCommittee, Total;
    StepCommitteeValid(rs, iteration, Proposal);
    var c := rs.StepCommittee(iteration, Proposal);
    assert Total(map[]) == 0 by { EmptyTotal(); }
    assert c.members != map[];
    NonEmpty(c.members);
  }

  // ------------------------------------------------------------- the cache

  /** Committees by step number. */
  type Cache = map<nat, Committee>

  ghost predicate WellFormed(cache: Cache) {
    forall s | s in cache :: s < 256 && cache[s].Valid() && cache[s].Order() != []
  }

  /** Every cached committee is the one computed from scratch. */
  ghost predicate Consistent(rs: RoundSeed, cache: Cache)
    requires rs.Eligible()
  {
    forall s | s in cache :: s < 256 && cache[s] == Expected(rs, s)
  }

  ghost predicate Extends(cache: Cache, larger: Cache) {
    forall s | s in cache :: s in larger && larger[s] == cache[s]
  }

  /** The committee drawn for a step number, with the credits of a step. */
  function Made(rs: RoundSeed, s: nat, step: StepName, exclusion: seq<PublicKey>): Committee
    requires rs.Eligible()
  {
    NewCommittee(rs.hash, rs.provisioners,
                 SortitionConfig(rs.seed, rs.round, s, Credits(step), exclusion))
  }

  lemma MadeValid(rs: RoundSeed, s: nat, step: StepName, exclusion: seq<PublicKey>)
    requires rs.Eligible()
    ensures var c := Made(rs, s, step, exclusion);
            c.Valid() && c.Order() != [] && Total(c.members) == Credits(step) && c.excluded == exclusion
  {
    var cfg := SortitionConfig(rs.seed, rs.round, s, Credits(step), exclusion);
    NewCommitteeValid(rs.hash, rs.provisioners, cfg);
    HasOrder(NewCommittee(rs.hash, rs.provisioners, cfg));
  }

  lemma HasOrder(c: Committee)
    requires c.Valid()
    ensures c.Order() != []
  {
    EmptyTotal();
    assert c.members != map[];
    NonEmpty(c.members);
  }

  /** Two committees of one step number are equal only with the same credits and
      the same exclusion. */
  lemma MadeApart(rs: RoundSeed, s: nat, a: StepName, ea: seq<PublicKey>, b: StepName, eb: seq<PublicKey>)
    requires rs.Eligible()
    ensures Made(rs, s, a, ea) == Made(rs, s, b, eb) <==> Credits(a) == Credits(b) && ea == eb
  {
    hide NewCommittee, Total;
    MadeValid(rs, s, a, ea);
    MadeValid(rs, s, b, eb);
  }

  lemma ExpectedMade(rs: RoundSeed, s: nat)
    requires rs.Eligible() && s < 256
    ensures Expected(rs, s)
            == Made(rs, s, StepOf(s), if StepOf(s).Proposal? then [] else rs.Exclusion(s / 3))
  {
    hide NewCommittee, GetGenerator, Eligibles;
    assert ToStep(StepOf(s), s / 3) == s;
  }

  /** The first member of the committee cached as the iteration's Proposal. */
  function Leader(cache: Cache, iteration: Byte): PublicKey
    requires WellFormed(cache) && ToStep(Proposal, iteration) in cache
  {
    cache[ToStep(Proposal, iteration)].Order()[0]
  }

  function Fill(rs: RoundSeed, cache: Cache, iteration: Byte, step: StepName, exclusion: seq<PublicKey>)
    : (r: Cache)
    requires rs.Eligible() && WellFormed(cache)
    ensures WellFormed(r) && ToStep(step, iteration) in r
    ensures ToStep(step, iteration) !in cache ==> Extends(cache, r)
  {
    hide ToStep, Made, Committee.Valid, Committee.Order, Total, RoundSeed.Eligible;
    MadeValid(rs, ToStep(step, iteration), step, exclusion);
    cache[ToStep(step, iteration) := Made(rs, ToStep(step, iteration), step, exclusion)]
  }

  /** A voting step first fetches the next iteration's Proposal committee, if the
      next generator is to be excluded. */
  function WithNext(rs: RoundSeed, cache: Cache, iteration: Byte, step: StepName): (r: Cache)
    requires rs.Eligible() && WellFormed(cache)
    ensures WellFormed(r) && Extends(cache, r)
    ensures !step.Proposal? && ToStep(Proposal, iteration) in cache ==> Leads(r, iteration)
  {
    hide ToStep, WellFormed, RoundSeed.Eligible, Fill;
    if !step.Proposal? && ExcludeNextGenerator(iteration) && ToStep(Proposal, iteration + 1) !in cache
    then Fill(rs, cache, iteration + 1, Proposal, []) else cache
  }

  /** The generators a voting step excludes can be read off the cache. */
  predicate Leads(cache: Cache, iteration: Byte) {
    ToStep(Proposal, iteration) in cache
    && (ExcludeNextGenerator(iteration) ==> ToStep(Proposal, iteration + 1) in cache)
  }

  function ExclusionIn(cache: Cache, iteration: Byte, step: StepName): seq<PublicKey>
    requires WellFormed(cache) && (!step.Proposal? ==> Leads(cache, iteration))
  {
    hide ToStep, WellFormed;
    if step.Proposal? then []
    else [Leader(cache, iteration)]
         + if ExcludeNextGenerator(iteration) then [Leader(cache, iteration + 1)] else []
  }

  /** What `generate_committee` leaves in the cache. A committee that is there is
      kept; a voting step reads its generators off the cache. */
  function AddCommittee(rs: RoundSeed, cache: Cache, iteration: Byte, step: StepName): (r: Cache)
    requires rs.Eligible() && WellFormed(cache)
    requires step.Proposal? || ToStep(Proposal, iteration) in cache
    ensures WellFormed(r) && ToStep(step, iteration) in r && Extends(cache, r)
  {
    hide ToStep, WellFormed, WithNext, RoundSeed.Eligible, ExclusionIn, Made;
    if ToStep(step, iteration) in cache then cache
    else
      var next := WithNext(rs, cache, iteration, step);
      Fill(rs, next, iteration, step, ExclusionIn(next, iteration, step))
  }

  function AddIteration(rs: RoundSeed, cache: Cache, iteration: Byte): (r: Cache)
    requires rs.Eligible() && WellFormed(cache)
    ensures WellFormed(r) && Extends(cache, r)
  {
    hide AddCommittee, ToStep, Eligibles;
    var proposal := AddCommittee(rs, cache, iteration, Proposal);
    var validation := AddCommittee(rs, proposal, iteration, Validation);
    AddCommittee(rs, validation, iteration, Ratification)
  }

  lemma IterationCached(rs: RoundSeed, cache: Cache, iteration: Byte)
    requires rs.Eligible() && WellFormed(cache)
    ensures forall step :: ToStep(step, iteration) in AddIteration(rs, cache, iteration)
  {
    hide AddCommittee, ToStep, Eligibles;
    var proposal := AddCommittee(rs, cache, iteration, Proposal);
    var validation := AddCommittee(rs, proposal, iteration, Validation);
    var all := AddCommittee(rs, validation, iteration, Ratification);
    forall step ensures ToStep(step, iteration) in all {
      match step
      case Proposal => assert ToStep(Proposal, iteration) in validation;
      case Validation =>
      case Ratification =>
    }
  }

  function CacheAfter(rs: RoundSeed, cache: Cache, requests: seq<Byte>): (r: Cache)
    requires rs.Eligible() && WellFormed(cache)
    ensures WellFormed(r) && Extends(cache, r)
    decreases |requests|
  {
    if requests == [] then cache else CacheAfter(rs, AddIteration(rs, cache, requests[0]), requests[1..])
  }

  /** Whatever is requested is cached, and stays so. */
  lemma {:induction false} Requested(rs: RoundSeed, cache: Cache, requests: seq<Byte>, iteration: Byte, step: StepName)
    requires rs.Eligible() && WellFormed(cache) && iteration in requests
    ensures ToStep(step, iteration) in CacheAfter(rs, cache, requests)
    decreases |requests|
  {
    hide RoundSeed.Eligible, AddIteration, WellFormed, ToStep;
    var next := AddIteration(rs, cache, requests[0]);
    if requests[0] == iteration {
      IterationCached(rs, cache, iteration);
      assert Extends(next, CacheAfter(rs, next, requests[1..]));
    } else {
      Requested(rs, next, requests[1..], iteration, step);
    }
  }

  // ------------------------------------------- when the cache stays right

  /** The step number wraps onto one that is not cached yet, and the committee put
      there is another one: it differs in kind, or it excludes other keys. */
  predicate Clash(rs: RoundSeed, cache: Cache, iteration: Byte, step: StepName)
    requires rs.Eligible() && WellFormed(cache)
    requires step.Proposal? || ToStep(Proposal, iteration) in cache
  {
    var s := ToStep(step, iteration);
    && s !in cache && !Fits(iteration, step)
    && (step.Proposal? || StepOf(s).Proposal? || rs.Exclusion(s / 3) != [Leader(cache, iteration)])
  }

  /** In a right cache the generators of an iteration can be read off. */
  lemma CachedLeader(rs: RoundSeed, cache: Cache, iteration: Byte)
    requires rs.Eligible() && WellFormed(cache) && Consistent(rs, cache)
    requires Fits(iteration, Proposal) && ToStep(Proposal, iteration) in cache
    ensures Leader(cache, iteration) == rs.Generator(iteration)
  {
    hide Eligibles, Expected, ToStep, SortedKeys;
    ExpectedAt(rs, iteration, Proposal);
    ProposalLeader(rs, iteration);
  }

  lemma FillExact(rs: RoundSeed, cache: Cache, iteration: Byte, step: StepName, exclusion: seq<PublicKey>)
    requires rs.Eligible() && WellFormed(cache) && Consistent(rs, cache)
    ensures var s := ToStep(step, iteration);
            Consistent(rs, Fill(rs, cache, iteration, step, exclusion)) <==>
              Credits(step) == Credits(StepOf(s))
              && exclusion == if StepOf(s).Proposal? then [] else rs.Exclusion(s / 3)
  {
    hide Expected, Made, RoundSeed.Eligible, RoundSeed.Exclusion, WellFormed, ToStep;
    var s := ToStep(step, iteration);
    ExpectedMade(rs, s);
    MadeApart(rs, s, step, exclusion, StepOf(s), if StepOf(s).Proposal? then [] else rs.Exclusion(s / 3));
    var filled := Fill(rs, cache, iteration, step, exclusion);
    assert s in filled;
  }

  lemma NextKeeps(rs: RoundSeed, cache: Cache, iteration: Byte, step: StepName)
    requires rs.Eligible() && WellFormed(cache) && Consistent(rs, cache)
    ensures Consistent(rs, WithNext(rs, cache, iteration, step))
  {
    hide Expected, Made, Eligibles, Fill, GetGenerator;
    if ExcludeNextGenerator(iteration) {
      StepNumber(iteration + 1, Proposal);
      FillExact(rs, cache, iteration + 1, Proposal, []);
    }
  }

  lemma WrapChangesKind(iteration: Byte)
    requires !Fits(iteration, Proposal)
    ensures !StepOf(ToStep(Proposal, iteration)).Proposal?
  {
  }

  /** A step whose number fits reads the right exclusion off a right cache. */
  lemma ExclusionRight(rs: RoundSeed, cache: Cache, iteration: Byte, step: StepName)
    requires rs.Eligible() && WellFormed(cache) && Consistent(rs, cache) && Fits(iteration, step)
    requires !step.Proposal? ==> Leads(cache, iteration)
    ensures ExclusionIn(cache, iteration, step) == if step.Proposal? then [] else rs.Exclusion(iteration)
  {
    hide RoundSeed.Eligible, RoundSeed.Generator, Consistent, ToStep, Leader, WellFormed;
    if !step.Proposal? {
      CachedLeader(rs, cache, iteration);
      if ExcludeNextGenerator(iteration) { CachedLeader(rs, cache, iteration + 1); }
    }
  }

  lemma NewSlot(rs: RoundSeed, cache: Cache, iteration: Byte, step: StepName)
    requires rs.Eligible() && WellFormed(cache) && ToStep(step, iteration) !in cache
    requires step.Proposal? || ToStep(Proposal, iteration) in cache
    ensures var next := WithNext(rs, cache, iteration, step);
            AddCommittee(rs, cache, iteration, step)
            == Fill(rs, next, iteration, step, ExclusionIn(next, iteration, step))
  {
    hide Eligibles, Fill, ToStep, WithNext, ExclusionIn;
  }

  /** One step of a request keeps the cache right if and only if it does not clash. */
  lemma StepExact(rs: RoundSeed, cache: Cache, iteration: Byte, step: StepName)
    requires rs.Eligible() && WellFormed(cache) && Consistent(rs, cache)
    requires step.Proposal? || ToStep(Proposal, iteration) in cache
    ensures Consistent(rs, AddCommittee(rs, cache, iteration, step)) <==> !Clash(rs, cache, iteration, step)
  {
    hide Eligibles, Fill, Consistent, WithNext, ToStep, AddCommittee, ExclusionIn, RoundSeed.Exclusion, Leader;
    var s := ToStep(step, iteration);
    if s in cache {
      CachedSlot(rs, cache, iteration, step);
    } else {
      var next := WithNext(rs, cache, iteration, step);
      NewSlot(rs, cache, iteration, step);
      NextKeeps(rs, cache, iteration, step);
      FillExact(rs, next, iteration, step, ExclusionIn(next, iteration, step));
      if Fits(iteration, step) {
        StepNumber(iteration, step);
        ExclusionRight(rs, next, iteration, step);
      } else {
        WrappedExclusion(rs, cache, iteration, step);
      }
    }
  }

  lemma CachedSlot(rs: RoundSeed, cache: Cache, iteration: Byte, step: StepName)
    requires rs.Eligible() && WellFormed(cache) && ToStep(step, iteration) in cache
    requires step.Proposal? || ToStep(Proposal, iteration) in cache
    ensures AddCommittee(rs, cache, iteration, step) == cache
  {
    hide Eligibles, Fill, ToStep, WithNext;
  }

  /** From 85 on no next generator is excluded; a wrapped Proposal changes kind. */
  lemma WrappedExclusion(rs: RoundSeed, cache: Cache, iteration: Byte, step: StepName)
    requires rs.Eligible() && WellFormed(cache) && !Fits(iteration, step)
    requires step.Proposal? || ToStep(Proposal, iteration) in cache
    ensures WithNext(rs, cache, iteration, step) == cache
    ensures ExclusionIn(cache, iteration, step) == if step.Proposal? then [] else [Leader(cache, iteration)]
    ensures step.Proposal? ==> !StepOf(ToStep(step, iteration)).Proposal?
  {
    hide RoundSeed.Eligible, RoundSeed.Generator, Fill, Leader, ToStep, WellFormed;
    if step.Proposal? { WrapChangesKind(iteration); }
  }

  /** No step of the request clashes. */
  predicate Harmless(rs: RoundSeed, cache: Cache, iteration: Byte)
    requires rs.Eligible() && WellFormed(cache)
  {
    var proposal := AddCommittee(rs, cache, iteration, Proposal);
    var validation := AddCommittee(rs, proposal, iteration, Validation);
    && !Clash(rs, cache, iteration, Proposal)
    && !Clash(rs, proposal, iteration, Validation)
    && !Clash(rs, validation, iteration, Ratification)
  }

  lemma ExtendsKeeps(rs: RoundSeed, cache: Cache, larger: Cache)
    requires rs.Eligible() && Extends(cache, larger) && Consistent(rs, larger)
    ensures Consistent(rs, cache)
  {
  }

  lemma RequestExact(rs: RoundSeed, cache: Cache, iteration: Byte)
    requires rs.Eligible() && WellFormed(cache) && Consistent(rs, cache)
    ensures Consistent(rs, AddIteration(rs, cache, iteration)) <==> Harmless(rs, cache, iteration)
  {
    hide Eligibles, AddCommittee, Consistent, Clash, ToStep;
    var proposal := AddCommittee(rs, cache, iteration, Proposal);
    var validation := AddCommittee(rs, proposal, iteration, Validation);
    var all := AddCommittee(rs, validation, iteration, Ratification);
    if Consistent(rs, all) { ExtendsKeeps(rs, validation, all); }
    if Consistent(rs, validation) { ExtendsKeeps(rs, proposal, validation); }
    StepExact(rs, cache, iteration, Proposal);
    if Consistent(rs, proposal) { StepExact(rs, proposal, iteration, Validation); }
    if Consistent(rs, validation) { StepExact(rs, validation, iteration, Ratification); }
  }

  predicate NoClashes(rs: RoundSeed, cache: Cache, requests: seq<Byte>)
    requires rs.Eligible() && WellFormed(cache)
    decreases |requests|
  {
    requests == []
    || (Harmless(rs, cache, requests[0]) && NoClashes(rs, AddIteration(rs, cache, requests[0]), requests[1..]))
  }

  /** Over any requests the cache holds only from-scratch committees if and only if
      none of them clashes. */
  lemma {:induction false} CacheExact(rs: RoundSeed, cache: Cache, requests: seq<Byte>)
    requires rs.Eligible() && WellFormed(cache) && Consistent(rs, cache)
    ensures Consistent(rs, CacheAfter(rs, cache, requests)) <==> NoClashes(rs, cache, requests)
    decreases |requests|
  {
    hide Eligibles, AddIteration, Harmless, Consistent;
    if requests != [] {
      var next := AddIteration(rs, cache, requests[0]);
      RequestExact(rs, cache, requests[0]);
      if Consistent(rs, next) {
        CacheExact(rs, next, requests[1..]);
      } else if Consistent(rs, CacheAfter(rs, cache, requests)) {
        ExtendsKeeps(rs, next, CacheAfter(rs, cache, requests));
      }
    }
  }

  lemma NoClashFits(rs: RoundSeed, cache: Cache, iteration: Byte, step: StepName)
    requires rs.Eligible() && WellFormed(cache) && Fits(iteration, step)
    requires step.Proposal? || ToStep(Proposal, iteration) in cache
    ensures !Clash(rs, cache, iteration, step)
  {
    hide RoundSeed.Eligible, WellFormed, ToStep, Leader;
  }

  /** Requests up to iteration 84 never clash. */
  lemma {:induction false} SmallRequests(rs: RoundSeed, cache: Cache, requests: seq<Byte>)
    requires rs.Eligible() && WellFormed(cache) && forall it | it in requests :: it <= 84
    ensures NoClashes(rs, cache, requests)
    decreases |requests|
  {
    hide RoundSeed.Eligible, AddIteration, AddCommittee, Clash, WellFormed, ToStep;
    if requests != [] {
      assert requests[0] in requests;
      assert forall it | it in requests[1..] :: it in requests;
      NoClashFits(rs, cache, requests[0], Proposal);
      var proposal := AddCommittee(rs, cache, requests[0], Proposal);
      NoClashFits(rs, proposal, requests[0], Validation);
      NoClashFits(rs, AddCommittee(rs, proposal, requests[0], Validation), requests[0], Ratification);
      SmallRequests(rs, AddIteration(rs, cache, requests[0]), requests[1..]);
    }
  }

  /** Below iteration 49 a step clashes exactly when it wraps onto a step number
      that is not cached. */
  lemma ClashBelow49(rs: RoundSeed, cache: Cache, iteration: Byte, step: StepName)
    requires rs.Eligible() && WellFormed(cache)
    requires step.Proposal? || ToStep(Proposal, iteration) in cache
    requires ExcludeNextGenerator(ToStep(step, iteration) / 3)
    ensures Clash(rs, cache, iteration, step) <==>
              ToStep(step, iteration) !in cache && !Fits(iteration, step)
  {
    hide Eligibles, GetGenerator, Leader;
    assert |rs.Exclusion(ToStep(step, iteration) / 3)| == 2;
  }

  // ------------------------------------------------------- a cache gone wrong

  lemma {:induction false} CacheAppend(rs: RoundSeed, cache: Cache, a: seq<Byte>, b: seq<Byte>)
    requires rs.Eligible() && WellFormed(cache)
    ensures CacheAfter(rs, cache, a + b) == CacheAfter(rs, CacheAfter(rs, cache, a), b)
    decreases |a|
  {
    hide Eligibles, AddIteration;
    if a == [] {
      assert a + b == b;
    } else {
      assert (a + b)[1..] == a[1..] + b;
      CacheAppend(rs, AddIteration(rs, cache, a[0]), a[1..], b);
    }
  }

  ghost predicate UpTo(cache: Cache, s: nat) {
    forall k | k in cache :: k <= s
  }

  lemma StepUpTo(rs: RoundSeed, cache: Cache, iteration: Byte, step: StepName, m: Byte)
    requires rs.Eligible() && WellFormed(cache) && UpTo(cache, 3 * m)
    requires step.Proposal? || ToStep(Proposal, iteration) in cache
    requires iteration < m < CONSENSUS_MAX_ITER
    ensures UpTo(AddCommittee(rs, cache, iteration, step), 3 * m)
  {
    hide RoundSeed.Eligible, Made, ToStep, WellFormed, AddCommittee, ExclusionIn;
    StepNumber(iteration, step);
    StepNumber(iteration + 1, Proposal);
    if ToStep(step, iteration) in cache {
      CachedSlot(rs, cache, iteration, step);
    } else {
      NewSlot(rs, cache, iteration, step);
    }
  }

  lemma {:induction false} SlotsUpTo(rs: RoundSeed, cache: Cache, requests: seq<Byte>, m: Byte)
    requires rs.Eligible() && WellFormed(cache) && m < CONSENSUS_MAX_ITER && UpTo(cache, 3 * m)
    requires forall it | it in requests :: it < m
    ensures UpTo(CacheAfter(rs, cache, requests), 3 * m)
    decreases |requests|
  {
    hide Eligibles, AddCommittee, ToStep, UpTo;
    if requests != [] {
      assert requests[0] in requests;
      assert forall it | it in requests[1..] :: it in requests;
      var it := requests[0];
      StepUpTo(rs, cache, it, Proposal, m);
      var proposal := AddCommittee(rs, cache, it, Proposal);
      StepUpTo(rs, proposal, it, Validation, m);
      StepUpTo(rs, AddCommittee(rs, proposal, it, Validation), it, Ratification, m);
      SlotsUpTo(rs, AddIteration(rs, cache, it), requests[1..], m);
    }
  }

  /** A request for iteration 100 before iteration 14 leaves a committee of one
      credit as the Ratification committee of iteration 14, for good: a single vote
      is a quorum of it, and it is not the committee a verifier builds. */
  lemma SpoiledCache(rs: RoundSeed, before: seq<Byte>, after: seq<Byte>)
    requires rs.Eligible() && forall it | it in before :: it < 14
    ensures var cache := CacheAfter(rs, map[], before + [100] + after);
            var s := ToStep(Ratification, 14);
            && s in cache && Total(cache[s].members) == 1 && cache[s].superMajority == 1
            && Total(Expected(rs, s).members) == 64 && !Consistent(rs, cache)
  {
    hide RoundSeed.Eligible, Made, Expected, CacheAfter, Total, AddIteration, RoundSeed.Exclusion, Consistent, WellFormed, ToStep, Committee.Valid, Committee.Order;
    StepOf100();
    assert WellFormed(map[]) && UpTo(map[], 42) by { NothingCached(); }
    var first := CacheAfter(rs, map[], before);
    SlotsUpTo(rs, map[], before, 14);
    SpoiledSlot(rs, first);
    CacheOne(rs, first, 100);
    CacheAppend(rs, map[], before, [100]);
    CacheAppend(rs, map[], before + [100], after);
    MadeValid(rs, 44, Proposal, []);
    ExpectedMade(rs, 44);
    MadeValid(rs, 44, Ratification, rs.Exclusion(14));
    NotExpected(rs, CacheAfter(rs, map[], before + [100] + after), 44);
    SuperMajorityOfMade(rs, 44);
  }

  lemma NothingCached()
    ensures WellFormed(map[]) && UpTo(map[], 42)
  {
  }

  lemma SuperMajorityOfMade(rs: RoundSeed, s: nat)
    requires rs.Eligible()
    ensures Made(rs, s, Proposal, []).superMajority == 1
  {
    hide Eligibles, Occurrences, CommitteeKeys;
  }

  lemma NotExpected(rs: RoundSeed, cache: Cache, s: nat)
    requires rs.Eligible() && s in cache && cache[s] != Expected(rs, s)
    ensures !Consistent(rs, cache)
  {
    hide Eligibles, Expected;
  }

  lemma SpoiledSlot(rs: RoundSeed, cache: Cache)
    requires rs.Eligible() && WellFormed(cache) && UpTo(cache, 42)
    ensures var spoiled := AddIteration(rs, cache, 100);
            44 in spoiled && spoiled[44] == Made(rs, 44, Proposal, [])
  {
    hide Eligibles, Made, AddCommittee, ToStep;
    assert ToStep(Proposal, 100) == 44 by { StepOf100(); }
    var proposal := AddCommittee(rs, cache, 100, Proposal);
    NewSlot(rs, cache, 100, Proposal);
    assert proposal[44] == Made(rs, 44, Proposal, []);
    assert Extends(proposal, AddCommittee(rs, proposal, 100, Validation));
  }

  lemma StepOf100()
    ensures ToStep(Proposal, 100) == 44 == ToStep(Ratification, 14)
  {
  }

  lemma CacheOne(rs: RoundSeed, cache: Cache, iteration: Byte)
    requires rs.Eligible() && WellFormed(cache)
    ensures CacheAfter(rs, cache, [iteration]) == AddIteration(rs, cache, iteration)
  {
    hide Eligibles, AddIteration;
    assert [iteration][1..] == [];
  }

  // ------------------------------------------------------------ the context

  class IterationCtx {
    const hash: SortitionHash
    const round: nat
    var iter: nat
    var committees: Cache

    constructor (hash: SortitionHash, round: nat, iter: nat)
      ensures this.hash == hash && this.round == round && this.iter == iter && committees == map[]
    {
      this.hash, this.round, this.iter, committees := hash, round, iter, map[];
    }

    ghost predicate Serves(rs: RoundSeed)
      reads this
    {
      rs.hash == hash && rs.round == round && rs.Eligible() && WellFormed(committees)
    }

    method OnBegin(iter: nat)
      modifies this`iter
      ensures this.iter == iter
    {
      this.iter := iter;
    }

    /** The config starts from the running iteration and is then moved to the
        requested step. */
    method GetSortitionConfig(seed: Seed, step: StepName, exclusion: seq<PublicKey>)
      returns (cfg: SortitionConfig)
      ensures cfg == NewConfig(seed, round, iter, step, exclusion)
    {
      cfg := NewConfig(seed, round, iter, step, exclusion);
    }

    /** Computes and stores the committee of one step. */
    method Insert(iteration: Byte, step: StepName, p: Provisioners, seed: Seed,
                  exclusion: seq<PublicKey>, ghost rs: RoundSeed)
      requires Serves(rs) && rs.provisioners == p && rs.seed == seed
      modifies this`committees
      ensures committees == Fill(rs, old(committees), iteration, step, exclusion)
    {
      hide NewCommittee, Eligibles, ToStep;
      var cfg := GetSortitionConfig(seed, step, exclusion);
      cfg := cfg.(step := ToStep(step, iteration));
      var c := CreateNew(hash, p, cfg);
      committees := committees[ToStep(step, iteration) := c];
    }

    /** `generate_committee`: the Proposal committee of the iteration must already
        be there, as the `expect`s of the code say. */
    method GenerateCommittee(iteration: Byte, step: StepName, p: Provisioners, seed: Seed, ghost rs: RoundSeed)
      requires Serves(rs) && rs.provisioners == p && rs.seed == seed
      requires step.Proposal? || ToStep(Proposal, iteration) in committees
      modifies this`committees
      ensures committees == AddCommittee(rs, old(committees), iteration, step)
    {
      hide RoundSeed.Eligible, ToStep, Fill, AddCommittee, WellFormed, Leader;
      if ToStep(step, iteration) in committees {
        CachedSlot(rs, committees, iteration, step);
        return;
      }
      if !step.Proposal? && ExcludeNextGenerator(iteration)
         && ToStep(Proposal, iteration + 1) !in committees {
        Insert(iteration + 1, Proposal, p, seed, [], rs);
      }
      NewSlot(rs, old(committees), iteration, step);
      assert committees == WithNext(rs, old(committees), iteration, step);
      var exclusion := [];
      if !step.Proposal? {
        exclusion := [Leader(committees, iteration)];
        if ExcludeNextGenerator(iteration) {
          exclusion := exclusion + [Leader(committees, iteration + 1)];
        }
      }
      assert exclusion == ExclusionIn(committees, iteration, step);
      Insert(iteration, step, p, seed, exclusion, rs);
    }

    /** Generating the committees of any iteration needs nothing but eligible
        provisioners: no lookup on the way can fail. */
    method GenerateIterationCommittees(iteration: Byte, p: Provisioners, seed: Seed, ghost rs: RoundSeed)
      requires Serves(rs) && rs.provisioners == p && rs.seed == seed
      modifies this`committees
      ensures committees == AddIteration(rs, old(committees), iteration)
    {
      hide RoundSeed.Eligible, ToStep, AddCommittee, WellFormed;
      GenerateCommittee(iteration, Proposal, p, seed, rs);
      GenerateCommittee(iteration, Validation, p, seed, rs);
      GenerateCommittee(iteration, Ratification, p, seed, rs);
    }
  }

  /** The iterations asked for, without the ones running at the time. */
  function Asked(requests: seq<(nat, Byte)>): (r: seq<Byte>)
    ensures |r| == |requests| && forall i | 0 <= i < |r| :: r[i] == requests[i].1
  {
    if requests == [] then [] else [requests[0].1] + Asked(requests[1..])
  }

  /** After any sequence of requests, each for any iteration a message header can
      name, before, at or after the running one: every requested committee is
      cached, and all are the from-scratch ones if and only if no request clashes. */
  method GenerateAll(rs: RoundSeed, requests: seq<(nat, Byte)>) returns (committees: Cache)
    requires rs.Eligible()
    ensures committees == CacheAfter(rs, map[], Asked(requests))
    ensures forall r, step | r in requests :: ToStep(step, r.1) in committees
    ensures Consistent(rs, committees) <==> NoClashes(rs, map[], Asked(requests))
  {
    hide RoundSeed.Eligible, Expected, ToStep, AddIteration, NoClashes, CacheAfter, WellFormed;
    NothingCached();
    var asked := Asked(requests);
    var ctx := new IterationCtx(rs.hash, rs.round, 0);
    NothingAsked(rs, map[]);
    for i := 0 to |requests|
      invariant ctx.Serves(rs)
      invariant ctx.committees == CacheAfter(rs, map[], asked[..i])
      invariant forall r, step | r in requests[..i] :: ToStep(step, r.1) in ctx.committees
    {
      var (running, requested) := requests[i];
      ctx.OnBegin(running);
      ctx.GenerateIterationCommittees(requested, rs.provisioners, rs.seed, rs);
      assert asked[..i + 1] == asked[..i] + [requested];
      CacheAppend(rs, map[], asked[..i], [requested]);
      CacheOne(rs, CacheAfter(rs, map[], asked[..i]), requested);
      IterationCached(rs, CacheAfter(rs, map[], asked[..i]), requested);
    }
    assert asked[..|requests|] == asked;
    CacheExact(rs, map[], asked);
    committees := ctx.committees;
  }

  lemma NothingAsked(rs: RoundSeed, cache: Cache)
    requires rs.Eligible() && WellFormed(cache)
    ensures CacheAfter(rs, cache, []) == cache
  {
  }

  /** `verify_step_votes`: for a voting step it checks against the very committee
      the cache holds. */
  method VerifyStepVotes(bls: Bls, header: ConsensusHeader, vote: Vote, sv: StepVotes,
                         committees: CommitteeSet, seed: Seed, step: StepName)
    returns (r: Result<(QuorumResult, Cluster), StepSigError>)
    requires committees.Valid() && Eligibles(committees.provisioners, header.round) != map[]
    modifies committees
    ensures committees.Valid()
    ensures var rs := RoundSeed(committees.hash, committees.provisioners, seed, header.round);
            var cfg := NewConfig(seed, header.round, header.iteration, step, rs.Exclusion(header.iteration));
            && r == VerifyVotes(bls, header, step, vote, sv, NewCommittee(committees.hash, committees.provisioners, cfg))
            && (!step.Proposal? ==>
                  r == VerifyVotes(bls, header, step, vote, sv, rs.StepCommittee(header.iteration, step)))
  {
    hide NewCommittee, VerifyVotes;
    ghost var rs := RoundSeed(committees.hash, committees.provisioners, seed, header.round);
    var exclusion :=
      [GetGenerator(committees.hash, committees.provisioners, header.iteration, seed, header.round)];
    if ExcludeNextGenerator(header.iteration) {
      exclusion := exclusion
        + [GetGenerator(committees.hash, committees.provisioners, header.iteration + 1, seed, header.round)];
    }
    var cfg := NewConfig(seed, header.round, header.iteration, step, exclusion);
    assert exclusion == rs.Exclusion(header.iteration);
    var committee := committees.GetOrCreate(cfg);
    r := VerifyVotes(bls, header, step, vote, sv, committee);
  }
}
