/** Deterministic sortition: the weighted extraction of committee members from
    stakes that shrink by one DUSK at every draw. */
module Sortition {
  import opened Config
  import opened Messages
  import opened Collections

  type Seed = Signature

  datatype SortitionConfig = SortitionConfig(
    seed: Seed, round: nat, step: nat, committeeCredits: nat, exclusion: seq<PublicKey>)

  function Credits(step: StepName): nat {
    match step
    case Proposal => PROPOSAL_COMMITTEE_CREDITS
    case Validation => VALIDATION_COMMITTEE_CREDITS
    case Ratification => RATIFICATION_COMMITTEE_CREDITS
  }

  function NewConfig(seed: Seed, round: nat, iteration: nat, step: StepName,
                     exclusion: seq<PublicKey>): SortitionConfig
  {
    SortitionConfig(seed, round, ToStep(step, iteration), Credits(step), exclusion)
  }

  /** The hash of seed, step and counter, read as a number. */
  type SortitionHash = (Seed, nat, nat) -> nat

  datatype Stake = Stake(value: nat, eligibleSince: nat)

  type Provisioners = map<PublicKey, Stake>

  function Eligibles(p: Provisioners, round: nat): map<PublicKey, nat> {
    map k | k in p && p[k].eligibleSince <= round && p[k].value >= DEFAULT_MINIMUM_STAKE
      :: p[k].value
  }

  /** The stakes a committee is drawn from: the eligible ones that are not
      excluded, or all eligible ones when every eligible key is excluded. */
  function Candidates(p: Provisioners, cfg: SortitionConfig): (m: map<PublicKey, nat>)
    ensures m.Keys <= Eligibles(p, cfg.round).Keys
    ensures forall k | k in m :: m[k] == Eligibles(p, cfg.round)[k]
    ensures forall k | k in Eligibles(p, cfg.round) && k !in cfg.exclusion :: k in m
    ensures (exists k :: k in m && k in cfg.exclusion) ==> m == Eligibles(p, cfg.round)
    ensures Eligibles(p, cfg.round) != map[] ==> m != map[]
  {
    var all := Eligibles(p, cfg.round);
    var kept := map k | k in all && k !in cfg.exclusion :: all[k];
    assert all != map[] ==> exists k :: k in all by {
      if all != map[] { assert all.Keys != {}; }
    }
    if kept == map[] then all else kept
  }

  function Min(a: nat, b: nat): nat { if a <= b then a else b }

  // ------------------------------------------------------------ one draw

  /** `i` is the first position at which the running sum of stakes reaches `score`. */
  ghost predicate IsDraw(m: map<PublicKey, nat>, order: seq<PublicKey>, score: nat, i: nat)
    requires forall k | k in order :: k in m
  {
    i < |order| && Prefix(m, order, i + 1) >= score
    && forall j | 0 < j <= i :: Prefix(m, order, j) < score
  }

  lemma DrawIsUnique(m: map<PublicKey, nat>, order: seq<PublicKey>, score: nat, i: nat, j: nat)
    requires forall k | k in order :: k in m
    requires IsDraw(m, order, score, i) && IsDraw(m, order, score, j)
    ensures i == j
  {
  }

  /** The position at which the scan stops, from `i` on. */
  function DrawFrom(m: map<PublicKey, nat>, order: seq<PublicKey>, score: nat, i: nat): (r: nat)
    requires forall k | k in order :: k in m
    requires i < |order| && score <= Prefix(m, order, |order|)
    requires forall j | 0 < j <= i :: Prefix(m, order, j) < score
    ensures IsDraw(m, order, score, r)
    decreases |order| - i
  {
    if Prefix(m, order, i + 1) >= score then i else DrawFrom(m, order, score, i + 1)
  }

  function Draw(m: map<PublicKey, nat>, score: nat): (pk: PublicKey)
    requires m != map[] && score <= Total(m)
    ensures pk in m
  {
    NonEmpty(m);
    PrefixTotal(m);
    var order := SortedKeys(m.Keys);
    order[DrawFrom(m, order, score, 0)]
  }

  lemma NonEmpty(m: map<PublicKey, nat>)
    requires m != map[]
    ensures |SortedKeys(m.Keys)| == |m| > 0
  {
    assert m.Keys != {};
    assert |m.Keys| == |m|;
  }

  /** A score left after whole passes over the members. */
  function Reduce(score: nat, total: nat): (r: nat)
    requires total > 0 || score == 0
    ensures r <= total && r <= score
    ensures score <= total ==> r == score
  {
    if score <= total then score else Reduce(score - total, total)
  }

  /** `CommitteeGenerator`: the shrinking stakes of one extraction. */
  class CommitteeGenerator {
    var members: map<PublicKey, nat>

    constructor (p: Provisioners, cfg: SortitionConfig)
      ensures members == Candidates(p, cfg)
    {
      members := Candidates(p, cfg);
    }

    /** One draw ends in the first pass when the score is at most the total
        stake, and picks the least member whose prefix sum reaches it. */
    method ExtractAndSubtractMember(score: nat) returns (pk: PublicKey, subtracted: nat)
      requires members != map[]
      requires Total(members) > 0 || score == 0
      modifies this
      ensures pk == Draw(old(members), Reduce(score, Total(old(members))))
      ensures subtracted == Min(old(members)[pk], DUSK)
      ensures members == old(members)[pk := old(members)[pk] - subtracted]
    {
      hide Draw, Total, SortedKeys;
      var order := SortedKeys(members.Keys);
      NonEmpty(members);
      PrefixTotal(members);
      var total := Total(members);
      var left: nat := score;
      var found, i, rest := Pass(members, order, left);
      while !found
        invariant members == old(members)
        invariant total > 0 || left == 0
        invariant Reduce(left, total) == Reduce(score, total)
        invariant found ==> IsDraw(members, order, left, i) && left <= total
        invariant !found ==> total < left && rest == left - total
        decreases left, !found
      {
        left := rest;
        found, i, rest := Pass(members, order, left);
      }
      pk := order[i];
      DrawAt(members, left, i);
      subtracted := Min(members[pk], DUSK);
      members := members[pk := members[pk] - subtracted];
    }
  }

  /** One pass of the scan: it stops at the first member whose prefix sum
      reaches the score, or leaves the score reduced by the whole stake. */
  method Pass(m: map<PublicKey, nat>, order: seq<PublicKey>, score: nat)
    returns (found: bool, i: nat, rest: nat)
    requires forall k | k in order :: k in m
    ensures found <==> order != [] && score <= Prefix(m, order, |order|)
    ensures found ==> IsDraw(m, order, score, i)
    ensures !found && order != [] ==> rest == score - Prefix(m, order, |order|)
  {
    rest := score;
    i := 0;
    while i < |order|
      invariant i <= |order|
      invariant rest == score - Prefix(m, order, i)
      invariant forall j | 0 < j <= i :: Prefix(m, order, j) < score
    {
      var value := m[order[i]];
      if value >= rest {
        PrefixMonotone(m, order, i + 1);
        return true, i, rest;
      }
      rest := rest - value;
      i := i + 1;
    }
    return false, 0, rest;
  }

  lemma {:induction false} PrefixMonotone(m: map<nat, nat>, order: seq<nat>, i: nat)
    requires i <= |order| && forall k | k in order :: k in m
    ensures Prefix(m, order, i) <= Prefix(m, order, |order|)
    decreases |order| - i
  {
    if i < |order| { PrefixMonotone(m, order, i + 1); }
  }

  lemma DrawAt(m: map<PublicKey, nat>, score: nat, i: nat)
    requires m != map[] && score <= Total(m) && IsDraw(m, SortedKeys(m.Keys), score, i)
    ensures Draw(m, score) == SortedKeys(m.Keys)[i]
  {
    NonEmpty(m);
    PrefixTotal(m);
    var order := SortedKeys(m.Keys);
    DrawIsUnique(m, order, score, i, DrawFrom(m, order, score, 0));
  }

  // ----------------------------------------------------- a whole extraction

  /** The stakes after `pk` was drawn once. */
  function Spend(m: map<PublicKey, nat>, pk: PublicKey): map<PublicKey, nat>
    requires pk in m
  {
    m[pk := m[pk] - Min(m[pk], DUSK)]
  }

  lemma SpendTotal(m: map<PublicKey, nat>, pk: PublicKey)
    requires pk in m
    ensures Total(Spend(m, pk)) == Total(m) - Min(m[pk], DUSK)
  {
    TotalUpdate(m, pk, m[pk] - Min(m[pk], DUSK));
  }

  /** The keys drawn from the stakes `m` when `drawn` are already out. */
  function Extraction(h: SortitionHash, cfg: SortitionConfig, m: map<PublicKey, nat>, drawn: nat)
    : (keys: seq<PublicKey>)
    requires m != map[] && Total(m) > 0 && drawn <= cfg.committeeCredits
    ensures |keys| <= cfg.committeeCredits - drawn
    ensures drawn < cfg.committeeCredits ==> keys != []
    ensures forall k | k in keys :: k in m
    decreases cfg.committeeCredits - drawn
  {
    if drawn == cfg.committeeCredits then [] else
      var pk := Draw(m, h(cfg.seed, cfg.step, drawn) % Total(m));
      SpendTotal(m, pk);
      if Total(m) > Min(m[pk], DUSK) then
        [pk] + Extraction(h, cfg, Spend(m, pk), drawn + 1)
      else
        [pk]
  }

  /** One turn of the extraction. */
  lemma ExtractionStep(h: SortitionHash, cfg: SortitionConfig, m: map<PublicKey, nat>, drawn: nat)
    requires m != map[] && Total(m) > 0 && drawn < cfg.committeeCredits
    ensures var pk := Draw(m, h(cfg.seed, cfg.step, drawn) % Total(m));
            var spent := Min(m[pk], DUSK);
            && Total(Spend(m, pk)) == Total(m) - spent
            && Extraction(h, cfg, m, drawn) ==
                 if Total(m) > spent then [pk] + Extraction(h, cfg, Spend(m, pk), drawn + 1) else [pk]
  {
    hide Total, Draw;
    SpendTotal(m, Draw(m, h(cfg.seed, cfg.step, drawn) % Total(m)));
  }

  lemma CandidatesHaveStake(p: Provisioners, cfg: SortitionConfig)
    requires Eligibles(p, cfg.round) != map[]
    ensures Candidates(p, cfg) != map[] && Total(Candidates(p, cfg)) >= DEFAULT_MINIMUM_STAKE
  {
    var m := Candidates(p, cfg);
    assert m.Keys != {};
    var k :| k in m;
    TotalRemove(m, k);
  }

  function CommitteeKeys(h: SortitionHash, p: Provisioners, cfg: SortitionConfig): seq<PublicKey>
    requires Eligibles(p, cfg.round) != map[]
  {
    CandidatesHaveStake(p, cfg);
    Extraction(h, cfg, Candidates(p, cfg), 0)
  }

  /** `create_committee`: the running `total_weight` is the sum of the remaining
      stakes at every draw. */
  method CreateCommittee(h: SortitionHash, p: Provisioners, cfg: SortitionConfig)
    returns (extracted: seq<PublicKey>)
    requires Eligibles(p, cfg.round) != map[]
    ensures extracted == CommitteeKeys(h, p, cfg)
  {
    hide Total, Draw, Candidates, Extraction, Reduce, Eligibles;
    CandidatesHaveStake(p, cfg);
    extracted := [];
    var comm := new CommitteeGenerator(p, cfg);
    var totalWeight := Total(comm.members);
    ghost var whole := CommitteeKeys(h, p, cfg);
    while |extracted| != cfg.committeeCredits
      invariant |extracted| <= cfg.committeeCredits
      invariant comm.members != map[] && totalWeight == Total(comm.members) > 0
      invariant whole == extracted + Extraction(h, cfg, comm.members, |extracted|)
      decreases cfg.committeeCredits - |extracted|
    {
      ghost var m := comm.members;
      ghost var before := extracted;
      ExtractionStep(h, cfg, m, |extracted|);
      var score := h(cfg.seed, cfg.step, |extracted|) % totalWeight;
      var pk, subtracted := comm.ExtractAndSubtractMember(score);
      assert comm.members == Spend(m, pk);
      extracted := extracted + [pk];
      if totalWeight > subtracted {
        totalWeight := totalWeight - subtracted;
        ghost var rest := Extraction(h, cfg, comm.members, |extracted|);
        assert before + ([pk] + rest) == extracted + rest;
      } else {
        break;
      }
    }
  }

  /** With enough stake for one DUSK per credit the extraction never stops early. */
  lemma {:induction false} FullExtraction(h: SortitionHash, cfg: SortitionConfig,
                                          m: map<PublicKey, nat>, drawn: nat)
    requires m != map[] && Total(m) > 0 && drawn <= cfg.committeeCredits
    requires Total(m) >= (cfg.committeeCredits - drawn) * DUSK
    ensures |Extraction(h, cfg, m, drawn)| == cfg.committeeCredits - drawn
    decreases cfg.committeeCredits - drawn
  {
    hide Total, Draw;
    if drawn < cfg.committeeCredits {
      var pk := Draw(m, h(cfg.seed, cfg.step, drawn) % Total(m));
      SpendTotal(m, pk);
      if Total(m) > Min(m[pk], DUSK) {
        FullExtraction(h, cfg, Spend(m, pk), drawn + 1);
      } else {
        assert Total(m) <= DUSK;
      }
    }
  }

  /** Every committee of at most 1000 credits is full, and holds only eligible
      keys; excluded ones only when every eligible key is excluded. */
  lemma CommitteeIsFull(h: SortitionHash, p: Provisioners, cfg: SortitionConfig)
    requires Eligibles(p, cfg.round) != map[] && cfg.committeeCredits <= 1000
    ensures |CommitteeKeys(h, p, cfg)| == cfg.committeeCredits
    ensures forall k | k in CommitteeKeys(h, p, cfg) :: k in Eligibles(p, cfg.round)
    ensures (exists k :: k in Eligibles(p, cfg.round) && k !in cfg.exclusion) ==>
              forall k | k in CommitteeKeys(h, p, cfg) :: k !in cfg.exclusion
  {
    CandidatesHaveStake(p, cfg);
    FullExtraction(h, cfg, Candidates(p, cfg), 0);
    if k :| k in Eligibles(p, cfg.round) && k !in cfg.exclusion {
      var all := Eligibles(p, cfg.round);
      var kept := map j | j in all && j !in cfg.exclusion :: all[j];
      assert k in kept;
    }
  }

  /** The stakes left after drawing `keys` in turn. */
  function StakesAfter(m: map<PublicKey, nat>, keys: seq<PublicKey>): (r: map<PublicKey, nat>)
    requires forall k | k in keys :: k in m
    ensures r.Keys == m.Keys
  {
    if keys == [] then m else StakesAfter(Spend(m, keys[0]), keys[1..])
  }

  /** Every draw of a key costs it one DUSK, as long as it has that much. */
  lemma {:induction false} DrawsCost(m: map<PublicKey, nat>, keys: seq<PublicKey>, k: PublicKey)
    requires (forall j | j in keys :: j in m) && k in m
    ensures StakesAfter(m, keys)[k]
            == if multiset(keys)[k] * 1_000_000_000 <= m[k] then m[k] - multiset(keys)[k] * 1_000_000_000 else 0
    decreases |keys|
  {
    if keys != [] {
      DrawsCost(Spend(m, keys[0]), keys[1..], k);
      assert keys == [keys[0]] + keys[1..];
      assert multiset(keys) == multiset{keys[0]} + multiset(keys[1..]);
    }
  }

  /** `pk` is the least key whose prefix sum over the stakes `m` reaches `n`
      modulo the total stake. */
  ghost predicate DrawnBy(m: map<PublicKey, nat>, n: nat, pk: PublicKey) {
    var order := SortedKeys(m.Keys);
    Total(m) > 0 &&
    exists i :: 0 <= i < |order| && order[i] == pk && IsDraw(m, order, n % Total(m), i)
  }

  lemma DrawIsLeast(m: map<PublicKey, nat>, n: nat)
    requires m != map[] && Total(m) > 0
    ensures DrawnBy(m, n, Draw(m, n % Total(m)))
  {
    NonEmpty(m);
    PrefixTotal(m);
    var order := SortedKeys(m.Keys);
    var i := DrawFrom(m, order, n % Total(m), 0);
    assert order[i] == Draw(m, n % Total(m));
  }

  /** Every key is drawn by the hash of its own position from the stakes that
      the earlier draws left. */
  lemma {:induction false} EveryDraw(h: SortitionHash, cfg: SortitionConfig,
                                     m: map<PublicKey, nat>, drawn: nat, j: nat)
    requires m != map[] && Total(m) > 0 && drawn <= cfg.committeeCredits
    requires j < |Extraction(h, cfg, m, drawn)|
    ensures var keys := Extraction(h, cfg, m, drawn);
            DrawnBy(StakesAfter(m, keys[..j]), h(cfg.seed, cfg.step, drawn + j), keys[j])
    decreases j
  {
    hide Total, SortedKeys, DrawnBy, Draw;
    var keys := Extraction(h, cfg, m, drawn);
    var pk := Draw(m, h(cfg.seed, cfg.step, drawn) % Total(m));
    if j == 0 {
      assert keys[..0] == [];
      DrawIsLeast(m, h(cfg.seed, cfg.step, drawn));
    } else {
      SpendTotal(m, pk);
      var rest := Extraction(h, cfg, Spend(m, pk), drawn + 1);
      assert keys == [pk] + rest;
      EveryDraw(h, cfg, Spend(m, pk), drawn + 1, j - 1);
      assert keys[..j] == [pk] + rest[..j - 1];
      assert keys[..j][1..] == rest[..j - 1];
    }
  }
}
