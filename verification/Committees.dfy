/** Committees: members with their credits, and voter sets as 64-bit bitsets. */
module Committees {
  import opened Config
  import opened Messages
  import opened Collections
  import opened Bitset
  import opened Sortition

  /** The voters of one cluster, with their weights. */
  type Cluster = map<PublicKey, nat>

  datatype Committee = Committee(
    members: map<PublicKey, nat>, superMajority: nat, majority: nat, excluded: seq<PublicKey>)
  {
    /** Positive credits, at most one bit per member, thresholds of the credit total. */
    ghost predicate Valid() {
      (forall k | k in members :: members[k] >= 1)
      && |members| <= 64
      && Total(members) >= 1
      && superMajority == Supermajority(Total(members))
      && majority == Majority(Total(members))
    }

    function Order(): seq<PublicKey> {
      SortedKeys(members.Keys)
    }

    function VotesFor(pk: PublicKey): Option<nat> {
      if pk in members then Some(members[pk]) else None
    }

    function Target(vote: Vote): nat {
      if vote.Valid? then superMajority else majority
    }

    /** The credits of the voters that are members. */
    function TotalOccurrences(voters: Cluster): nat {
      Total(Restrict(members, voters.Keys))
    }
  }

  // ---------------------------------------------------------- construction

  /** How often each key was extracted. */
  function Occurrences(keys: seq<PublicKey>): (m: map<PublicKey, nat>) {
    if keys == [] then map[] else
      var m := Occurrences(keys[..|keys| - 1]);
      var k := keys[|keys| - 1];
      m[k := (if k in m then m[k] else 0) + 1]
  }

  /** Counting neither loses nor invents a credit: every key gets its multiplicity,
      and the credits add up to the number of extractions. */
  lemma OccurrencesCount(keys: seq<PublicKey>)
    ensures Total(Occurrences(keys)) == |keys|
    ensures forall k :: k in Occurrences(keys) <==> k in keys
    ensures forall k | k in keys :: Occurrences(keys)[k] == multiset(keys)[k] >= 1
  {
    OccurrencesTotal(keys);
    forall k ensures k in Occurrences(keys) <==> k in keys
             ensures k in keys ==> Occurrences(keys)[k] == multiset(keys)[k]
    {
      OccurrencesOf(keys, k);
    }
  }

  lemma {:induction false} OccurrencesTotal(keys: seq<PublicKey>)
    ensures Total(Occurrences(keys)) == |keys|
  {
    hide Total;
    if keys == [] {
      EmptyTotal();
    } else {
      var init, last := keys[..|keys| - 1], keys[|keys| - 1];
      OccurrencesTotal(init);
      var m := Occurrences(init);
      if last in m {
        TotalUpdate(m, last, m[last] + 1);
      } else {
        TotalInsert(m, last, 1);
      }
    }
  }

  lemma {:induction false} OccurrencesOf(keys: seq<PublicKey>, k: PublicKey)
    ensures k in Occurrences(keys) <==> k in keys
    ensures k in keys ==> Occurrences(keys)[k] == multiset(keys)[k]
  {
    if keys != [] {
      var init, last := keys[..|keys| - 1], keys[|keys| - 1];
      OccurrencesOf(init, k);
      assert keys == init + [last];
      var before: multiset<PublicKey> := multiset(init);
      assert multiset(keys) == before + multiset{last};
    }
  }

  function NewCommittee(h: SortitionHash, p: Provisioners, cfg: SortitionConfig): Committee
    requires Eligibles(p, cfg.round) != map[]
  {
    Committee(Occurrences(CommitteeKeys(h, p, cfg)), Supermajority(cfg.committeeCredits),
              Majority(cfg.committeeCredits), cfg.exclusion)
  }

  method CreateNew(h: SortitionHash, p: Provisioners, cfg: SortitionConfig)
    returns (committee: Committee)
    requires Eligibles(p, cfg.round) != map[]
    ensures committee == NewCommittee(h, p, cfg)
  {
    hide CommitteeKeys;
    var extracted := CreateCommittee(h, p, cfg);
    var members: map<PublicKey, nat> := map[];
    for i := 0 to |extracted|
      invariant members == Occurrences(extracted[..i])
    {
      var key := extracted[i];
      assert extracted[..i + 1][..i] == extracted[..i];
      members := members[key := (if key in members then members[key] else 0) + 1];
    }
    assert extracted[..|extracted|] == extracted;
    committee := Committee(members, Supermajority(cfg.committeeCredits),
                           Majority(cfg.committeeCredits), cfg.exclusion);
  }

  /** A committee of 1 to 64 credits distributes exactly its credits. */
  lemma NewCommitteeValid(h: SortitionHash, p: Provisioners, cfg: SortitionConfig)
    requires Eligibles(p, cfg.round) != map[] && 1 <= cfg.committeeCredits <= 64
    ensures NewCommittee(h, p, cfg).Valid()
    ensures Total(NewCommittee(h, p, cfg).members) == cfg.committeeCredits
  {
    hide CommitteeKeys;
    CommitteeIsFull(h, p, cfg);
    OccurrencesCount(CommitteeKeys(h, p, cfg));
    TotalAtLeastSize(Occurrences(CommitteeKeys(h, p, cfg)));
  }

  /** The generator is the first member of the Proposal committee. */
  function GetGenerator(h: SortitionHash, p: Provisioners, iteration: nat, seed: Seed, round: nat)
    : (generator: PublicKey)
    requires Eligibles(p, round) != map[]
  {
    var c := NewCommittee(h, p, NewConfig(seed, round, iteration, Proposal, []));
    NewCommitteeValid(h, p, NewConfig(seed, round, iteration, Proposal, []));
    assert c.members != map[];
    NonEmpty(c.members);
    c.Order()[0]
  }

  /** The generator is the key the first sortition hash of the Proposal step draws
      from the eligible stakes. */
  lemma GeneratorIsDrawn(h: SortitionHash, p: Provisioners, iteration: nat, seed: Seed, round: nat)
    requires Eligibles(p, round) != map[]
    ensures DrawnBy(Eligibles(p, round), h(seed, ToStep(Proposal, iteration), 0),
                    GetGenerator(h, p, iteration, seed, round))
  {
    hide DrawnBy, Total, Extraction, StakesAfter;
    var cfg := NewConfig(seed, round, iteration, Proposal, []);
    var m := Candidates(p, cfg);
    assert m == Eligibles(p, round);
    CandidatesHaveStake(p, cfg);
    CommitteeIsFull(h, p, cfg);
    FirstDraw(h, cfg, m);
    var keys := CommitteeKeys(h, p, cfg);
    OccurrencesCount(keys);
    var c := NewCommittee(h, p, cfg);
    assert c.Order()[0] in c.members;
    assert c.Order()[0] == keys[0];
  }

  lemma FirstDraw(h: SortitionHash, cfg: SortitionConfig, m: map<PublicKey, nat>)
    requires m != map[] && Total(m) > 0 && cfg.committeeCredits >= 1
    ensures DrawnBy(m, h(cfg.seed, cfg.step, 0), Extraction(h, cfg, m, 0)[0])
  {
    hide DrawnBy, Total, Draw;
    EveryDraw(h, cfg, m, 0, 0);
    assert Extraction(h, cfg, m, 0)[..0] == [];
  }

  // -------------------------------------------------------------- bitsets

  /** The bits of the first `n` members found among the voters. */
  function BitsUpTo(order: seq<PublicKey>, voters: Cluster, n: nat): (bits: nat)
    requires n <= |order|
  {
    if n == 0 then 0
    else if order[n - 1] in voters then SetBit(BitsUpTo(order, voters, n - 1), n - 1)
    else BitsUpTo(order, voters, n - 1)
  }

  function Bits(c: Committee, voters: Cluster): nat {
    BitsUpTo(c.Order(), voters, |c.Order()|)
  }

  lemma {:induction false} BitsUpToBit(order: seq<PublicKey>, voters: Cluster, n: nat, i: nat)
    requires n <= |order|
    ensures BitsUpTo(order, voters, n) < Pow2(n)
    ensures Bit(BitsUpTo(order, voters, n), i) <==> i < n && order[i] in voters
  {
    if n == 0 {
      ZeroBit(i);
    } else {
      BitsUpToBit(order, voters, n - 1, i);
      var b := BitsUpTo(order, voters, n - 1);
      assert Pow2(n) == 2 * Pow2(n - 1);
      if order[n - 1] in voters {
        BitOfSetBit(b, n - 1, i);
        SetBitBound(b, n - 1, n);
      }
    }
  }

  lemma Pow2Is64()
    ensures Pow2(64) == 0x1_0000_0000_0000_0000
  {
    Pow2Step(0); Pow2Step(8); Pow2Step(16); Pow2Step(24);
    Pow2Step(32); Pow2Step(40); Pow2Step(48); Pow2Step(56);
  }

  lemma Pow2Step(n: nat)
    ensures Pow2(n + 8) == 256 * Pow2(n)
  {
    assert Pow2(n + 2) == 2 * Pow2(n + 1);
    assert Pow2(n + 4) == 2 * Pow2(n + 3);
    assert Pow2(n + 6) == 2 * Pow2(n + 5);
    assert Pow2(n + 8) == 2 * Pow2(n + 7);
  }

  lemma BitsFit(c: Committee, voters: Cluster)
    requires |c.members| <= 64
    ensures Bits(c, voters) < 0x1_0000_0000_0000_0000
  {
    assert |c.Order()| == |c.members| by { assert |c.members| == |c.members.Keys|; }
    BitsUpToBit(c.Order(), voters, |c.Order()|, 0);
    Pow2Monotone(|c.Order()|, 64);
    Pow2Is64();
  }

  /** `Committee::bits` as it loops over the members. */
  method BitsLoop(c: Committee, voters: Cluster) returns (bits: nat)
    ensures bits == Bits(c, voters)
  {
    hide SortedKeys, SetBit;
    bits := 0;
    var order := c.Order();
    for pos := 0 to |order|
      invariant bits == BitsUpTo(order, voters, pos)
    {
      if order[pos] in voters {
        bits := SetBit(bits, pos);
      }
    }
  }

  /** The position of a key in the key order. */
  function Position(order: seq<PublicKey>, pk: PublicKey): (i: nat)
    requires pk in order
    ensures i < |order| && order[i] == pk
  {
    if order[0] == pk then 0 else 1 + Position(order[1..], pk)
  }

  /** The members whose bit is set, with their credits. */
  function Intersect(c: Committee, bitset: nat): (cluster: Cluster) {
    map k | k in c.members && Bit(bitset, Position(c.Order(), k)) :: c.members[k]
  }

  lemma IntersectZero(c: Committee)
    ensures Intersect(c, 0) == map[]
  {
    forall k | k in c.members ensures k !in Intersect(c, 0) {
      ZeroBit(Position(c.Order(), k));
    }
  }

  /** A part of the committee is counted with exactly its own weights. */
  lemma OccurrencesOfSubmap(c: Committee, voters: Cluster)
    requires Submap(voters, c.members)
    ensures c.TotalOccurrences(voters) == Total(voters)
  {
    hide Total;
    assert Restrict(c.members, voters.Keys) == voters;
  }

  /** What the scan has selected after `n` members. */
  function Selected(c: Committee, order: seq<PublicKey>, bitset: nat, n: nat): Cluster
    requires n <= |order| && forall k | k in order :: k in c.members
  {
    if n == 0 then map[]
    else if Bit(bitset, n - 1) then
      Selected(c, order, bitset, n - 1)[order[n - 1] := c.members[order[n - 1]]]
    else Selected(c, order, bitset, n - 1)
  }

  lemma {:induction false} SelectedKeys(c: Committee, order: seq<PublicKey>, bitset: nat, n: nat, k: PublicKey)
    requires n <= |order| && forall k | k in order :: k in c.members
    requires StrictlySorted(order) && k in order
    ensures k in Selected(c, order, bitset, n)
            <==> Position(order, k) < n && Bit(bitset, Position(order, k))
  {
    if n > 0 {
      SelectedKeys(c, order, bitset, n - 1, k);
    }
  }

  lemma SelectedAll(c: Committee, bitset: nat)
    ensures Selected(c, c.Order(), bitset, |c.Order()|) == Intersect(c, bitset)
  {
    hide SortedKeys, Selected;
    var order := c.Order();
    var all := Selected(c, order, bitset, |order|);
    forall k | k in c.members ensures k in all <==> k in Intersect(c, bitset) {
      SelectedKeys(c, order, bitset, |order|, k);
    }
    SelectedInMembers(c, order, bitset, |order|);
  }

  lemma {:induction false} SelectedInMembers(c: Committee, order: seq<PublicKey>, bitset: nat, n: nat)
    requires n <= |order| && forall k | k in order :: k in c.members
    ensures Submap(Selected(c, order, bitset, n), c.members)
  {
    if n > 0 { SelectedInMembers(c, order, bitset, n - 1); }
  }

  /** `Committee::intersect` as it loops over the members. */
  method IntersectLoop(c: Committee, bitset: nat) returns (a: Cluster)
    ensures a == Intersect(c, bitset)
  {
    hide SortedKeys;
    a := map[];
    if bitset == 0 {
      IntersectZero(c);
      return;
    }
    var order := c.Order();
    for pos := 0 to |order|
      invariant a == Selected(c, order, bitset, pos)
    {
      if Bit(bitset, pos) {
        a := a[order[pos] := c.members[order[pos]]];
      }
    }
    SelectedAll(c, bitset);
  }

  /** Encoding what a bitset selects gives the bitset back, cut to the members. */
  lemma BitsOfIntersect(c: Committee, bitset: nat)
    ensures Bits(c, Intersect(c, bitset)) == bitset % Pow2(|c.members|)
  {
    var order, n := c.Order(), |c.members|;
    assert n == |order| by { assert |c.members| == |c.members.Keys|; }
    var selected := Intersect(c, bitset);
    BitsUpToBit(order, selected, n, 0);
    forall i | 0 <= i < n
      ensures Bit(Bits(c, selected), i) == Bit(bitset % Pow2(n), i)
    {
      BitsUpToBit(order, selected, n, i);
      BitOfMod(bitset, n, i);
      assert order[i] in order;
      assert Position(order, order[i]) == i;
    }
    Extensional(Bits(c, selected), bitset % Pow2(n), n);
  }

  /** Decoding an encoded voter set yields its committee members, with the
      committee's credits. */
  lemma IntersectOfBits(c: Committee, voters: Cluster)
    ensures Intersect(c, Bits(c, voters)) == Restrict(c.members, voters.Keys)
  {
    var order := c.Order();
    forall k | k in c.members
      ensures Bit(Bits(c, voters), Position(order, k)) <==> k in voters
    {
      BitsUpToBit(order, voters, |order|, Position(order, k));
    }
  }

  // ---------------------------------------------------------------- cache

  /** `CommitteeSet`: committees already generated, by configuration. */
  class CommitteeSet {
    var committees: map<SortitionConfig, Committee>
    const provisioners: Provisioners
    const hash: SortitionHash

    /** Whatever is cached is what a fresh construction gives. */
    ghost predicate Valid()
      reads this
    {
      forall cfg | cfg in committees ::
        Eligibles(provisioners, cfg.round) != map[]
        && committees[cfg] == NewCommittee(hash, provisioners, cfg)
    }

    constructor (h: SortitionHash, p: Provisioners)
      ensures Valid() && provisioners == p && hash == h && committees == map[]
    {
      committees, provisioners, hash := map[], p, h;
    }

    method GetOrCreate(cfg: SortitionConfig) returns (c: Committee)
      requires Valid() && Eligibles(provisioners, cfg.round) != map[]
      modifies this
      ensures Valid() && c == NewCommittee(hash, provisioners, cfg)
      ensures committees == old(committees)[cfg := c]
    {
      hide NewCommittee, Eligibles;
      if cfg !in committees {
        c := CreateNew(hash, provisioners, cfg);
        committees := committees[cfg := c];
      } else {
        c := committees[cfg];
      }
    }
  }
}
