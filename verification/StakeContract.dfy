/** The stake contract: stakes, rewards and penalties over two maps, a balance
    held by the transfer contract, and a log of the block's first changes. */
module StakeContract {
  import opened Collections
  import opened Messages
  import Sortition

  const EPOCH: nat := 2160

  type ContractId = nat

  datatype Owner = AccountOwner(key: PublicKey) | ContractOwner(id: ContractId)

  datatype StakeKeys = StakeKeys(account: PublicKey, owner: Owner)

  datatype StakeAmount = StakeAmount(value: nat, locked: nat, eligibility: nat) {
    function TotalFunds(): nat { value + locked }
  }

  datatype StakeData = StakeData(amount: Option<StakeAmount>, reward: nat, faults: nat, hardFaults: nat)

  const EMPTY_STAKE := StakeData(None, 0, 0, 0)

  datatype Entry = Entry(data: StakeData, keys: StakeKeys)

  /** The contract, with what the transfer contract holds for it and running
      totals of everything that came in and went out. */
  datatype State = State(
    stakes: map<PublicKey, Entry>, log: map<PublicKey, Option<StakeData>>, burnt: nat,
    warnings: nat, minimumStake: nat,
    balance: nat, received: nat, deposited: nat, unstaked: nat, rewarded: nat, minted: nat)

  /** Who asks: the owner and account signatures and whether they verify, or a
      calling contract. */
  datatype Origin = BySignatures(ownerOk: bool, accountOk: bool) | ByContract(id: ContractId, accountOk: bool)

  predicate OwnerAgrees(owner: Owner, origin: Origin) {
    match owner
    case AccountOwner(_) => origin.BySignatures? && origin.ownerOk
    case ContractOwner(id) => origin.ByContract? && origin.id == id
  }

  datatype Call =
    | NewBlock
    | Receive(amount: nat)
    | DoStake(keys: StakeKeys, value: nat, chainOk: bool, origin: Origin, height: nat)
    | DoUnstake(account: PublicKey, value: nat, origin: Origin)
    | DoWithdraw(account: PublicKey, value: nat, origin: Origin)
    | DoReward(rewards: seq<(PublicKey, nat)>)
    | DoSlash(account: PublicKey, toSlash: Option<nat>, height: nat)
    | DoHardSlash(account: PublicKey, toSlash: Option<nat>, severity: Option<nat>, height: nat)

  // ------------------------------------------------------- small pieces

  function NextEpoch(height: nat): (r: nat)
    ensures height < r <= height + EPOCH && r % EPOCH == 0
  {
    height + (EPOCH - height % EPOCH)
  }

  function EligibilityFrom(height: nat): nat {
    NextEpoch(height) + EPOCH
  }

  function SaturatingAdd(a: nat, b: nat): nat {
    if a + b > 255 then 255 else a + b
  }

  /** A tenth of a top-up is locked once the stake is eligible. */
  function AddFunds(amount: Option<StakeAmount>, value: nat, height: nat): (r: StakeAmount)
    ensures r.TotalFunds() == value + if amount.Some? then amount.value.TotalFunds() else 0
    ensures amount.Some? ==> r.eligibility == amount.value.eligibility && r.value >= amount.value.value
    ensures amount.Some? && height < amount.value.eligibility ==> r.locked == amount.value.locked
    ensures amount.Some? && height >= amount.value.eligibility ==>
              var locked := r.locked - amount.value.locked;
              10 * locked <= value < 10 * locked + 10
    ensures amount.None? ==>
              r.locked == 0 && r.eligibility % EPOCH == 0 && height + EPOCH < r.eligibility <= height + 2 * EPOCH
  {
    match amount
    case Some(a) =>
      var locked := if height >= a.eligibility then value / 10 else 0;
      StakeAmount(a.value + (value - locked), a.locked + locked, a.eligibility)
    case None => StakeAmount(value, 0, EligibilityFrom(height))
  }

  /** Funds leave the value first, then what is locked; nothing left is no stake. */
  function RemoveFunds(a: StakeAmount, value: nat): (r: Option<StakeAmount>)
    requires value <= a.TotalFunds()
    ensures r.None? <==> value == a.TotalFunds()
    ensures r.Some? ==> r.value.TotalFunds() == a.TotalFunds() - value && r.value.eligibility == a.eligibility
                        && (r.value.locked == a.locked || (r.value.locked < a.locked && r.value.value == 0))
  {
    if value == a.TotalFunds() then None
    else if value > a.value then Some(StakeAmount(0, a.locked - (value - a.value), a.eligibility))
    else Some(StakeAmount(a.value - value, a.locked, a.eligibility))
  }

  /** First write wins. */
  function Log(log: map<PublicKey, Option<StakeData>>, account: PublicKey, prev: Option<StakeData>)
    : map<PublicKey, Option<StakeData>>
  {
    if account in log then log else log[account := prev]
  }

  function Put(stakes: map<PublicKey, Entry>, account: PublicKey, data: StakeData, keys: StakeKeys)
    : map<PublicKey, Entry>
  {
    if data.amount.None? && data.reward == 0 then stakes - {account}
    else stakes[account := Entry(data, keys)]
  }

  // -------------------------------------------------------- operations

  /** `stake` and `stake_from_contract`; `None` is a panic, rolled back. */
  function Stake(s: State, keys: StakeKeys, value: nat, chainOk: bool, origin: Origin, height: nat)
    : Option<State>
  {
    var prev := if keys.account in s.stakes then Some(s.stakes[keys.account].data) else None;
    var data := if prev.Some? then prev.value else EMPTY_STAKE;
    if !chainOk
       || (prev.Some? && s.stakes[keys.account].keys != keys)
       || (data.amount.None? && value < s.minimumStake)
       || !OwnerAgrees(keys.owner, origin)
       || ((origin.BySignatures? || data.amount.None?) && !origin.accountOk)
    then None
    else
      var amount := AddFunds(data.amount, value, height);
      Some(s.(stakes := s.stakes[keys.account := Entry(data.(amount := Some(amount)), keys)],
              log := Log(s.log, keys.account, prev),
              balance := s.balance + value, deposited := s.deposited + value))
  }

  /** `unstake` and `unstake_from_contract`; only the first insists on the
      minimum for what is left. */
  function Unstake(s: State, account: PublicKey, value: nat, origin: Origin): Option<State> {
    if account !in s.stakes || s.stakes[account].data.amount.None? then None
    else
      var Entry(data, keys) := s.stakes[account];
      var amount := data.amount.value;
      if value > amount.TotalFunds()
         || !OwnerAgrees(keys.owner, origin)
         || (origin.BySignatures? && !origin.accountOk)
         || s.balance < value
      then None
      else
        var left := RemoveFunds(amount, value);
        if origin.BySignatures? && left.Some? && left.value.TotalFunds() < s.minimumStake then None
        else
          Some(s.(stakes := Put(s.stakes, account, data.(amount := left), keys),
                  log := Log(s.log, account, Some(data)),
                  balance := s.balance - value, unstaked := s.unstaked + value))
  }

  /** `withdraw` and `withdraw_from_contract`: rewards are minted, not logged. */
  function Withdraw(s: State, account: PublicKey, value: nat, origin: Origin): Option<State> {
    if account !in s.stakes then None
    else
      var Entry(data, keys) := s.stakes[account];
      if value == 0 || value > data.reward
         || !OwnerAgrees(keys.owner, origin)
         || (origin.BySignatures? && !origin.accountOk)
      then None
      else
        Some(s.(stakes := Put(s.stakes, account, data.(reward := data.reward - value), keys),
                minted := s.minted + value))
  }

  /** One reward; an unknown account gets an entry of its own. */
  function RewardOne(s: State, account: PublicKey, value: nat): State {
    var entry :=
      if account in s.stakes then
        var Entry(data, keys) := s.stakes[account];
        Entry(StakeData(data.amount, data.reward + value, 0, 0), keys)
      else Entry(EMPTY_STAKE.(reward := value), StakeKeys(account, AccountOwner(account)));
    s.(stakes := s.stakes[account := entry], rewarded := s.rewarded + value)
  }

  function Reward(s: State, rewards: seq<(PublicKey, nat)>): State {
    if rewards == [] then s
    else
      var init := Reward(s, rewards[..|rewards| - 1]);
      RewardOne(init, rewards[|rewards| - 1].0, rewards[|rewards| - 1].1)
  }

  /** What a penalty takes: the given amount, or ten percent per fault. */
  function Penalty(toSlash: Option<nat>, value: nat, faults: nat): (r: nat)
    ensures r <= value
  {
    Sortition.Min(if toSlash.Some? then toSlash.value else value / 100 * faults * 10, value)
  }

  /** Without a given amount a fault costs ten percent of the value, up to the
      rounding to hundreds; eleven faults cost all of it. */
  lemma TenPercentPerFault(value: nat, faults: nat)
    ensures 0 < faults <= 10 ==>
              var p := Penalty(None, value, faults);
              10 * p <= faults * value < 10 * p + 100 * faults
    ensures faults > 10 && value >= 1000 ==> Penalty(None, value, faults) == value
  {
    var q, r := value / 100, value % 100;
    Distribute(faults, q, r);
    if faults <= 10 {
      Scale(faults, 10, q);
      if 0 < faults { Scale(r, 99, faults); }
    } else {
      Scale(11, faults, q);
    }
  }

  lemma Distribute(f: nat, q: nat, r: nat)
    ensures f * (100 * q + r) == 100 * (f * q) + r * f && q * f * 10 == 10 * (f * q)
  {
  }

  lemma Scale(a: nat, b: nat, c: nat)
    requires a <= b
    ensures a * c <= b * c
  {
  }

  /** `slash`: the penalty is locked, and past the warnings the stake is suspended. */
  function Slash(s: State, account: PublicKey, toSlash: Option<nat>, height: nat): Option<State> {
    if account !in s.stakes then None
    else if s.stakes[account].data.amount.None? then Some(s)
    else
      var Entry(data, keys) := s.stakes[account];
      var a := data.amount.value;
      var faults := SaturatingAdd(data.faults, 1);
      var effective := if faults > s.warnings then faults - s.warnings else 0;
      var eligibility := if effective > 0 then NextEpoch(height) + effective * EPOCH else a.eligibility;
      var penalty := Penalty(toSlash, a.value, effective);
      var amount := StakeAmount(a.value - penalty, a.locked + penalty, eligibility);
      Some(s.(stakes := s.stakes[account := Entry(StakeData(Some(amount), data.reward, faults, data.hardFaults), keys)],
              log := Log(s.log, account, Some(data))))
  }

  /** `hard_slash`: the penalty is burnt, out of the contract's balance. */
  function HardSlash(s: State, account: PublicKey, toSlash: Option<nat>, severity: Option<nat>, height: nat)
    : Option<State>
  {
    if account !in s.stakes then None
    else if s.stakes[account].data.amount.None? then Some(s)
    else
      var Entry(data, keys) := s.stakes[account];
      var a := data.amount.value;
      var hardFaults := SaturatingAdd(data.hardFaults, if severity.Some? then severity.value else 1);
      var penalty := Penalty(toSlash, a.value, hardFaults);
      if s.balance < penalty then None
      else
        var amount := StakeAmount(a.value - penalty, a.locked, NextEpoch(height) + hardFaults * EPOCH);
        Some(s.(stakes := s.stakes[account := Entry(StakeData(Some(amount), data.reward, data.faults, hardFaults), keys)],
                log := Log(s.log, account, Some(data)),
                balance := s.balance - penalty, burnt := s.burnt + penalty))
  }

  /** One call; `None` is a rejected call. */
  function Execute(s: State, c: Call): Option<State> {
    match c
    case NewBlock => Some(s.(log := map[]))
    case Receive(v) => Some(s.(balance := s.balance + v, received := s.received + v))
    case DoStake(keys, value, chainOk, origin, height) => Stake(s, keys, value, chainOk, origin, height)
    case DoUnstake(account, value, origin) => Unstake(s, account, value, origin)
    case DoWithdraw(account, value, origin) => Withdraw(s, account, value, origin)
    case DoReward(rewards) => Some(Reward(s, rewards))
    case DoSlash(account, toSlash, height) => Slash(s, account, toSlash, height)
    case DoHardSlash(account, toSlash, severity, height) => HardSlash(s, account, toSlash, severity, height)
  }

  /** The state after a call; a rejected one changes nothing. */
  function After(s: State, c: Call): State {
    match Execute(s, c)
    case Some(s') => s'
    case None => s
  }

  function RunCalls(s: State, calls: seq<Call>): State
    decreases |calls|
  {
    if calls == [] then s else RunCalls(After(s, calls[0]), calls[1..])
  }

  // ------------------------------------------------- who may do what

  /** The owner himself: both signatures of an account owner, or the very contract. */
  predicate ByOwner(owner: Owner, origin: Origin) {
    (owner.AccountOwner? && origin == BySignatures(true, true))
    || (owner.ContractOwner? && origin.ByContract? && origin.id == owner.id)
  }

  /** A stake is accepted exactly when the chain is right, the keys are those known
      for the account, a first deposit is at least the minimum, and the owner asks;
      a contract needs the account's signature for a first deposit only. */
  lemma StakeAccepted(s: State, keys: StakeKeys, value: nat, chainOk: bool, origin: Origin, height: nat)
    ensures var first := DataAt(s.stakes, keys.account).amount.None?;
            Stake(s, keys, value, chainOk, origin, height).Some? <==>
              && chainOk
              && (keys.account in s.stakes ==> s.stakes[keys.account].keys == keys)
              && (first ==> value >= s.minimumStake)
              && ByOwner(keys.owner, origin)
              && (first ==> origin.accountOk)
  {
  }

  /** An unstake is accepted exactly when there are that many funds, the balance
      covers them, the owner asks, and an account owner leaves nothing or at least
      the minimum. */
  lemma UnstakeAccepted(s: State, account: PublicKey, value: nat, origin: Origin)
    ensures Unstake(s, account, value, origin).Some? <==>
              && account in s.stakes && s.stakes[account].data.amount.Some?
              && var funds := FundsOf(s.stakes[account].data);
                 && value <= funds && value <= s.balance
                 && ByOwner(s.stakes[account].keys.owner, origin)
                 && (s.stakes[account].keys.owner.AccountOwner? && value < funds ==>
                       funds - value >= s.minimumStake)
  {
  }

  /** A withdrawal is accepted exactly when it is of some of the reward, and the
      owner asks. */
  lemma WithdrawAccepted(s: State, account: PublicKey, value: nat, origin: Origin)
    ensures Withdraw(s, account, value, origin).Some? <==>
              && account in s.stakes && 0 < value <= s.stakes[account].data.reward
              && ByOwner(s.stakes[account].keys.owner, origin)
  {
  }

  /** What a call adds to the funds of a key, and what it takes. */
  function FundsIn(s: State, c: Call, k: PublicKey): nat {
    if c.DoStake? && Execute(s, c).Some? && c.keys.account == k then c.value else 0
  }

  function FundsOut(s: State, c: Call, k: PublicKey): nat {
    match c
    case DoUnstake(account, value, _) => if Execute(s, c).Some? && account == k then value else 0
    case DoHardSlash(account, toSlash, severity, _) =>
      if Execute(s, c).Some? && account == k then
        BurntPenalty(toSlash, severity, DataAt(s.stakes, k)) else 0
    case _ => 0
  }

  /** What a hard slash burns: the given amount or ten percent per hard fault. */
  function BurntPenalty(toSlash: Option<nat>, severity: Option<nat>, data: StakeData): nat {
    if data.amount.None? then 0
    else Penalty(toSlash, data.amount.value.value,
                 SaturatingAdd(data.hardFaults, if severity.Some? then severity.value else 1))
  }

  /** Every call moves exactly those funds, of every account. */
  lemma FundsMove(s: State, c: Call, k: PublicKey)
    ensures FundsOf(DataAt(After(s, c).stakes, k)) + FundsOut(s, c, k)
            == FundsOf(DataAt(s.stakes, k)) + FundsIn(s, c, k)
  {
    hide Penalty, NextEpoch;
    if c.DoReward? { RewardedFunds(s, c.rewards, k); }
  }

  lemma RewardedFunds(s: State, rewards: seq<(PublicKey, nat)>, k: PublicKey)
    ensures FundsOf(DataAt(Reward(s, rewards).stakes, k)) == FundsOf(DataAt(s.stakes, k))
  {
    RewardKeepsAmounts(s, rewards, k);
  }

  /** The sum of the rewards that name a key. */
  function RewardsFor(rewards: seq<(PublicKey, nat)>, k: PublicKey): nat {
    if rewards == [] then 0
    else RewardsFor(rewards[..|rewards| - 1], k)
         + if rewards[|rewards| - 1].0 == k then rewards[|rewards| - 1].1 else 0
  }

  lemma {:induction false} RewardAdds(s: State, rewards: seq<(PublicKey, nat)>, k: PublicKey)
    ensures DataAt(Reward(s, rewards).stakes, k).reward == DataAt(s.stakes, k).reward + RewardsFor(rewards, k)
  {
    if rewards != [] { RewardAdds(s, rewards[..|rewards| - 1], k); }
  }

  /** Every call moves exactly the rewards it names, of every account. */
  lemma RewardsMove(s: State, c: Call, k: PublicKey)
    ensures var paid := if c.DoWithdraw? && Execute(s, c).Some? && c.account == k then c.value else 0;
            var earned := if c.DoReward? then RewardsFor(c.rewards, k) else 0;
            DataAt(After(s, c).stakes, k).reward + paid == DataAt(s.stakes, k).reward + earned
  {
    hide Penalty, NextEpoch;
    if c.DoReward? { RewardAdds(s, c.rewards, k); }
  }

  /** Only the owner takes out funds or rewards of an account, hard slashes aside. */
  lemma OnlyTheOwnerTakes(s: State, c: Call, k: PublicKey)
    requires FundsOf(DataAt(After(s, c).stakes, k)) < FundsOf(DataAt(s.stakes, k))
             || DataAt(After(s, c).stakes, k).reward < DataAt(s.stakes, k).reward
    ensures (c.DoHardSlash? && c.account == k)
            || (k in s.stakes && (c.DoUnstake? || c.DoWithdraw?) && c.account == k
                && ByOwner(s.stakes[k].keys.owner, c.origin))
  {
    hide Execute, Penalty;
    FundsMove(s, c, k);
    RewardsMove(s, c, k);
    if c.DoUnstake? { UnstakeAccepted(s, c.account, c.value, c.origin); Executed(s, c); }
    if c.DoWithdraw? { WithdrawAccepted(s, c.account, c.value, c.origin); Executed(s, c); }
  }

  lemma Executed(s: State, c: Call)
    ensures c.DoUnstake? ==> Execute(s, c) == Unstake(s, c.account, c.value, c.origin)
    ensures c.DoWithdraw? ==> Execute(s, c) == Withdraw(s, c.account, c.value, c.origin)
  {
  }

  /** An account keeps the keys it was first registered with, as long as it has an
      entry: those of the first stake, or its own for a reward. */
  lemma KeysKept(s: State, c: Call, k: PublicKey)
    requires k in After(s, c).stakes
    ensures var keys := After(s, c).stakes[k].keys;
            if k in s.stakes then keys == s.stakes[k].keys
            else (c.DoStake? && keys == c.keys && k == keys.account)
                 || (c.DoReward? && keys == StakeKeys(k, AccountOwner(k)))
  {
    hide Penalty, NextEpoch, AddFunds, RemoveFunds;
    if c.DoReward? { RewardedKeys(s, c.rewards, k); }
  }

  lemma {:induction false} RewardedKeys(s: State, rewards: seq<(PublicKey, nat)>, k: PublicKey)
    requires k in Reward(s, rewards).stakes
    ensures Reward(s, rewards).stakes[k].keys
            == if k in s.stakes then s.stakes[k].keys else StakeKeys(k, AccountOwner(k))
  {
    if rewards != [] && k in Reward(s, rewards[..|rewards| - 1]).stakes {
      RewardedKeys(s, rewards[..|rewards| - 1], k);
    } else if rewards != [] && k in s.stakes {
      RewardKeepsEntry(s, rewards[..|rewards| - 1], k);
    }
  }

  /** A call by which the owner, or a hard slash, takes from the account. */
  predicate Takes(c: Call, k: PublicKey, owner: Owner) {
    (c.DoHardSlash? && c.account == k)
    || ((c.DoUnstake? || c.DoWithdraw?) && c.account == k && ByOwner(owner, c.origin))
  }

  lemma KeptSafe(s: State, c: Call, k: PublicKey)
    requires k in s.stakes && s.stakes[k].data.amount.Some? && !Takes(c, k, s.stakes[k].keys.owner)
    ensures k in After(s, c).stakes && After(s, c).stakes[k].keys == s.stakes[k].keys
    ensures After(s, c).stakes[k].data.amount.Some?
  {
    hide Penalty, NextEpoch;
    if c.DoReward? { RewardKeepsEntry(s, c.rewards, k); }
  }

  lemma {:induction false} RewardKeepsEntry(s: State, rewards: seq<(PublicKey, nat)>, k: PublicKey)
    requires k in s.stakes
    ensures k in Reward(s, rewards).stakes && Reward(s, rewards).stakes[k].keys == s.stakes[k].keys
    ensures Reward(s, rewards).stakes[k].data.amount == s.stakes[k].data.amount
  {
    if rewards != [] { RewardKeepsEntry(s, rewards[..|rewards| - 1], k); }
  }

  /** Over any run in which neither the owner nor a hard slash takes from an account,
      it keeps its owner and loses neither funds nor reward. */
  lemma {:induction false} FundsAreSafe(s: State, calls: seq<Call>, k: PublicKey)
    requires k in s.stakes && s.stakes[k].data.amount.Some?
    requires forall c | c in calls :: !Takes(c, k, s.stakes[k].keys.owner)
    ensures var end := RunCalls(s, calls);
            && k in end.stakes && end.stakes[k].keys == s.stakes[k].keys
            && FundsOf(end.stakes[k].data) >= FundsOf(s.stakes[k].data)
            && end.stakes[k].data.reward >= s.stakes[k].data.reward
    decreases |calls|
  {
    hide After, Takes;
    if calls != [] {
      var c, next := calls[0], After(s, calls[0]);
      assert c in calls;
      assert forall d | d in calls[1..] :: d in calls;
      KeptSafe(s, c, k);
      if FundsOf(next.stakes[k].data) < FundsOf(s.stakes[k].data)
         || next.stakes[k].data.reward < s.stakes[k].data.reward {
        OnlyTheOwnerTakes(s, c, k);
        TakesIs(c, k, s.stakes[k].keys.owner);
      }
      FundsAreSafe(next, calls[1..], k);
    }
  }

  lemma TakesIs(c: Call, k: PublicKey, owner: Owner)
    ensures Takes(c, k, owner) <==>
              (c.DoHardSlash? && c.account == k)
              || ((c.DoUnstake? || c.DoWithdraw?) && c.account == k && ByOwner(owner, c.origin))
  {
  }

  // ------------------------------------------------------ the undo log

  function AmountOf(data: Option<StakeData>): Option<StakeAmount> {
    if data.Some? then data.value.amount else None
  }

  function CurrentAmount(s: State, k: PublicKey): Option<StakeAmount> {
    if k in s.stakes then s.stakes[k].data.amount else None
  }

  /** The current amount, or the logged one where the log has an entry. */
  function Overlay(s: State, k: PublicKey): Option<StakeAmount> {
    if k in s.log then AmountOf(s.log[k]) else CurrentAmount(s, k)
  }

  lemma {:induction false} RewardKeepsAmounts(s: State, rewards: seq<(PublicKey, nat)>, k: PublicKey)
    ensures CurrentAmount(Reward(s, rewards), k) == CurrentAmount(s, k)
    ensures Reward(s, rewards).log == s.log
  {
    if rewards != [] {
      RewardKeepsAmounts(s, rewards[..|rewards| - 1], k);
    }
  }

  /** No call but the start of a block changes what the overlay shows. */
  lemma OverlayKept(s: State, c: Call, k: PublicKey)
    requires !c.NewBlock?
    ensures Overlay(After(s, c), k) == Overlay(s, k)
  {
    if c.DoReward? { RewardKeepsAmounts(s, c.rewards, k); }
  }

  lemma {:induction false} OverlayAfterRun(s: State, calls: seq<Call>, k: PublicKey)
    requires forall c | c in calls :: !c.NewBlock?
    ensures Overlay(RunCalls(s, calls), k) == Overlay(s, k)
    decreases |calls|
  {
    hide After, Overlay;
    if calls != [] {
      assert calls[0] in calls;
      OverlayKept(s, calls[0], k);
      OverlayAfterRun(After(s, calls[0]), calls[1..], k);
    }
  }

  /** After any calls since the start of the block, the overlay is exactly the
      amount every account had at that start. */
  lemma UndoLogIsExact(s: State, calls: seq<Call>, k: PublicKey)
    requires forall c | c in calls :: !c.NewBlock?
    ensures Overlay(RunCalls(After(s, NewBlock), calls), k) == CurrentAmount(s, k)
  {
    OverlayAfterRun(After(s, NewBlock), calls, k);
  }

  // ------------------------------------------- solvency and conservation

  function FundsOf(data: StakeData): nat {
    if data.amount.Some? then data.amount.value.TotalFunds() else 0
  }

  function Funds(stakes: map<PublicKey, Entry>): map<PublicKey, nat> {
    map k | k in stakes :: FundsOf(stakes[k].data)
  }

  function Rewards(stakes: map<PublicKey, Entry>): map<PublicKey, nat> {
    map k | k in stakes :: stakes[k].data.reward
  }

  /** Every Lux is accounted for: the balance is the stakes plus what came in from
      elsewhere; what was staked is staked still, was unstaked or was burnt; what
      was rewarded is owed still or was minted. */
  ghost predicate Conserved(s: State) {
    && s.balance == Total(Funds(s.stakes)) + s.received
    && s.deposited == Total(Funds(s.stakes)) + s.unstaked + s.burnt
    && s.rewarded == Total(Rewards(s.stakes)) + s.minted
  }

  function DataAt(stakes: map<PublicKey, Entry>, k: PublicKey): StakeData {
    if k in stakes then stakes[k].data else EMPTY_STAKE
  }

  /** A change of one account changes the sums by that account's share. */
  lemma OneAccount(stakes: map<PublicKey, Entry>, stakes': map<PublicKey, Entry>, k: PublicKey)
    requires stakes - {k} == stakes' - {k}
    ensures Total(Funds(stakes')) + FundsOf(DataAt(stakes, k)) == Total(Funds(stakes)) + FundsOf(DataAt(stakes', k))
    ensures Total(Rewards(stakes')) + DataAt(stakes, k).reward == Total(Rewards(stakes)) + DataAt(stakes', k).reward
  {
    hide Total;
    assert forall j | j != k :: j in stakes <==> j in stakes' by {
      assert forall j | j != k :: j in stakes <==> j in (stakes - {k});
      assert forall j | j != k :: j in stakes' <==> j in (stakes' - {k});
    }
    assert forall j | j != k && j in stakes :: stakes[j] == stakes'[j] by {
      assert forall j | j != k && j in stakes :: stakes[j] == (stakes - {k})[j];
      assert forall j | j != k && j in stakes' :: stakes'[j] == (stakes' - {k})[j];
    }
    assert Funds(stakes) - {k} == Funds(stakes') - {k};
    assert Rewards(stakes) - {k} == Rewards(stakes') - {k};
    TotalChange(Funds(stakes), Funds(stakes'), k);
    TotalChange(Rewards(stakes), Rewards(stakes'), k);
  }

  lemma StakeConserves(s: State, keys: StakeKeys, value: nat, chainOk: bool, origin: Origin, height: nat)
    requires Conserved(s) && Stake(s, keys, value, chainOk, origin, height).Some?
    ensures Conserved(Stake(s, keys, value, chainOk, origin, height).value)
  {
    hide Total, Funds, Rewards;
    OneAccount(s.stakes, Stake(s, keys, value, chainOk, origin, height).value.stakes, keys.account);
  }

  lemma UnstakeConserves(s: State, account: PublicKey, value: nat, origin: Origin)
    requires Conserved(s) && Unstake(s, account, value, origin).Some?
    ensures Conserved(Unstake(s, account, value, origin).value)
  {
    hide Total, Funds, Rewards;
    var s' := Unstake(s, account, value, origin).value;
    assert s.stakes - {account} == s'.stakes - {account};
    OneAccount(s.stakes, s'.stakes, account);
  }

  lemma WithdrawConserves(s: State, account: PublicKey, value: nat, origin: Origin)
    requires Conserved(s) && Withdraw(s, account, value, origin).Some?
    ensures Conserved(Withdraw(s, account, value, origin).value)
  {
    hide Total, Funds, Rewards;
    var s' := Withdraw(s, account, value, origin).value;
    assert s.stakes - {account} == s'.stakes - {account};
    OneAccount(s.stakes, s'.stakes, account);
  }

  lemma {:induction false} RewardConserves(s: State, rewards: seq<(PublicKey, nat)>)
    requires Conserved(s)
    ensures Conserved(Reward(s, rewards))
  {
    hide Total, Funds, Rewards;
    if rewards != [] {
      var init := Reward(s, rewards[..|rewards| - 1]);
      RewardConserves(s, rewards[..|rewards| - 1]);
      var (account, _) := rewards[|rewards| - 1];
      OneAccount(init.stakes, Reward(s, rewards).stakes, account);
    }
  }

  lemma SlashConserves(s: State, account: PublicKey, toSlash: Option<nat>, height: nat)
    requires Conserved(s) && Slash(s, account, toSlash, height).Some?
    ensures Conserved(Slash(s, account, toSlash, height).value)
  {
    hide Total, Funds, Rewards, Penalty, NextEpoch;
    OneAccount(s.stakes, Slash(s, account, toSlash, height).value.stakes, account);
  }

  lemma HardSlashConserves(s: State, account: PublicKey, toSlash: Option<nat>, severity: Option<nat>, height: nat)
    requires Conserved(s) && HardSlash(s, account, toSlash, severity, height).Some?
    ensures Conserved(HardSlash(s, account, toSlash, severity, height).value)
  {
    hide Total, Funds, Rewards, Penalty, NextEpoch;
    OneAccount(s.stakes, HardSlash(s, account, toSlash, severity, height).value.stakes, account);
  }

  lemma CallConserves(s: State, c: Call)
    requires Conserved(s)
    ensures Conserved(After(s, c))
  {
    hide Conserved, Stake, Unstake, Withdraw, Reward, Slash, HardSlash;
    if Execute(s, c).Some? {
      match c
      case DoStake(keys, value, chainOk, origin, height) => StakeConserves(s, keys, value, chainOk, origin, height);
      case DoUnstake(account, value, origin) => UnstakeConserves(s, account, value, origin);
      case DoWithdraw(account, value, origin) => WithdrawConserves(s, account, value, origin);
      case DoReward(rewards) => RewardConserves(s, rewards);
      case DoSlash(account, toSlash, height) => SlashConserves(s, account, toSlash, height);
      case DoHardSlash(account, toSlash, severity, height) => HardSlashConserves(s, account, toSlash, severity, height);
      case _ => ControlConserves(s, c);
    }
  }

  lemma ControlConserves(s: State, c: Call)
    requires Conserved(s) && (c.NewBlock? || c.Receive?)
    ensures Conserved(After(s, c))
  {
  }

  /** Over any run of calls every Lux stays accounted for; the balance always
      covers the stakes, and equals them when nothing else was received. */
  lemma {:induction false} RunConserves(s: State, calls: seq<Call>)
    requires Conserved(s)
    ensures Conserved(RunCalls(s, calls))
    ensures RunCalls(s, calls).balance >= Total(Funds(RunCalls(s, calls).stakes))
    decreases |calls|
  {
    hide After, Total, Funds;
    if calls != [] {
      CallConserves(s, calls[0]);
      RunConserves(After(s, calls[0]), calls[1..]);
    }
  }

  lemma ShareOfTotal(stakes: map<PublicKey, Entry>, k: PublicKey)
    requires k in stakes
    ensures FundsOf(stakes[k].data) <= Total(Funds(stakes))
  {
    TotalRemove(Funds(stakes), k);
  }

  /** In an accounted state the transfer contract never refuses for lack of
      balance: a hard slash of a known account always goes through. */
  lemma BalanceNeverShort(s: State, account: PublicKey, toSlash: Option<nat>, severity: Option<nat>, height: nat)
    requires Conserved(s) && account in s.stakes
    ensures FundsOf(s.stakes[account].data) <= s.balance
    ensures HardSlash(s, account, toSlash, severity, height).Some?
  {
    hide Total, Funds, NextEpoch;
    ShareOfTotal(s.stakes, account);
  }

  /** An owner can always take out everything, and nothing of the account's funds
      stays behind. */
  lemma FullUnstake(s: State, account: PublicKey, origin: Origin)
    requires Conserved(s) && account in s.stakes && s.stakes[account].data.amount.Some?
    requires OwnerAgrees(s.stakes[account].keys.owner, origin) && origin.accountOk
    ensures var funds := FundsOf(s.stakes[account].data);
            var r := Unstake(s, account, funds, origin);
            && r.Some? && r.value.balance == s.balance - funds
            && FundsOf(DataAt(r.value.stakes, account)) == 0
            && DataAt(r.value.stakes, account).reward == s.stakes[account].data.reward
  {
    hide Total, Funds;
    ShareOfTotal(s.stakes, account);
  }

  /** Staking on a fresh account and unstaking all of it restores every stake. */
  lemma StakeThenUnstake(s: State, keys: StakeKeys, value: nat, origin: Origin, height: nat)
    requires keys.account !in s.stakes && value > 0
    requires Stake(s, keys, value, true, origin, height).Some?
    ensures var staked := Stake(s, keys, value, true, origin, height).value;
            var back := Unstake(staked, keys.account, value, origin);
            && back.Some? && back.value.stakes == s.stakes && back.value.balance == s.balance
            && Overlay(back.value, keys.account) == Overlay(s, keys.account)
  {
    var staked := Stake(s, keys, value, true, origin, height).value;
    var back := Unstake(staked, keys.account, value, origin).value;
    assert back.stakes == s.stakes;
  }

  /** A hard slash, or a slash past the warnings, suspends the stake for at least
      the rest of the epoch and one more. */
  lemma PenaltySuspends(s: State, account: PublicKey, toSlash: Option<nat>, height: nat, round: nat)
    requires account in s.stakes && s.stakes[account].data.amount.Some?
    requires round < NextEpoch(height) + EPOCH
    ensures var r := HardSlash(s, account, toSlash, None, height);
            r.Some? ==> account !in Sortition.Eligibles(ProvisionersOf(r.value), round)
    ensures SaturatingAdd(s.stakes[account].data.faults, 1) > s.warnings ==>
              account !in Sortition.Eligibles(ProvisionersOf(Slash(s, account, toSlash, height).value), round)
  {
    hide Penalty, NextEpoch;
  }

  // ---------------------------------------------- previous provisioners

  function ToStake(data: StakeData): Sortition.Stake {
    if data.amount.Some? then Sortition.Stake(data.amount.value.value, data.amount.value.eligibility)
    else Sortition.Stake(0, 0)
  }

  /** The provisioners the node reads from the contract. */
  function ProvisionersOf(s: State): Sortition.Provisioners {
    map k | k in s.stakes :: ToStake(s.stakes[k].data)
  }

  /** An amount takes part in a round when its value, without what is locked, is at
      least the minimum and its eligibility has come. */
  predicate Ripe(amount: Option<StakeAmount>, round: nat) {
    amount.Some? && amount.value.value >= 1000 * 1_000_000_000 && amount.value.eligibility <= round
  }

  /** Sortition gets exactly the ripe amounts, each with its value as weight. */
  lemma WeightIsValue(s: State, k: PublicKey, round: nat)
    ensures k in Sortition.Eligibles(ProvisionersOf(s), round) <==> Ripe(CurrentAmount(s, k), round)
    ensures Ripe(CurrentAmount(s, k), round) ==>
              Sortition.Eligibles(ProvisionersOf(s), round)[k] == CurrentAmount(s, k).value.value
  {
  }

  /** The amount given, or ten percent per fault, but never more than there is. */
  lemma PenaltyIsCapped(toSlash: nat, value: nat, faults: nat)
    ensures Penalty(Some(toSlash), value, faults) == if toSlash <= value then toSlash else value
  {
  }

  /** A slash of a stake: one more fault, up to 255; the penalty of the faults beyond
      the warnings leaves the value, and with it the weight, and is locked; and if
      there are any, the stake is out until that many epochs after the next one
      begins. Nothing else of the account changes. */
  lemma SlashExact(s: State, k: PublicKey, toSlash: Option<nat>, height: nat)
    requires k in s.stakes && s.stakes[k].data.amount.Some?
    ensures var r := Slash(s, k, toSlash, height);
            var before := s.stakes[k].data;
            var faults := if before.faults < 255 then before.faults + 1 else 255;
            var beyond := if faults > s.warnings then faults - s.warnings else 0;
            var penalty := Penalty(toSlash, before.amount.value.value, beyond);
            && r.Some? && k in r.value.stakes
            && var after := r.value.stakes[k].data;
               && after.amount.Some?
               && after.amount.value.value == before.amount.value.value - penalty
               && after.amount.value.locked == before.amount.value.locked + penalty
               && after.amount.value.eligibility
                  == (if beyond == 0 then before.amount.value.eligibility
                      else NextEpoch(height) + beyond * EPOCH)
               && after.faults == faults && after.hardFaults == before.hardFaults
               && after.reward == before.reward && r.value.burnt == s.burnt
  {
    hide Penalty, NextEpoch;
  }

  /** A hard slash: hard faults raised by the severity, one if not given, up to 255;
      their penalty is burnt; the stake is out until that many epochs after the
      next one begins. */
  lemma HardSlashExact(s: State, k: PublicKey, toSlash: Option<nat>, severity: Option<nat>, height: nat)
    requires Conserved(s) && k in s.stakes && s.stakes[k].data.amount.Some?
    ensures var r := HardSlash(s, k, toSlash, severity, height);
            var before := s.stakes[k].data;
            var raised := before.hardFaults + if severity.Some? then severity.value else 1;
            var hardFaults := if raised < 255 then raised else 255;
            var penalty := Penalty(toSlash, before.amount.value.value, hardFaults);
            && r.Some? && k in r.value.stakes
            && var after := r.value.stakes[k].data;
               && after.amount == Some(StakeAmount(before.amount.value.value - penalty, before.amount.value.locked,
                                                   NextEpoch(height) + hardFaults * EPOCH))
               && after.hardFaults == hardFaults && after.faults == before.faults
               && after.reward == before.reward && r.value.burnt == s.burnt + penalty
  {
    hide Penalty, NextEpoch, Total, Funds;
    BalanceNeverShort(s, k, toSlash, severity, height);
  }

  /** Penalties of an account without an amount change nothing. */
  lemma NothingToSlash(s: State, k: PublicKey, toSlash: Option<nat>, severity: Option<nat>, height: nat)
    requires k in s.stakes && s.stakes[k].data.amount.None?
    ensures Slash(s, k, toSlash, height) == Some(s) == HardSlash(s, k, toSlash, severity, height)
  {
  }

  /** The fault counters of an account. */
  function FaultsAt(s: State, k: PublicKey): (nat, nat) {
    (DataAt(s.stakes, k).faults, DataAt(s.stakes, k).hardFaults)
  }

  /** A reward clears both counters of an account that has an entry; nothing but
      slashes, rewards and the removal of the entry changes them. */
  lemma FaultsChange(s: State, c: Call, k: PublicKey)
    ensures c.DoReward? && (exists r | r in c.rewards :: r.0 == k) ==> FaultsAt(After(s, c), k) == (0, 0)
    ensures FaultsAt(After(s, c), k) != FaultsAt(s, k) ==>
              || (c.DoReward? && exists r | r in c.rewards :: r.0 == k)
              || ((c.DoSlash? || c.DoHardSlash?) && c.account == k)
              || k !in After(s, c).stakes
  {
    hide Penalty, NextEpoch;
    if c.DoReward? { RewardClears(s, c.rewards, k); }
  }

  lemma {:induction false} RewardClears(s: State, rewards: seq<(PublicKey, nat)>, k: PublicKey)
    ensures FaultsAt(Reward(s, rewards), k)
            == if exists r | r in rewards :: r.0 == k then (0, 0) else FaultsAt(s, k)
  {
    if rewards != [] {
      var init, last := rewards[..|rewards| - 1], rewards[|rewards| - 1];
      RewardClears(s, init, k);
      assert rewards == init + [last];
      assert forall r :: r in rewards <==> r in init || r == last;
    }
  }

  type Change = (PublicKey, Option<Sortition.Stake>)

  /** The first `n` changes of the block, in key order. */
  function Changes(log: map<PublicKey, Option<StakeData>>, n: nat): (r: seq<Change>)
    requires n <= |SortedKeys(log.Keys)|
    ensures |r| == n
  {
    if n == 0 then [] else
      var k := SortedKeys(log.Keys)[n - 1];
      Changes(log, n - 1) + [(k, ChangeTo(log[k]))]
  }

  function AllChanges(log: map<PublicKey, Option<StakeData>>): seq<Change> {
    Changes(log, |SortedKeys(log.Keys)|)
  }

  function ApplyOne(p: Sortition.Provisioners, c: Change): Sortition.Provisioners {
    if c.1.None? then p - {c.0} else p[c.0 := c.1.value]
  }

  function ApplyAll(p: Sortition.Provisioners, changes: seq<Change>): Sortition.Provisioners {
    if changes == [] then p
    else ApplyOne(ApplyAll(p, changes[..|changes| - 1]), changes[|changes| - 1])
  }

  class ContextProvisioners {
    var current: Sortition.Provisioners
    var prev: Option<Sortition.Provisioners>

    constructor (p: Sortition.Provisioners)
      ensures current == p && prev == None
    {
      current, prev := p, None;
    }

    function Prev(): Sortition.Provisioners
      reads this
    {
      if prev.Some? then prev.value else current
    }

    method ApplyChanges(changes: seq<Change>)
      modifies this`prev
      ensures Prev() == ApplyAll(current, changes)
    {
      if changes != [] {
        var p := current;
        for i := 0 to |changes|
          invariant p == ApplyAll(current, changes[..i])
        {
          assert changes[..i + 1][..i] == changes[..i];
          p := ApplyOne(p, changes[i]);
        }
        assert changes[..|changes|] == changes;
        prev := Some(p);
      } else {
        prev := None;
      }
    }
  }

  /** The stake of a key; a key that is not there has none. */
  function StakeIn(p: Sortition.Provisioners, k: PublicKey): Sortition.Stake {
    if k in p then p[k] else Sortition.Stake(0, 0)
  }

  function StakeFor(amount: Option<StakeAmount>): Sortition.Stake {
    ToStake(EMPTY_STAKE.(amount := amount))
  }

  lemma {:induction false} ApplyIsOverlay(s: State, n: nat, k: PublicKey)
    requires n <= |SortedKeys(s.log.Keys)|
    ensures StakeIn(ApplyAll(ProvisionersOf(s), Changes(s.log, n)), k)
            == if k in SortedKeys(s.log.Keys)[..n] then StakeFor(AmountOf(s.log[k]))
               else StakeFor(CurrentAmount(s, k))
  {
    hide SortedKeys, ApplyOne, ChangeTo, ProvisionersOf, StakeIn, StakeFor, CurrentAmount, AmountOf;
    var order := SortedKeys(s.log.Keys);
    CurrentStake(s, k);
    if n > 0 {
      ApplyIsOverlay(s, n - 1, k);
      var list, at := Changes(s.log, n), order[n - 1];
      assert list[..n - 1] == Changes(s.log, n - 1);
      StakeAfterChange(ApplyAll(ProvisionersOf(s), list[..n - 1]), at, s.log[at], k);
      assert order[..n] == order[..n - 1] + [at];
    }
  }

  lemma CurrentStake(s: State, k: PublicKey)
    ensures StakeIn(ProvisionersOf(s), k) == StakeFor(CurrentAmount(s, k))
  {
  }

  /** `ToStake` on a log entry */
  function ChangeTo(entry: Option<StakeData>): Option<Sortition.Stake> {
    if entry.Some? then Some(ToStake(entry.value)) else None
  }

  lemma StakeAfterChange(p: Sortition.Provisioners, at: PublicKey, entry: Option<StakeData>, k: PublicKey)
    ensures StakeIn(ApplyOne(p, (at, ChangeTo(entry))), k)
            == if k == at then StakeFor(AmountOf(entry)) else StakeIn(p, k)
  {
  }

  /** After any calls of a block, applying the logged changes to the current
      provisioners gives every key the stake it had when the block began. */
  lemma PreviousStakes(s: State, calls: seq<Call>, k: PublicKey)
    requires forall c | c in calls :: !c.NewBlock?
    ensures var now := RunCalls(After(s, NewBlock), calls);
            StakeIn(ApplyAll(ProvisionersOf(now), AllChanges(now.log)), k) == StakeIn(ProvisionersOf(s), k)
  {
    hide SortedKeys, RunCalls, After;
    var now := RunCalls(After(s, NewBlock), calls);
    var order := SortedKeys(now.log.Keys);
    ApplyIsOverlay(now, |order|, k);
    assert order[..|order|] == order;
    UndoLogIsExact(s, calls, k);
  }

  /** Hence sortition sees exactly the eligible provisioners of the block's start. */
  lemma PreviousEligibles(s: State, calls: seq<Call>, round: nat)
    requires forall c | c in calls :: !c.NewBlock?
    ensures var now := RunCalls(After(s, NewBlock), calls);
            Sortition.Eligibles(ApplyAll(ProvisionersOf(now), AllChanges(now.log)), round)
            == Sortition.Eligibles(ProvisionersOf(s), round)
  {
    hide RunCalls, After, ApplyAll, AllChanges, ProvisionersOf;
    var now := RunCalls(After(s, NewBlock), calls);
    var before, back := ProvisionersOf(s), ApplyAll(ProvisionersOf(now), AllChanges(now.log));
    forall k ensures k in Sortition.Eligibles(back, round) <==> k in Sortition.Eligibles(before, round)
             ensures k in Sortition.Eligibles(before, round) ==>
                       Sortition.Eligibles(back, round)[k] == Sortition.Eligibles(before, round)[k]
    {
      PreviousStakes(s, calls, k);
    }
  }

  /** Which are, key by key, the amounts ripe at the block's start, with their
      values. */
  lemma PreviousWeights(s: State, calls: seq<Call>, k: PublicKey, round: nat)
    requires forall c | c in calls :: !c.NewBlock?
    ensures var now := RunCalls(After(s, NewBlock), calls);
            var back := Sortition.Eligibles(ApplyAll(ProvisionersOf(now), AllChanges(now.log)), round);
            && (k in back <==> Ripe(CurrentAmount(s, k), round))
            && (k in back ==> back[k] == CurrentAmount(s, k).value.value)
  {
    hide RunCalls, After, ApplyAll, AllChanges, ProvisionersOf, Sortition.Eligibles;
    PreviousEligibles(s, calls, round);
    WeightIsValue(s, k, round);
  }

  // ------------------------------------- the reconstructed map, key by key

  /** The key is in the reconstructed map. */
  predicate Held(s: State, k: PublicKey) {
    if k in s.log then s.log[k].Some? else k in s.stakes
  }

  lemma {:induction false} ApplyKeys(s: State, n: nat, k: PublicKey)
    requires n <= |SortedKeys(s.log.Keys)|
    ensures k in ApplyAll(ProvisionersOf(s), Changes(s.log, n))
            <==> if k in SortedKeys(s.log.Keys)[..n] then s.log[k].Some? else k in s.stakes
  {
    hide SortedKeys, ToStake;
    var order := SortedKeys(s.log.Keys);
    if n > 0 {
      ApplyKeys(s, n - 1, k);
      var list, at := Changes(s.log, n), order[n - 1];
      assert list[..n - 1] == Changes(s.log, n - 1);
      assert order[..n] == order[..n - 1] + [at];
    }
  }

  /** The call adds or removes an entry without a log entry to tell: it rewards an
      account without an entry, or withdraws the last reward of an entry without
      an amount. */
  predicate Unlogged(s: State, c: Call, k: PublicKey) {
    && k !in s.log
    && match c
       case DoReward(rewards) => k !in s.stakes && exists r | r in rewards :: r.0 == k
       case DoWithdraw(account, value, origin) =>
         && account == k && Withdraw(s, account, value, origin).Some?
         && s.stakes[k].data.amount.None? && value == s.stakes[k].data.reward
       case _ => false
  }

  lemma {:induction false} RewardKeys(s: State, rewards: seq<(PublicKey, nat)>, k: PublicKey)
    ensures k in Reward(s, rewards).stakes <==> k in s.stakes || exists r | r in rewards :: r.0 == k
    ensures Reward(s, rewards).log == s.log
  {
    if rewards != [] {
      var init, last := rewards[..|rewards| - 1], rewards[|rewards| - 1];
      RewardKeys(s, init, k);
      assert rewards == init + [last];
      assert forall r :: r in rewards <==> r in init || r == last;
    }
  }

  /** Exactly the unlogged changes move a key in or out of the reconstructed map. */
  lemma HeldChanges(s: State, c: Call, k: PublicKey)
    requires !c.NewBlock?
    ensures Held(After(s, c), k) != Held(s, k) <==> Unlogged(s, c, k)
  {
    hide AddFunds, RemoveFunds, Penalty, NextEpoch;
    if c.DoReward? { RewardKeys(s, c.rewards, k); }
  }

  /** How often a run does that to a key. */
  function Moves(s: State, calls: seq<Call>, k: PublicKey): nat
    decreases |calls|
  {
    if calls == [] then 0
    else (if Unlogged(s, calls[0], k) then 1 else 0) + Moves(After(s, calls[0]), calls[1..], k)
  }

  lemma {:induction false} HeldAfterRun(s: State, calls: seq<Call>, k: PublicKey)
    requires forall c | c in calls :: !c.NewBlock?
    ensures Held(RunCalls(s, calls), k) == Held(s, k) <==> Moves(s, calls, k) % 2 == 0
    decreases |calls|
  {
    hide After, Held, Unlogged;
    if calls != [] {
      assert calls[0] in calls;
      HeldChanges(s, calls[0], k);
      HeldAfterRun(After(s, calls[0]), calls[1..], k);
    }
  }

  lemma PreviousKey(s: State, calls: seq<Call>, k: PublicKey)
    requires forall c | c in calls :: !c.NewBlock?
    ensures var start := After(s, NewBlock);
            var now := RunCalls(start, calls);
            Moves(start, calls, k) % 2 == 0 <==>
              (k in ApplyAll(ProvisionersOf(now), AllChanges(now.log)) <==> k in ProvisionersOf(s))
  {
    hide RunCalls, ApplyAll, Moves, SortedKeys, ToStake, Changes;
    var start := After(s, NewBlock);
    var now := RunCalls(start, calls);
    var order := SortedKeys(now.log.Keys);
    ApplyKeys(now, |order|, k);
    assert order[..|order|] == order;
    HeldAfterRun(start, calls, k);
  }

  /** The reconstructed map has the keys of the block's start, and then is the very
      map, exactly when every key was moved an even number of times. */
  lemma PreviousMapExact(s: State, calls: seq<Call>)
    requires forall c | c in calls :: !c.NewBlock?
    ensures var start := After(s, NewBlock);
            var now := RunCalls(start, calls);
            ApplyAll(ProvisionersOf(now), AllChanges(now.log)) == ProvisionersOf(s)
            <==> forall k :: Moves(start, calls, k) % 2 == 0
  {
    hide RunCalls, ApplyAll, Moves, After, ProvisionersOf, AllChanges, StakeIn;
    var start := After(s, NewBlock);
    var now := RunCalls(start, calls);
    var back, before := ApplyAll(ProvisionersOf(now), AllChanges(now.log)), ProvisionersOf(s);
    forall k ensures Moves(start, calls, k) % 2 == 0 <==> (k in back <==> k in before)
             ensures StakeIn(back, k) == StakeIn(before, k)
    {
      PreviousKey(s, calls, k);
      PreviousStakes(s, calls, k);
    }
    if forall k :: Moves(start, calls, k) % 2 == 0 {
      SameStakes(back, before);
    } else {
      var k :| Moves(start, calls, k) % 2 != 0;
      PreviousKey(s, calls, k);
    }
  }

  lemma SameStakes(p: Sortition.Provisioners, q: Sortition.Provisioners)
    requires forall k :: StakeIn(p, k) == StakeIn(q, k)
    requires forall k :: k in p <==> k in q
    ensures p == q
  {
    forall k | k in p ensures k in q && p[k] == q[k] {
      assert StakeIn(p, k) == StakeIn(q, k);
    }
  }

  lemma OneMove(s: State, c: Call, k: PublicKey)
    requires k !in s.log && Unlogged(s, c, k)
    ensures Moves(s, [c], k) == 1
  {
    hide Unlogged, After;
    assert [c][1..] == [];
    assert Moves(After(s, c), [], k) == 0;
  }

  /** A reward to an account without an entry is enough to add one to the
      reconstructed map, and withdrawing all the rewards of an account without
      an amount is enough to lose one. */
  lemma PreviousMapCanDiffer(s: State, c: Call, k: PublicKey)
    requires (c.DoReward? && k !in s.stakes && exists r | r in c.rewards :: r.0 == k)
             || (c.DoWithdraw? && c.account == k && Withdraw(s, k, c.value, c.origin).Some?
                 && s.stakes[k].data.amount.None? && c.value == s.stakes[k].data.reward)
    ensures var now := RunCalls(After(s, NewBlock), [c]);
            ApplyAll(ProvisionersOf(now), AllChanges(now.log)) != ProvisionersOf(s)
  {
    hide RunCalls, ApplyAll, Moves, AllChanges;
    OneMove(After(s, NewBlock), c, k);
    PreviousMapExact(s, [c]);
  }

  // -------------------------------------------------- the contract object

  /** `StakeState`, its maps and counters updated in place. Each method returns
      whether the call went through; a rejected call leaves no trace. */
  class StakeState {
    var stakes: map<PublicKey, Entry>
    var previousBlockState: map<PublicKey, Option<StakeData>>
    var burntAmount: nat
    const warnings: nat
    const minimumStake: nat
    var balance: nat
    var received: nat
    var deposited: nat
    var unstaked: nat
    var rewarded: nat
    var minted: nat

    ghost function Model(): State
      reads this
    {
      State(stakes, previousBlockState, burntAmount, warnings, minimumStake,
            balance, received, deposited, unstaked, rewarded, minted)
    }

    constructor (warnings: nat, minimumStake: nat)
      ensures Model() == State(map[], map[], 0, warnings, minimumStake, 0, 0, 0, 0, 0, 0)
    {
      stakes, previousBlockState, burntAmount := map[], map[], 0;
      this.warnings, this.minimumStake := warnings, minimumStake;
      balance, received, deposited, unstaked, rewarded, minted := 0, 0, 0, 0, 0, 0;
    }

    method OnNewBlock()
      modifies this
      ensures Model() == After(old(Model()), NewBlock)
    {
      previousBlockState := map[];
    }

    method LogPrevious(account: PublicKey, prev: Option<StakeData>)
      modifies this`previousBlockState
      ensures previousBlockState == Log(old(previousBlockState), account, prev)
    {
      if account !in previousBlockState {
        previousBlockState := previousBlockState[account := prev];
      }
    }

    method StakeFunds(keys: StakeKeys, value: nat, chainOk: bool, origin: Origin, height: nat)
      returns (ok: bool)
      modifies this
      ensures Model() == After(old(Model()), DoStake(keys, value, chainOk, origin, height))
      ensures ok <==> Stake(old(Model()), keys, value, chainOk, origin, height).Some?
    {
      hide AddFunds;
      if !chainOk { return false; }
      var account := keys.account;
      var prev := if account in stakes then Some(stakes[account].data) else None;
      if account in stakes && stakes[account].keys != keys { return false; }
      var loaded := if prev.Some? then prev.value else EMPTY_STAKE;
      if loaded.amount.None? && value < minimumStake { return false; }
      if !OwnerAgrees(keys.owner, origin) { return false; }
      if (origin.BySignatures? || loaded.amount.None?) && !origin.accountOk { return false; }
      balance, deposited := balance + value, deposited + value;
      var data := loaded.(amount := Some(AddFunds(loaded.amount, value, height)));
      stakes := stakes[account := Entry(data, keys)];
      LogPrevious(account, prev);
      return true;
    }

    method UnstakeFunds(account: PublicKey, value: nat, origin: Origin) returns (ok: bool)
      modifies this
      ensures Model() == After(old(Model()), DoUnstake(account, value, origin))
      ensures ok <==> Unstake(old(Model()), account, value, origin).Some?
    {
      hide OwnerAgrees;
      if account !in stakes { return false; }
      var Entry(loaded, keys) := stakes[account];
      if loaded.amount.None? { return false; }
      var amount := loaded.amount.value;
      if value > amount.TotalFunds() { return false; }
      if !OwnerAgrees(keys.owner, origin) { return false; }
      if origin.BySignatures? && !origin.accountOk { return false; }
      if balance < value { return false; }
      if value > amount.value {
        amount := StakeAmount(0, amount.locked - (value - amount.value), amount.eligibility);
      } else {
        amount := amount.(value := amount.value - value);
      }
      var data := loaded.(amount := Some(amount));
      if amount.TotalFunds() == 0 {
        data := data.(amount := None);
      } else if origin.BySignatures? && amount.TotalFunds() < minimumStake {
        return false;
      }
      balance, unstaked := balance - value, unstaked + value;
      stakes := if data.amount.None? && data.reward == 0 then stakes - {account}
                else stakes[account := Entry(data, keys)];
      LogPrevious(account, Some(loaded));
      return true;
    }

    method WithdrawReward(account: PublicKey, value: nat, origin: Origin) returns (ok: bool)
      modifies this
      ensures Model() == After(old(Model()), DoWithdraw(account, value, origin))
      ensures ok <==> Withdraw(old(Model()), account, value, origin).Some?
    {
      hide OwnerAgrees;
      if account !in stakes { return false; }
      var Entry(data, keys) := stakes[account];
      if value == 0 || value > data.reward { return false; }
      if !OwnerAgrees(keys.owner, origin) { return false; }
      if origin.BySignatures? && !origin.accountOk { return false; }
      minted := minted + value;
      data := data.(reward := data.reward - value);
      stakes := if data.reward == 0 && data.amount.None? then stakes - {account}
                else stakes[account := Entry(data, keys)];
      return true;
    }

    method RewardAll(rewards: seq<(PublicKey, nat)>)
      modifies this
      ensures Model() == After(old(Model()), DoReward(rewards))
    {
      for i := 0 to |rewards|
        invariant Model() == Reward(old(Model()), rewards[..i])
      {
        var (account, value) := rewards[i];
        assert rewards[..i + 1][..i] == rewards[..i];
        if account in stakes {
          var Entry(data, keys) := stakes[account];
          stakes := stakes[account := Entry(StakeData(data.amount, data.reward + value, 0, 0), keys)];
        } else {
          var keys := StakeKeys(account, AccountOwner(account));
          stakes := stakes[account := Entry(EMPTY_STAKE.(reward := value), keys)];
        }
        rewarded := rewarded + value;
      }
      assert rewards[..|rewards|] == rewards;
    }

    method SlashStake(account: PublicKey, toSlash: Option<nat>, height: nat) returns (ok: bool)
      modifies this
      ensures Model() == After(old(Model()), DoSlash(account, toSlash, height))
      ensures ok <==> Slash(old(Model()), account, toSlash, height).Some?
    {
      hide NextEpoch, Penalty;
      if account !in stakes { return false; }
      var Entry(data, keys) := stakes[account];
      if data.amount.None? { return true; }
      var prev := data;
      data := data.(faults := SaturatingAdd(data.faults, 1));
      var effective := if data.faults > warnings then data.faults - warnings else 0;
      var amount := data.amount.value;
      if effective > 0 {
        amount := amount.(eligibility := NextEpoch(height) + effective * EPOCH);
      }
      var penalty := Penalty(toSlash, amount.value, effective);
      amount := amount.(value := amount.value - penalty, locked := amount.locked + penalty);
      stakes := stakes[account := Entry(data.(amount := Some(amount)), keys)];
      LogPrevious(account, Some(prev));
      return true;
    }

    method HardSlashStake(account: PublicKey, toSlash: Option<nat>, severity: Option<nat>, height: nat)
      returns (ok: bool)
      modifies this
      ensures Model() == After(old(Model()), DoHardSlash(account, toSlash, severity, height))
      ensures ok <==> HardSlash(old(Model()), account, toSlash, severity, height).Some?
    {
      hide NextEpoch, Penalty;
      if account !in stakes { return false; }
      var Entry(data, keys) := stakes[account];
      if data.amount.None? { return true; }
      var prev := data;
      var amount := data.amount.value;
      data := data.(hardFaults := SaturatingAdd(data.hardFaults, if severity.Some? then severity.value else 1));
      amount := amount.(eligibility := NextEpoch(height) + data.hardFaults * EPOCH);
      var penalty := Penalty(toSlash, amount.value, data.hardFaults);
      if balance < penalty { return false; }
      amount := amount.(value := amount.value - penalty);
      balance, burntAmount := balance - penalty, burntAmount + penalty;
      stakes := stakes[account := Entry(data.(amount := Some(amount)), keys)];
      LogPrevious(account, Some(prev));
      return true;
    }
  }
}
