/** Who can validate, and when the chain of parent hashes survives. */
module Progress {
  import opened Arith
  import opened MapSums
  import opened Types
  import opened Ledger
  import opened Selection
  import opened Rewards
  import opened Protocol
  import opened History
  import opened Steps
  import opened Safety

  // ----- Validation

  /** The plain arithmetic of one validation stays in range. */
  ghost predicate InRange(cfg: Config, s: State)
  {
    && TotalWeight(Stakers(cfg, s)) < U64_LIMIT
    && cfg.blockReward * 40 < U128_LIMIT
    && !PayoutOverflows(Stakers(cfg, s), CalculateBlockReward(cfg.blockReward))
  }

  lemma {:induction false} PositiveStakeHasWeight(list: seq<ValidatorStake>)
    requires forall i :: 0 <= i < |list| ==> list[i].weight == SaturateU64(list[i].stake)
    ensures TotalStake(list) > 0 ==> TotalWeight(list) > 0
  {
    if list != [] { PositiveStakeHasWeight(list[..|list| - 1]); }
  }

  /**
   * While a mined block waits and something is staked, exactly one account can validate it: an account
   * with positive stake, and it succeeds unless a required post-quantum signature is missing or wrong.
   */
  lemma ExactlyOneValidator(cfg: Config, s: State, number: u32, sig: PqcSignature) returns (winner: AccountId)
    requires ValidConfig(cfg) && s.phase == PosValidation && number in s.headers && number in s.producers
    requires Sum(s.stakes) > 0 && InRange(cfg, s)
    ensures winner in s.stakes && s.stakes[winner] > 0
    ensures forall v :: ValidateBlock(cfg, s, v, number, sig).1 == Ok
                   <==> v == winner && CheckPqc(cfg, s, v, number, sig) == Ok
  {
    hide TotalWeight, TotalStake, Sum, PayoutOverflows, PaidOut;
    var list, seed := Stakers(cfg, s), cfg.hashSeed(number, s.now);
    TotalStakeIsSum(s.stakes, cfg.iter(s.stakes.Keys));
    PositiveStakeHasWeight(list);
    var i := SelectionSucceeds(list, seed, s.now);
    winner := list[i].account;
    SelectionUnique(list, seed, s.now, Choose(list, seed, s.now), SelectedAt(list[i], s.now));
  }

  /** No reachable validation phase is stuck: some stored block has an account that can validate it. */
  lemma ValidationProgress(cfg: Config, s: State, sig: PqcSignature) returns (number: u32, winner: AccountId)
    requires ValidConfig(cfg) && ChainSound(cfg, s) && s.phase == PosValidation
    requires Sum(s.stakes) > 0 && InRange(cfg, s) && !cfg.pqcRequired
    ensures number in s.producers && winner in s.stakes
    ensures ValidateBlock(cfg, s, winner, number, sig).1 == Ok
  {
    hide ValidateBlock, InRange, Tally, Sum, VerifyPow;
    MinersCountSubmissions(s.events);
    number :| number in s.producers;
    winner := ExactlyOneValidator(cfg, s, number, sig);
  }

  /** Exactly when the validation phase can be left: something is staked and no arithmetic leaves its range. */
  lemma ProgressIff(cfg: Config, s: State, sig: PqcSignature)
    requires ValidConfig(cfg) && ChainSound(cfg, s) && s.phase == PosValidation && !cfg.pqcRequired
    ensures (exists v, number :: ValidateBlock(cfg, s, v, number, sig).1 == Ok) <==> Sum(s.stakes) > 0 && InRange(cfg, s)
  {
    hide ValidateBlock, InRange, ChainSound, Sum;
    if Sum(s.stakes) > 0 && InRange(cfg, s) {
      var number, winner := ValidationProgress(cfg, s, sig);
    }
    forall v, number | ValidateBlock(cfg, s, v, number, sig).1 == Ok ensures Sum(s.stakes) > 0 && InRange(cfg, s) {
      ValidationNeedsRange(cfg, s, v, number, sig);
    }
  }

  lemma ValidationNeedsRange(cfg: Config, s: State, v: AccountId, number: u32, sig: PqcSignature)
    requires ValidConfig(cfg) && ValidateBlock(cfg, s, v, number, sig).1 == Ok
    ensures Sum(s.stakes) > 0 && InRange(cfg, s)
  {
    hide TotalWeight, TotalStake, Sum, PayoutOverflows, PaidOut;
    var list := Stakers(cfg, s);
    var seed := cfg.hashSeed(number, s.now);
    assert IsSelection(list, seed, s.now, Choose(list, seed, s.now));
    TotalStakeIsSum(s.stakes, cfg.iter(s.stakes.Keys));
    WeightsWithinStakes(list);
  }

  /** A zero-stake entry never validates, whichever block it tries. */
  lemma ZeroStakeNeverValidates(cfg: Config, s: State, v: AccountId, number: u32, sig: PqcSignature)
    requires ValidConfig(cfg) && Get(s.stakes, v) == 0
    ensures ValidateBlock(cfg, s, v, number, sig).1 != Ok
  {
    hide TotalWeight, Before, PayoutOverflows, PaidOut, Accept;
    var list, seed := Stakers(cfg, s), cfg.hashSeed(number, s.now);
    match Choose(list, seed, s.now)
    case Selected(_, _, _) =>
      var i: nat :| Owns(list, i, Prefix64(seed) % TotalWeight(list))
                 && Choose(list, seed, s.now) == SelectedAt(list[i], s.now);
      BeforeNext(list, i);
    case _ =>
  }

  // ----- Payment

  /** The miner's share, if the account mined the block. */
  function MinerPart(total: nat, miner: AccountId, a: AccountId): nat
  {
    if a == miner then CalculateBlockReward(total).minerReward else 0
  }

  /** The account's pro-rata part of the stakers' share. */
  ghost function StakerPart(total: nat, stakes: map<AccountId, nat>, a: AccountId): nat
  {
    if Sum(stakes) > 0 then Payment(CalculateBlockReward(total).stakersReward, Get(stakes, a), Sum(stakes)) else 0
  }

  /** Both parts arrive: the account exists, or the first positive part is large enough to open it. */
  predicate Creditable(l: Ledger, ed: nat, a: AccountId, minerPart: nat, stakerPart: nat)
  {
    a in l.free
    || ((minerPart == 0 || minerPart >= ed) && (stakerPart == 0 || stakerPart >= ed || minerPart >= ed))
  }

  /**
   * An accepted validation pays every account at most the miner's 40% and its pro-rata part of the rest, and
   * exactly that if and only if no positive part is dropped for being too small to open the account.
   */
  lemma ValidationPays(cfg: Config, s: State, v: AccountId, number: u32, sig: PqcSignature, a: AccountId)
    requires Solvent(cfg, s) && Room(cfg, s)
    ensures ValidateBlock(cfg, s, v, number, sig).1 == Ok ==>
      number in s.producers
      && var m, p := MinerPart(cfg.blockReward, s.producers[number], a), StakerPart(cfg.blockReward, s.stakes, a);
         var after := Balance(ValidateBlock(cfg, s, v, number, sig).0.ledger, a);
         && Balance(s.ledger, a) <= after <= Balance(s.ledger, a) + m + p
         && (after == Balance(s.ledger, a) + m + p <==> Creditable(s.ledger, cfg.existentialDeposit, a, m, p))
  {
    if ValidateBlock(cfg, s, v, number, sig).1 == Ok {
      hide MoneySound, PaidOut, PayoutOverflows, Stakers, CheckPqc, Sum, Payment, Sign, MinerPart, StakerPart, Creditable;
      SoundLedger(cfg, s);
      PaidOutBalance(s.ledger, cfg.existentialDeposit, s.producers[number], s.stakes, cfg.iter(s.stakes.Keys),
                     cfg.blockReward, a);
      StakersAre(cfg, s);
    }
  }

  /** When nothing is dropped, an accepted validation mints its reward less one unit for every staker but one, at worst. */
  lemma ValidationMints(cfg: Config, s: State, v: AccountId, number: u32, sig: PqcSignature)
    requires Solvent(cfg, s) && Room(cfg, s) && ValidateBlock(cfg, s, v, number, sig).1 == Ok && number in s.producers
    requires NothingDropped(s.ledger, cfg.existentialDeposit, s.producers[number], s.stakes,
                            CalculateBlockReward(cfg.blockReward))
    ensures var l := ValidateBlock(cfg, s, v, number, sig).0.ledger;
            && s.ledger.issuance + cfg.blockReward < l.issuance + |Positive(s.stakes)|
            && l.issuance <= s.ledger.issuance + cfg.blockReward
  {
    hide MoneySound, PaidOut, PayoutOverflows, Stakers, CheckPqc, Sum, Positive, NothingDropped, CalculateBlockReward;
    ValidationNeedsRange(cfg, s, v, number, sig);
    SoundLedger(cfg, s);
    StakersAre(cfg, s);
    PaidOutMints(s.ledger, cfg.existentialDeposit, s.producers[number], s.stakes, cfg.iter(s.stakes.Keys), cfg.blockReward);
  }

  lemma StakersAre(cfg: Config, s: State)
    ensures Stakers(cfg, s) == StakerList(s.stakes, cfg.iter(s.stakes.Keys))
  {}

  lemma PaidOutBalance(l: Ledger, ed: nat, miner: AccountId, stakes: map<AccountId, nat>, order: seq<AccountId>,
                       total: nat, a: AccountId)
    requires ed > 0 && Enumerates(order, stakes.Keys) && Valid(l, ed) && l.issuance + total < U128_LIMIT
    ensures var m, p := MinerPart(total, miner, a), StakerPart(total, stakes, a);
            var after := Balance(PaidOut(l, ed, miner, StakerList(stakes, order), CalculateBlockReward(total)), a);
            && Balance(l, a) <= after <= Balance(l, a) + m + p
            && (after == Balance(l, a) + m + p <==> Creditable(l, ed, a, m, p))
  {
    hide Sum, Deposit, PayStakers, StakerList, Payment, Valid;
    var r := CalculateBlockReward(total);
    var l1 := Deposit(l, ed, miner, r.minerReward);
    TotalStakeIsSum(stakes, order);
    DepositKeepsValid(l, ed, miner, r.minerReward);
    DepositAccount(l, ed, miner, r.minerReward, a);
    BalanceFits(l, ed, a);
    BalanceFits(l1, ed, a);
    if Sum(stakes) > 0 {
      PayStakersAccount(l1, ed, stakes, order, r.stakersReward, Sum(stakes), a);
      PaymentWithinReward(r.stakersReward, stakes, a);
      if a !in stakes { NothingForNothing(r.stakersReward, Sum(stakes)); }
    }
  }

  lemma BalanceFits(l: Ledger, ed: nat, a: AccountId)
    requires Valid(l, ed)
    ensures Balance(l, a) <= l.issuance
  {
    SumAtLeast(l.free, a);
  }

  lemma PaymentWithinReward(reward: nat, stakes: map<AccountId, nat>, a: AccountId)
    requires Sum(stakes) > 0
    ensures Payment(reward, Get(stakes, a), Sum(stakes)) <= reward
  {
    hide Payment;
    SumAtLeast(stakes, a);
    PaymentMono(reward, Get(stakes, a), Sum(stakes), Sum(stakes));
    WholeShare(reward, Sum(stakes));
  }

  lemma WholeShare(reward: nat, t: nat)
    requires t > 0
    ensures Payment(reward, t, t) == reward
  {
    DivExact(reward, t);
  }
}
