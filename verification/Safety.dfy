/** No arithmetic trap on any run whose gross supply stays below 2^64. */
module Safety {
  import opened Arith
  import opened MapSums
  import opened Types
  import opened Ledger
  import opened Selection
  import opened Rewards
  import opened Protocol
  import opened History
  import opened Steps
  import opened Runs

  /** Recorded stakes are backed by money that was issued at some time. */
  ghost predicate Backed(cfg: Config, s: State)
  {
    Backing(cfg, s) >= 0
  }

  lemma TwoBalances(m: map<AccountId, nat>, a: AccountId, b: AccountId)
    requires a != b
    ensures Get(m, a) + Get(m, b) <= Sum(m)
  {
    if a in m {
      SumRemove(m, a);
      SumAtLeast(m - {a}, b);
      assert Get(m - {a}, b) == Get(m, b);
    } else {
      SumAtLeast(m, b);
    }
  }

  /** All stakes together, plus what any other account holds, fit in the gross supply. */
  lemma StakesWithinGross(cfg: Config, s: State, who: AccountId)
    requires Valid(s.ledger, cfg.existentialDeposit) && Backed(cfg, s) && who != cfg.escrow
    ensures Sum(s.stakes) + Balance(s.ledger, who) <= Gross(s)
  {
    TwoBalances(s.ledger.free, cfg.escrow, who);
    DustWithinAll(cfg.escrow, s.events);
  }

  // ----- The places where plain arithmetic could overflow

  /** A submitted number has a stored parent with the number just below it. */
  lemma SubmitDoesNotTrap(cfg: Config, s: State, miner: AccountId, h: Header)
    requires HeaderStore(cfg, s)
    ensures SubmitBlock(cfg, s, miner, h).1 != Trap
  {}

  lemma StakeDoesNotTrap(cfg: Config, s: State, who: AccountId, amount: nat)
    requires MoneySound(cfg, s) && Backed(cfg, s) && who != cfg.escrow && Gross(s) < U64_LIMIT
    ensures Protocol.Stake(cfg, s, who, amount).1 != Trap
  {
    hide Sum, Tally, Gross, Backing;
    StakesWithinGross(cfg, s, who);
    SumAtLeast(s.stakes, who);
  }

  lemma PercentageFits(stake: nat, pct: u8)
    requires stake < U64_LIMIT
    ensures stake * pct < U128_LIMIT
  {
    MulMono(stake, U64_LIMIT, pct);
  }

  lemma StakeFits(cfg: Config, s: State, v: AccountId)
    requires MoneySound(cfg, s) && Backed(cfg, s) && Gross(s) < U64_LIMIT
    ensures Get(s.stakes, v) <= Sum(s.stakes) < U64_LIMIT
  {
    hide Sum, Tally, Gross, Backing;
    StakesWithinGross(cfg, s, cfg.escrow + 1);
    SumAtLeast(s.stakes, v);
  }

  lemma ReportDoesNotTrap(cfg: Config, s: State, v: AccountId, reason: Reason)
    requires MoneySound(cfg, s) && Backed(cfg, s) && Gross(s) < U64_LIMIT
    ensures ReportMisbehavior(cfg, s, v, reason).1 != Trap
  {
    hide MoneySound, Sum, Tally, Gross, Backing;
    StakeFits(cfg, s, v);
    PercentageFits(Get(s.stakes, v), SlashPercentage(cfg, reason));
  }

  /** The hook runs as long as a percentage of everything ever issued fits in u128. */
  lemma InitializeRuns(cfg: Config, s: State)
    requires MoneySound(cfg, s) && Backed(cfg, s) && Gross(s) * cfg.downtimePct < U128_LIMIT
    ensures Initialize(cfg, s).1 == Ok
  {
    hide MoneySound, Sum, Tally, Gross, Backing, Sweep, AdjustDifficulty;
    var s1 := s.(now := s.now + 1);
    forall v ensures !SlashOverflows(cfg, s1, v) {
      SoundLedger(cfg, s);
      StakesWithinGross(cfg, s, cfg.escrow + 1);
      SumAtLeast(s.stakes, v);
      MulMono(Get(s.stakes, v), Gross(s), cfg.downtimePct);
    }
  }

  lemma SoundLedger(cfg: Config, s: State)
    requires MoneySound(cfg, s)
    ensures Valid(s.ledger, cfg.existentialDeposit) && Get(s.stakes, cfg.escrow) == 0
  {}

  lemma InitializeDoesNotTrap(cfg: Config, s: State)
    requires MoneySound(cfg, s) && Backed(cfg, s) && Gross(s) < U64_LIMIT
    ensures Initialize(cfg, s).1 == Ok
  {
    hide MoneySound, Gross, Backed, Initialize;
    PercentageFits(Gross(s), cfg.downtimePct);
    InitializeRuns(cfg, s);
  }

  /** Saturated weights never exceed the stakes they stand for. */
  lemma {:induction false} WeightsWithinStakes(list: seq<ValidatorStake>)
    requires forall i :: 0 <= i < |list| ==> list[i].weight <= list[i].stake
    ensures TotalWeight(list) <= TotalStake(list)
  {
    if list != [] { WeightsWithinStakes(list[..|list| - 1]); }
  }

  lemma WeightsFit(cfg: Config, s: State)
    requires ValidConfig(cfg) && Sum(s.stakes) < U64_LIMIT
    ensures TotalWeight(Stakers(cfg, s)) <= TotalStake(Stakers(cfg, s)) == Sum(s.stakes)
  {
    TotalStakeIsSum(s.stakes, cfg.iter(s.stakes.Keys));
    WeightsWithinStakes(Stakers(cfg, s));
  }

  lemma PayoutFits(cfg: Config, s: State)
    requires ValidConfig(cfg) && Sum(s.stakes) < U64_LIMIT && cfg.blockReward < U64_LIMIT
    ensures cfg.blockReward * 40 < U128_LIMIT
    ensures !PayoutOverflows(Stakers(cfg, s), CalculateBlockReward(cfg.blockReward))
  {
    var list, r := Stakers(cfg, s), CalculateBlockReward(cfg.blockReward);
    TotalStakeIsSum(s.stakes, cfg.iter(s.stakes.Keys));
    forall i | 0 <= i < |list| ensures r.stakersReward * list[i].stake < U128_LIMIT {
      SumAtLeast(s.stakes, list[i].account);
      ProductFits(r.stakersReward, list[i].stake);
    }
  }

  lemma ProductFits(a: nat, b: nat)
    requires a < U64_LIMIT && b < U64_LIMIT
    ensures a * b < U128_LIMIT
  {
    MulMono(a, U64_LIMIT - 1, b);
    MulMono(b, U64_LIMIT - 1, U64_LIMIT - 1);
  }

  lemma ValidateDoesNotTrap(cfg: Config, s: State, v: AccountId, number: u32, sig: PqcSignature)
    requires Solvent(cfg, s) && Backed(cfg, s) && Gross(s) < U64_LIMIT && cfg.blockReward < U64_LIMIT
    ensures ValidateBlock(cfg, s, v, number, sig).1 != Trap
  {
    hide MoneySound, Sum, Tally, Gross, Backing, Stakers, PayoutOverflows, TotalWeight, TotalStake;
    StakeFits(cfg, s, v);
    WeightsFit(cfg, s);
    PayoutFits(cfg, s);
  }

  lemma DispatchDoesNotTrap(cfg: Config, s: State, x: Extrinsic)
    requires Ready(cfg, s) && Backed(cfg, s) && Keyless(cfg, x)
    requires Gross(s) < U64_LIMIT && cfg.blockReward < U64_LIMIT
    ensures Dispatch(cfg, s, x).1 != Trap
  {
    hide HeaderStore, Gross, Backing, Sum, Tally, Valid, EscrowIdle, ProducersMatchLog, WindowMatches, PhaseMatches,
      SubmitBlock, Stake, ValidateBlock, ReportMisbehavior;
    match x
    case Signed(who, SubmitBlockCall(h)) => SubmitDoesNotTrap(cfg, s, who, h);
    case Signed(who, StakeCall(amount)) => StakeDoesNotTrap(cfg, s, who, amount);
    case Signed(who, ValidateBlockCall(number, sig)) => ValidateDoesNotTrap(cfg, s, who, number, sig);
    case Signed(_, ReportMisbehaviorCall(v, reason)) => ReportDoesNotTrap(cfg, s, v, reason);
    case _ =>
  }

  // ----- Whole runs

  ghost predicate CallsNeverTrap(cfg: Config, s: State, xs: seq<Extrinsic>)
  {
    forall i :: 0 <= i < |xs| ==> Dispatch(cfg, RunCalls(cfg, s, xs[..i]), xs[i]).1 != Trap
  }

  ghost predicate BlockNeverTraps(cfg: Config, s: State, xs: seq<Extrinsic>)
  {
    Initialize(cfg, s).1 == Ok && CallsNeverTrap(cfg, Initialize(cfg, s).0, xs)
  }

  ghost predicate RunNeverTraps(cfg: Config, s: State, blocks: seq<seq<Extrinsic>>)
  {
    forall i :: 0 <= i < |blocks| ==> BlockNeverTraps(cfg, Run(cfg, s, blocks[..i]), blocks[i])
  }

  lemma BlockDoesNotTrap(cfg: Config, s: State, xs: seq<Extrinsic>)
    requires Ready(cfg, s) && s.phase != Finalization && AllKeyless(cfg, xs) && Backed(cfg, s)
    requires Gross(s) + cfg.blockReward < U64_LIMIT
    ensures BlockNeverTraps(cfg, s, xs)
  {
    hide ChainSound, MoneySound, Gross, Imbalance, Backing, Sum, Tally, Dispatch, Initialize, RunCalls, Keyless, ValidConfig;
    GrossCoversIssuance(s);
    InitializeDoesNotTrap(cfg, s);
    InitializeKeeps(cfg, s);
    InitializeKeepsChain(cfg, s);
    var s1 := Initialize(cfg, s).0;
    forall i | 0 <= i < |xs| ensures Dispatch(cfg, RunCalls(cfg, s1, xs[..i]), xs[i]).1 != Trap {
      CallsKeepInBlock(cfg, s, s1, xs[..i]);
      CallsKeepChain(cfg, s1, xs[..i]);
      DispatchDoesNotTrap(cfg, RunCalls(cfg, s1, xs[..i]), xs[i]);
    }
  }

  lemma GrossCoversIssuance(s: State)
    ensures s.ledger.issuance <= Gross(s)
  {}

  /** While genesis supply plus all block rewards stays below 2^64, every plain `+` and `*` is in range. */
  lemma RunDoesNotTrap(cfg: Config, s: State, blocks: seq<seq<Extrinsic>>)
    requires Ready(cfg, s) && s.phase != Finalization && AllBlocksKeyless(cfg, blocks) && Backed(cfg, s)
    requires Gross(s) + |blocks| * cfg.blockReward < U64_LIMIT
    ensures RunNeverTraps(cfg, s, blocks)
  {
    hide ChainSound, MoneySound, Gross, Imbalance, Backing, Tally, RunBlock, Run, AllKeyless, ValidConfig, BlockNeverTraps;
    forall i | 0 <= i < |blocks| ensures BlockNeverTraps(cfg, Run(cfg, s, blocks[..i]), blocks[i]) {
      GrossCoversIssuance(s);
      MulMono(i + 1, |blocks|, cfg.blockReward);
      MulSucc(i, cfg.blockReward);
      RunKeeps(cfg, s, blocks[..i]);
      RunKeepsChain(cfg, s, blocks[..i]);
      BlockDoesNotTrap(cfg, Run(cfg, s, blocks[..i]), blocks[i]);
    }
  }
}
