/** Short runs from genesis, used to show on real inputs where a property fails. */
module Scenarios {
  import opened Arith
  import opened MapSums
  import opened Types
  import opened Ledger
  import opened Selection
  import opened Rewards
  import opened Protocol
  import opened History
  import opened Safety
  import opened Progress
  import opened Theorems
  import opened Coverage

  /** A header that `miner` can submit as block 1. */
  ghost predicate CanMineOne(cfg: Config, g: State, miner: AccountId, h1: Header)
  {
    && ValidConfig(cfg) && Genesis(cfg, g) && g.now == 0 && miner != cfg.escrow
    && h1.number == 1 && ValidateHeader(cfg, g.difficulty, h1, g.headers[0]) == Ok
    && g.ledger.issuance + 2 * cfg.blockReward < U64_LIMIT
  }

  /** A funded account that can stake, and then validate without a post-quantum key. */
  ghost predicate CanStake(cfg: Config, g: State, who: AccountId)
  {
    who != cfg.escrow && Balance(g.ledger, who) >= EntryPrice(cfg) && !cfg.pqcRequired
  }

  function FirstStakeOf(cfg: Config): nat
  {
    Max(cfg.existentialDeposit, cfg.minStake)
  }

  /** One account stakes, `miner` mines block 1, and the staker signs it. */
  function FirstBlock(cfg: Config, who: AccountId, miner: AccountId, h1: Header, sig: PqcSignature): seq<Extrinsic>
  {
    [Signed(who, StakeCall(FirstStakeOf(cfg))), Signed(miner, SubmitBlockCall(h1)), Signed(who, ValidateBlockCall(1, sig))]
  }

  lemma QuietInitialize(cfg: Config, s: State)
    requires (s.now + 1) % 10 != 0
    ensures Initialize(cfg, s) == (s.(now := s.now + 1), Ok)
  {
    hide Sweep, SweepOverflows, AdjustDifficulty;
    HundredIsTen(s.now + 1);
  }

  lemma HundredIsTen(n: nat)
    requires n % 10 != 0
    ensures n % 100 != 0
  {
    if n % 100 == 0 {
      assert n == (n / 100) * 100 == (n / 100 * 10) * 10 + 0;
      DivModUnique(n / 100 * 10, 10, 0);
    }
  }

  /** The only staker can validate any mined block. */
  lemma SoleStakerValidates(cfg: Config, s: State, who: AccountId, number: u32, sig: PqcSignature)
    requires ValidConfig(cfg) && !cfg.pqcRequired && s.phase == PosValidation
    requires number in s.headers && number in s.producers
    requires s.stakes.Keys == {who} && 0 < s.stakes[who] < U64_LIMIT && cfg.blockReward < U64_LIMIT
    ensures ValidateBlock(cfg, s, who, number, sig).1 == Ok
    ensures ValidateBlock(cfg, s, who, number, sig).0.headers
         == s.headers[number := Sign(cfg, s.headers[number], who, number, sig)]
  {
    hide Sum, PayoutOverflows, PaidOut, Stakers, Sign;
    assert s.stakes == map[who := s.stakes[who]];
    OneEntry(who, s.stakes[who]);
    WeightsFit(cfg, s);
    PayoutFits(cfg, s);
    var winner := ExactlyOneValidator(cfg, s, number, sig);
  }

  /** What the first block leaves: block 1 signed, the stake in place, and the chain mining again. */
  lemma AfterFirstBlock(cfg: Config, g: State, who: AccountId, miner: AccountId, h1: Header, sig: PqcSignature)
    requires CanMineOne(cfg, g, miner, h1) && CanStake(cfg, g, who)
    ensures GenesisRun(cfg, g, [FirstBlock(cfg, who, miner, h1, sig)])
    ensures var s := RunBlock(cfg, g, FirstBlock(cfg, who, miner, h1, sig));
            && s.phase == PowMining && s.now == 1 && s.difficulty == g.difficulty
            && s.headers == g.headers[1 := Sign(cfg, h1, who, 1, sig)] && 1 in s.producers && s.producers[1] == miner
            && s.stakes == map[who := FirstStakeOf(cfg)] && FirstStakeOf(cfg) < U64_LIMIT
            && s.ledger == PaidOut(Stake(cfg, g, who, FirstStakeOf(cfg)).0.ledger, cfg.existentialDeposit, miner,
                                   StakerList(s.stakes, cfg.iter(s.stakes.Keys)), CalculateBlockReward(cfg.blockReward))
  {
    hide Sum, PayoutOverflows, PaidOut, Sign, Initialize, ValidateHeader, PushProducer, ValidateBlock, Stake;
    QuietInitialize(cfg, g);
    var s0 := g.(now := 1);
    GenesisLedger(cfg, g);
    SumAtLeast(g.ledger.free, who);
    FirstStake(cfg, s0, who, FirstStakeOf(cfg));
    var s1 := Stake(cfg, s0, who, FirstStakeOf(cfg)).0;
    StakeLeavesChain(cfg, g, s0, who, FirstStakeOf(cfg));
    var s2 := SubmitBlock(cfg, s1, miner, h1).0;
    assert s2 == Submitted(s1, miner, h1);
    SoleStakerValidates(cfg, s2, who, 1, sig);
    ValidationLeaves(cfg, s2, who, 1, sig);
    ThreeCalls(cfg, s0, FirstBlock(cfg, who, miner, h1, sig));
    assert s2.headers[1 := Sign(cfg, h1, who, 1, sig)] == g.headers[1 := Sign(cfg, h1, who, 1, sig)];
  }

  /** A stake leaves the chain alone, and does not look at the clock. */
  lemma StakeLeavesChain(cfg: Config, g: State, s: State, who: AccountId, amount: nat)
    requires s == g.(now := s.now)
    ensures var s' := Stake(cfg, s, who, amount).0;
            && s'.headers == s.headers && s'.phase == s.phase && s'.now == s.now && s'.difficulty == s.difficulty
            && s'.producers == s.producers && s'.ledger == Stake(cfg, g, who, amount).0.ledger
  {}

  lemma ValidationLeaves(cfg: Config, s: State, who: AccountId, number: u32, sig: PqcSignature)
    requires ValidateBlock(cfg, s, who, number, sig).1 == Ok
    ensures number in s.producers
    ensures var s' := ValidateBlock(cfg, s, who, number, sig).0;
            && s'.phase == Finalization && s'.now == s.now && s'.difficulty == s.difficulty
            && s'.producers == s.producers && s'.stakes == s.stakes
            && s'.ledger == PaidOut(s.ledger, cfg.existentialDeposit, s.producers[number],
                                    StakerList(s.stakes, cfg.iter(s.stakes.Keys)), CalculateBlockReward(cfg.blockReward))
  {
    hide PayoutOverflows, PaidOut, CheckPqc;
  }

  lemma ThreeCalls(cfg: Config, s: State, xs: seq<Extrinsic>)
    requires |xs| == 3
    ensures RunCalls(cfg, s, xs) == Dispatch(cfg, Dispatch(cfg, Dispatch(cfg, s, xs[0]).0, xs[1]).0, xs[2]).0
  {
    hide Dispatch;
    AppendTwo(cfg, s, [xs[0]], xs[1], xs[2]);
    assert xs == [xs[0]] + [xs[1], xs[2]];
    assert [xs[0]][..0] == [];
  }

  lemma OneCall(cfg: Config, s: State, x: Extrinsic)
    ensures RunCalls(cfg, s, [x]) == Dispatch(cfg, s, x).0
  {
    hide Dispatch;
    assert [x][..0] == [];
  }

  lemma OneBlock(cfg: Config, s: State, xs: seq<Extrinsic>)
    ensures Run(cfg, s, [xs]) == RunBlock(cfg, s, xs)
  {
    hide RunBlock;
    assert [xs][..0] == [];
  }

  lemma TwoBlocks(cfg: Config, s: State, xs: seq<Extrinsic>, ys: seq<Extrinsic>)
    ensures Run(cfg, s, [xs, ys]) == RunBlock(cfg, RunBlock(cfg, s, xs), ys)
  {
    hide RunBlock;
    OneBlock(cfg, s, xs);
    assert [xs, ys][..1] == [xs] && [xs, ys][1] == ys;
  }

  /** Some enumeration of a set. */
  ghost function AnyOrder(s: set<AccountId>): (order: seq<AccountId>)
    ensures Enumerates(order, s)
  {
    if s == {} then []
    else
      var a :| a in s;
      AnyOrder(s - {a}) + [a]
  }

  // ----- A chain that waits, and a share that is lost

  /** With nothing staked, a mined block waits: nobody can validate anything. */
  lemma UnstakedChainWaits(cfg: Config, g: State, miner: AccountId, h1: Header, v: AccountId, number: u32,
                           sig: PqcSignature)
    requires CanMineOne(cfg, g, miner, h1)
    ensures var mine := [Signed(miner, SubmitBlockCall(h1))];
            && GenesisRun(cfg, g, [mine])
            && Run(cfg, g, [mine]).phase == PosValidation
            && ValidateBlock(cfg, Run(cfg, g, [mine]), v, number, sig).1 != Ok
  {
    hide Initialize, PushProducer, ValidateHeader, ValidateBlock, RunCalls;
    var mine := [Signed(miner, SubmitBlockCall(h1))];
    QuietInitialize(cfg, g);
    OneCall(cfg, g.(now := 1), mine[0]);
    OneBlock(cfg, g, mine);
    ZeroStakeNeverValidates(cfg, Run(cfg, g, [mine]), v, number, sig);
  }

  /** A miner without an account loses a share below the existential deposit, although its block is accepted. */
  lemma SmallShareIsDropped(cfg: Config, g: State, who: AccountId, miner: AccountId, h1: Header, sig: PqcSignature)
    requires CanMineOne(cfg, g, miner, h1) && CanStake(cfg, g, who) && miner !in g.ledger.free
    requires 0 < CalculateBlockReward(cfg.blockReward).minerReward < cfg.existentialDeposit
    ensures var s := Run(cfg, g, [FirstBlock(cfg, who, miner, h1, sig)]);
            && GenesisRun(cfg, g, [FirstBlock(cfg, who, miner, h1, sig)])
            && 1 in s.producers && s.producers[1] == miner
            && 1 in s.headers && s.headers[1].pqcSignature == Some(sig)
            && MinerPart(cfg.blockReward, miner, miner) > 0 && Balance(s.ledger, miner) == 0
  {
    hide RunBlock, Sum, PaidOut, StakerList, CalculateBlockReward, Stake;
    AfterFirstBlock(cfg, g, who, miner, h1, sig);
    var blocks := [FirstBlock(cfg, who, miner, h1, sig)];
    OneBlock(cfg, g, blocks[0]);
    var s := Run(cfg, g, blocks);
    StakeOpensOnlyEscrow(cfg, g, who, FirstStakeOf(cfg), miner);
    TooSmallToOpen(Stake(cfg, g, who, FirstStakeOf(cfg)).0.ledger, cfg.existentialDeposit, miner, s.stakes,
                   cfg.iter(s.stakes.Keys), CalculateBlockReward(cfg.blockReward));
  }

  lemma StakeOpensOnlyEscrow(cfg: Config, s: State, who: AccountId, amount: nat, a: AccountId)
    requires a !in s.ledger.free && a != cfg.escrow && who in s.ledger.free
    ensures a !in Stake(cfg, s, who, amount).0.ledger.free
  {}

  lemma TooSmallToOpen(l: Ledger, ed: nat, miner: AccountId, stakes: map<AccountId, nat>, order: seq<AccountId>,
                       r: BlockReward)
    requires Enumerates(order, stakes.Keys) && miner !in l.free && miner !in stakes && r.minerReward < ed
    ensures miner !in PaidOut(l, ed, miner, StakerList(stakes, order), r).free
  {
    hide PayStakers, StakerList, Deposit, Sum;
    var l1 := Deposit(l, ed, miner, r.minerReward);
    DepositAccount(l, ed, miner, r.minerReward, miner);
    TotalStakeIsSum(stakes, order);
    if Sum(stakes) > 0 {
      PayStakersAccount(l1, ed, stakes, order, r.stakersReward, Sum(stakes), miner);
    }
  }

  // ----- A validation that traps

  const HALF_LIMIT: nat := U64_LIMIT / 2

  /** An account that can stake half of the u64 range and stay alive. */
  ghost predicate CanStakeHalf(cfg: Config, g: State, who: AccountId)
  {
    who != cfg.escrow && Balance(g.ledger, who) >= HALF_LIMIT + cfg.existentialDeposit
  }

  lemma StakeHalf(cfg: Config, s: State, who: AccountId, other: AccountId)
    requires CanStakeHalf(cfg, s, who) && other != who && other != cfg.escrow && who !in s.stakes
    requires 0 < cfg.existentialDeposit <= HALF_LIMIT && cfg.minStake <= HALF_LIMIT
    requires Valid(s.ledger, cfg.existentialDeposit) && s.ledger.issuance < U128_LIMIT
    ensures var s' := Stake(cfg, s, who, HALF_LIMIT).0;
            && s'.stakes == s.stakes[who := HALF_LIMIT] && s' == s.(stakes := s'.stakes, ledger := s'.ledger)
            && Balance(s'.ledger, other) == Balance(s.ledger, other)
            && Valid(s'.ledger, cfg.existentialDeposit) && s'.ledger.issuance < U128_LIMIT
  {
    hide Sum, Valid;
    TwoBalances(s.ledger.free, cfg.escrow, who);
    assert s.ledger.issuance == Sum(s.ledger.free) by { IssuanceIsSum(s.ledger, cfg.existentialDeposit); }
    TransferKeepsValid(s.ledger, cfg.existentialDeposit, who, cfg.escrow, HALF_LIMIT, true);
  }

  lemma IssuanceIsSum(l: Ledger, ed: nat)
    requires Valid(l, ed)
    ensures l.issuance == Sum(l.free)
  {}

  lemma {:induction false} WeightsAreStakes(list: seq<ValidatorStake>)
    requires forall i :: 0 <= i < |list| ==> list[i].weight == list[i].stake
    ensures TotalWeight(list) == TotalStake(list)
  {
    if list != [] { WeightsAreStakes(list[..|list| - 1]); }
  }

  /** Stakes that fit one by one but not together make every validation of a waiting block trap. */
  lemma HeavyStakesTrap(cfg: Config, s: State, v: AccountId, number: u32, sig: PqcSignature)
    requires ValidConfig(cfg) && s.phase == PosValidation && number in s.headers && v in s.stakes
    requires (forall a :: a in s.stakes ==> s.stakes[a] < U64_LIMIT) && Sum(s.stakes) >= U64_LIMIT
    ensures ValidateBlock(cfg, s, v, number, sig) == (s, Trap)
  {
    hide Sum, TotalWeight, TotalStake, Accept;
    TotalStakeIsSum(s.stakes, cfg.iter(s.stakes.Keys));
    WeightsAreStakes(Stakers(cfg, s));
    assert IsSelection(Stakers(cfg, s), cfg.hashSeed(number, s.now), s.now,
                       Choose(Stakers(cfg, s), cfg.hashSeed(number, s.now), s.now));
  }

  lemma TwoHalves(a: AccountId, b: AccountId)
    requires a != b
    ensures Sum<AccountId>(map[a := HALF_LIMIT][b := HALF_LIMIT]) == U64_LIMIT
  {
    var m: map<AccountId, nat> := map[a := HALF_LIMIT];
    OneEntry(a, HALF_LIMIT);
    SumUpdate(m, b, HALF_LIMIT);
  }

  /**
   * The supply bound of the no-trap theorem is needed: two accounts that stake 2^63 each overflow the weight total, and
   * the validation of the block that is then mined traps.
   */
  lemma HalvesTrap(cfg: Config, g: State, a: AccountId, b: AccountId, miner: AccountId, h1: Header, sig: PqcSignature)
    requires ValidConfig(cfg) && Genesis(cfg, g) && g.now == 0 && g.ledger.issuance + cfg.blockReward < U128_LIMIT
    requires cfg.existentialDeposit <= HALF_LIMIT && cfg.minStake <= HALF_LIMIT
    requires a != b && CanStakeHalf(cfg, g, a) && CanStakeHalf(cfg, g, b) && miner != cfg.escrow
    requires h1.number == 1 && ValidateHeader(cfg, g.difficulty, h1, g.headers[0]) == Ok
    ensures var xs := [Signed(a, StakeCall(HALF_LIMIT)), Signed(b, StakeCall(HALF_LIMIT)),
                       Signed(miner, SubmitBlockCall(h1)), Signed(a, ValidateBlockCall(1, sig))];
            GenesisRun(cfg, g, [xs]) && !RunNeverTraps(cfg, g, [xs])
  {
    hide Sum, Initialize, ValidateHeader, PushProducer, ValidateBlock, Stake, Valid, RunCalls;
    var front := [Signed(a, StakeCall(HALF_LIMIT)), Signed(b, StakeCall(HALF_LIMIT)), Signed(miner, SubmitBlockCall(h1))];
    var last := Signed(a, ValidateBlockCall(1, sig));
    var s0 := g.(now := 1);
    QuietInitialize(cfg, g);
    GenesisLedger(cfg, g);
    StakeHalf(cfg, s0, a, b);
    var s1 := Stake(cfg, s0, a, HALF_LIMIT).0;
    StakeHalf(cfg, s1, b, a);
    var s2 := Stake(cfg, s1, b, HALF_LIMIT).0;
    var s3 := SubmitBlock(cfg, s2, miner, h1).0;
    assert s3 == Submitted(s2, miner, h1);
    TwoHalves(a, b);
    assert s3.stakes == map[a := HALF_LIMIT][b := HALF_LIMIT];
    HeavyStakesTrap(cfg, s3, a, 1, sig);
    ThreeCalls(cfg, s0, front);
    LastCallTraps(cfg, g, front, last);
    assert front + [last] == [front[0], front[1], front[2], last];
  }

  lemma LastCallTraps(cfg: Config, g: State, front: seq<Extrinsic>, last: Extrinsic)
    requires Initialize(cfg, g).1 == Ok && Dispatch(cfg, RunCalls(cfg, Initialize(cfg, g).0, front), last).1 == Trap
    ensures !RunNeverTraps(cfg, g, [front + [last]])
  {
    hide Initialize, RunCalls, Dispatch;
    var xs := front + [last];
    assert xs[..|front|] == front && xs[|front|] == last;
    assert !CallsNeverTrap(cfg, Initialize(cfg, g).0, xs);
    NoBlocks(cfg, g);
    assert [xs][..0] == [];
    assert !BlockNeverTraps(cfg, Run(cfg, g, [xs][..0]), [xs][0]);
  }

  lemma NoBlocks(cfg: Config, s: State)
    ensures Run(cfg, s, []) == s
  {}
}
