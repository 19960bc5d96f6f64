/**
 * When the escrow account can pay back what is staked. A withdrawal that leaves less than the existential
 * deposit in escrow burns the rest, so the answer depends on what the escrow account started with.
 */
module Coverage {
  import opened Arith
  import opened MapSums
  import opened Types
  import opened Ledger
  import opened Rewards
  import opened Entropy
  import opened Retarget
  import opened Protocol
  import opened History
  import opened Steps
  import opened Downtime
  import opened Runs
  import opened Safety
  import opened Progress
  import opened Theorems

  /** Money in escrow beyond the recorded stakes. */
  ghost function Surplus(cfg: Config, s: State): int
  {
    Balance(s.ledger, cfg.escrow) - Sum(s.stakes)
  }

  ghost predicate Covered(cfg: Config, s: State)
  {
    Surplus(cfg, s) >= 0
  }

  // ----- One withdrawal

  /** A withdrawal within the stake succeeds exactly when the escrow holds it and the staker can receive it. */
  lemma UnstakeOkIff(cfg: Config, s: State, who: AccountId, amount: nat)
    requires Valid(s.ledger, cfg.existentialDeposit) && s.ledger.issuance < U128_LIMIT && who != cfg.escrow
    requires who in s.stakes && amount <= s.stakes[who]
    ensures Unstake(cfg, s, who, amount).1 == Ok
       <==> amount == 0 || (Balance(s.ledger, cfg.escrow) >= amount
                            && Balance(s.ledger, who) + amount >= cfg.existentialDeposit)
    ensures Unstake(cfg, s, who, amount).1 == Ok ==>
      && Balance(Unstake(cfg, s, who, amount).0.ledger, who) == Balance(s.ledger, who) + amount
      && Unstake(cfg, s, who, amount).0.stakes == s.stakes[who := s.stakes[who] - amount]
  {
    hide Sum;
    TwoBalances(s.ledger.free, cfg.escrow, who);
  }

  /** With the stakes covered, all that can refuse a withdrawal is that it could not open the staker's account. */
  lemma UnstakeOkIfCovered(cfg: Config, s: State, who: AccountId, amount: nat)
    requires Valid(s.ledger, cfg.existentialDeposit) && s.ledger.issuance < U128_LIMIT && who != cfg.escrow
    requires who in s.stakes && amount <= s.stakes[who] && Covered(cfg, s)
    ensures Unstake(cfg, s, who, amount).1 == Ok
       <==> amount == 0 || Balance(s.ledger, who) + amount >= cfg.existentialDeposit
  {
    hide Sum, Unstake, Valid;
    SumAtLeast(s.stakes, who);
    UnstakeOkIff(cfg, s, who, amount);
  }

  /** A paid withdrawal keeps coverage exactly when it does not reap an escrow that is still needed. */
  lemma UnstakeKeepsCoverageIff(cfg: Config, s: State, who: AccountId, amount: nat)
    requires cfg.existentialDeposit > 0 && Covered(cfg, s) && who != cfg.escrow && amount > 0
    requires Unstake(cfg, s, who, amount).1 == Ok
    ensures Covered(cfg, Unstake(cfg, s, who, amount).0)
       <==> Balance(s.ledger, cfg.escrow) - amount >= cfg.existentialDeposit || amount == Sum(s.stakes)
  {
    hide Sum;
    SumUpdate(s.stakes, who, s.stakes[who] - amount);
    SumAtLeast(s.stakes, who);
  }

  // ----- An invariant that keeps every run covered

  /** A surplus from which no withdrawal can reap an escrow that is still needed. */
  function SafeSurplus(cfg: Config): nat
  {
    if cfg.existentialDeposit == 1 then 0 else cfg.existentialDeposit
  }

  /** What an account must hold to stake into an empty escrow account and stay alive. */
  function EntryPrice(cfg: Config): nat
  {
    Max(cfg.existentialDeposit, cfg.minStake) + cfg.existentialDeposit
  }

  /** The escrow is safe, or nothing is staked and nobody can afford to open the escrow account by staking. */
  ghost predicate Secure(cfg: Config, s: State)
  {
    Surplus(cfg, s) >= SafeSurplus(cfg) || (Sum(s.stakes) == 0 && s.ledger.issuance < EntryPrice(cfg))
  }

  lemma StakeKeepsSecure(cfg: Config, s: State, who: AccountId, amount: nat)
    requires Solvent(cfg, s) && who != cfg.escrow && Secure(cfg, s)
    ensures Secure(cfg, Stake(cfg, s, who, amount).0)
  {
    hide Sum;
    SumUpdate(s.stakes, who, Get(s.stakes, who) + amount);
    SumAtLeast(s.ledger.free, who);
  }

  lemma UnstakeKeepsSecure(cfg: Config, s: State, who: AccountId, amount: nat)
    requires Solvent(cfg, s) && who != cfg.escrow && Secure(cfg, s)
    ensures Secure(cfg, Unstake(cfg, s, who, amount).0)
  {
    hide Sum;
    if who in s.stakes && amount <= s.stakes[who] {
      SumUpdate(s.stakes, who, s.stakes[who] - amount);
      SumAtLeast(s.stakes, who);
    }
  }

  lemma OutsideKeepsSecure(cfg: Config, s: State, from: AccountId, to: AccountId, value: nat, keepAlive: bool)
    requires Solvent(cfg, s) && from != cfg.escrow && Secure(cfg, s)
    ensures Secure(cfg, TransferOutside(cfg, s, from, to, value, keepAlive).0)
  {
    hide MoneySound, Sum, Transfer;
    TransferBalances(s.ledger, cfg.existentialDeposit, from, to, value, keepAlive, cfg.escrow);
    SoundLedger(cfg, s);
    TransferKeepsValid(s.ledger, cfg.existentialDeposit, from, to, value, keepAlive);
  }

  lemma ReportKeepsSecure(cfg: Config, s: State, v: AccountId, reason: Reason)
    requires Secure(cfg, s)
    ensures Secure(cfg, ReportMisbehavior(cfg, s, v, reason).0)
  {
    hide Sum, SlashAmount;
    SumUpdate(s.stakes, v, AfterSlash(Get(s.stakes, v), SlashPercentage(cfg, reason)));
  }

  /** A validation needs stake, so a chain without any never mints. */
  lemma ValidateKeepsSecure(cfg: Config, s: State, v: AccountId, number: u32, sig: PqcSignature)
    requires Solvent(cfg, s) && Secure(cfg, s)
    ensures Secure(cfg, ValidateBlock(cfg, s, v, number, sig).0)
  {
    hide Sum, PaidOut, PayoutOverflows, Stakers, CheckPqc;
    if ValidateBlock(cfg, s, v, number, sig).1 == Ok {
      ValidationNeedsRange(cfg, s, v, number, sig);
      SoundLedger(cfg, s);
      PayoutSkipsEscrow(cfg, s, s.producers[number]);
    }
  }

  lemma DispatchKeepsSecure(cfg: Config, s: State, x: Extrinsic)
    requires Solvent(cfg, s) && Keyless(cfg, x) && Secure(cfg, s)
    ensures Secure(cfg, Dispatch(cfg, s, x).0)
  {
    hide MoneySound, Stake, Unstake, ValidateBlock, ReportMisbehavior, TransferOutside, ValidateHeader, Sum;
    match x
    case Signed(who, StakeCall(amount)) => StakeKeepsSecure(cfg, s, who, amount);
    case Signed(who, UnstakeCall(amount)) => UnstakeKeepsSecure(cfg, s, who, amount);
    case Signed(who, ValidateBlockCall(number, sig)) => ValidateKeepsSecure(cfg, s, who, number, sig);
    case Signed(_, ReportMisbehaviorCall(v, reason)) => ReportKeepsSecure(cfg, s, v, reason);
    case Outside(from, to, value, keepAlive) => OutsideKeepsSecure(cfg, s, from, to, value, keepAlive);
    case _ =>
  }

  lemma LowerStakesKeepSecure(cfg: Config, s: State, s': State)
    requires Secure(cfg, s) && s'.ledger == s.ledger && Sum(s'.stakes) <= Sum(s.stakes)
    ensures Secure(cfg, s')
  {
    hide Sum;
  }

  lemma InitializeKeepsSecure(cfg: Config, s: State)
    requires Solvent(cfg, s) && Secure(cfg, s)
    ensures Secure(cfg, Initialize(cfg, s).0)
  {
    hide Sum, SweptStakes, SweepRecords, SweepEvents, SweepOverflows, SlashFits, Adjusted, EntropyOf, Secure;
    var s1 := s.(now := s.now + 1);
    SweepAnnouncesIff(cfg, s1);
    LowerStakesKeepSecure(cfg, s, Initialize(cfg, s).0);
  }

  lemma {:induction false} CallsKeepSecure(cfg: Config, s0: State, s: State, xs: seq<Extrinsic>)
    requires ValidConfig(cfg) && AllKeyless(cfg, xs) && Secure(cfg, s)
    requires InBlock(cfg, s0, s) && s0.ledger.issuance + cfg.blockReward < U128_LIMIT
    ensures Secure(cfg, RunCalls(cfg, s, xs))
  {
    hide Secure, Dispatch, Keyless, ValidConfig, MoneySound, Tally, Imbalance, Backing, Gross;
    if xs != [] {
      var front := xs[..|xs| - 1];
      CallsKeepSecure(cfg, s0, s, front);
      CallsKeepInBlock(cfg, s0, s, front);
      DispatchKeepsSecure(cfg, RunCalls(cfg, s, front), xs[|xs| - 1]);
    }
  }

  lemma BlockKeepsSecure(cfg: Config, s: State, xs: seq<Extrinsic>)
    requires Solvent(cfg, s) && s.phase != Finalization && AllKeyless(cfg, xs) && Secure(cfg, s)
    requires s.ledger.issuance + cfg.blockReward < U128_LIMIT
    ensures Secure(cfg, RunBlock(cfg, s, xs))
  {
    hide MoneySound, Imbalance, Backing, Gross, Tally, RunCalls, Initialize, Keyless, ValidConfig, Sum;
    InitializeKeeps(cfg, s);
    InitializeKeepsSecure(cfg, s);
    var (s1, outcome) := Initialize(cfg, s);
    if outcome == Ok { CallsKeepSecure(cfg, s, s1, xs); }
  }

  lemma {:induction false} RunKeepsSecure(cfg: Config, s: State, blocks: seq<seq<Extrinsic>>)
    requires Solvent(cfg, s) && s.phase != Finalization && AllBlocksKeyless(cfg, blocks) && Secure(cfg, s)
    requires s.ledger.issuance + |blocks| * cfg.blockReward < U128_LIMIT
    ensures Secure(cfg, Run(cfg, s, blocks))
  {
    hide MoneySound, Imbalance, Backing, Gross, Tally, RunBlock, AllKeyless, ValidConfig, Secure;
    if blocks != [] {
      var k := |blocks| - 1;
      MulSucc(k, cfg.blockReward);
      RunKeepsSecure(cfg, s, blocks[..k]);
      RunKeeps(cfg, s, blocks[..k]);
      BlockKeepsSecure(cfg, Run(cfg, s, blocks[..k]), blocks[k]);
    }
  }

  // ----- Main results

  /** The existential deposit is one, or the escrow account exists, or nobody can afford to stake. */
  predicate SafeStart(cfg: Config, g: State)
  {
    || cfg.existentialDeposit == 1
    || Balance(g.ledger, cfg.escrow) >= cfg.existentialDeposit
    || g.ledger.issuance < EntryPrice(cfg)
  }

  /** From a safe start the recorded stakes of every run are covered by the escrow balance. */
  lemma StakesStayCovered(cfg: Config, g: State, blocks: seq<seq<Extrinsic>>)
    requires GenesisRun(cfg, g, blocks) && SafeStart(cfg, g)
    ensures Covered(cfg, Run(cfg, g, blocks))
  {
    hide Run, ChainSound, ValidConfig, AllBlocksKeyless;
    GenesisIsSound(cfg, g);
    assert Sum(g.stakes) == 0;
    RunKeepsSecure(cfg, g, blocks);
  }

  /** Exactly when every run stays covered: the start is safe. */
  lemma CoveredIff(cfg: Config, g: State)
    requires ValidConfig(cfg) && Genesis(cfg, g)
    requires g.ledger.issuance + cfg.blockReward < U128_LIMIT
    ensures (forall blocks :: GenesisRun(cfg, g, blocks) ==> Covered(cfg, Run(cfg, g, blocks))) <==> SafeStart(cfg, g)
  {
    hide Run, GenesisRun, Covered, ValidConfig, Genesis;
    if SafeStart(cfg, g) {
      forall blocks | GenesisRun(cfg, g, blocks) ensures Covered(cfg, Run(cfg, g, blocks)) {
        StakesStayCovered(cfg, g, blocks);
      }
    } else {
      var blocks, who := UnstakeCanUncover(cfg, g);
    }
  }

  /** At any block boundary after a safe start, a withdrawal is refused only if it could not open the staker's account. */
  lemma UnstakeAlwaysPays(cfg: Config, g: State, blocks: seq<seq<Extrinsic>>, who: AccountId, amount: nat)
    requires GenesisRun(cfg, g, blocks) && SafeStart(cfg, g) && who != cfg.escrow
    requires who in Run(cfg, g, blocks).stakes && amount <= Run(cfg, g, blocks).stakes[who]
    ensures var (s', outcome) := Unstake(cfg, Run(cfg, g, blocks), who, amount);
            && (outcome == Ok <==>
                  amount == 0 || Balance(Run(cfg, g, blocks).ledger, who) + amount >= cfg.existentialDeposit)
            && (outcome == Ok ==>
                  && Balance(s'.ledger, who) == Balance(Run(cfg, g, blocks).ledger, who) + amount
                  && s'.stakes == Run(cfg, g, blocks).stakes[who := Run(cfg, g, blocks).stakes[who] - amount])
  {
    hide Run, Valid, GenesisRun, Unstake, Covered;
    StakesStayCovered(cfg, g, blocks);
    LedgerOfRun(cfg, g, blocks);
    UnstakeOkIff(cfg, Run(cfg, g, blocks), who, amount);
    UnstakeOkIfCovered(cfg, Run(cfg, g, blocks), who, amount);
  }

  lemma LedgerOfRun(cfg: Config, g: State, blocks: seq<seq<Extrinsic>>)
    requires GenesisRun(cfg, g, blocks)
    ensures Valid(Run(cfg, g, blocks).ledger, cfg.existentialDeposit)
    ensures Run(cfg, g, blocks).ledger.issuance < U128_LIMIT
  {
    hide Run, Tally, Valid, EscrowIdle, Gross, Imbalance, Backing, Genesis;
    RunFromGenesis(cfg, g, blocks);
  }

  // ----- Runs that break the two properties

  lemma {:induction false} RunCallsCons(cfg: Config, s: State, x: Extrinsic, xs: seq<Extrinsic>)
    ensures RunCalls(cfg, s, [x] + xs) == RunCalls(cfg, Dispatch(cfg, s, x).0, xs)
  {
    hide Dispatch;
    if xs == [] {
      assert [x] + xs == [x] && [x][..0] == [];
    } else {
      var k := |xs| - 1;
      assert ([x] + xs)[..k + 1] == [x] + xs[..k];
      RunCallsCons(cfg, s, x, xs[..k]);
    }
  }

  /** Giving everything away closes the sender's account and burns nothing. */
  lemma GiveAll(cfg: Config, s: State, a: AccountId, t: AccountId)
    requires cfg.existentialDeposit > 0 && Valid(s.ledger, cfg.existentialDeposit) && s.ledger.issuance < U128_LIMIT
    requires a in s.ledger.free && t in s.ledger.free && a != t
    ensures var l := Dispatch(cfg, s, Outside(a, t, s.ledger.free[a], false)).0.ledger;
            && Valid(l, cfg.existentialDeposit) && l.issuance == s.ledger.issuance
            && l.free.Keys == s.ledger.free.Keys - {a} && |l.free| < |s.ledger.free|
    ensures Dispatch(cfg, s, Outside(a, t, s.ledger.free[a], false)).0.stakes == s.stakes
  {
    hide Sum;
    var v := s.ledger.free[a];
    TwoBalances(s.ledger.free, a, t);
    TransferKeepsValid(s.ledger, cfg.existentialDeposit, a, t, v, false);
    var l := Dispatch(cfg, s, Outside(a, t, v, false)).0.ledger;
    assert l.free == (s.ledger.free - {a})[t := s.ledger.free[t] + v];
    assert l.free.Keys == s.ledger.free.Keys - {a};
    assert |l.free| == |l.free.Keys| == |s.ledger.free.Keys| - 1;
  }

  /** Outside transfers that bring all money to one account. */
  lemma {:induction false} Pool(cfg: Config, s: State, t: AccountId) returns (xs: seq<Extrinsic>)
    requires cfg.existentialDeposit > 0 && Valid(s.ledger, cfg.existentialDeposit) && s.ledger.issuance < U128_LIMIT
    requires cfg.escrow !in s.ledger.free && t in s.ledger.free
    ensures AllKeyless(cfg, xs)
    ensures RunCalls(cfg, s, xs).ledger == Ledger(map[t := s.ledger.issuance], s.ledger.issuance)
    ensures RunCalls(cfg, s, xs).stakes == s.stakes
    decreases |s.ledger.free|
  {
    hide Valid, Dispatch, RunCalls;
    if a :| a in s.ledger.free && a != t {
      var x := Outside(a, t, s.ledger.free[a], false);
      GiveAll(cfg, s, a, t);
      var rest := Pool(cfg, Dispatch(cfg, s, x).0, t);
      xs := [x] + rest;
      RunCallsCons(cfg, s, x, rest);
    } else {
      xs := [];
      NoCalls(cfg, s);
      SoleOwner(s.ledger, cfg.existentialDeposit, t);
    }
  }

  lemma SoleOwner(l: Ledger, ed: nat, t: AccountId)
    requires Valid(l, ed) && t in l.free && forall a :: a in l.free ==> a == t
    ensures l == Ledger(map[t := l.issuance], l.issuance)
  {
    assert l.free == map[t := l.free[t]];
    OneEntry(t, l.free[t]);
  }

  lemma EmptySum()
    ensures Sum<AccountId>(map[]) == 0
  {}

  lemma OneEntry(who: AccountId, v: nat)
    ensures Sum<AccountId>(map[who := v]) == v
  {
    var m: map<AccountId, nat> := map[who := v];
    SumRemove(m, who);
    assert m - {who} == map[];
  }

  /** The first host block starts from the genesis ledger with nothing staked. */
  lemma FirstInitialize(cfg: Config, g: State)
    requires Genesis(cfg, g)
    ensures Initialize(cfg, g).1 == Ok
    ensures Initialize(cfg, g).0.ledger == g.ledger && Initialize(cfg, g).0.stakes == map[]
  {
    hide SweepRecords, SweepEvents, Adjusted, EntropyOf;
    assert !SweepOverflows(cfg, g.(now := g.now + 1));
  }

  lemma OneBlockRun(cfg: Config, g: State, xs: seq<Extrinsic>)
    requires ValidConfig(cfg) && Genesis(cfg, g) && AllKeyless(cfg, xs)
    requires g.ledger.issuance + cfg.blockReward < U128_LIMIT
    ensures GenesisRun(cfg, g, [xs])
    ensures Run(cfg, g, [xs]).ledger == RunCalls(cfg, Initialize(cfg, g).0, xs).ledger
    ensures Run(cfg, g, [xs]).stakes == RunCalls(cfg, Initialize(cfg, g).0, xs).stakes
  {
    hide Initialize, RunCalls, Genesis, ValidConfig;
    FirstInitialize(cfg, g);
    assert [xs][..0] == [];
  }

  /** After any other start: pool the money, stake it, and withdraw all but one unit. The rest is burned as dust. */
  lemma UnstakeCanUncover(cfg: Config, g: State) returns (blocks: seq<seq<Extrinsic>>, who: AccountId)
    requires ValidConfig(cfg) && Genesis(cfg, g)
    requires g.ledger.issuance + cfg.blockReward < U128_LIMIT && !SafeStart(cfg, g)
    ensures GenesisRun(cfg, g, blocks) && !Covered(cfg, Run(cfg, g, blocks))
    ensures who != cfg.escrow && Get(Run(cfg, g, blocks).stakes, who) == 1
    ensures Unstake(cfg, Run(cfg, g, blocks), who, 1).1 == Err(TransferRefused)
  {
    hide RunCalls, Initialize, Genesis, ValidConfig, Sum, Run, Stake, Unstake, TransferOutside;
    GenesisLedger(cfg, g);
    FirstInitialize(cfg, g);
    var s := Initialize(cfg, g).0;
    if g.ledger.free == map[] { EmptySum(); }
    who :| who in g.ledger.free;
    var pooling := Pool(cfg, s, who);
    var staked := Max(cfg.existentialDeposit, cfg.minStake);
    var last := [Signed(who, StakeCall(staked)), Signed(who, UnstakeCall(staked - 1))];
    var xs := pooling + last;
    var pooled := RunCalls(cfg, s, pooling);
    OneEntry(who, g.ledger.issuance);
    FirstStake(cfg, pooled, who, staked);
    LeaveOne(cfg, Stake(cfg, pooled, who, staked).0, who, staked);
    AppendTwo(cfg, s, pooling, last[0], last[1]);
    OneBlockRun(cfg, g, xs);
    OneEntry(who, 1);
    blocks := [xs];
    RefusesOne(cfg, Run(cfg, g, blocks), who);
  }

  lemma AppendTwo(cfg: Config, s: State, xs: seq<Extrinsic>, x: Extrinsic, y: Extrinsic)
    ensures RunCalls(cfg, s, xs + [x, y]) == Dispatch(cfg, Dispatch(cfg, RunCalls(cfg, s, xs), x).0, y).0
  {
    hide Dispatch;
    assert (xs + [x, y])[..|xs| + 1] == xs + [x];
    assert (xs + [x])[..|xs|] == xs;
  }

  lemma GenesisLedger(cfg: Config, g: State)
    requires Genesis(cfg, g)
    ensures Valid(g.ledger, cfg.existentialDeposit)
  {}

  /** The first stake of all opens or feeds the escrow account. */
  lemma FirstStake(cfg: Config, s: State, who: AccountId, staked: nat)
    requires cfg.existentialDeposit > 0 && who != cfg.escrow && s.stakes == map[]
    requires Valid(s.ledger, cfg.existentialDeposit) && s.ledger.issuance < U128_LIMIT
    requires staked == Max(cfg.existentialDeposit, cfg.minStake) && Balance(s.ledger, who) >= EntryPrice(cfg)
    ensures var s' := Stake(cfg, s, who, staked).0;
            && s'.stakes == map[who := staked]
            && Balance(s'.ledger, who) == Balance(s.ledger, who) - staked
            && Balance(s'.ledger, cfg.escrow) == Balance(s.ledger, cfg.escrow) + staked
    ensures Balance(s.ledger, cfg.escrow) + Balance(s.ledger, who) < U128_LIMIT
  {
    hide Sum;
    TwoBalances(s.ledger.free, cfg.escrow, who);
    assert s.stakes[who := staked] == map[who := staked];
  }

  lemma LeaveOne(cfg: Config, s: State, who: AccountId, staked: nat)
    requires cfg.existentialDeposit > 1 && who != cfg.escrow && s.stakes == map[who := staked]
    requires staked >= cfg.existentialDeposit && Balance(s.ledger, cfg.escrow) == staked
    requires Balance(s.ledger, who) >= cfg.existentialDeposit && Balance(s.ledger, who) + staked < U128_LIMIT
    ensures var s' := Unstake(cfg, s, who, staked - 1).0;
            s'.stakes == map[who := 1] && Balance(s'.ledger, cfg.escrow) == 0
  {
    assert s.stakes[who] - (staked - 1) == 1;
    assert s.stakes[who := 1] == map[who := 1];
  }

  lemma RefusesOne(cfg: Config, s: State, who: AccountId)
    requires cfg.existentialDeposit > 1 && who != cfg.escrow && Get(s.stakes, who) >= 1
    requires Balance(s.ledger, cfg.escrow) == 0 || Balance(s.ledger, who) == 0
    ensures Unstake(cfg, s, who, 1).1 == Err(TransferRefused)
  {}

  lemma GiveAway(cfg: Config, s: State, who: AccountId)
    requires cfg.existentialDeposit > 1 && who != cfg.escrow
    requires Balance(s.ledger, who) > 0 && Balance(s.ledger, cfg.escrow) >= cfg.existentialDeposit
    requires Balance(s.ledger, who) + Balance(s.ledger, cfg.escrow) < U128_LIMIT
    ensures var s' := TransferOutside(cfg, s, who, cfg.escrow, Balance(s.ledger, who), false).0;
            && s'.stakes == s.stakes && who !in s'.ledger.free
            && Balance(s'.ledger, cfg.escrow) > Balance(s.ledger, cfg.escrow)
  {}

  /** For a deposit above one, stakes can be covered and a small withdrawal still be refused: the staker was reaped. */
  lemma UnstakeCanBeRefused(cfg: Config, g: State, who: AccountId) returns (blocks: seq<seq<Extrinsic>>)
    requires ValidConfig(cfg) && Genesis(cfg, g)
    requires g.ledger.issuance + cfg.blockReward < U128_LIMIT && cfg.existentialDeposit > 1
    requires who != cfg.escrow && Balance(g.ledger, who) >= EntryPrice(cfg)
    ensures GenesisRun(cfg, g, blocks) && Covered(cfg, Run(cfg, g, blocks))
    ensures Get(Run(cfg, g, blocks).stakes, who) > 1
    ensures Unstake(cfg, Run(cfg, g, blocks), who, 1).1 == Err(TransferRefused)
  {
    hide RunCalls, Initialize, Genesis, ValidConfig, Sum, Run, Stake, Unstake, TransferOutside;
    GenesisLedger(cfg, g);
    FirstInitialize(cfg, g);
    var s := Initialize(cfg, g).0;
    var staked := Max(cfg.existentialDeposit, cfg.minStake);
    var x, y := Signed(who, StakeCall(staked)), Outside(who, cfg.escrow, Balance(g.ledger, who) - staked, false);
    FirstStake(cfg, s, who, staked);
    GiveAway(cfg, Stake(cfg, s, who, staked).0, who);
    AppendTwo(cfg, s, [], x, y);
    NoCalls(cfg, s);
    assert [] + [x, y] == [x, y];
    OneBlockRun(cfg, g, [x, y]);
    OneEntry(who, staked);
    blocks := [[x, y]];
    RefusesOne(cfg, Run(cfg, g, blocks), who);
  }

  lemma NoCalls(cfg: Config, s: State)
    ensures RunCalls(cfg, s, []) == s
  {}
}
