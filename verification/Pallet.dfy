/**
 * The pallet itself: storage items as fields, calls and hooks that update them in place.
 * Every method is proved against the function of `Protocol` with the same meaning.
 */
module Pallet {
  import opened Arith
  import opened MapSums
  import opened Types
  import opened Ledger
  import opened Selection
  import opened Rewards
  import opened Entropy
  import opened Retarget
  import opened Protocol
  import opened Downtime

  class GhostConsensus {
    const cfg: Config

    var difficulty: u64
    var phase: Phase
    var headers: map<u32, Header>
    var producers: map<u32, AccountId>
    var stakes: map<AccountId, nat>
    var lastActive: map<AccountId, u32>
    var doubleSignReports: set<AccountId>
    var invalidBlockReports: set<AccountId>
    var records: seq<Record>
    var pqcKeys: map<AccountId, PqcKey>
    var window: Window
    var entropy: u64
    var ledger: Ledger
    var now: nat
    var events: seq<Event>

    /** The whole storage as one value. */
    function View(): State
      reads this
    {
      State(difficulty, phase, headers, producers, stakes, lastActive, doubleSignReports, invalidBlockReports,
            records, pqcKeys, window, entropy, ledger, now, events)
    }

    constructor (cfg: Config, genesis: State)
      ensures this.cfg == cfg && View() == genesis
    {
      this.cfg := cfg;
      difficulty, phase := genesis.difficulty, genesis.phase;
      headers, producers := genesis.headers, genesis.producers;
      stakes, lastActive := genesis.stakes, genesis.lastActive;
      doubleSignReports, invalidBlockReports := genesis.doubleSignReports, genesis.invalidBlockReports;
      records, pqcKeys := genesis.records, genesis.pqcKeys;
      window, entropy := genesis.window, genesis.entropy;
      ledger, now, events := genesis.ledger, genesis.now, genesis.events;
    }

    /** Rolls the storage back to a checkpoint, as the dispatch layer does on every outcome but `Ok`. */
    method Restore(checkpoint: State)
      modifies this
      ensures View() == checkpoint
    {
      RestoreChain(checkpoint);
      RestoreAccounts(checkpoint);
    }

    method RestoreChain(c: State)
      modifies this`difficulty, this`phase, this`headers, this`producers, this`window, this`entropy, this`now
      ensures difficulty == c.difficulty && phase == c.phase && headers == c.headers && producers == c.producers
      ensures window == c.window && entropy == c.entropy && now == c.now
    {
      difficulty, phase, headers, producers := c.difficulty, c.phase, c.headers, c.producers;
      window, entropy, now := c.window, c.entropy, c.now;
    }

    method RestoreAccounts(c: State)
      modifies this`stakes, this`lastActive, this`doubleSignReports, this`invalidBlockReports, this`records
      modifies this`pqcKeys, this`ledger, this`events
      ensures stakes == c.stakes && lastActive == c.lastActive && records == c.records && pqcKeys == c.pqcKeys
      ensures doubleSignReports == c.doubleSignReports && invalidBlockReports == c.invalidBlockReports
      ensures ledger == c.ledger && events == c.events
    {
      stakes, lastActive, records, pqcKeys := c.stakes, c.lastActive, c.records, c.pqcKeys;
      doubleSignReports, invalidBlockReports := c.doubleSignReports, c.invalidBlockReports;
      ledger, events := c.ledger, c.events;
    }

    method DepositEvent(e: Event)
      modifies this`events
      ensures events == old(events) + [e]
    {
      events := events + [e];
    }

    // ----- Balances

    method DepositCreating(a: AccountId, v: nat)
      modifies this`ledger
      ensures ledger == Deposit(old(ledger), cfg.existentialDeposit, a, v)
    {
      ledger := Deposit(ledger, cfg.existentialDeposit, a, v);
    }

    /** Moves money or refuses; a reaped sender's dust is reported as an event. */
    method TransferBalance(from: AccountId, to: AccountId, v: nat, keepAlive: bool) returns (moved: bool, dust: nat)
      modifies this`ledger
      ensures match Transfer(old(ledger), cfg.existentialDeposit, from, to, v, keepAlive)
              case Moved(l, d) => moved && ledger == l && dust == d
              case Refused => !moved && ledger == old(ledger)
    {
      match Transfer(ledger, cfg.existentialDeposit, from, to, v, keepAlive)
      case Refused =>
        return false, 0;
      case Moved(l, d) =>
        ledger := l;
        return true, d;
    }

    // ----- Calls

    method SubmitBlock(miner: AccountId, header: Header) returns (outcome: Outcome)
      modifies this
      ensures (View(), outcome) == Protocol.SubmitBlock(cfg, old(View()), miner, header)
    {
      hide ValidateHeader, PushProducer;
      if phase != PowMining { return Err(InvalidPhaseTransition); }
      if header.number == 0 { return Err(InvalidBlockNumber); }
      var parentNumber: u32 := header.number - 1;
      if parentNumber !in headers { return Err(BlockNotFound); }
      outcome := ValidateHeader(cfg, difficulty, header, headers[parentNumber]);
      if outcome != Ok { return; }
      StoreSubmission(miner, header);
    }

    method StoreSubmission(miner: AccountId, header: Header)
      modifies this`headers, this`producers, this`window, this`lastActive, this`phase, this`events
      ensures headers == old(headers)[header.number := header]
      ensures producers == old(producers)[header.number := miner]
      ensures window == PushProducer(old(window), miner)
      ensures lastActive == old(lastActive)[miner := header.number]
      ensures phase == PosValidation && events == old(events) + [BlockMined(header.number, miner, header.nonce)]
    {
      hide PushProducer;
      headers := headers[header.number := header];
      producers := producers[header.number := miner];
      PushRecentProducer(miner);
      lastActive := lastActive[miner := header.number];
      phase := PosValidation;
      DepositEvent(BlockMined(header.number, miner, header.nonce));
    }

    /** The rolling window: drop the oldest of a full window, then `try_push`. */
    method PushRecentProducer(miner: AccountId)
      modifies this`window
      ensures window == PushProducer(old(window), miner)
    {
      var recent: seq<AccountId> := window;
      if |recent| >= WINDOW_LIMIT {
        recent := recent[1..];
      }
      if |recent| < WINDOW_LIMIT {
        recent := recent + [miner];
      }
      window := recent;
    }

    method Stake(staker: AccountId, amount: nat) returns (outcome: Outcome)
      modifies this
      ensures (View(), outcome) == Protocol.Stake(cfg, old(View()), staker, amount)
    {
      if amount < cfg.minStake { return Err(InsufficientStake); }
      var checkpoint := View();
      var moved, _ := TransferBalance(staker, cfg.escrow, amount, true);
      if !moved { return Err(TransferRefused); }
      var currentStake := Get(stakes, staker);
      if currentStake + amount >= U128_LIMIT {
        Restore(checkpoint);
        return Trap;
      }
      stakes := stakes[staker := currentStake + amount];
      return Ok;
    }

    /** The stake is written before the fallible transfer; the rollback undoes it. */
    method Unstake(staker: AccountId, amount: nat) returns (outcome: Outcome)
      modifies this
      ensures (View(), outcome) == Protocol.Unstake(cfg, old(View()), staker, amount)
    {
      if staker !in stakes { return Err(NotAValidator); }
      var currentStake := stakes[staker];
      if currentStake < amount { return Err(InsufficientStake); }
      var checkpoint := View();
      stakes := stakes[staker := currentStake - amount];
      var moved, dust := TransferBalance(cfg.escrow, staker, amount, false);
      if !moved {
        Restore(checkpoint);
        return Err(TransferRefused);
      }
      events := events + DustEvents(cfg.escrow, dust);
      return Ok;
    }

    method ValidateBlock(validator: AccountId, number: u32, signature: PqcSignature) returns (outcome: Outcome)
      requires ValidConfig(cfg)
      modifies this
      ensures (View(), outcome) == Protocol.ValidateBlock(cfg, old(View()), validator, number, signature)
    {
      if validator !in stakes { return Err(NotAValidator); }
      if number !in headers { return Err(BlockNotFound); }
      if phase != PosValidation { return Err(InvalidPhaseTransition); }
      var stakers := Stakers(cfg, View());
      var seed := cfg.hashSeed(number, now);
      var selection := SelectPosValidator(stakers, seed, now);
      SelectionUnique(stakers, seed, now, selection, Choose(stakers, seed, now));
      if selection == Overflow { return Trap; }
      if selection == NoneSelected { return Err(NotAValidator); }
      if selection.validator != validator { return Err(NotAValidator); }
      outcome := CheckPqc(cfg, View(), validator, number, signature);
      if outcome != Ok { return; }
      outcome := SignAndPay(validator, selection.weight, number, signature);
    }

    /** The header is written before the producer is looked up; the rollback undoes it. */
    method SignAndPay(validator: AccountId, weight: u64, number: u32, signature: PqcSignature)
      returns (outcome: Outcome)
      requires ValidConfig(cfg) && number in headers
      modifies this
      ensures (View(), outcome) == Accept(cfg, old(View()), validator, weight, number, signature)
    {
      hide PaidOut, PayoutOverflows, StakerList, CalculateBlockReward, Sign;
      var checkpoint := View();
      headers := headers[number := Sign(cfg, headers[number], validator, number, signature)];
      if cfg.blockReward * 40 >= U128_LIMIT {
        Restore(checkpoint);
        return Trap;
      }
      var reward := CalculateBlockReward(cfg.blockReward);
      if number !in producers {
        Restore(checkpoint);
        return Err(BlockNotFound);
      }
      var miner := producers[number];
      var trapped := DistributeRewards(miner, Stakers(cfg, View()), reward);
      if trapped {
        Restore(checkpoint);
        return Trap;
      }
      EnterFinalization(validator, weight, number, miner, reward);
      return Ok;
    }

    method EnterFinalization(validator: AccountId, weight: u64, number: u32, miner: AccountId, reward: BlockReward)
      modifies this`lastActive, this`phase, this`events
      ensures lastActive == old(lastActive)[validator := number] && phase == Finalization
      ensures events == old(events) + [ValidatorSelected(validator, weight),
                                       RewardsDistributed(miner, reward.minerReward, reward.stakersReward)]
    {
      lastActive := lastActive[validator := number];
      phase := Finalization;
      DepositEvent(ValidatorSelected(validator, weight));
      DepositEvent(RewardsDistributed(miner, reward.minerReward, reward.stakersReward));
    }

    /** `distribute_rewards`: the miner first, then every staker in proportion to its stake. */
    method DistributeRewards(miner: AccountId, stakers: seq<ValidatorStake>, reward: BlockReward)
      returns (trapped: bool)
      modifies this`ledger
      ensures trapped == PayoutOverflows(stakers, reward)
      ensures !trapped ==> ledger == PaidOut(old(ledger), cfg.existentialDeposit, miner, stakers, reward)
    {
      DepositCreating(miner, reward.minerReward);
      var totalStake, sumTrapped := SumStakes(stakers);
      if sumTrapped { return true; }
      trapped := false;
      if totalStake != 0 {
        trapped := PayEach(stakers, reward, totalStake);
      }
    }

    /** The fold over the stakes, which traps when the u128 sum overflows. */
    static method SumStakes(stakers: seq<ValidatorStake>) returns (totalStake: nat, trapped: bool)
      ensures trapped == (TotalStake(stakers) >= U128_LIMIT)
      ensures !trapped ==> totalStake == TotalStake(stakers)
    {
      totalStake := 0;
      for i := 0 to |stakers|
        invariant totalStake == TotalStake(stakers[..i]) < U128_LIMIT
      {
        assert stakers[..i + 1][..i] == stakers[..i];
        if totalStake + stakers[i].stake >= U128_LIMIT {
          TotalStakePrefix(stakers, i + 1);
          return totalStake, true;
        }
        totalStake := totalStake + stakers[i].stake;
      }
      assert stakers[..|stakers|] == stakers;
      trapped := false;
    }

    method PayEach(stakers: seq<ValidatorStake>, reward: BlockReward, totalStake: nat) returns (trapped: bool)
      requires totalStake > 0
      modifies this`ledger
      ensures trapped == exists i :: 0 <= i < |stakers| && reward.stakersReward * stakers[i].stake >= U128_LIMIT
      ensures !trapped ==>
        ledger == PayStakers(old(ledger), cfg.existentialDeposit, stakers, reward.stakersReward, totalStake)
    {
      for i := 0 to |stakers|
        invariant ledger == PayStakers(old(ledger), cfg.existentialDeposit, stakers[..i], reward.stakersReward, totalStake)
        invariant forall j :: 0 <= j < i ==> reward.stakersReward * stakers[j].stake < U128_LIMIT
      {
        assert stakers[..i + 1][..i] == stakers[..i];
        if reward.stakersReward * stakers[i].stake >= U128_LIMIT {
          return true;
        }
        DepositCreating(stakers[i].account, Payment(reward.stakersReward, stakers[i].stake, totalStake));
      }
      assert stakers[..|stakers|] == stakers;
      trapped := false;
    }

    /** The helper with the same payout: it computes the reward and collects the stakers itself. */
    method DistributeBlockRewards(miner: AccountId) returns (trapped: bool)
      modifies this`ledger, this`events
      ensures trapped == (cfg.blockReward * 40 >= U128_LIMIT
                          || PayoutOverflows(old(Stakers(cfg, View())), CalculateBlockReward(cfg.blockReward)))
      ensures !trapped ==>
        ledger == PaidOut(old(ledger), cfg.existentialDeposit, miner, old(Stakers(cfg, View())),
                          CalculateBlockReward(cfg.blockReward))
      ensures !trapped ==>
        events == old(events) + [RewardsDistributed(miner, CalculateBlockReward(cfg.blockReward).minerReward,
                                                    CalculateBlockReward(cfg.blockReward).stakersReward)]
    {
      var totalReward := cfg.blockReward;
      if totalReward * 40 >= U128_LIMIT { return true; }
      var reward := CalculateBlockReward(totalReward);
      DepositCreating(miner, reward.minerReward);
      var stakers := Stakers(cfg, View());
      trapped := false;
      if stakers != [] {
        var totalStake, sumTrapped := SumStakes(stakers);
        if sumTrapped { return true; }
        if totalStake != 0 {
          trapped := PayEach(stakers, reward, totalStake);
          if trapped { return; }
        }
      }
      DepositEvent(RewardsDistributed(miner, reward.minerReward, reward.stakersReward));
    }

    method RegisterPqcKey(validator: AccountId, key: PqcKey) returns (outcome: Outcome)
      modifies this
      ensures (View(), outcome) == Protocol.RegisterPqcKey(old(View()), validator, key)
    {
      pqcKeys := pqcKeys[validator := key];
      return Ok;
    }

    method ReportMisbehavior(validator: AccountId, reason: Reason) returns (outcome: Outcome)
      modifies this
      ensures (View(), outcome) == Protocol.ReportMisbehavior(cfg, old(View()), validator, reason)
    {
      hide SlashAmount;
      var checkpoint := View();
      match reason {
        case DoubleSigning => doubleSignReports := doubleSignReports + {validator};
        case InvalidBlock => invalidBlockReports := invalidBlockReports + {validator};
        case _ =>
      }
      var slashPercentage := SlashPercentage(cfg, reason);
      var currentStake := Get(stakes, validator);
      if currentStake * slashPercentage >= U128_LIMIT {
        Restore(checkpoint);
        return Trap;
      }
      var slashAmount := SlashAmount(currentStake, slashPercentage);
      stakes := stakes[validator := SatSub(currentStake, slashAmount)];
      DepositEvent(ValidatorSlashed(validator, reason, slashAmount));
      return Ok;
    }

    // ----- Hooks

    /** Visits the last-active map in its iteration order and slashes in place. */
    method CheckDowntimeSlashing() returns (trapped: bool)
      requires ValidConfig(cfg)
      modifies this`stakes, this`records, this`events
      ensures trapped == SweepOverflows(cfg, old(View()))
      ensures !trapped ==> View() == Sweep(cfg, old(View()))
    {
      ghost var before := View();
      var order := cfg.iter(lastActive.Keys);
      SweepOverNobody(cfg, before);
      for i := 0 to |order|
        invariant View() == SweepOver(cfg, before, order[..i])
        invariant forall j :: 0 <= j < i ==> !SlashOverflows(cfg, before, order[j])
      {
        SweepOverNext(cfg, before, order, i);
        trapped := SlashIfInactive(order[i]);
        if trapped { return; }
      }
      assert order[..|order|] == order;
      trapped := false;
    }

    method SlashIfInactive(v: AccountId) returns (trapped: bool)
      requires v in lastActive
      modifies this`stakes, this`records, this`events
      ensures trapped == SlashOverflows(cfg, old(View()), v)
      ensures !trapped ==> View() == SweepOne(cfg, old(View()), v)
    {
      hide SlashAmount;
      var currentBlock: u32 := Min(now, U32_LIMIT - 1);
      if SatSub(currentBlock, lastActive[v]) > cfg.maxDowntime {
        if v in stakes {
          var stake := stakes[v];
          if stake * cfg.downtimePct >= U128_LIMIT {
            return true;
          }
          var slashAmount := SlashAmount(stake, cfg.downtimePct);
          stakes := stakes[v := SatSub(stake, slashAmount)];
          records := records + [Record(v, Downtime, slashAmount, now)];
          DepositEvent(ValidatorSlashed(v, Downtime, slashAmount));
        }
      }
      trapped := false;
    }

    /** Measures entropy over the window and retargets; both block times are five seconds. */
    method AdjustDifficulty()
      modifies this`difficulty, this`entropy, this`events
      ensures View() == Protocol.AdjustDifficulty(old(View()))
    {
      hide EntropyOf, Retargeted;
      var currentDifficulty := difficulty;
      var measured := CalculateEntropy(window);
      entropy := measured;
      var newDifficulty := CalculateDifficultyAdjustment(currentDifficulty, BLOCK_TIME, BLOCK_TIME, measured);
      if newDifficulty != currentDifficulty {
        difficulty := newDifficulty;
        DepositEvent(DifficultyAdjusted(currentDifficulty, newDifficulty));
      }
    }

    method OnInitialize() returns (outcome: Outcome)
      requires ValidConfig(cfg)
      modifies this
      ensures (View(), outcome) == Initialize(cfg, old(View()))
    {
      hide Sweep, Protocol.AdjustDifficulty, SweepOverflows;
      var checkpoint := View();
      now := now + 1;
      if now % 10 == 0 {
        var trapped := CheckDowntimeSlashing();
        if trapped {
          Restore(checkpoint);
          return Trap;
        }
      }
      if now % 100 == 0 {
        AdjustDifficulty();
      }
      return Ok;
    }

    method OnFinalize()
      modifies this`phase
      ensures View() == Finalize(old(View()))
    {
      if phase == Finalization {
        phase := PowMining;
      }
    }

    // ----- Host blocks

    method Execute(x: Extrinsic) returns (outcome: Outcome)
      requires ValidConfig(cfg)
      modifies this
      ensures (View(), outcome) == Dispatch(cfg, old(View()), x)
    {
      match x
      case Signed(who, SubmitBlockCall(h)) => outcome := SubmitBlock(who, h);
      case Signed(who, StakeCall(amount)) => outcome := Stake(who, amount);
      case Signed(who, UnstakeCall(amount)) => outcome := Unstake(who, amount);
      case Signed(who, ValidateBlockCall(number, sig)) => outcome := ValidateBlock(who, number, sig);
      case Signed(who, RegisterPqcKeyCall(key)) => outcome := RegisterPqcKey(who, key);
      case Signed(who, ReportMisbehaviorCall(v, reason)) => outcome := ReportMisbehavior(v, reason);
      case Outside(from, to, value, keepAlive) =>
        var moved, dust := TransferBalance(from, to, value, keepAlive);
        if !moved { return Err(TransferRefused); }
        events := events + [OutsideTransfer(from, to, value)] + DustEvents(from, dust);
        outcome := Ok;
    }

    /** A whole host block. */
    method ExecuteBlock(xs: seq<Extrinsic>)
      requires ValidConfig(cfg)
      modifies this
      ensures View() == RunBlock(cfg, old(View()), xs)
    {
      var outcome := OnInitialize();
      if outcome != Ok { return; }
      ghost var start := View();
      for i := 0 to |xs|
        invariant View() == RunCalls(cfg, start, xs[..i])
      {
        assert xs[..i + 1][..i] == xs[..i];
        var _ := Execute(xs[i]);
      }
      assert xs[..|xs|] == xs;
      OnFinalize();
    }
  }

  lemma {:induction false} TotalStakePrefix(stakers: seq<ValidatorStake>, i: nat)
    requires i <= |stakers|
    ensures TotalStake(stakers[..i]) <= TotalStake(stakers)
    decreases |stakers| - i
  {
    if i < |stakers| {
      assert stakers[..i + 1][..i] == stakers[..i];
      TotalStakePrefix(stakers, i + 1);
    } else {
      assert stakers[..i] == stakers;
    }
  }
}
