/** Every call keeps the invariants, conserves the escrow identity, and mints only on acceptance. */
module Steps {
  import opened Arith
  import opened MapSums
  import opened Types
  import opened Ledger
  import opened Selection
  import opened Rewards
  import opened Protocol
  import opened History

  /** A step that is not an accepted validation. */
  ghost predicate Quiet(cfg: Config, s: State, s': State)
  {
    && (s'.phase == Finalization <==> s.phase == Finalization)
    && Tally(Validations, s'.events) == Tally(Validations, s.events)
    && s'.ledger.issuance <= s.ledger.issuance
    && Gross(s') == Gross(s)
  }

  /** An accepted validation: the only step that mints, at most one block reward. */
  ghost predicate Accepting(cfg: Config, s: State, s': State)
  {
    && s.phase == PosValidation && s'.phase == Finalization
    && Tally(Validations, s'.events) == Tally(Validations, s.events) + 1
    && s'.ledger.issuance <= s.ledger.issuance + cfg.blockReward
    && Gross(s') <= Gross(s) + cfg.blockReward
  }

  /** Ledger and escrow stay sound, the backing of the stakes never shrinks, and the escrow identity is conserved. */
  ghost predicate Step(cfg: Config, s: State, s': State)
  {
    && MoneySound(cfg, s')
    && Backing(cfg, s') >= Backing(cfg, s)
    && Imbalance(cfg, s') <= Imbalance(cfg, s)
    && (Percentages(cfg) ==> Imbalance(cfg, s') == Imbalance(cfg, s))
    && (cfg.existentialDeposit == 1 ==> Tally(AllDust, s'.events) == Tally(AllDust, s.events))
    && (Quiet(cfg, s, s') || Accepting(cfg, s, s'))
  }

  /** Room below u128 for one more block reward, while one may still be paid. */
  predicate Room(cfg: Config, s: State)
  {
    s.phase == PosValidation ==> s.ledger.issuance + cfg.blockReward < U128_LIMIT
  }

  ghost predicate Solvent(cfg: Config, s: State)
  {
    ValidConfig(cfg) && MoneySound(cfg, s)
  }

  ghost predicate Ready(cfg: Config, s: State)
  {
    ValidConfig(cfg) && Sound(cfg, s)
  }

  // ----- submit_block

  lemma WindowPush(miners: seq<AccountId>, m: AccountId)
    ensures PushProducer(LastOf(miners), m) == LastOf(miners + [m])
  {}

  lemma SubmitKeepsChain(cfg: Config, s: State, miner: AccountId, h: Header)
    requires ChainSound(cfg, s)
    ensures ChainSound(cfg, SubmitBlock(cfg, s, miner, h).0)
  {
    hide HeaderStore, Tally, Miners, ValidateHeader, Submitted, LastOf, ProducersMatchLog;
    if SubmitBlock(cfg, s, miner, h).1 == Ok {
      SubmitKeepsHeaders(cfg, s, miner, h);
      SubmitKeepsProducers(s, miner, h);
      SubmitKeepsLog(cfg, s, miner, h);
    }
  }

  lemma SubmitKeeps(cfg: Config, s: State, miner: AccountId, h: Header)
    requires MoneySound(cfg, s) && miner != cfg.escrow
    ensures Step(cfg, s, SubmitBlock(cfg, s, miner, h).0)
  {
    hide Valid, Tally, ValidateHeader, Submitted, Imbalance, Backing, Gross, Get;
    if SubmitBlock(cfg, s, miner, h).1 == Ok { SubmitKeepsMoney(cfg, s, miner, h); }
  }

  lemma SubmitKeepsMoney(cfg: Config, s: State, miner: AccountId, h: Header)
    requires EscrowIdle(cfg, s) && miner != cfg.escrow
    ensures var s' := Submitted(s, miner, h);
            && EscrowIdle(cfg, s') && Imbalance(cfg, s') == Imbalance(cfg, s) && Backing(cfg, s') == Backing(cfg, s)
            && Gross(s') == Gross(s) && s'.ledger == s.ledger && s'.phase == PosValidation
            && Tally(Validations, s'.events) == Tally(Validations, s.events)
            && Tally(AllDust, s'.events) == Tally(AllDust, s.events)
  {
    hide Tally, PushProducer, Sum;
    EventKeepsTallies(cfg, s, BlockMined(h.number, miner, h.nonce));
  }

  lemma SubmitKeepsLog(cfg: Config, s: State, miner: AccountId, h: Header)
    requires s.phase == PowMining && WindowMatches(s) && PhaseMatches(s)
    ensures WindowMatches(Submitted(s, miner, h)) && PhaseMatches(Submitted(s, miner, h))
  {
    var e := BlockMined(h.number, miner, h.nonce);
    TallyAdd(Submissions, s.events, e);
    TallyAdd(Validations, s.events, e);
    MinersAppend(s.events, [e]);
    assert Miners([e]) == [miner] by { assert [e][..0] == []; }
    WindowPush(Miners(s.events), miner);
  }

  /** An event that moves no money leaves all money tallies alone. */
  lemma EventKeepsTallies(cfg: Config, s: State, e: Event)
    requires e.BlockMined? || e.ValidatorSelected? || e.RewardsDistributed? || e.DifficultyAdjusted?
    ensures Tally(DustOf(cfg.escrow), s.events + [e]) == Tally(DustOf(cfg.escrow), s.events)
    ensures Tally(AllDust, s.events + [e]) == Tally(AllDust, s.events)
    ensures Tally(Slashes, s.events + [e]) == Tally(Slashes, s.events)
    ensures Tally(GiftsTo(cfg.escrow), s.events + [e]) == Tally(GiftsTo(cfg.escrow), s.events)
    ensures e.BlockMined? ==> Tally(Validations, s.events + [e]) == Tally(Validations, s.events)
  {
    TallyAdd(DustOf(cfg.escrow), s.events, e);
    TallyAdd(AllDust, s.events, e);
    TallyAdd(Slashes, s.events, e);
    TallyAdd(GiftsTo(cfg.escrow), s.events, e);
    TallyAdd(Validations, s.events, e);
  }

  lemma SubmitKeepsHeaders(cfg: Config, s: State, miner: AccountId, h: Header)
    requires HeaderStore(cfg, s) && SubmitBlock(cfg, s, miner, h).1 == Ok
    ensures HeaderStore(cfg, Submitted(s, miner, h))
  {
    hide VerifyPow, Miners, PushProducer;
    assert h.number in Submitted(s, miner, h).producers;
  }

  lemma SubmitKeepsProducers(s: State, miner: AccountId, h: Header)
    requires ProducersMatchLog(s)
    ensures ProducersMatchLog(Submitted(s, miner, h))
  {
    hide MinerOf, PushProducer;
    var s', e := Submitted(s, miner, h), BlockMined(h.number, miner, h.nonce);
    forall k | k in s'.producers ensures MinerOf(s'.events, k) == Some(s'.producers[k]) {
      MinerOfAdd(s.events, e, k);
    }
  }

  // ----- Steps that leave the chain of headers alone

  predicate MoneyEvent(e: Event)
  {
    !e.BlockMined? && !e.ValidatorSelected?
  }

  predicate MoneyOnly(fs: seq<Event>)
  {
    forall i :: 0 <= i < |fs| ==> MoneyEvent(fs[i])
  }

  lemma {:induction false} MoneyOnlyKeepsLog(fs: seq<Event>)
    requires MoneyOnly(fs)
    ensures Miners(fs) == [] && Tally(Submissions, fs) == 0 && Tally(Validations, fs) == 0
  {
    if fs != [] { MoneyOnlyKeepsLog(fs[..|fs| - 1]); }
  }

  lemma {:induction false} NoMiningKeepsProducers(es: seq<Event>, fs: seq<Event>, k: u32)
    requires forall i :: 0 <= i < |fs| ==> !fs[i].BlockMined?
    ensures MinerOf(es + fs, k) == MinerOf(es, k)
  {
    if fs == [] {
      assert es + fs == es;
    } else {
      var n := |fs| - 1;
      assert es + fs == (es + fs[..n]) + [fs[n]];
      MinerOfAdd(es + fs[..n], fs[n], k);
      NoMiningKeepsProducers(es, fs[..n], k);
    }
  }

  /** Headers, producers, window and phase untouched, and only money events logged. */
  ghost predicate ChainUntouched(s: State, s': State, fs: seq<Event>)
  {
    && s'.headers == s.headers && s'.producers == s.producers && s'.window == s.window && s'.phase == s.phase
    && s'.events == s.events + fs && MoneyOnly(fs)
  }

  lemma ChainUntouchedKeeps(cfg: Config, s: State, s': State, fs: seq<Event>)
    requires ChainUntouched(s, s', fs) && ChainSound(cfg, s)
    ensures ChainSound(cfg, s')
    ensures Tally(Validations, s'.events) == Tally(Validations, s.events)
  {
    hide VerifyPow, LastOf, ProducersMatchLog, Tally, MoneyOnly;
    UntouchedKeepsProducers(s, s', fs);
    MoneyOnlyKeepsLog(fs);
    MinersAppend(s.events, fs);
    assert Miners(s.events) + [] == Miners(s.events);
    TallyAppend(Submissions, s.events, fs);
    MoneyKeepsValidations(s, s', fs);
  }

  lemma UntouchedKeepsProducers(s: State, s': State, fs: seq<Event>)
    requires ChainUntouched(s, s', fs) && ProducersMatchLog(s)
    ensures ProducersMatchLog(s')
  {
    hide MinerOf;
    forall k | k in s'.producers ensures MinerOf(s'.events, k) == Some(s'.producers[k]) {
      NoMiningKeepsProducers(s.events, fs, k);
    }
  }

  lemma MoneyKeepsValidations(s: State, s': State, fs: seq<Event>)
    requires s'.events == s.events + fs && MoneyOnly(fs)
    ensures Tally(Validations, s'.events) == Tally(Validations, s.events)
  {
    hide MoneyOnly, Tally;
    MoneyOnlyKeepsLog(fs);
    TallyAppend(Validations, s.events, fs);
  }

  // ----- stake and unstake

  lemma StakeKeeps(cfg: Config, s: State, staker: AccountId, amount: nat)
    requires Solvent(cfg, s) && staker != cfg.escrow
    ensures Step(cfg, s, Stake(cfg, s, staker, amount).0)
  {
    hide Tally, Sum, Transfer;
    var ed := cfg.existentialDeposit;
    TransferKeepsValid(s.ledger, ed, staker, cfg.escrow, amount, true);
    TransferBalances(s.ledger, ed, staker, cfg.escrow, amount, true, cfg.escrow);
    SumUpdate(s.stakes, staker, Get(s.stakes, staker) + amount);
  }

  lemma DustTallies(cfg: Config, es: seq<Event>, a: AccountId, dust: nat)
    ensures MoneyOnly(DustEvents(a, dust))
    ensures Tally(DustOf(cfg.escrow), es + DustEvents(a, dust))
         == Tally(DustOf(cfg.escrow), es) + (if a == cfg.escrow then dust else 0)
    ensures Tally(AllDust, es + DustEvents(a, dust)) == Tally(AllDust, es) + dust
    ensures Tally(Slashes, es + DustEvents(a, dust)) == Tally(Slashes, es)
    ensures Tally(GiftsTo(cfg.escrow), es + DustEvents(a, dust)) == Tally(GiftsTo(cfg.escrow), es)
  {
    if dust > 0 {
      TallyAdd(DustOf(cfg.escrow), es, DustLost(a, dust));
      TallyAdd(AllDust, es, DustLost(a, dust));
      TallyAdd(Slashes, es, DustLost(a, dust));
      TallyAdd(GiftsTo(cfg.escrow), es, DustLost(a, dust));
    } else {
      assert es + [] == es;
    }
  }

  lemma UnstakeKeeps(cfg: Config, s: State, staker: AccountId, amount: nat)
    requires Solvent(cfg, s) && staker != cfg.escrow
    ensures Step(cfg, s, Unstake(cfg, s, staker, amount).0)
  {
    hide Tally, Sum, Transfer, DustEvents;
    var ed := cfg.existentialDeposit;
    TransferKeepsValid(s.ledger, ed, cfg.escrow, staker, amount, false);
    TransferBalances(s.ledger, ed, cfg.escrow, staker, amount, false, cfg.escrow);
    var (s', outcome) := Unstake(cfg, s, staker, amount);
    if outcome == Ok {
      var dust := Transfer(s.ledger, ed, cfg.escrow, staker, amount, false).dust;
      DustTallies(cfg, s.events, cfg.escrow, dust);
      SumUpdate(s.stakes, staker, s.stakes[staker] - amount);
      MoneyKeepsValidations(s, s', DustEvents(cfg.escrow, dust));
    }
  }

  lemma OutsideKeeps(cfg: Config, s: State, from: AccountId, to: AccountId, value: nat, keepAlive: bool)
    requires Solvent(cfg, s) && from != cfg.escrow
    ensures Step(cfg, s, TransferOutside(cfg, s, from, to, value, keepAlive).0)
  {
    hide Tally, Sum, Transfer, DustEvents;
    var ed := cfg.existentialDeposit;
    TransferKeepsValid(s.ledger, ed, from, to, value, keepAlive);
    TransferBalances(s.ledger, ed, from, to, value, keepAlive, cfg.escrow);
    var (s', outcome) := TransferOutside(cfg, s, from, to, value, keepAlive);
    if outcome == Ok {
      var dust := Transfer(s.ledger, ed, from, to, value, keepAlive).dust;
      var e := OutsideTransfer(from, to, value);
      TallyAdd(DustOf(cfg.escrow), s.events, e);
      TallyAdd(AllDust, s.events, e);
      TallyAdd(Slashes, s.events, e);
      TallyAdd(GiftsTo(cfg.escrow), s.events, e);
      DustTallies(cfg, s.events + [e], from, dust);
      assert s'.events == s.events + ([e] + DustEvents(from, dust));
      MoneyKeepsValidations(s, s', [e] + DustEvents(from, dust));
    }
  }

  // ----- report_misbehavior and register_pqc_key

  /** A slash within the stake is exactly the drop of the stake. */
  lemma SlashWithin(stake: nat, pct: u8)
    requires pct <= 100
    ensures AfterSlash(stake, pct) + SlashAmount(stake, pct) == stake
  {
    MulMono(pct, 100, stake);
    DivMono(stake * pct, stake * 100, 100);
  }

  /** Any slash announces at least what it takes. */
  lemma SlashAnnounced(stake: nat, pct: u8)
    ensures AfterSlash(stake, pct) <= stake <= AfterSlash(stake, pct) + SlashAmount(stake, pct)
    ensures AfterSlash(stake, pct) + SlashAmount(stake, pct) == stake <==> SlashAmount(stake, pct) <= stake
  {
    hide SlashAmount;
  }

  lemma SlashTallies(cfg: Config, es: seq<Event>, v: AccountId, r: Reason, amount: nat)
    ensures var e := ValidatorSlashed(v, r, amount);
            && Tally(Slashes, es + [e]) == Tally(Slashes, es) + amount
            && Tally(DustOf(cfg.escrow), es + [e]) == Tally(DustOf(cfg.escrow), es)
            && Tally(AllDust, es + [e]) == Tally(AllDust, es)
            && Tally(GiftsTo(cfg.escrow), es + [e]) == Tally(GiftsTo(cfg.escrow), es)
  {
    var e := ValidatorSlashed(v, r, amount);
    TallyAdd(Slashes, es, e);
    TallyAdd(DustOf(cfg.escrow), es, e);
    TallyAdd(AllDust, es, e);
    TallyAdd(GiftsTo(cfg.escrow), es, e);
  }

  lemma ReportKeeps(cfg: Config, s: State, v: AccountId, reason: Reason)
    requires MoneySound(cfg, s)
    ensures Step(cfg, s, ReportMisbehavior(cfg, s, v, reason).0)
  {
    hide Tally, Sum, Valid, SlashAmount, AfterSlash;
    var (s', outcome) := ReportMisbehavior(cfg, s, v, reason);
    if outcome == Ok {
      var pct, stake := SlashPercentage(cfg, reason), Get(s.stakes, v);
      if Percentages(cfg) { SlashWithin(stake, pct); }
      SlashAnnounced(stake, pct);
      SlashTallies(cfg, s.events, v, reason, SlashAmount(stake, pct));
      SumUpdate(s.stakes, v, AfterSlash(stake, pct));
      MoneyKeepsValidations(s, s', [ValidatorSlashed(v, reason, SlashAmount(stake, pct))]);
    }
  }

  lemma RegisterKeeps(cfg: Config, s: State, v: AccountId, key: PqcKey)
    requires MoneySound(cfg, s)
    ensures Step(cfg, s, RegisterPqcKey(s, v, key).0)
  {
    hide Tally, Sum, Valid;
  }

  // ----- validate_block

  /** Payments never reach the escrow account: its stake is zero and it mined nothing. */
  lemma PayoutSkipsEscrow(cfg: Config, s: State, miner: AccountId)
    requires ValidConfig(cfg) && Get(s.stakes, cfg.escrow) == 0 && miner != cfg.escrow
    ensures Balance(PaidOut(s.ledger, cfg.existentialDeposit, miner, Stakers(cfg, s),
                            CalculateBlockReward(cfg.blockReward)), cfg.escrow) == Balance(s.ledger, cfg.escrow)
  {
    hide Sum, PayStakers, StakerList, Deposit;
    var ed, order, r := cfg.existentialDeposit, cfg.iter(s.stakes.Keys), CalculateBlockReward(cfg.blockReward);
    var list := Stakers(cfg, s);
    var l1 := Deposit(s.ledger, ed, miner, r.minerReward);
    DepositAccount(s.ledger, ed, miner, r.minerReward, cfg.escrow);
    if TotalStake(list) > 0 {
      PayStakersAccount(l1, ed, s.stakes, order, r.stakersReward, TotalStake(list), cfg.escrow);
      NothingForNothing(r.stakersReward, TotalStake(list));
      NoCredit(Lookup(l1.free, cfg.escrow), ed);
    }
  }

  lemma NothingForNothing(reward: nat, t: nat)
    requires t > 0
    ensures Payment(reward, 0, t) == 0
  {}

  lemma NoCredit(before: Option<nat>, ed: nat)
    ensures Credited(before, ed, 0) == before
  {}

  lemma AcceptKeeps(cfg: Config, s: State, v: AccountId, weight: u64, number: u32, sig: PqcSignature)
    requires Solvent(cfg, s) && Room(cfg, s) && s.phase == PosValidation && number in s.headers
    ensures Step(cfg, s, Accept(cfg, s, v, weight, number, sig).0)
  {
    hide Tally, Sum, Valid, PaidOut, PayoutOverflows, Stakers, Sign, Balance;
    var (s', outcome) := Accept(cfg, s, v, weight, number, sig);
    if outcome == Ok {
      var miner := s.producers[number];
      PayoutSkipsEscrow(cfg, s, miner);
      StakersPaid(cfg, s, miner);
      AcceptKeepsTallies(cfg, s, v, weight, number, sig);
    }
  }

  lemma StakersPaid(cfg: Config, s: State, miner: AccountId)
    requires ValidConfig(cfg) && Valid(s.ledger, cfg.existentialDeposit)
    requires s.ledger.issuance + cfg.blockReward < U128_LIMIT
    ensures var l := PaidOut(s.ledger, cfg.existentialDeposit, miner, Stakers(cfg, s), CalculateBlockReward(cfg.blockReward));
            Valid(l, cfg.existentialDeposit) && l.issuance <= s.ledger.issuance + cfg.blockReward
  {
    hide Valid, PaidOut, StakerList;
    PaidOutKeepsValid(s.ledger, cfg.existentialDeposit, miner, s.stakes, cfg.iter(s.stakes.Keys), cfg.blockReward);
  }

  lemma AcceptKeepsTallies(cfg: Config, s: State, v: AccountId, weight: u64, number: u32, sig: PqcSignature)
    requires number in s.headers && Accept(cfg, s, v, weight, number, sig).1 == Ok
    ensures var s' := Accept(cfg, s, v, weight, number, sig).0;
            && Miners(s'.events) == Miners(s.events)
            && Tally(Submissions, s'.events) == Tally(Submissions, s.events)
            && Tally(Validations, s'.events) == Tally(Validations, s.events) + 1
            && Tally(DustOf(cfg.escrow), s'.events) == Tally(DustOf(cfg.escrow), s.events)
            && Tally(AllDust, s'.events) == Tally(AllDust, s.events)
            && Tally(Slashes, s'.events) == Tally(Slashes, s.events)
            && Tally(GiftsTo(cfg.escrow), s'.events) == Tally(GiftsTo(cfg.escrow), s.events)
  {
    hide PaidOut, PayoutOverflows, Stakers, Tally, Miners, Sign;
    var s' := Accept(cfg, s, v, weight, number, sig).0;
    var r := CalculateBlockReward(cfg.blockReward);
    var e1 := ValidatorSelected(v, weight);
    var e2 := RewardsDistributed(s.producers[number], r.minerReward, r.stakersReward);
    AcceptanceTallies(cfg, s, e1, e2);
    assert s'.events == s.events + [e1] + [e2];
  }

  /** Signing touches neither the number nor the proof-of-work input, so the header store survives. */
  lemma AcceptKeepsLog(cfg: Config, s: State, v: AccountId, weight: u64, number: u32, sig: PqcSignature)
    requires ChainSound(cfg, s)
    requires s.phase == PosValidation && number in s.headers && Accept(cfg, s, v, weight, number, sig).1 == Ok
    ensures ChainSound(cfg, Accept(cfg, s, v, weight, number, sig).0)
    ensures Tally(Validations, Accept(cfg, s, v, weight, number, sig).0.events) == Tally(Validations, s.events) + 1
  {
    hide PaidOut, PayoutOverflows, Stakers, PowValue, Tally, LastOf, Miners, MinerOf;
    var s' := Accept(cfg, s, v, weight, number, sig).0;
    AcceptKeepsTallies(cfg, s, v, weight, number, sig);
    var r := CalculateBlockReward(cfg.blockReward);
    var fs := [ValidatorSelected(v, weight), RewardsDistributed(s.producers[number], r.minerReward, r.stakersReward)];
    forall k | k in s'.producers ensures MinerOf(s'.events, k) == Some(s'.producers[k]) {
      NoMiningKeepsProducers(s.events, fs, k);
    }
  }

  lemma AcceptanceTallies(cfg: Config, s: State, e1: Event, e2: Event)
    requires e1.ValidatorSelected? && e2.RewardsDistributed?
    ensures var es := s.events + [e1] + [e2];
            && Miners(es) == Miners(s.events)
            && Tally(Submissions, es) == Tally(Submissions, s.events)
            && Tally(Validations, es) == Tally(Validations, s.events) + 1
            && Tally(DustOf(cfg.escrow), es) == Tally(DustOf(cfg.escrow), s.events)
            && Tally(AllDust, es) == Tally(AllDust, s.events)
            && Tally(Slashes, es) == Tally(Slashes, s.events)
            && Tally(GiftsTo(cfg.escrow), es) == Tally(GiftsTo(cfg.escrow), s.events)
  {
    EventKeepsTallies(cfg, s, e1);
    EventKeepsTallies(cfg, s.(events := s.events + [e1]), e2);
    TallyAdd(Submissions, s.events, e1);
    TallyAdd(Submissions, s.events + [e1], e2);
    TallyAdd(Validations, s.events, e1);
    TallyAdd(Validations, s.events + [e1], e2);
    MinersAppend(s.events, [e1]);
    MinersAppend(s.events + [e1], [e2]);
    assert [e1][..0] == [] && [e2][..0] == [];
  }

  lemma ValidateKeepsChain(cfg: Config, s: State, v: AccountId, number: u32, sig: PqcSignature)
    requires ChainSound(cfg, s)
    ensures ChainSound(cfg, ValidateBlock(cfg, s, v, number, sig).0)
  {
    hide ChainSound, Stakers, CheckPqc, Accept;
    if v in s.stakes && number in s.headers && s.phase == PosValidation {
      match Choose(Stakers(cfg, s), cfg.hashSeed(number, s.now), s.now)
      case Selected(_, weight, _) => AcceptKeepsChain(cfg, s, v, weight, number, sig);
      case _ =>
    }
  }

  lemma AcceptKeepsChain(cfg: Config, s: State, v: AccountId, weight: u64, number: u32, sig: PqcSignature)
    requires ChainSound(cfg, s) && s.phase == PosValidation && number in s.headers
    ensures ChainSound(cfg, Accept(cfg, s, v, weight, number, sig).0)
  {
    hide ChainSound, PaidOut, PayoutOverflows, Stakers;
    if Accept(cfg, s, v, weight, number, sig).1 == Ok { AcceptKeepsLog(cfg, s, v, weight, number, sig); }
  }

  lemma ValidateKeeps(cfg: Config, s: State, v: AccountId, number: u32, sig: PqcSignature)
    requires Solvent(cfg, s) && Room(cfg, s)
    ensures Step(cfg, s, ValidateBlock(cfg, s, v, number, sig).0)
  {
    hide MoneySound, Imbalance, Backing, Gross, Tally, Stakers, CheckPqc, Accept;
    StayPut(cfg, s);
    if v in s.stakes && number in s.headers && s.phase == PosValidation {
      match Choose(Stakers(cfg, s), cfg.hashSeed(number, s.now), s.now)
      case Selected(_, weight, _) => AcceptKeeps(cfg, s, v, weight, number, sig);
      case _ =>
    }
  }

  lemma StayPut(cfg: Config, s: State)
    requires MoneySound(cfg, s)
    ensures Step(cfg, s, s)
  {}

  // ----- Any extrinsic

  lemma NothingLogged(s: State, s': State)
    requires s'.headers == s.headers && s'.producers == s.producers && s'.window == s.window && s'.phase == s.phase
    requires s'.events == s.events
    ensures ChainUntouched(s, s', [])
  {
    assert s.events + [] == s.events;
  }

  lemma UnstakeLeavesChain(cfg: Config, s: State, who: AccountId, amount: nat) returns (fs: seq<Event>)
    ensures ChainUntouched(s, Unstake(cfg, s, who, amount).0, fs)
  {
    hide Transfer;
    if Unstake(cfg, s, who, amount).1 == Ok {
      fs := DustEvents(cfg.escrow, Transfer(s.ledger, cfg.existentialDeposit, cfg.escrow, who, amount, false).dust);
    } else {
      fs := [];
      NothingLogged(s, s);
    }
  }

  lemma OutsideLeavesChain(cfg: Config, s: State, from: AccountId, to: AccountId, value: nat, keepAlive: bool)
    returns (fs: seq<Event>)
    ensures ChainUntouched(s, TransferOutside(cfg, s, from, to, value, keepAlive).0, fs)
  {
    hide Transfer;
    var t := Transfer(s.ledger, cfg.existentialDeposit, from, to, value, keepAlive);
    if t.Moved? {
      fs := [OutsideTransfer(from, to, value)] + DustEvents(from, t.dust);
    } else {
      fs := [];
      NothingLogged(s, s);
    }
  }

  lemma ReportLeavesChain(cfg: Config, s: State, v: AccountId, reason: Reason) returns (fs: seq<Event>)
    ensures ChainUntouched(s, ReportMisbehavior(cfg, s, v, reason).0, fs)
  {
    hide SlashAmount;
    if ReportMisbehavior(cfg, s, v, reason).1 == Ok {
      fs := [ValidatorSlashed(v, reason, SlashAmount(Get(s.stakes, v), SlashPercentage(cfg, reason)))];
    } else {
      fs := [];
      NothingLogged(s, s);
    }
  }

  lemma StakeLogsNothing(cfg: Config, s: State, who: AccountId, amount: nat)
    ensures ChainUntouched(s, Stake(cfg, s, who, amount).0, [])
  {
    NothingLogged(s, Stake(cfg, s, who, amount).0);
  }

  /** Calls other than submissions and validations leave the chain alone. */
  lemma OtherCallsLeaveChain(cfg: Config, s: State, x: Extrinsic) returns (fs: seq<Event>)
    requires !(x.Signed? && (x.call.SubmitBlockCall? || x.call.ValidateBlockCall?))
    ensures ChainUntouched(s, Dispatch(cfg, s, x).0, fs)
  {
    hide ChainUntouched, Stake, Unstake, ReportMisbehavior, TransferOutside;
    fs := [];
    match x
    case Signed(who, StakeCall(amount)) => StakeLogsNothing(cfg, s, who, amount);
    case Signed(who, UnstakeCall(amount)) => fs := UnstakeLeavesChain(cfg, s, who, amount);
    case Signed(who, RegisterPqcKeyCall(key)) => NothingLogged(s, RegisterPqcKey(s, who, key).0);
    case Signed(who, ReportMisbehaviorCall(v, reason)) => fs := ReportLeavesChain(cfg, s, v, reason);
    case Outside(from, to, value, keepAlive) => fs := OutsideLeavesChain(cfg, s, from, to, value, keepAlive);
  }

  /** No call of anybody, at any time, breaks the header store, the window or the phase. */
  lemma DispatchKeepsChain(cfg: Config, s: State, x: Extrinsic)
    requires ChainSound(cfg, s)
    ensures ChainSound(cfg, Dispatch(cfg, s, x).0)
  {
    hide ChainSound, ChainUntouched, SubmitBlock, ValidateBlock, Stake, Unstake, RegisterPqcKey, ReportMisbehavior,
      TransferOutside;
    match x
    case Signed(who, SubmitBlockCall(h)) => SubmitKeepsChain(cfg, s, who, h);
    case Signed(who, ValidateBlockCall(number, sig)) => ValidateKeepsChain(cfg, s, who, number, sig);
    case _ =>
      var fs := OtherCallsLeaveChain(cfg, s, x);
      ChainUntouchedKeeps(cfg, s, Dispatch(cfg, s, x).0, fs);
  }

  lemma DispatchKeeps(cfg: Config, s: State, x: Extrinsic)
    requires Solvent(cfg, s) && Room(cfg, s) && Keyless(cfg, x)
    ensures Step(cfg, s, Dispatch(cfg, s, x).0)
  {
    hide Step, SubmitBlock, Stake, Unstake, ValidateBlock, RegisterPqcKey, ReportMisbehavior, TransferOutside;
    match x
    case Signed(who, SubmitBlockCall(h)) => SubmitKeeps(cfg, s, who, h);
    case Signed(who, StakeCall(amount)) => StakeKeeps(cfg, s, who, amount);
    case Signed(who, UnstakeCall(amount)) => UnstakeKeeps(cfg, s, who, amount);
    case Signed(who, ValidateBlockCall(number, sig)) => ValidateKeeps(cfg, s, who, number, sig);
    case Signed(who, RegisterPqcKeyCall(key)) => RegisterKeeps(cfg, s, who, key);
    case Signed(who, ReportMisbehaviorCall(v, reason)) => ReportKeeps(cfg, s, v, reason);
    case Outside(from, to, value, keepAlive) => OutsideKeeps(cfg, s, from, to, value, keepAlive);
  }
}
