/** Whole runs: any number of host blocks holding any calls and outside transfers. */
module Runs {
  import opened Arith
  import opened MapSums
  import opened Types
  import opened Ledger
  import opened Rewards
  import opened Entropy
  import opened Retarget
  import opened Protocol
  import opened History
  import opened Steps
  import opened Downtime

  // ----- Hooks

  /** A hook moves no money, keeps the phase, never shrinks the backing, and conserves the escrow identity. */
  ghost predicate HookStep(cfg: Config, s: State, s': State)
  {
    && MoneySound(cfg, s')
    && Backing(cfg, s') >= Backing(cfg, s)
    && Imbalance(cfg, s') <= Imbalance(cfg, s)
    && (Percentages(cfg) ==> Imbalance(cfg, s') == Imbalance(cfg, s))
    && s'.ledger == s.ledger && s'.phase == s.phase && Gross(s') == Gross(s)
    && Tally(AllDust, s'.events) == Tally(AllDust, s.events)
    && Tally(Validations, s'.events) == Tally(Validations, s.events)
  }

  lemma {:induction false} SweepEventsMoneyOnly(cfg: Config, s: State, visited: seq<AccountId>, k: Kind)
    requires k != Slashes
    ensures MoneyOnly(SweepEvents(cfg, s, visited))
    ensures Tally(k, SweepEvents(cfg, s, visited)) == 0
  {
    hide SlashAmount, Inactive, Tally;
    NothingTallied(k);
    if visited != [] {
      var front, v := visited[..|visited| - 1], visited[|visited| - 1];
      SweepEventsMoneyOnly(cfg, s, front, k);
      if Swept(cfg, s, v) {
        TallyAdd(k, SweepEvents(cfg, s, front), ValidatorSlashed(v, Downtime, SlashAmount(s.stakes[v], cfg.downtimePct)));
      } else {
        assert SweepEvents(cfg, s, front) + [] == SweepEvents(cfg, s, front);
      }
    }
  }

  lemma SweepKeepsChain(cfg: Config, s: State)
    requires ChainSound(cfg, s)
    ensures ChainSound(cfg, Sweep(cfg, s))
  {
    hide ChainSound, Tally, SweepEvents, SweepRecords, SweptStakes, MoneyOnly;
    SweepEventsMoneyOnly(cfg, s, cfg.iter(s.lastActive.Keys), AllDust);
    ChainUntouchedKeeps(cfg, s, Sweep(cfg, s), SweepEvents(cfg, s, cfg.iter(s.lastActive.Keys)));
  }

  lemma SweepKeeps(cfg: Config, s: State)
    requires Solvent(cfg, s)
    ensures HookStep(cfg, s, Sweep(cfg, s))
  {
    hide Tally, Sum, Valid, SweepEvents, SweepRecords, MoneyOnly, SlashFits, Enumerates;
    var order := cfg.iter(s.lastActive.Keys);
    var fs, s' := SweepEvents(cfg, s, order), Sweep(cfg, s);
    SweepAnnouncesIff(cfg, s);
    if Percentages(cfg) { PercentagesFit(cfg, s); }
    TallyAppend(Slashes, s.events, fs);
    SweepTallies(cfg, s, order);
    MoneyKeepsValidations(s, s', fs);
    ZeroStaysZero(cfg.downtimePct);
  }

  lemma ZeroStaysZero(pct: u8)
    ensures AfterSlash(0, pct) == 0
  {}

  lemma SweepTallies(cfg: Config, s: State, order: seq<AccountId>)
    ensures var fs := SweepEvents(cfg, s, order);
            && MoneyOnly(fs)
            && Tally(DustOf(cfg.escrow), s.events + fs) == Tally(DustOf(cfg.escrow), s.events)
            && Tally(GiftsTo(cfg.escrow), s.events + fs) == Tally(GiftsTo(cfg.escrow), s.events)
            && Tally(AllDust, s.events + fs) == Tally(AllDust, s.events)
  {
    var fs := SweepEvents(cfg, s, order);
    SweepEventsMoneyOnly(cfg, s, order, DustOf(cfg.escrow));
    SweepEventsMoneyOnly(cfg, s, order, GiftsTo(cfg.escrow));
    SweepEventsMoneyOnly(cfg, s, order, AllDust);
    TallyAppend(DustOf(cfg.escrow), s.events, fs);
    TallyAppend(GiftsTo(cfg.escrow), s.events, fs);
    TallyAppend(AllDust, s.events, fs);
  }

  lemma AdjustKeepsChain(cfg: Config, s: State)
    requires ChainSound(cfg, s)
    ensures ChainSound(cfg, AdjustDifficulty(s))
  {
    hide ChainSound, Tally, EntropyOf, Adjusted;
    var d := Adjusted(s.difficulty, s.window);
    if d != s.difficulty {
      ChainUntouchedKeeps(cfg, s, AdjustDifficulty(s), [DifficultyAdjusted(s.difficulty, d)]);
    } else {
      assert s.events + [] == s.events;
      ChainUntouchedKeeps(cfg, s, AdjustDifficulty(s), []);
    }
  }

  lemma AdjustKeeps(cfg: Config, s: State)
    requires MoneySound(cfg, s)
    ensures HookStep(cfg, s, AdjustDifficulty(s))
  {
    hide Tally, Sum, Valid, EntropyOf, Adjusted;
    var d := Adjusted(s.difficulty, s.window);
    if d != s.difficulty {
      EventKeepsTallies(cfg, s, DifficultyAdjusted(s.difficulty, d));
      MoneyKeepsValidations(s, AdjustDifficulty(s), [DifficultyAdjusted(s.difficulty, d)]);
    } else {
      assert s.events + [] == s.events;
    }
  }

  lemma InitializeWritesNoChain(cfg: Config, s: State)
    ensures Initialize(cfg, s).0.headers == s.headers && Initialize(cfg, s).0.producers == s.producers
    ensures Initialize(cfg, s).0.phase == s.phase
  {
    hide SweptStakes, SweepRecords, SweepEvents, SweepOverflows, Adjusted, EntropyOf;
  }

  lemma InitializeKeepsChain(cfg: Config, s: State)
    requires ChainSound(cfg, s)
    ensures ChainSound(cfg, Initialize(cfg, s).0) && Initialize(cfg, s).0.phase == s.phase
  {
    hide ChainSound, SweptStakes, SweepRecords, SweepEvents, EntropyOf, Adjusted, SweepOverflows;
    var s1 := s.(now := s.now + 1);
    SameChain(cfg, s, s1);
    SweepKeepsChain(cfg, s1);
    AdjustKeepsChain(cfg, Sweep(cfg, s1));
    AdjustKeepsChain(cfg, s1);
  }

  lemma SameChain(cfg: Config, s: State, s': State)
    requires ChainSound(cfg, s) && s' == s.(now := s'.now)
    ensures ChainSound(cfg, s')
  {}

  lemma InitializeKeeps(cfg: Config, s: State)
    requires Solvent(cfg, s)
    ensures HookStep(cfg, s, Initialize(cfg, s).0)
  {
    hide Sweep, AdjustDifficulty, Tally, Sum, Valid, SweepOverflows;
    var s1 := s.(now := s.now + 1);
    TickKeeps(cfg, s);
    SweepKeeps(cfg, s1);
    AdjustKeeps(cfg, Sweep(cfg, s1));
    AdjustKeeps(cfg, s1);
  }

  lemma TickKeeps(cfg: Config, s: State)
    requires MoneySound(cfg, s)
    ensures HookStep(cfg, s, s.(now := s.now + 1)) && HookStep(cfg, s, s)
  {}

  // ----- One host block

  /** What money does between two states of one run. */
  ghost predicate MoneyKept(cfg: Config, s0: State, s: State)
  {
    && MoneySound(cfg, s)
    && Backing(cfg, s) >= Backing(cfg, s0)
    && Imbalance(cfg, s) <= Imbalance(cfg, s0)
    && (Percentages(cfg) ==> Imbalance(cfg, s) == Imbalance(cfg, s0))
    && (cfg.existentialDeposit == 1 ==> Tally(AllDust, s.events) == Tally(AllDust, s0.events))
  }

  /** The states inside a block that started at the boundary state `s0`. */
  ghost predicate InBlock(cfg: Config, s0: State, s: State)
  {
    && MoneyKept(cfg, s0, s)
    && var accepted := if s.phase == Finalization then 1 else 0;
       && Tally(Validations, s.events) == Tally(Validations, s0.events) + accepted
       && s.ledger.issuance <= s0.ledger.issuance + accepted * cfg.blockReward
       && Gross(s) <= Gross(s0) + accepted * cfg.blockReward
  }

  /** Between two block boundaries, `n` blocks apart. */
  ghost predicate Between(cfg: Config, s0: State, s: State, n: nat)
  {
    && MoneyKept(cfg, s0, s) && s.phase != Finalization
    && Tally(Validations, s.events) <= Tally(Validations, s0.events) + n
    && s.ledger.issuance <= s0.ledger.issuance + n * cfg.blockReward
    && Gross(s) <= Gross(s0) + n * cfg.blockReward
  }

  ghost predicate AllKeyless(cfg: Config, xs: seq<Extrinsic>)
  {
    forall i :: 0 <= i < |xs| ==> Keyless(cfg, xs[i])
  }

  lemma CallKeepsInBlock(cfg: Config, s0: State, s: State, x: Extrinsic)
    requires ValidConfig(cfg) && Keyless(cfg, x)
    requires InBlock(cfg, s0, s) && s0.ledger.issuance + cfg.blockReward < U128_LIMIT
    ensures InBlock(cfg, s0, Dispatch(cfg, s, x).0)
  {
    hide MoneySound, Imbalance, Backing, Gross, Tally, Dispatch, ValidConfig;
    DispatchKeeps(cfg, s, x);
  }

  lemma {:induction false} CallsKeepInBlock(cfg: Config, s0: State, s: State, xs: seq<Extrinsic>)
    requires ValidConfig(cfg) && AllKeyless(cfg, xs)
    requires InBlock(cfg, s0, s) && s0.ledger.issuance + cfg.blockReward < U128_LIMIT
    ensures InBlock(cfg, s0, RunCalls(cfg, s, xs))
  {
    hide InBlock, Dispatch, Keyless, ValidConfig;
    if xs != [] {
      CallsKeepInBlock(cfg, s0, s, xs[..|xs| - 1]);
      CallKeepsInBlock(cfg, s0, RunCalls(cfg, s, xs[..|xs| - 1]), xs[|xs| - 1]);
    }
  }

  lemma {:induction false} CallsKeepChain(cfg: Config, s: State, xs: seq<Extrinsic>)
    requires ChainSound(cfg, s)
    ensures ChainSound(cfg, RunCalls(cfg, s, xs))
  {
    hide ChainSound, Dispatch;
    if xs != [] {
      CallsKeepChain(cfg, s, xs[..|xs| - 1]);
      DispatchKeepsChain(cfg, RunCalls(cfg, s, xs[..|xs| - 1]), xs[|xs| - 1]);
    }
  }

  lemma BlockKeeps(cfg: Config, s: State, xs: seq<Extrinsic>)
    requires Solvent(cfg, s) && s.phase != Finalization && AllKeyless(cfg, xs)
    requires s.ledger.issuance + cfg.blockReward < U128_LIMIT
    ensures Between(cfg, s, RunBlock(cfg, s, xs), 1)
  {
    hide MoneySound, Imbalance, Backing, Gross, Tally, RunCalls, Initialize, Keyless, ValidConfig;
    InitializeKeeps(cfg, s);
    var (s1, outcome) := Initialize(cfg, s);
    if outcome == Ok {
      CallsKeepInBlock(cfg, s, s1, xs);
      FinalizeKeeps(cfg, RunCalls(cfg, s1, xs));
    }
  }

  lemma FinalizeKeeps(cfg: Config, s: State)
    requires MoneySound(cfg, s)
    ensures MoneySound(cfg, Finalize(s)) && Finalize(s).phase != Finalization
    ensures Imbalance(cfg, Finalize(s)) == Imbalance(cfg, s) && Backing(cfg, Finalize(s)) == Backing(cfg, s)
    ensures Gross(Finalize(s)) == Gross(s)
  {}

  lemma BlockKeepsChain(cfg: Config, s: State, xs: seq<Extrinsic>)
    requires ChainSound(cfg, s) && s.phase != Finalization
    ensures ChainSound(cfg, RunBlock(cfg, s, xs)) && RunBlock(cfg, s, xs).phase != Finalization
  {
    hide ChainSound, RunCalls, Initialize;
    InitializeKeepsChain(cfg, s);
    var (s1, outcome) := Initialize(cfg, s);
    if outcome == Ok {
      CallsKeepChain(cfg, s1, xs);
      FinalizeKeepsChain(cfg, RunCalls(cfg, s1, xs));
    }
  }

  lemma FinalizeKeepsChain(cfg: Config, s: State)
    requires ChainSound(cfg, s)
    ensures ChainSound(cfg, Finalize(s))
  {
    hide Tally, MinerOf, VerifyPow, LastOf, Miners;
  }

  // ----- Any number of blocks

  ghost predicate AllBlocksKeyless(cfg: Config, blocks: seq<seq<Extrinsic>>)
  {
    forall i :: 0 <= i < |blocks| ==> AllKeyless(cfg, blocks[i])
  }

  lemma {:induction false} RunKeeps(cfg: Config, s: State, blocks: seq<seq<Extrinsic>>)
    requires Solvent(cfg, s) && s.phase != Finalization && AllBlocksKeyless(cfg, blocks)
    requires s.ledger.issuance + |blocks| * cfg.blockReward < U128_LIMIT
    ensures Between(cfg, s, Run(cfg, s, blocks), |blocks|)
  {
    hide MoneySound, Imbalance, Backing, Gross, Tally, RunBlock, AllKeyless, ValidConfig;
    if blocks != [] {
      var k := |blocks| - 1;
      MulSucc(k, cfg.blockReward);
      RunKeeps(cfg, s, blocks[..k]);
      BlockKeeps(cfg, Run(cfg, s, blocks[..k]), blocks[k]);
    }
  }

  /** Header store, window and phase survive every run of any calls, whoever signs them. */
  lemma {:induction false} RunKeepsChain(cfg: Config, s: State, blocks: seq<seq<Extrinsic>>)
    requires ChainSound(cfg, s) && s.phase != Finalization
    ensures ChainSound(cfg, Run(cfg, s, blocks)) && Run(cfg, s, blocks).phase != Finalization
  {
    hide ChainSound, RunBlock;
    if blocks != [] {
      var k := |blocks| - 1;
      RunKeepsChain(cfg, s, blocks[..k]);
      BlockKeepsChain(cfg, Run(cfg, s, blocks[..k]), blocks[k]);
    }
  }
}
