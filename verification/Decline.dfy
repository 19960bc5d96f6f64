/**
 * What entropy steering does to a chain whose blocks come from a fixed set of miners: the difficulty
 * of a whole run is a fold over the windows seen at its retargets, and few miners drive it to one.
 */
module Decline {
  import opened Arith
  import opened Types
  import opened Ledger
  import opened Rewards
  import opened Entropy
  import opened Retarget
  import opened Protocol
  import opened History
  import opened Runs
  import opened Safety
  import opened Theorems

  /** The producer windows at the retargets of a run. */
  ghost function RetargetWindows(cfg: Config, s: State, blocks: seq<seq<Extrinsic>>): seq<Window>
  {
    if blocks == [] then []
    else
      var k := |blocks| - 1;
      var before := Run(cfg, s, blocks[..k]);
      RetargetWindows(cfg, s, blocks[..k]) +
      if Initialize(cfg, before).1 == Ok && (before.now + 1) % 100 == 0 then [before.window] else []
  }

  // ----- Only retargets change the difficulty, only submissions change the window

  lemma DispatchKeepsClock(cfg: Config, s: State, x: Extrinsic)
    ensures Dispatch(cfg, s, x).0.difficulty == s.difficulty && Dispatch(cfg, s, x).0.now == s.now
  {
    hide Transfer, PaidOut, PayoutOverflows, Stakers, ValidateHeader, PushProducer;
  }

  lemma {:induction false} CallsKeepClock(cfg: Config, s: State, xs: seq<Extrinsic>)
    ensures RunCalls(cfg, s, xs).difficulty == s.difficulty && RunCalls(cfg, s, xs).now == s.now
  {
    hide Dispatch;
    if xs != [] {
      CallsKeepClock(cfg, s, xs[..|xs| - 1]);
      DispatchKeepsClock(cfg, RunCalls(cfg, s, xs[..|xs| - 1]), xs[|xs| - 1]);
    }
  }

  lemma InitializeClock(cfg: Config, s: State)
    requires Initialize(cfg, s).1 == Ok
    ensures var s' := Initialize(cfg, s).0;
            && s'.now == s.now + 1 && s'.window == s.window
            && s'.difficulty == if (s.now + 1) % 100 == 0 then Adjusted(s.difficulty, s.window) else s.difficulty
  {
    hide Adjusted, EntropyOf, SweptStakes, SweepRecords, SweepEvents, SweepOverflows;
  }

  lemma BlockClock(cfg: Config, s: State, xs: seq<Extrinsic>)
    ensures Initialize(cfg, s).1 != Ok ==> RunBlock(cfg, s, xs) == s
    ensures Initialize(cfg, s).1 == Ok ==>
      RunBlock(cfg, s, xs).now == s.now + 1
      && RunBlock(cfg, s, xs).difficulty
      == if (s.now + 1) % 100 == 0 then Adjusted(s.difficulty, s.window) else s.difficulty
  {
    hide Initialize, Adjusted, RunCalls;
    if Initialize(cfg, s).1 == Ok {
      InitializeClock(cfg, s);
      CallsKeepClock(cfg, Initialize(cfg, s).0, xs);
    }
  }

  /** The difficulty after any run is the fold of the retarget over the windows it met. */
  lemma {:induction false} RunFoldsRetargets(cfg: Config, s: State, blocks: seq<seq<Extrinsic>>)
    ensures Run(cfg, s, blocks).difficulty == AfterRetargets(s.difficulty, RetargetWindows(cfg, s, blocks))
  {
    hide RunBlock, Initialize, Adjusted, AfterRetargets;
    if blocks == [] {
      AfterRetargetsNext(s.difficulty, [], s.window);
    } else {
      var k := |blocks| - 1;
      RunFoldsRetargets(cfg, s, blocks[..k]);
      var before, ws := Run(cfg, s, blocks[..k]), RetargetWindows(cfg, s, blocks[..k]);
      BlockClock(cfg, before, blocks[k]);
      AfterRetargetsNext(s.difficulty, ws, before.window);
      assert ws + [] == ws;
    }
  }

  /**
   * Hence a run raises the difficulty exactly when it starts at the storage default 0 and meets a retarget. A
   * positive difficulty stays positive and never recovers.
   */
  lemma DifficultyRisesIff(cfg: Config, s: State, blocks: seq<seq<Extrinsic>>)
    ensures Run(cfg, s, blocks).difficulty > s.difficulty <==> s.difficulty == 0 && RetargetWindows(cfg, s, blocks) != []
    ensures Run(cfg, s, blocks).difficulty <= Max(1, s.difficulty)
    ensures s.difficulty > 0 ==> Run(cfg, s, blocks).difficulty >= 1
  {
    hide Run, RetargetWindows, AfterRetargets;
    RunFoldsRetargets(cfg, s, blocks);
    AfterRetargetsNext(s.difficulty, [], s.window);
    RetargetsRaiseIff(s.difficulty, RetargetWindows(cfg, s, blocks));
  }

  /** No host block of the run is lost to an overflow in its first hook; calls may trap. */
  ghost predicate HooksRun(cfg: Config, s: State, blocks: seq<seq<Extrinsic>>)
  {
    forall i :: 0 <= i < |blocks| ==> Initialize(cfg, Run(cfg, s, blocks[..i])).1 == Ok
  }

  /** As long as the hooks run there is one retarget every hundred host blocks. */
  lemma {:induction false} RetargetCount(cfg: Config, s: State, blocks: seq<seq<Extrinsic>>)
    requires HooksRun(cfg, s, blocks) && s.now == 0
    ensures Run(cfg, s, blocks).now == |blocks|
    ensures |RetargetWindows(cfg, s, blocks)| == |blocks| / 100
  {
    hide RunBlock, Initialize;
    if blocks != [] {
      var k := |blocks| - 1;
      FrontHooksRun(cfg, s, blocks);
      RetargetCount(cfg, s, blocks[..k]);
      BlockClock(cfg, Run(cfg, s, blocks[..k]), blocks[k]);
    }
  }

  lemma FrontHooksRun(cfg: Config, s: State, blocks: seq<seq<Extrinsic>>)
    requires blocks != [] && HooksRun(cfg, s, blocks)
    ensures HooksRun(cfg, s, blocks[..|blocks| - 1])
    ensures Initialize(cfg, Run(cfg, s, blocks[..|blocks| - 1])).1 == Ok
  {
    hide Run, Initialize;
    var k := |blocks| - 1;
    forall i | 0 <= i < k ensures Initialize(cfg, Run(cfg, s, blocks[..k][..i])).1 == Ok {
      assert blocks[..k][..i] == blocks[..i];
    }
  }

  /** The hooks run while the downtime percentage of genesis supply plus all block rewards fits in u128. */
  lemma HooksOfEveryRun(cfg: Config, g: State, blocks: seq<seq<Extrinsic>>)
    requires GenesisRun(cfg, g, blocks)
    requires (g.ledger.issuance + |blocks| * cfg.blockReward) * cfg.downtimePct < U128_LIMIT
    ensures HooksRun(cfg, g, blocks)
  {
    hide Run, Initialize, Genesis, ValidConfig, AllKeyless, MoneySound, Tally, Imbalance;
    forall i | 0 <= i < |blocks| ensures Initialize(cfg, Run(cfg, g, blocks[..i])).1 == Ok {
      MulMono(i, |blocks|, cfg.blockReward);
      RunFromGenesis(cfg, g, blocks[..i]);
      GrossOfGenesis(cfg, g);
      var s := Run(cfg, g, blocks[..i]);
      MulMono(Gross(s), g.ledger.issuance + |blocks| * cfg.blockReward, cfg.downtimePct);
      InitializeRuns(cfg, s);
    }
  }

  lemma GrossOfGenesis(cfg: Config, g: State)
    requires Genesis(cfg, g)
    ensures Gross(g) == g.ledger.issuance
  {}

  // ----- A fixed set of miners

  predicate MinedBy(miners: set<AccountId>, x: Extrinsic)
  {
    x.Signed? && x.call.SubmitBlockCall? ==> x.who in miners
  }

  predicate CallsMinedBy(miners: set<AccountId>, xs: seq<Extrinsic>)
  {
    forall i :: 0 <= i < |xs| ==> MinedBy(miners, xs[i])
  }

  predicate BlocksMinedBy(miners: set<AccountId>, blocks: seq<seq<Extrinsic>>)
  {
    forall i :: 0 <= i < |blocks| ==> CallsMinedBy(miners, blocks[i])
  }

  predicate WindowWithin(miners: set<AccountId>, window: Window)
  {
    forall p :: p in window ==> p in miners
  }

  lemma DispatchKeepsWindow(cfg: Config, s: State, x: Extrinsic, miners: set<AccountId>)
    requires WindowWithin(miners, s.window) && MinedBy(miners, x)
    ensures WindowWithin(miners, Dispatch(cfg, s, x).0.window)
  {
    hide Transfer, PaidOut, PayoutOverflows, Stakers, ValidateHeader;
  }

  lemma {:induction false} CallsKeepWindow(cfg: Config, s: State, xs: seq<Extrinsic>, miners: set<AccountId>)
    requires WindowWithin(miners, s.window) && CallsMinedBy(miners, xs)
    ensures WindowWithin(miners, RunCalls(cfg, s, xs).window)
  {
    hide Dispatch, MinedBy, WindowWithin;
    if xs != [] {
      CallsKeepWindow(cfg, s, xs[..|xs| - 1], miners);
      DispatchKeepsWindow(cfg, RunCalls(cfg, s, xs[..|xs| - 1]), xs[|xs| - 1], miners);
    }
  }

  lemma BlockKeepsWindow(cfg: Config, s: State, xs: seq<Extrinsic>, miners: set<AccountId>)
    requires WindowWithin(miners, s.window) && CallsMinedBy(miners, xs)
    ensures WindowWithin(miners, RunBlock(cfg, s, xs).window)
  {
    hide Initialize, RunCalls, WindowWithin, CallsMinedBy;
    if Initialize(cfg, s).1 == Ok {
      InitializeClock(cfg, s);
      CallsKeepWindow(cfg, Initialize(cfg, s).0, xs, miners);
    }
  }

  lemma {:induction false} RunKeepsWindows(cfg: Config, s: State, blocks: seq<seq<Extrinsic>>, miners: set<AccountId>)
    requires WindowWithin(miners, s.window) && BlocksMinedBy(miners, blocks)
    ensures WindowWithin(miners, Run(cfg, s, blocks).window)
    ensures forall w :: w in RetargetWindows(cfg, s, blocks) ==> WindowWithin(miners, w)
  {
    hide RunBlock, Initialize, WindowWithin, CallsMinedBy;
    if blocks != [] {
      var k := |blocks| - 1;
      RunKeepsWindows(cfg, s, blocks[..k], miners);
      BlockKeepsWindow(cfg, Run(cfg, s, blocks[..k]), blocks[k], miners);
    }
  }

  lemma CountsWithin(w: Window, miners: set<AccountId>)
    requires WindowWithin(miners, w)
    ensures |Counts(w)| <= |miners|
  {
    var counts := Counts(w);
    assert counts.Keys <= miners;
    SubsetSize(counts.Keys, miners);
    assert |counts| == |counts.Keys|;
  }

  lemma {:induction false} SubsetSize(a: set<AccountId>, b: set<AccountId>)
    requires a <= b
    ensures |a| <= |b|
  {
    if a != {} {
      var x :| x in a;
      SubsetSize(a - {x}, b - {x});
    }
  }

  /**
   * A run of N host blocks mined by fewer than sixteen accounts: the difficulty loses at least one unit every hundred
   * blocks, and shrinks at least by the factor 7,956,851 / 8,000,000, until it is one.
   */
  lemma FewMinersLowerDifficulty(cfg: Config, g: State, blocks: seq<seq<Extrinsic>>, miners: set<AccountId>)
    requires GenesisRun(cfg, g, blocks) && g.now == 0
    requires (g.ledger.issuance + |blocks| * cfg.blockReward) * cfg.downtimePct < U128_LIMIT
    requires BlocksMinedBy(miners, blocks) && |miners| < 16
    ensures var d, k := Run(cfg, g, blocks).difficulty, |blocks| / 100;
            && d <= Max(1, g.difficulty - k)
            && (d <= 1 || d * Pow(2 * THRESHOLD, k) <= g.difficulty * Pow(KEPT, k))
            && (g.difficulty > 0 || k > 0 ==> d >= 1)
  {
    hide Run, Adjusted, GenesisRun, BlocksMinedBy, RetargetWindows, HooksRun, WindowWithin, Counts, AfterRetargets;
    var ws := RetargetWindows(cfg, g, blocks);
    HooksOfEveryRun(cfg, g, blocks);
    RetargetCount(cfg, g, blocks);
    RunFoldsRetargets(cfg, g, blocks);
    NobodyMinedGenesis(cfg, g, blocks, miners);
    RunKeepsWindows(cfg, g, blocks, miners);
    forall w | w in ws ensures |Counts(w)| < 16 { CountsWithin(w, miners); }
    FewProducersReachOne(g.difficulty, ws);
    FewProducersDecay(g.difficulty, ws);
  }

  /** A sole miner halves the difficulty every hundred host blocks, down to one. */
  lemma SoleMinerHalvesDifficulty(cfg: Config, g: State, blocks: seq<seq<Extrinsic>>, miner: AccountId)
    requires GenesisRun(cfg, g, blocks) && g.now == 0
    requires (g.ledger.issuance + |blocks| * cfg.blockReward) * cfg.downtimePct < U128_LIMIT
    requires BlocksMinedBy({miner}, blocks)
    ensures Run(cfg, g, blocks).difficulty <= Max(1, g.difficulty / Pow(2, |blocks| / 100))
    ensures g.difficulty > 0 || |blocks| >= 100 ==> Run(cfg, g, blocks).difficulty >= 1
  {
    hide Run, Adjusted, GenesisRun, BlocksMinedBy, RetargetWindows, HooksRun, AfterRetargets;
    var ws := RetargetWindows(cfg, g, blocks);
    HooksOfEveryRun(cfg, g, blocks);
    RetargetCount(cfg, g, blocks);
    RunFoldsRetargets(cfg, g, blocks);
    NobodyMinedGenesis(cfg, g, blocks, {miner});
    RunKeepsWindows(cfg, g, blocks, {miner});
    SingleProducerHalves(g.difficulty, ws);
  }

  lemma NobodyMinedGenesis(cfg: Config, g: State, blocks: seq<seq<Extrinsic>>, miners: set<AccountId>)
    requires GenesisRun(cfg, g, blocks)
    ensures WindowWithin(miners, g.window)
  {}
}
