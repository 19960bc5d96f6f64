/**
 * What a proof of work is worth over a whole run: the target it has to meet, and how often it can be used.
 */
module Work {
  import opened Arith
  import opened MapSums
  import opened Types
  import opened Ledger
  import opened Selection
  import opened Rewards
  import opened Entropy
  import opened Retarget
  import opened Protocol
  import opened History
  import opened Steps
  import opened Downtime
  import opened Runs
  import opened Safety
  import opened Theorems
  import opened Coverage
  import opened Decline
  import opened Scenarios

  // ----- The declared targets of a run

  /** No mined header declares more than twice `d`, up to saturation. */
  ghost predicate WithinTwice(s: State, d: u64)
  {
    forall k :: k in s.producers && k in s.headers ==> s.headers[k].difficulty <= SatMul64(d, 2)
  }

  lemma DispatchKeepsTargets(cfg: Config, s: State, x: Extrinsic, d: u64)
    requires WithinTwice(s, d) && s.difficulty <= d
    ensures WithinTwice(Dispatch(cfg, s, x).0, d)
  {
    hide Transfer, PaidOut, PayoutOverflows, Stakers, VerifyPow, PushProducer, CheckPqc;
    SatMulMono(s.difficulty, 2, d, 2);
  }

  lemma {:induction false} CallsKeepTargets(cfg: Config, s: State, xs: seq<Extrinsic>, d: u64)
    requires WithinTwice(s, d) && s.difficulty <= d
    ensures WithinTwice(RunCalls(cfg, s, xs), d)
  {
    hide Dispatch, WithinTwice;
    if xs != [] {
      var front := xs[..|xs| - 1];
      CallsKeepTargets(cfg, s, front, d);
      CallsKeepClock(cfg, s, front);
      DispatchKeepsTargets(cfg, RunCalls(cfg, s, front), xs[|xs| - 1], d);
    }
  }

  lemma BlockKeepsTargets(cfg: Config, s: State, xs: seq<Extrinsic>, d: u64)
    requires WithinTwice(s, d) && s.difficulty <= d && d > 0
    ensures WithinTwice(RunBlock(cfg, s, xs), d)
  {
    hide Initialize, RunCalls, Adjusted;
    if Initialize(cfg, s).1 == Ok {
      InitializeWritesNoChain(cfg, s);
      InitializeClock(cfg, s);
      AdjustedRaisesIff(s.difficulty, s.window);
      CallsKeepTargets(cfg, Initialize(cfg, s).0, xs, d);
    }
  }

  lemma {:induction false} RunKeepsTargets(cfg: Config, s: State, blocks: seq<seq<Extrinsic>>, d: u64)
    requires WithinTwice(s, d) && s.difficulty <= d && d > 0
    ensures WithinTwice(Run(cfg, s, blocks), d)
  {
    hide RunBlock, WithinTwice;
    if blocks != [] {
      var k := |blocks| - 1;
      RunKeepsTargets(cfg, s, blocks[..k], d);
      DifficultyRisesIff(cfg, s, blocks[..k]);
      BlockKeepsTargets(cfg, Run(cfg, s, blocks[..k]), blocks[k], d);
    }
  }

  /** Every mined header of a run declares at most twice the first difficulty, and its hash meets that bound too. */
  lemma TargetsOfEveryRun(cfg: Config, g: State, blocks: seq<seq<Extrinsic>>, k: u32)
    requires Genesis(cfg, g) && k in Run(cfg, g, blocks).producers
    ensures var s := Run(cfg, g, blocks);
            && k in s.headers
            && PowValue(cfg.blake, PowInputOf(s.headers[k])) <= s.headers[k].difficulty
            && s.headers[k].difficulty <= SatMul64(Max(1, g.difficulty), 2)
  {
    hide Run, PowValue, WindowMatches, PhaseMatches, MoneySound, SatMul64, MinerOf;
    ChainOfRun(cfg, g, blocks);
    RunKeepsTargets(cfg, g, blocks, Max(1, g.difficulty));
  }

  // ----- One proof of work, used again and again

  /** A header that was accepted once is accepted again exactly while its parent and the difficulty still agree with it. */
  lemma ResubmissionAcceptedIff(cfg: Config, before: State, s: State, first: AccountId, again: AccountId, h: Header)
    requires SubmitBlock(cfg, before, first, h).1 == Ok
    requires HeaderStore(cfg, s) && s.phase == PowMining && before.headers.Keys <= s.headers.Keys
    ensures SubmitBlock(cfg, s, again, h).1 == Ok
       <==> h.parentHash == cfg.hashHeader(s.headers[h.number - 1])
            && s.difficulty / 2 <= h.difficulty <= SatMul64(s.difficulty, 2)
  {
    hide PowValue, SatMul64, PushProducer;
    assert h.number - 1 in before.headers.Keys;
  }

  /** Every submission in the log is block 1 with this nonce. */
  predicate OneNonce(es: seq<Event>, nonce: u64)
  {
    forall i :: 0 <= i < |es| && es[i].BlockMined? ==> es[i].nonce == nonce && es[i].number == 1
  }

  /** The chain at a boundary of the replaying run: mining, at difficulty 1, with one staker. */
  ghost predicate Replaying(g: State, s: State, who: AccountId, nonce: u64)
  {
    && s.phase == PowMining && s.difficulty == 1
    && 0 in s.headers && 0 in g.headers && s.headers[0] == g.headers[0]
    && s.stakes.Keys == {who} && 0 < s.stakes[who] < U64_LIMIT
    && OneNonce(s.events, nonce)
  }

  /** What the first hook logs. */
  lemma InitializeLogs(cfg: Config, s: State) returns (fs: seq<Event>)
    ensures Initialize(cfg, s).0.events == s.events + fs && MoneyOnly(fs)
  {
    hide Sweep, SweepOverflows, AdjustDifficulty, MoneyOnly;
    if Initialize(cfg, s).1 == Ok {
      var s1 := s.(now := s.now + 1);
      var s2 := if s1.now % 10 == 0 then Sweep(cfg, s1) else s1;
      var swept := SweepLogs(cfg, s1, s2);
      var s3 := if s1.now % 100 == 0 then AdjustDifficulty(s2) else s2;
      var adjusted := AdjustLogs(s2, s3);
      assert Initialize(cfg, s).0 == s3;
      fs := swept + adjusted;
      MoneyOnlyAppend(swept, adjusted);
      assert s.events + swept + adjusted == s.events + fs;
    } else {
      fs := [];
      NoEvents(s);
    }
  }

  lemma NoEvents(s: State)
    ensures s.events == s.events + [] && MoneyOnly([])
  {}

  lemma SweepLogs(cfg: Config, s: State, s': State) returns (fs: seq<Event>)
    requires s' == s || s' == Sweep(cfg, s)
    ensures s'.events == s.events + fs && MoneyOnly(fs)
  {
    hide SweptStakes, SweepRecords, SweepEvents, MoneyOnly;
    NoEvents(s);
    SweepEventsMoneyOnly(cfg, s, cfg.iter(s.lastActive.Keys), AllDust);
    fs := if s' == s then [] else SweepEvents(cfg, s, cfg.iter(s.lastActive.Keys));
  }

  lemma AdjustLogs(s: State, s': State) returns (fs: seq<Event>)
    requires s' == s || s' == AdjustDifficulty(s)
    ensures s'.events == s.events + fs && MoneyOnly(fs)
  {
    hide Adjusted, EntropyOf;
    NoEvents(s);
    var d := Adjusted(s.difficulty, s.window);
    fs := if s' != s && d != s.difficulty then [DifficultyAdjusted(s.difficulty, d)] else [];
  }

  lemma MoneyOnlyAppend(fs: seq<Event>, es: seq<Event>)
    requires MoneyOnly(fs) && MoneyOnly(es)
    ensures MoneyOnly(fs + es)
  {}

  lemma InitializeKeepsReplaying(cfg: Config, g: State, s: State, who: AccountId, nonce: u64)
    requires Replaying(g, s, who, nonce) && cfg.downtimePct < 100
    ensures Initialize(cfg, s).1 == Ok && Replaying(g, Initialize(cfg, s).0, who, nonce)
    ensures Miners(Initialize(cfg, s).0.events) == Miners(s.events)
  {
    hide Initialize, OneNonce, Miners, Sweep, SlashOverflows;
    SmallStakeSweeps(cfg, s, who);
    var fs := InitializeLogs(cfg, s);
    MoneyOnlyKeepsLog(fs);
    MinersAppend(s.events, fs);
    assert Miners(s.events) + [] == Miners(s.events);
    InitializeClock(cfg, s);
    AdjustedRaisesIff(1, s.window);
    InitializeWritesNoChain(cfg, s);
    MoneyKeepsOneNonce(s.events, fs, nonce);
  }

  lemma MoneyKeepsOneNonce(es: seq<Event>, fs: seq<Event>, nonce: u64)
    requires OneNonce(es, nonce) && MoneyOnly(fs)
    ensures OneNonce(es + fs, nonce)
  {}

  /** A stake below 2^64 never overflows the sweep, and no sweep below 100 percent takes all of it. */
  lemma SmallStakeSweeps(cfg: Config, s: State, who: AccountId)
    requires s.stakes.Keys == {who} && 0 < s.stakes[who] < U64_LIMIT && cfg.downtimePct < 100
    ensures Initialize(cfg, s).1 == Ok
    ensures var stakes := Initialize(cfg, s).0.stakes; stakes.Keys == {who} && 0 < stakes[who] < U64_LIMIT
  {
    hide SweepRecords, SweepEvents, Adjusted, EntropyOf, AfterSlash;
    PercentageFits(s.stakes[who], cfg.downtimePct);
    SweepKeepsShare(cfg, s.(now := s.now + 1), who);
    assert !SweepOverflows(cfg, s.(now := s.now + 1));
  }

  /** Mine block 1 once more and sign it. */
  function Replay(who: AccountId, miner: AccountId, h1: Header, sig: PqcSignature): seq<Extrinsic>
  {
    [Signed(miner, SubmitBlockCall(h1)), Signed(who, ValidateBlockCall(1, sig))]
  }

  /** The same header is accepted from anybody, and credited, in every host block. */
  lemma ReplayKeeps(cfg: Config, g: State, s: State, who: AccountId, miner: AccountId, h1: Header, sig: PqcSignature)
    requires ValidConfig(cfg) && !cfg.pqcRequired && cfg.downtimePct < 100 && cfg.blockReward < U64_LIMIT
    requires 0 in g.headers && h1.number == 1 && ValidateHeader(cfg, 1, h1, g.headers[0]) == Ok
    requires Replaying(g, s, who, h1.nonce)
    ensures var s' := RunBlock(cfg, s, Replay(who, miner, h1, sig));
            Replaying(g, s', who, h1.nonce) && Miners(s'.events) == Miners(s.events) + [miner]
  {
    hide Initialize, ValidateHeader, PushProducer, ValidateBlock, OneNonce, Miners;
    InitializeKeepsReplaying(cfg, g, s, who, h1.nonce);
    var s1 := Initialize(cfg, s).0;
    var s2 := SubmitBlock(cfg, s1, miner, h1).0;
    assert s2 == Submitted(s1, miner, h1);
    MinedOnce(s1.events, BlockMined(1, miner, h1.nonce));
    SoleStakerValidates(cfg, s2, who, 1, sig);
    ValidationLeaves(cfg, s2, who, 1, sig);
    ValidationLogs(cfg, s2, who, 1, sig, h1.nonce);
    NoCalls(cfg, s1);
    AppendTwo(cfg, s1, [], Replay(who, miner, h1, sig)[0], Replay(who, miner, h1, sig)[1]);
    assert [] + Replay(who, miner, h1, sig) == Replay(who, miner, h1, sig);
  }

  lemma MinedOnce(es: seq<Event>, e: Event)
    requires e.BlockMined? && e.number == 1
    ensures OneNonce(es, e.nonce) ==> OneNonce(es + [e], e.nonce)
    ensures Miners(es + [e]) == Miners(es) + [e.miner]
  {
    assert [e][..0] == [];
    MinersAppend(es, [e]);
  }

  lemma ValidationLogs(cfg: Config, s: State, who: AccountId, number: u32, sig: PqcSignature, nonce: u64)
    requires ValidateBlock(cfg, s, who, number, sig).1 == Ok
    ensures Miners(ValidateBlock(cfg, s, who, number, sig).0.events) == Miners(s.events)
    ensures OneNonce(s.events, nonce) ==> OneNonce(ValidateBlock(cfg, s, who, number, sig).0.events, nonce)
  {
    hide PaidOut, PayoutOverflows, Stakers, CheckPqc, Miners, CalculateBlockReward;
    var weight := Choose(Stakers(cfg, s), cfg.hashSeed(number, s.now), s.now).weight;
    AcceptKeepsTallies(cfg, s, who, weight, number, sig);
  }

  /** Stake, then replay one header for every miner of the list. */
  function ReplayRun(cfg: Config, who: AccountId, miners: seq<AccountId>, h1: Header, sig: PqcSignature)
    : (blocks: seq<seq<Extrinsic>>)
    ensures |blocks| == |miners| + 1
  {
    if miners == [] then [[Signed(who, StakeCall(FirstStakeOf(cfg)))]]
    else ReplayRun(cfg, who, miners[..|miners| - 1], h1, sig) + [Replay(who, miners[|miners| - 1], h1, sig)]
  }

  lemma {:induction false} ReplayRunKeeps(cfg: Config, g: State, who: AccountId, miners: seq<AccountId>, h1: Header,
                                          sig: PqcSignature)
    requires CanStake(cfg, g, who) && ValidConfig(cfg) && Genesis(cfg, g) && g.now == 0 && g.difficulty == 1
    requires cfg.downtimePct < 100 && g.ledger.issuance + (|miners| + 1) * cfg.blockReward < U64_LIMIT
    requires h1.number == 1 && ValidateHeader(cfg, 1, h1, g.headers[0]) == Ok
    ensures var s := Run(cfg, g, ReplayRun(cfg, who, miners, h1, sig));
            Replaying(g, s, who, h1.nonce) && Miners(s.events) == miners
  {
    hide RunBlock, Replaying, ValidateHeader, ValidConfig, Genesis, Replay;
    MulMono(1, |miners| + 1, cfg.blockReward);
    if miners == [] {
      StakeAlone(cfg, g, who, h1.nonce);
      OneBlock(cfg, g, [Signed(who, StakeCall(FirstStakeOf(cfg)))]);
    } else {
      var k := |miners| - 1;
      var front := ReplayRun(cfg, who, miners[..k], h1, sig);
      MulSucc(k + 1, cfg.blockReward);
      ReplayRunKeeps(cfg, g, who, miners[..k], h1, sig);
      GenesisHeader(cfg, g);
      ReplayKeeps(cfg, g, Run(cfg, g, front), who, miners[k], h1, sig);
      assert (front + [Replay(who, miners[k], h1, sig)])[..|front|] == front;
    }
  }

  lemma GenesisHeader(cfg: Config, g: State)
    requires Genesis(cfg, g)
    ensures 0 in g.headers
  {}

  lemma StakeAlone(cfg: Config, g: State, who: AccountId, nonce: u64)
    requires CanStake(cfg, g, who) && ValidConfig(cfg) && Genesis(cfg, g) && g.now == 0 && g.difficulty == 1
    requires g.ledger.issuance < U64_LIMIT
    ensures var s := RunBlock(cfg, g, [Signed(who, StakeCall(FirstStakeOf(cfg)))]);
            Replaying(g, s, who, nonce) && Miners(s.events) == []
  {
    hide Sum, Initialize, Stake;
    QuietInitialize(cfg, g);
    var s0 := g.(now := 1);
    GenesisLedger(cfg, g);
    SumAtLeast(g.ledger.free, who);
    FirstStake(cfg, s0, who, FirstStakeOf(cfg));
    StakeLeavesChain(cfg, g, s0, who, FirstStakeOf(cfg));
    StakeLogsNothing(cfg, s0, who, FirstStakeOf(cfg));
    assert s0.events + [] == s0.events;
    OneCall(cfg, s0, Signed(who, StakeCall(FirstStakeOf(cfg))));
  }

  lemma {:induction false} ReplayRunKeyless(cfg: Config, who: AccountId, miners: seq<AccountId>, h1: Header,
                                            sig: PqcSignature)
    requires who != cfg.escrow && forall i :: 0 <= i < |miners| ==> miners[i] != cfg.escrow
    ensures AllBlocksKeyless(cfg, ReplayRun(cfg, who, miners, h1, sig))
  {
    if miners != [] {
      ReplayRunKeyless(cfg, who, miners[..|miners| - 1], h1, sig);
    }
  }

  /**
   * Proof of work can be replayed without limit at difficulty 1: for any list of miners there is a run from genesis in
   * which each of them is credited for an accepted submission of block 1, all with one and the same nonce.
   */
  lemma OneNonceManyBlocks(cfg: Config, g: State, who: AccountId, miners: seq<AccountId>, h1: Header, sig: PqcSignature)
    requires CanStake(cfg, g, who) && ValidConfig(cfg) && Genesis(cfg, g) && g.now == 0 && g.difficulty == 1
    requires cfg.downtimePct < 100 && g.ledger.issuance + (|miners| + 1) * cfg.blockReward < U64_LIMIT
    requires h1.number == 1 && ValidateHeader(cfg, 1, h1, g.headers[0]) == Ok
    requires forall i :: 0 <= i < |miners| ==> miners[i] != cfg.escrow
    ensures var blocks := ReplayRun(cfg, who, miners, h1, sig);
            var s := Run(cfg, g, blocks);
            && GenesisRun(cfg, g, blocks) && |blocks| == |miners| + 1
            && Miners(s.events) == miners && OneNonce(s.events, h1.nonce)
            && Tally(Submissions, s.events) == Tally(Validations, s.events) == |miners|
  {
    hide Run, ReplayRun, ValidateHeader, Genesis, ValidConfig, Tally, Miners, AllBlocksKeyless, ChainSound;
    var blocks := ReplayRun(cfg, who, miners, h1, sig);
    ReplayRunKeeps(cfg, g, who, miners, h1, sig);
    ReplayRunKeyless(cfg, who, miners, h1, sig);
    WindowAndPhaseOfEveryRun(cfg, g, blocks);
    MinersCountSubmissions(Run(cfg, g, blocks).events);
  }
}
