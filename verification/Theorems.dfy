/** The main results about runs from genesis, and the exact conditions of the properties that can fail. */
module Theorems {
  import opened Arith
  import opened MapSums
  import opened Types
  import opened Ledger
  import opened Protocol
  import opened History
  import opened Steps
  import opened Downtime
  import opened Runs
  import opened Safety

  /** A run from genesis whose rewards fit the balance type, with nobody signing for the escrow account. */
  ghost predicate GenesisRun(cfg: Config, g: State, blocks: seq<seq<Extrinsic>>)
  {
    && ValidConfig(cfg) && Genesis(cfg, g) && AllBlocksKeyless(cfg, blocks)
    && g.ledger.issuance + |blocks| * cfg.blockReward < U128_LIMIT
  }

  lemma RunFromGenesis(cfg: Config, g: State, blocks: seq<seq<Extrinsic>>)
    requires GenesisRun(cfg, g, blocks)
    ensures Between(cfg, g, Run(cfg, g, blocks), |blocks|)
    ensures Imbalance(cfg, g) == Backing(cfg, g) == Balance(g.ledger, cfg.escrow)
  {
    hide Between, Run, Valid, ChainSound, EscrowIdle, ValidConfig;
    GenesisIsSound(cfg, g);
    RunKeeps(cfg, g, blocks);
  }

  // ----- Escrow

  /**
   * Escrow balance plus dust burned from it is at most its first balance plus stakes, announced slashes and gifts on
   * every run, and exactly that when no slash percentage exceeds one hundred.
   */
  lemma EscrowAccounting(cfg: Config, g: State, blocks: seq<seq<Extrinsic>>)
    requires GenesisRun(cfg, g, blocks)
    ensures var s := Run(cfg, g, blocks);
            var held := Balance(s.ledger, cfg.escrow) + Tally(DustOf(cfg.escrow), s.events);
            var explained := Balance(g.ledger, cfg.escrow)
                             + Sum(s.stakes) + Tally(Slashes, s.events) + Tally(GiftsTo(cfg.escrow), s.events);
            held <= explained && (Percentages(cfg) ==> held == explained)
  {
    hide Run, MoneySound, Tally, GenesisRun;
    RunFromGenesis(cfg, g, blocks);
  }

  lemma NoEventsAtGenesis(cfg: Config, g: State, blocks: seq<seq<Extrinsic>>)
    requires GenesisRun(cfg, g, blocks)
    ensures Tally(AllDust, g.events) == 0 && Tally(Validations, g.events) == 0
  {}

  /** Staking from the escrow account itself records stake without moving money. */
  lemma StakeConservesIff(cfg: Config, s: State, who: AccountId, amount: nat)
    requires cfg.existentialDeposit > 0 && Stake(cfg, s, who, amount).1 == Ok
    ensures Imbalance(cfg, Stake(cfg, s, who, amount).0) == Imbalance(cfg, s) <==> who != cfg.escrow || amount == 0
  {
    hide Sum, Tally, Transfer;
    TransferBalances(s.ledger, cfg.existentialDeposit, who, cfg.escrow, amount, true, cfg.escrow);
    SumUpdate(s.stakes, who, Get(s.stakes, who) + amount);
  }

  /** A stake by the escrow account itself, from any state: recorded without money. */
  lemma EscrowStakeBreaksIdentity(cfg: Config, s: State, amount: nat)
    requires amount >= cfg.minStake && amount > 0 && Get(s.stakes, cfg.escrow) + amount < U128_LIMIT
    ensures Stake(cfg, s, cfg.escrow, amount).1 == Ok
    ensures Imbalance(cfg, Stake(cfg, s, cfg.escrow, amount).0) == Imbalance(cfg, s) - amount
  {
    hide Sum, Tally;
    SumUpdate(s.stakes, cfg.escrow, Get(s.stakes, cfg.escrow) + amount);
  }

  /** A report announces exactly what it takes if and only if the computed slash is within the stake. */
  lemma ReportConservesIff(cfg: Config, s: State, v: AccountId, reason: Reason)
    requires ReportMisbehavior(cfg, s, v, reason).1 == Ok
    ensures Imbalance(cfg, ReportMisbehavior(cfg, s, v, reason).0) == Imbalance(cfg, s)
       <==> SlashAmount(Get(s.stakes, v), SlashPercentage(cfg, reason)) <= Get(s.stakes, v)
  {
    hide Sum, Tally, SlashAmount;
    var pct, stake := SlashPercentage(cfg, reason), Get(s.stakes, v);
    SlashTallies(cfg, s.events, v, reason, SlashAmount(stake, pct));
    SumUpdate(s.stakes, v, AfterSlash(stake, pct));
  }

  /** A percentage of 200 announces two units for a stake of one. */
  lemma OverslashBreaksIdentity(cfg: Config, s: State, v: AccountId, reason: Reason)
    requires Get(s.stakes, v) == 1 && SlashPercentage(cfg, reason) == 200
    ensures ReportMisbehavior(cfg, s, v, reason).1 == Ok
    ensures Imbalance(cfg, ReportMisbehavior(cfg, s, v, reason).0) == Imbalance(cfg, s) - 1
  {
    hide Sum, Tally;
    SlashTallies(cfg, s.events, v, reason, 2);
    SumUpdate(s.stakes, v, 0);
  }

  /** A sweep conserves the identity if and only if no computed slash exceeds the stake it is taken from. */
  lemma SweepConservesIff(cfg: Config, s: State)
    requires ValidConfig(cfg)
    ensures Imbalance(cfg, Sweep(cfg, s)) == Imbalance(cfg, s) <==> forall v :: SlashFits(cfg, s, v)
  {
    hide Sum, Tally, SlashFits, SweptStakes, SweepEvents, SweepRecords;
    var order := cfg.iter(s.lastActive.Keys);
    SweepAnnouncesIff(cfg, s);
    SweepTallies(cfg, s, order);
    TallyAppend(Slashes, s.events, SweepEvents(cfg, s, order));
  }

  // ----- Issuance

  /** Over N host blocks at most N validations succeed, and the supply grows by at most N block rewards. */
  lemma InflationBound(cfg: Config, g: State, blocks: seq<seq<Extrinsic>>)
    requires GenesisRun(cfg, g, blocks)
    ensures var s := Run(cfg, g, blocks);
            && Tally(Validations, s.events) <= |blocks|
            && s.ledger.issuance == Sum(s.ledger.free)
            && s.ledger.issuance <= g.ledger.issuance + |blocks| * cfg.blockReward
  {
    hide Run, GenesisRun, Tally, Sum, EscrowIdle, Gross, Imbalance, Backing;
    RunFromGenesis(cfg, g, blocks);
    NoEventsAtGenesis(cfg, g, blocks);
  }

  /** One host block accepts at most one validation, whatever calls it holds. */
  lemma OneValidationPerBlock(cfg: Config, s: State, xs: seq<Extrinsic>)
    requires Solvent(cfg, s) && s.phase != Finalization && AllKeyless(cfg, xs)
    requires s.ledger.issuance + cfg.blockReward < U128_LIMIT
    ensures Tally(Validations, RunBlock(cfg, s, xs).events) <= Tally(Validations, s.events) + 1
  {
    BlockKeeps(cfg, s, xs);
  }

  // ----- Headers, window, phase

  /**
   * Stored numbers are gap-free from 0 and agree with their keys; every mined header meets its own target
   * and is credited to the account whose submission of it was accepted last. The run may hold any calls.
   */
  lemma HeadersOfEveryRun(cfg: Config, g: State, blocks: seq<seq<Extrinsic>>, j: u32, k: u32)
    requires Genesis(cfg, g) && k in Run(cfg, g, blocks).headers && j <= k
    ensures var s := Run(cfg, g, blocks);
            && j in s.headers && s.headers[j].number == j
            && (j in s.producers <==> j > 0)
            && (j > 0 ==> VerifyPow(cfg.blake, s.headers[j], s.headers[j].difficulty))
            && (j > 0 ==> MinerOf(s.events, j) == Some(s.producers[j]))
  {
    hide Run, Genesis, VerifyPow, MoneySound, MinerOf, WindowMatches, PhaseMatches;
    ChainOfRun(cfg, g, blocks);
    StoredRangeHasNoGap(cfg, Run(cfg, g, blocks), j, k);
  }

  lemma ChainOfRun(cfg: Config, g: State, blocks: seq<seq<Extrinsic>>)
    requires Genesis(cfg, g)
    ensures ChainSound(cfg, Run(cfg, g, blocks)) && Run(cfg, g, blocks).phase != Finalization
  {
    hide Run, ChainSound, MoneySound;
    GenesisIsSound(cfg, g);
    RunKeepsChain(cfg, g, blocks);
  }

  /** The window is the end of the submission log, and submissions run at most one ahead of validations. */
  lemma WindowAndPhaseOfEveryRun(cfg: Config, g: State, blocks: seq<seq<Extrinsic>>)
    requires Genesis(cfg, g)
    ensures var s := Run(cfg, g, blocks);
            && s.window == (var m := Miners(s.events); if |m| <= 100 then m else m[|m| - 100..])
            && |Miners(s.events)| == Tally(Validations, s.events) + (if s.phase == PosValidation then 1 else 0)
            && s.phase != Finalization
  {
    hide Run, Genesis, HeaderStore, ProducersMatchLog, Tally, Miners;
    ChainOfRun(cfg, g, blocks);
    MinersCountSubmissions(Run(cfg, g, blocks).events);
  }

  /** No plain arithmetic leaves its range while genesis supply plus all rewards stays below 2^64. */
  lemma NoTrapOnAnyRun(cfg: Config, g: State, blocks: seq<seq<Extrinsic>>)
    requires GenesisRun(cfg, g, blocks) && g.ledger.issuance + |blocks| * cfg.blockReward < U64_LIMIT
    ensures RunNeverTraps(cfg, g, blocks)
  {
    hide Run, RunNeverTraps, ChainSound, Sum, Valid, EscrowIdle;
    GenesisIsSound(cfg, g);
    RunDoesNotTrap(cfg, g, blocks);
  }
}
