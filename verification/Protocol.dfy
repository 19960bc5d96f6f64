/**
 * What each call and each hook of the consensus pallet does to its storage, as functions.
 *
 * A dispatchable commits only on `Ok`. `Trap` is an arithmetic overflow: the overflow-checked
 * build panics, nothing is committed, and the call cannot be part of a block.
 */
module Protocol {
  import opened Arith
  import opened MapSums
  import opened Types
  import opened Ledger
  import opened Selection
  import opened Rewards
  import opened Entropy
  import opened Retarget

  datatype Phase = PowMining | PosValidation | Finalization

  datatype Reason = DoubleSigning | InvalidBlock | Downtime | Other

  datatype Record = Record(validator: AccountId, reason: Reason, amount: nat, block: nat)

  /** The log of events over the whole run; the last two are events of the balances pallet. */
  datatype Event =
    | BlockMined(number: u32, miner: AccountId, nonce: u64)
    | ValidatorSelected(validator: AccountId, weight: u64)
    | RewardsDistributed(payee: AccountId, minerReward: nat, stakersReward: nat)
    | ValidatorSlashed(offender: AccountId, reason: Reason, amount: nat)
    | DifficultyAdjusted(oldDifficulty: u64, newDifficulty: u64)
    | DustLost(account: AccountId, dust: nat)
    | OutsideTransfer(from: AccountId, to: AccountId, moved: nat)

  datatype Error =
    | InvalidBlockNumber | InvalidParentHash | InvalidPow | DifficultyTooLow | DifficultyTooHigh
    | InsufficientStake | NotAValidator | BlockNotFound | InvalidPhaseTransition
    | InvalidPqcSignature | PqcPublicKeyNotFound | TransferRefused

  datatype Outcome = Ok | Err(error: Error) | Trap

  /** Constants of the runtime, the hash functions, and the iteration order of storage maps. */
  datatype Config = Config(
    blockReward: nat, minStake: nat, maxDowntime: u32,
    doubleSignPct: u8, invalidBlockPct: u8, downtimePct: u8,
    pqcRequired: bool, escrow: AccountId, existentialDeposit: nat,
    blake: Blake,
    hashHeader: Header -> Hash,
    hashSeed: (u32, nat) -> Hash,
    hashSignature: (AccountId, u32) -> Hash,
    verifyPqc: (Hash, PqcSignature, PqcKey) -> bool,
    iter: set<AccountId> -> seq<AccountId>)

  ghost predicate ValidConfig(cfg: Config)
  {
    && cfg.existentialDeposit > 0
    && (forall s :: Enumerates(cfg.iter(s), s))
  }

  datatype State = State(
    difficulty: u64, phase: Phase,
    headers: map<u32, Header>, producers: map<u32, AccountId>,
    stakes: map<AccountId, nat>, lastActive: map<AccountId, u32>,
    doubleSignReports: set<AccountId>, invalidBlockReports: set<AccountId>,
    records: seq<Record>, pqcKeys: map<AccountId, PqcKey>,
    window: Window, entropy: u64,
    ledger: Ledger, now: nat, events: seq<Event>)

  // ----- submit_block

  /** `validate_block_header`. */
  function ValidateHeader(cfg: Config, expected: u64, h: Header, parent: Header): Outcome
  {
    if parent.number + 1 >= U32_LIMIT then Trap
    else if h.number != parent.number + 1 then Err(InvalidBlockNumber)
    else if h.parentHash != cfg.hashHeader(parent) then Err(InvalidParentHash)
    else if !VerifyPow(cfg.blake, h, h.difficulty) then Err(InvalidPow)
    else if h.difficulty < expected / 2 then Err(DifficultyTooLow)
    else if h.difficulty > SatMul64(expected, 2) then Err(DifficultyTooHigh)
    else Ok
  }

  /** A full window drops its oldest entry before the new one is pushed. */
  function PushProducer(window: Window, p: AccountId): Window
  {
    if |window| >= WINDOW_LIMIT then window[1..] + [p] else window + [p]
  }

  /** An accepted submission is stored and hands over to the validators. */
  function Submitted(s: State, miner: AccountId, h: Header): State
  {
    s.(headers := s.headers[h.number := h],
       producers := s.producers[h.number := miner],
       window := PushProducer(s.window, miner),
       lastActive := s.lastActive[miner := h.number],
       phase := PosValidation,
       events := s.events + [BlockMined(h.number, miner, h.nonce)])
  }

  ghost function SubmitBlock(cfg: Config, s: State, miner: AccountId, h: Header): (State, Outcome)
  {
    if s.phase != PowMining then (s, Err(InvalidPhaseTransition))
    else if h.number == 0 then (s, Err(InvalidBlockNumber))
    else if h.number - 1 !in s.headers then (s, Err(BlockNotFound))
    else
      var outcome := ValidateHeader(cfg, s.difficulty, h, s.headers[h.number - 1]);
      if outcome != Ok then (s, outcome) else (Submitted(s, miner, h), Ok)
  }

  // ----- stake and unstake

  ghost function Stake(cfg: Config, s: State, staker: AccountId, amount: nat): (State, Outcome)
  {
    if amount < cfg.minStake then (s, Err(InsufficientStake))
    else match Transfer(s.ledger, cfg.existentialDeposit, staker, cfg.escrow, amount, true)
      case Refused => (s, Err(TransferRefused))
      case Moved(l, _) =>
        if Get(s.stakes, staker) + amount >= U128_LIMIT then (s, Trap)
        else (s.(ledger := l, stakes := s.stakes[staker := Get(s.stakes, staker) + amount]), Ok)
  }

  function DustEvents(account: AccountId, dust: nat): seq<Event>
  {
    if dust > 0 then [DustLost(account, dust)] else []
  }

  ghost function Unstake(cfg: Config, s: State, staker: AccountId, amount: nat): (State, Outcome)
  {
    if staker !in s.stakes then (s, Err(NotAValidator))
    else if s.stakes[staker] < amount then (s, Err(InsufficientStake))
    else match Transfer(s.ledger, cfg.existentialDeposit, cfg.escrow, staker, amount, false)
      case Refused => (s, Err(TransferRefused))
      case Moved(l, dust) =>
        (s.(ledger := l,
            stakes := s.stakes[staker := s.stakes[staker] - amount],
            events := s.events + DustEvents(cfg.escrow, dust)), Ok)
  }

  // ----- validate_block

  function Stakers(cfg: Config, s: State): seq<ValidatorStake>
  {
    StakerList(s.stakes, cfg.iter(s.stakes.Keys))
  }

  function Sign(cfg: Config, h: Header, validator: AccountId, number: u32, sig: PqcSignature): Header
  {
    h.(validatorSignature := Some(cfg.hashSignature(validator, number)), pqcSignature := Some(sig))
  }

  function CheckPqc(cfg: Config, s: State, validator: AccountId, number: u32, sig: PqcSignature): Outcome
  {
    if !cfg.pqcRequired then Ok
    else if validator !in s.pqcKeys then Err(PqcPublicKeyNotFound)
    else if !cfg.verifyPqc(cfg.hashSignature(validator, number), sig, s.pqcKeys[validator]) then Err(InvalidPqcSignature)
    else Ok
  }

  /** Everything after the selection: sign, pay, and move to finalization. */
  ghost function Accept(cfg: Config, s: State, validator: AccountId, weight: u64, number: u32, sig: PqcSignature)
    : (State, Outcome)
    requires number in s.headers
  {
    if cfg.blockReward * 40 >= U128_LIMIT then (s, Trap)
    else if number !in s.producers then (s, Err(BlockNotFound))
    else
      var reward := CalculateBlockReward(cfg.blockReward);
      var miner := s.producers[number];
      if PayoutOverflows(Stakers(cfg, s), reward) then (s, Trap)
      else
        (s.(headers := s.headers[number := Sign(cfg, s.headers[number], validator, number, sig)],
            ledger := PaidOut(s.ledger, cfg.existentialDeposit, miner, Stakers(cfg, s), reward),
            lastActive := s.lastActive[validator := number],
            phase := Finalization,
            events := s.events + [ValidatorSelected(validator, weight),
                                  RewardsDistributed(miner, reward.minerReward, reward.stakersReward)]), Ok)
  }

  ghost function ValidateBlock(cfg: Config, s: State, validator: AccountId, number: u32, sig: PqcSignature)
    : (State, Outcome)
  {
    if validator !in s.stakes then (s, Err(NotAValidator))
    else if number !in s.headers then (s, Err(BlockNotFound))
    else if s.phase != PosValidation then (s, Err(InvalidPhaseTransition))
    else match Choose(Stakers(cfg, s), cfg.hashSeed(number, s.now), s.now)
      case Overflow => (s, Trap)
      case NoneSelected => (s, Err(NotAValidator))
      case Selected(winner, weight, _) =>
        if winner != validator then (s, Err(NotAValidator))
        else if CheckPqc(cfg, s, validator, number, sig) != Ok
        then (s, CheckPqc(cfg, s, validator, number, sig))
        else Accept(cfg, s, validator, weight, number, sig)
  }

  // ----- report_misbehavior and register_pqc_key

  function SlashPercentage(cfg: Config, reason: Reason): u8
  {
    match reason
    case DoubleSigning => cfg.doubleSignPct
    case InvalidBlock => cfg.invalidBlockPct
    case Downtime => cfg.downtimePct
    case Other => 10
  }

  function SlashAmount(stake: nat, pct: u8): nat
  {
    stake * pct / 100
  }

  function AfterSlash(stake: nat, pct: u8): nat
  {
    SatSub(stake, SlashAmount(stake, pct))
  }

  ghost function ReportMisbehavior(cfg: Config, s: State, validator: AccountId, reason: Reason): (State, Outcome)
  {
    var pct := SlashPercentage(cfg, reason);
    var stake := Get(s.stakes, validator);
    if stake * pct >= U128_LIMIT then (s, Trap)
    else
      (s.(doubleSignReports := if reason == DoubleSigning then s.doubleSignReports + {validator} else s.doubleSignReports,
          invalidBlockReports := if reason == InvalidBlock then s.invalidBlockReports + {validator} else s.invalidBlockReports,
          stakes := s.stakes[validator := AfterSlash(stake, pct)],
          events := s.events + [ValidatorSlashed(validator, reason, SlashAmount(stake, pct))]), Ok)
  }

  ghost function RegisterPqcKey(s: State, validator: AccountId, key: PqcKey): (State, Outcome)
  {
    (s.(pqcKeys := s.pqcKeys[validator := key]), Ok)
  }

  // ----- Hooks

  /** A stake is swept when its owner was last active too many host blocks ago. */
  predicate Inactive(cfg: Config, s: State, v: AccountId)
  {
    v in s.lastActive && SatSub(Min(s.now, U32_LIMIT - 1), s.lastActive[v]) > cfg.maxDowntime
  }

  predicate Swept(cfg: Config, s: State, v: AccountId)
  {
    Inactive(cfg, s, v) && v in s.stakes
  }

  function SweptStakes(cfg: Config, s: State, visited: seq<AccountId>): map<AccountId, nat>
  {
    map v | v in s.stakes ::
      if v in visited && Inactive(cfg, s, v) then AfterSlash(s.stakes[v], cfg.downtimePct) else s.stakes[v]
  }

  function SweepRecords(cfg: Config, s: State, visited: seq<AccountId>): seq<Record>
  {
    if visited == [] then []
    else
      var v := visited[|visited| - 1];
      SweepRecords(cfg, s, visited[..|visited| - 1]) +
      if Swept(cfg, s, v) then [Record(v, Downtime, SlashAmount(s.stakes[v], cfg.downtimePct), s.now)] else []
  }

  function SweepEvents(cfg: Config, s: State, visited: seq<AccountId>): seq<Event>
  {
    if visited == [] then []
    else
      var v := visited[|visited| - 1];
      SweepEvents(cfg, s, visited[..|visited| - 1]) +
      if Swept(cfg, s, v) then [ValidatorSlashed(v, Downtime, SlashAmount(s.stakes[v], cfg.downtimePct))] else []
  }

  /** The state after the listed validators have been visited. */
  function SweepOver(cfg: Config, s: State, visited: seq<AccountId>): State
  {
    s.(stakes := SweptStakes(cfg, s, visited),
       records := s.records + SweepRecords(cfg, s, visited),
       events := s.events + SweepEvents(cfg, s, visited))
  }

  predicate SlashOverflows(cfg: Config, s: State, v: AccountId)
  {
    Swept(cfg, s, v) && s.stakes[v] * cfg.downtimePct >= U128_LIMIT
  }

  /** One iteration: slash the validator, record it, and announce it. */
  function SweepOne(cfg: Config, s: State, v: AccountId): State
  {
    if !Swept(cfg, s, v) then s
    else
      var amount := SlashAmount(s.stakes[v], cfg.downtimePct);
      s.(stakes := s.stakes[v := AfterSlash(s.stakes[v], cfg.downtimePct)],
         records := s.records + [Record(v, Downtime, amount, s.now)],
         events := s.events + [ValidatorSlashed(v, Downtime, amount)])
  }

  ghost predicate SweepOverflows(cfg: Config, s: State)
  {
    exists v :: SlashOverflows(cfg, s, v)
  }

  /** `check_downtime_slashing`. */
  function Sweep(cfg: Config, s: State): State
  {
    SweepOver(cfg, s, cfg.iter(s.lastActive.Keys))
  }

  /** `adjust_difficulty`. */
  ghost function AdjustDifficulty(s: State): State
  {
    EntropyFitsU64(s.window);
    var adjusted := Adjusted(s.difficulty, s.window);
    s.(entropy := EntropyOf(s.window),
       difficulty := adjusted,
       events := s.events + if adjusted != s.difficulty then [DifficultyAdjusted(s.difficulty, adjusted)] else [])
  }

  /** `on_initialize` of the next host block. */
  ghost function Initialize(cfg: Config, s: State): (State, Outcome)
  {
    var s1 := s.(now := s.now + 1);
    if s1.now % 10 == 0 && SweepOverflows(cfg, s1) then (s, Trap)
    else
      var s2 := if s1.now % 10 == 0 then Sweep(cfg, s1) else s1;
      var s3 := if s1.now % 100 == 0 then AdjustDifficulty(s2) else s2;
      (s3, Ok)
  }

  /** `on_finalize`. */
  function Finalize(s: State): State
  {
    if s.phase == Finalization then s.(phase := PowMining) else s
  }

  // ----- Host blocks

  datatype Call =
    | SubmitBlockCall(header: Header)
    | StakeCall(amount: nat)
    | UnstakeCall(amount: nat)
    | ValidateBlockCall(number: u32, signature: PqcSignature)
    | RegisterPqcKeyCall(key: PqcKey)
    | ReportMisbehaviorCall(validator: AccountId, reason: Reason)

  /** A signed call of the pallet, or a plain transfer made outside of it. */
  datatype Extrinsic =
    | Signed(who: AccountId, call: Call)
    | Outside(from: AccountId, to: AccountId, value: nat, keepAlive: bool)

  ghost function Dispatch(cfg: Config, s: State, x: Extrinsic): (State, Outcome)
  {
    match x
    case Signed(who, SubmitBlockCall(h)) => SubmitBlock(cfg, s, who, h)
    case Signed(who, StakeCall(amount)) => Stake(cfg, s, who, amount)
    case Signed(who, UnstakeCall(amount)) => Unstake(cfg, s, who, amount)
    case Signed(who, ValidateBlockCall(number, sig)) => ValidateBlock(cfg, s, who, number, sig)
    case Signed(who, RegisterPqcKeyCall(key)) => RegisterPqcKey(s, who, key)
    case Signed(who, ReportMisbehaviorCall(v, reason)) => ReportMisbehavior(cfg, s, v, reason)
    case Outside(from, to, value, keepAlive) => TransferOutside(cfg, s, from, to, value, keepAlive)
  }

  ghost function TransferOutside(cfg: Config, s: State, from: AccountId, to: AccountId, value: nat, keepAlive: bool)
    : (State, Outcome)
  {
    match Transfer(s.ledger, cfg.existentialDeposit, from, to, value, keepAlive)
    case Refused => (s, Err(TransferRefused))
    case Moved(l, dust) =>
      (s.(ledger := l, events := s.events + [OutsideTransfer(from, to, value)] + DustEvents(from, dust)), Ok)
  }

  ghost function RunCalls(cfg: Config, s: State, xs: seq<Extrinsic>): State
  {
    if xs == [] then s else Dispatch(cfg, RunCalls(cfg, s, xs[..|xs| - 1]), xs[|xs| - 1]).0
  }

  /** One host block; if `on_initialize` traps there is no block and nothing changes. */
  ghost function RunBlock(cfg: Config, s: State, xs: seq<Extrinsic>): State
  {
    var (s1, outcome) := Initialize(cfg, s);
    if outcome != Ok then s else Finalize(RunCalls(cfg, s1, xs))
  }

  ghost function Run(cfg: Config, s: State, blocks: seq<seq<Extrinsic>>): State
  {
    if blocks == [] then s else RunBlock(cfg, Run(cfg, s, blocks[..|blocks| - 1]), blocks[|blocks| - 1])
  }
}
