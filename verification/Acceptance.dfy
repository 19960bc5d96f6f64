/**
 * Exactly when each call is accepted, what an accepted call changes, and what a refusal means. The conditions are in
 * terms of the storage, the hash functions and numbers, not of the functions that compute them.
 */
module Acceptance {
  import opened Arith
  import opened MapSums
  import opened Types
  import opened Ledger
  import opened Selection
  import opened Rewards
  import opened Protocol
  import opened History
  import opened Safety
  import opened Mining

  // ----- submit_block

  /** The first eight bytes of the double hash are at most the target; the signatures and the target are not hashed. */
  lemma PowValueIs(blake: Blake, h: Header, target: u64)
    ensures VerifyPow(blake, h, target) <==>
      blake.ofHash(blake.ofPow(PowInput(h.number, h.parentHash, h.stateRoot, h.extrinsicsRoot, h.nonce)))
      < (target + 1) * U128_LIMIT * U64_LIMIT
  {
    var digest := blake.ofHash(blake.ofPow(PowInputOf(h)));
    DivIsLargest(digest, U128_LIMIT * U64_LIMIT, target + 1);
  }

  /** A header that only lacks a good nonce: right phase and parent, and a difficulty within the band. */
  ghost predicate Mineable(cfg: Config, s: State, h: Header)
  {
    && s.phase == PowMining && h.number > 0 && h.number - 1 in s.headers
    && h.parentHash == cfg.hashHeader(s.headers[h.number - 1])
    && s.difficulty / 2 <= h.difficulty && (h.difficulty <= 2 * s.difficulty || 2 * s.difficulty > U64_MAX)
  }

  /** A submission is accepted from anybody, exactly when the header is mineable and its nonce meets its own target. */
  lemma SubmitOkIff(cfg: Config, s: State, miner: AccountId, h: Header)
    requires HeaderStore(cfg, s)
    ensures SubmitBlock(cfg, s, miner, h).1 == Ok
       <==> Mineable(cfg, s, h) && PowValue(cfg.blake, PowInputOf(h)) <= h.difficulty
  {
    hide PowValue, PushProducer;
  }

  /** What an accepted submission changes: one header, its producer, the phase and the log. */
  lemma SubmitStores(cfg: Config, s: State, miner: AccountId, h: Header)
    requires SubmitBlock(cfg, s, miner, h).1 == Ok
    ensures var s' := SubmitBlock(cfg, s, miner, h).0;
            && h.number in s'.headers && s'.headers[h.number] == h
            && h.number in s'.producers && s'.producers[h.number] == miner
            && (forall k :: k != h.number ==> SameAt(s.headers, s'.headers, k) && SameAt(s.producers, s'.producers, k))
            && s'.phase == PosValidation && s'.ledger == s.ledger && s'.stakes == s.stakes
            && s'.events == s.events + [BlockMined(h.number, miner, h.nonce)]
  {
    hide ValidateHeader, PushProducer;
  }

  predicate SameAt<V(==)>(m: map<u32, V>, m': map<u32, V>, k: u32)
  {
    (k in m <==> k in m') && (k in m ==> m[k] == m'[k])
  }

  // ----- stake

  /** A stake is accepted exactly when it is large enough, the staker and the escrow stay alive, and the record fits. */
  lemma StakeOkIff(cfg: Config, s: State, who: AccountId, amount: nat)
    requires Valid(s.ledger, cfg.existentialDeposit) && s.ledger.issuance < U128_LIMIT && who != cfg.escrow
    ensures Stake(cfg, s, who, amount).1 == Ok <==>
      && amount >= cfg.minStake
      && (amount == 0 || (Balance(s.ledger, who) >= amount + cfg.existentialDeposit
                          && Balance(s.ledger, cfg.escrow) + amount >= cfg.existentialDeposit))
      && Get(s.stakes, who) + amount < U128_LIMIT
  {
    hide Sum;
    TwoBalances(s.ledger.free, cfg.escrow, who);
  }

  /** An accepted stake adds to what the account had staked and moves exactly that money to the escrow account. */
  lemma StakeMoves(cfg: Config, s: State, who: AccountId, amount: nat, a: AccountId)
    requires cfg.existentialDeposit > 0 && who != cfg.escrow && Stake(cfg, s, who, amount).1 == Ok
    ensures var s' := Stake(cfg, s, who, amount).0;
            && who in s'.stakes && (a != who ==> Lookup(s'.stakes, a) == Lookup(s.stakes, a))
            && Get(s'.stakes, a) == Get(s.stakes, a) + (if a == who then amount else 0)
            && Balance(s'.ledger, a) + (if a == who then amount else 0)
               == Balance(s.ledger, a) + (if a == cfg.escrow then amount else 0)
  {
    hide Transfer;
    TransferBalances(s.ledger, cfg.existentialDeposit, who, cfg.escrow, amount, true, a);
  }

  // ----- validate_block

  /** The weights, saturated to u64, of the listed stakers. */
  function WeightOf(stakes: map<AccountId, nat>, order: seq<AccountId>): nat
  {
    if order == [] then 0
    else
      var stake := Get(stakes, order[|order| - 1]);
      WeightOf(stakes, order[..|order| - 1]) + if stake < U64_LIMIT then stake else U64_MAX
  }

  /** The seed of a block at a host block falls into the interval of the account among the weights in iteration order. */
  ghost predicate Wins(cfg: Config, s: State, number: u32, v: AccountId)
  {
    var order := cfg.iter(s.stakes.Keys);
    var total := WeightOf(s.stakes, order);
    && 0 < total < U64_LIMIT
    && exists i :: 0 <= i < |order| && order[i] == v
         && WeightOf(s.stakes, order[..i]) <= Prefix64(cfg.hashSeed(number, s.now)) % total
            < WeightOf(s.stakes, order[..i + 1])
  }

  predicate SignatureAccepted(cfg: Config, s: State, v: AccountId, number: u32, sig: PqcSignature)
  {
    cfg.pqcRequired ==> v in s.pqcKeys && cfg.verifyPqc(cfg.hashSignature(v, number), sig, s.pqcKeys[v])
  }

  /** The reward, the stake total and every product of stake and stakers' share fit in u128. */
  ghost predicate PayoutInRange(cfg: Config, s: State)
  {
    var stakersShare := cfg.blockReward - cfg.blockReward * 40 / 100;
    && cfg.blockReward * 40 < U128_LIMIT && Sum(s.stakes) < U128_LIMIT
    && forall a :: a in s.stakes ==> stakersShare * s.stakes[a] < U128_LIMIT
  }

  lemma {:induction false} WeightOfIsBefore(stakes: map<AccountId, nat>, order: seq<AccountId>, i: nat)
    requires i <= |order|
    ensures Before(StakerList(stakes, order), i) == WeightOf(stakes, order[..i])
  {
    var list := StakerList(stakes, order);
    if i > 0 {
      WeightOfIsBefore(stakes, order, i - 1);
      BeforeNext(list, i - 1);
      assert order[..i][..i - 1] == order[..i - 1];
    }
  }

  lemma TotalOf(stakes: map<AccountId, nat>, order: seq<AccountId>)
    ensures TotalWeight(StakerList(stakes, order)) == WeightOf(stakes, order)
  {
    WeightOfIsBefore(stakes, order, |order|);
    BeforeAll(StakerList(stakes, order));
    assert order[..|order|] == order;
  }

  lemma ListedAccounts(stakes: map<AccountId, nat>, order: seq<AccountId>)
    requires Enumerates(order, stakes.Keys)
    ensures DistinctAccounts(StakerList(stakes, order))
    ensures forall i :: 0 <= i < |order| ==>
      StakerList(stakes, order)[i].account == order[i]
      && StakerList(stakes, order)[i].weight == SaturateU64(Get(stakes, order[i]))
  {}

  /** The selection returns the account whose interval holds the seed. */
  lemma WinsIff(cfg: Config, s: State, number: u32, v: AccountId)
    requires ValidConfig(cfg)
    ensures var c := Choose(Stakers(cfg, s), cfg.hashSeed(number, s.now), s.now);
            Wins(cfg, s, number, v) <==> c.Selected? && c.validator == v
    ensures var c := Choose(Stakers(cfg, s), cfg.hashSeed(number, s.now), s.now);
            c.Selected? ==> c.weight == SaturateU64(Get(s.stakes, c.validator))
  {
    hide TotalWeight, Before, Prefix64, WeightOf, StakerList, Choose, ValidConfig, IsSelection, SaturateU64, Enumerates;
    var order, seed := cfg.iter(s.stakes.Keys), cfg.hashSeed(number, s.now);
    var list := StakerList(s.stakes, order);
    OrderIsListed(cfg, s);
    ListedAccounts(s.stakes, order);
    TotalOf(s.stakes, order);
    var c := Choose(list, seed, s.now);
    if TotalWeight(list) == 0 || TotalWeight(list) >= U64_LIMIT {
      NobodyChosen(list, seed, s.now);
    } else {
      var j := SomebodyChosen(list, seed, s.now);
      assert list[j].account == order[j] && list[j].weight == SaturateU64(Get(s.stakes, order[j]));
      ChosenAt(s.stakes, order, j, seed, s.now);
      if Wins(cfg, s, number, v) {
        var i: nat :| i < |order| && order[i] == v
                      && WeightOf(s.stakes, order[..i]) <= Prefix64(seed) % TotalWeight(list)
                         < WeightOf(s.stakes, order[..i + 1]);
        ChosenAt(s.stakes, order, i, seed, s.now);
        assert list[i].account == order[i];
      }
    }
  }

  lemma ChosenAt(stakes: map<AccountId, nat>, order: seq<AccountId>, i: nat, seed: Hash, now: nat)
    requires i < |order| && Enumerates(order, stakes.Keys) && 0 < TotalWeight(StakerList(stakes, order)) < U64_LIMIT
    ensures Choose(StakerList(stakes, order), seed, now) == SelectedAt(StakerList(stakes, order)[i], now)
       <==> WeightOf(stakes, order[..i]) <= Prefix64(seed) % TotalWeight(StakerList(stakes, order))
            < WeightOf(stakes, order[..i + 1])
  {
    hide TotalWeight, Before, Prefix64, WeightOf, StakerList, Choose;
    ListedAccounts(stakes, order);
    ChosenIff(StakerList(stakes, order), i, seed, now);
    WeightOfIsBefore(stakes, order, i);
    WeightOfIsBefore(stakes, order, i + 1);
    BeforeNext(StakerList(stakes, order), i);
  }

  lemma OrderIsListed(cfg: Config, s: State)
    requires ValidConfig(cfg)
    ensures Enumerates(cfg.iter(s.stakes.Keys), s.stakes.Keys)
    ensures Stakers(cfg, s) == StakerList(s.stakes, cfg.iter(s.stakes.Keys))
  {}

  lemma PayoutOverflowsIff(cfg: Config, s: State)
    requires ValidConfig(cfg)
    ensures cfg.blockReward * 40 < U128_LIMIT && !PayoutOverflows(Stakers(cfg, s), CalculateBlockReward(cfg.blockReward))
       <==> PayoutInRange(cfg, s)
  {
    hide Sum, TotalStake, StakerList, ProductsFit, ValidConfig;
    var order, r := cfg.iter(s.stakes.Keys), CalculateBlockReward(cfg.blockReward);
    OrderIsListed(cfg, s);
    TotalStakeIsSum(s.stakes, order);
    ProductsFitIff(s.stakes, order, r.stakersReward);
    if Sum(s.stakes) == 0 { NothingToMultiply(s.stakes, r.stakersReward); }
    FitsMeans(s.stakes, r.stakersReward);
  }

  ghost predicate ProductsFit(stakes: map<AccountId, nat>, share: nat)
  {
    forall a :: a in stakes ==> share * stakes[a] < U128_LIMIT
  }

  lemma FitsMeans(stakes: map<AccountId, nat>, share: nat)
    ensures ProductsFit(stakes, share) <==> forall a :: a in stakes ==> share * stakes[a] < U128_LIMIT
  {}

  lemma NothingToMultiply(stakes: map<AccountId, nat>, share: nat)
    requires Sum(stakes) == 0
    ensures ProductsFit(stakes, share)
  {
    hide Sum;
    forall a | a in stakes ensures share * stakes[a] < U128_LIMIT { SumAtLeast(stakes, a); }
  }

  lemma ProductsFitIff(stakes: map<AccountId, nat>, order: seq<AccountId>, share: nat)
    requires Enumerates(order, stakes.Keys)
    ensures ProductsFit(stakes, share)
       <==> forall i :: 0 <= i < |order| ==> share * StakerList(stakes, order)[i].stake < U128_LIMIT
  {
    var list := StakerList(stakes, order);
    forall i | 0 <= i < |order| ensures order[i] in stakes && list[i].stake == stakes[order[i]] {
      assert order[i] in order;
    }
    if forall i :: 0 <= i < |order| ==> share * list[i].stake < U128_LIMIT {
      forall a | a in stakes ensures share * stakes[a] < U128_LIMIT {
        var i :| 0 <= i < |order| && order[i] == a;
        assert list[i].stake == stakes[a];
      }
    }
  }

  /**
   * A validation is accepted exactly when the block waits for validators and has a producer, the account wins the seed of
   * block and host block, its post-quantum signature checks if one is required, and the payout fits.
   */
  lemma ValidateOkIff(cfg: Config, s: State, v: AccountId, number: u32, sig: PqcSignature)
    requires ValidConfig(cfg)
    ensures ValidateBlock(cfg, s, v, number, sig).1 == Ok <==>
      && s.phase == PosValidation && number in s.headers && number in s.producers
      && Wins(cfg, s, number, v) && SignatureAccepted(cfg, s, v, number, sig) && PayoutInRange(cfg, s)
  {
    hide Wins, PayoutInRange, Stakers, PayoutOverflows, PaidOut, Choose, CalculateBlockReward, ValidConfig;
    WinsIff(cfg, s, number, v);
    PayoutOverflowsIff(cfg, s);
    if Wins(cfg, s, number, v) { WinnerIsStaker(cfg, s, number, v); }
  }

  lemma WinnerIsStaker(cfg: Config, s: State, number: u32, v: AccountId)
    requires ValidConfig(cfg) && Wins(cfg, s, number, v)
    ensures v in s.stakes
  {
    hide WeightOf;
    OrderIsListed(cfg, s);
    assert v in cfg.iter(s.stakes.Keys);
  }

  /**
   * What an accepted validation records: the two signatures on the block and nothing else in the header, the winner with
   * its weight, and the floored 40 percent and the rest of the reward for the producer of the block.
   */
  lemma ValidationRecords(cfg: Config, s: State, v: AccountId, number: u32, sig: PqcSignature)
    requires ValidConfig(cfg) && ValidateBlock(cfg, s, v, number, sig).1 == Ok
    ensures number in s.headers && number in s.producers
    ensures var s' := ValidateBlock(cfg, s, v, number, sig).0;
            && number in s'.headers
            && s'.headers[number].validatorSignature == Some(cfg.hashSignature(v, number))
            && s'.headers[number].pqcSignature == Some(sig)
            && PowInputOf(s'.headers[number]) == PowInputOf(s.headers[number])
            && s'.headers[number].difficulty == s.headers[number].difficulty
            && (forall k :: k != number ==> SameAt(s.headers, s'.headers, k))
            && s'.producers == s.producers && s'.stakes == s.stakes && s'.phase == Finalization
    ensures var es, n := ValidateBlock(cfg, s, v, number, sig).0.events, |s.events|;
            && |es| == n + 2 && es[..n] == s.events
            && es[n] == ValidatorSelected(v, SaturateU64(Get(s.stakes, v)))
            && es[n + 1].RewardsDistributed? && es[n + 1].payee == s.producers[number]
            && es[n + 1].minerReward * 100 <= cfg.blockReward * 40 < (es[n + 1].minerReward + 1) * 100
            && es[n + 1].minerReward + es[n + 1].stakersReward == cfg.blockReward
  {
    hide Wins, Stakers, PayoutOverflows, PaidOut, Choose, ValidConfig, CheckPqc;
    WinsIff(cfg, s, number, v);
  }

  /** A registered key decides: with it, a validation is accepted exactly when the signature checks under that key. */
  lemma RegisteredKeyDecides(cfg: Config, s: State, v: AccountId, key: PqcKey, a: AccountId, number: u32, sig: PqcSignature)
    requires ValidConfig(cfg) && cfg.pqcRequired
    ensures var s', relaxed := RegisterPqcKey(s, v, key).0, cfg.(pqcRequired := false);
            && RegisterPqcKey(s, v, key).1 == Ok
            && (ValidateBlock(cfg, s', v, number, sig).1 == Ok <==>
                  ValidateBlock(relaxed, s, v, number, sig).1 == Ok && cfg.verifyPqc(cfg.hashSignature(v, number), sig, key))
            && (a != v ==>
                  (ValidateBlock(cfg, s', a, number, sig).1 == Ok <==> ValidateBlock(cfg, s, a, number, sig).1 == Ok))
  {
    hide ValidateBlock, Wins, PayoutInRange;
    var s', relaxed := RegisterPqcKey(s, v, key).0, cfg.(pqcRequired := false);
    ValidateOkIff(cfg, s', v, number, sig);
    ValidateOkIff(relaxed, s, v, number, sig);
    ValidateOkIff(cfg, s', a, number, sig);
    ValidateOkIff(cfg, s, a, number, sig);
    SameWinner(cfg, s, s', v, number);
    SameWinner(cfg, s, s', a, number);
    SameWinner(cfg, s, s', v, number);
    RelaxedWinner(cfg, s, v, number);
  }

  lemma SameWinner(cfg: Config, s: State, s': State, v: AccountId, number: u32)
    requires s'.stakes == s.stakes && s'.now == s.now
    ensures Wins(cfg, s', number, v) == Wins(cfg, s, number, v) && PayoutInRange(cfg, s') == PayoutInRange(cfg, s)
  {}

  lemma RelaxedWinner(cfg: Config, s: State, v: AccountId, number: u32)
    ensures Wins(cfg.(pqcRequired := false), s, number, v) == Wins(cfg, s, number, v)
    ensures PayoutInRange(cfg.(pqcRequired := false), s) == PayoutInRange(cfg, s)
  {}

  // ----- What a refusal means

  /** The submission names a stored parent, in the mining phase. */
  predicate NamesParent(s: State, h: Header)
  {
    s.phase == PowMining && h.number > 0 && h.number - 1 in s.headers
  }

  /** The validation is made by a staker, of a stored block that waits for validators. */
  predicate NamesWaiting(s: State, who: AccountId, number: u32)
  {
    who in s.stakes && number in s.headers && s.phase == PosValidation
  }

  /** What is wrong with the call for which an error is returned, and what was found right before. */
  ghost predicate Explains(cfg: Config, s: State, x: Extrinsic, e: Error)
  {
    match x
    case Signed(_, SubmitBlockCall(h)) => ExplainsSubmit(cfg, s, h, e)
    case Signed(who, StakeCall(amount)) =>
      (match e
       case InsufficientStake => amount < cfg.minStake
       case TransferRefused =>
         amount >= cfg.minStake
         && (Balance(s.ledger, who) < amount + cfg.existentialDeposit
             || !(cfg.existentialDeposit <= Balance(s.ledger, cfg.escrow) + amount < U128_LIMIT))
       case _ => false)
    case Signed(who, UnstakeCall(amount)) =>
      (match e
       case NotAValidator => who !in s.stakes
       case InsufficientStake => who in s.stakes && amount > s.stakes[who]
       case TransferRefused =>
         who in s.stakes && amount <= s.stakes[who]
         && (Balance(s.ledger, cfg.escrow) < amount
             || !(cfg.existentialDeposit <= Balance(s.ledger, who) + amount < U128_LIMIT))
       case _ => false)
    case Signed(who, ValidateBlockCall(number, sig)) => ExplainsValidate(cfg, s, who, number, sig, e)
    case Signed(_, _) => false
    case Outside(from, to, value, keepAlive) =>
      e == TransferRefused
      && (Balance(s.ledger, from) < value + (if keepAlive then cfg.existentialDeposit else 0)
          || !(cfg.existentialDeposit <= Balance(s.ledger, to) + value < U128_LIMIT))
  }

  ghost predicate ExplainsSubmit(cfg: Config, s: State, h: Header, e: Error)
  {
    var pow := PowValue(cfg.blake, PowInputOf(h));
    match e
    case InvalidPhaseTransition => s.phase != PowMining
    case InvalidBlockNumber => s.phase == PowMining && h.number == 0
    case BlockNotFound => s.phase == PowMining && h.number > 0 && h.number - 1 !in s.headers
    case InvalidParentHash => NamesParent(s, h) && h.parentHash != cfg.hashHeader(s.headers[h.number - 1])
    case InvalidPow => NamesParent(s, h) && h.parentHash == cfg.hashHeader(s.headers[h.number - 1]) && pow > h.difficulty
    case DifficultyTooLow =>
      NamesParent(s, h) && h.parentHash == cfg.hashHeader(s.headers[h.number - 1]) && pow <= h.difficulty < s.difficulty / 2
    case DifficultyTooHigh =>
      NamesParent(s, h) && h.parentHash == cfg.hashHeader(s.headers[h.number - 1]) && pow <= h.difficulty
      && h.difficulty > 2 * s.difficulty
    case _ => false
  }

  ghost predicate ExplainsValidate(cfg: Config, s: State, who: AccountId, number: u32, sig: PqcSignature, e: Error)
  {
    match e
    case NotAValidator => who !in s.stakes || (NamesWaiting(s, who, number) && !Wins(cfg, s, number, who))
    case InvalidPhaseTransition => who in s.stakes && number in s.headers && s.phase != PosValidation
    case BlockNotFound =>
      who in s.stakes
      && (number !in s.headers || (NamesWaiting(s, who, number) && Wins(cfg, s, number, who)
                                   && SignatureAccepted(cfg, s, who, number, sig) && number !in s.producers))
    case PqcPublicKeyNotFound =>
      NamesWaiting(s, who, number) && Wins(cfg, s, number, who) && cfg.pqcRequired && who !in s.pqcKeys
    case InvalidPqcSignature =>
      NamesWaiting(s, who, number) && Wins(cfg, s, number, who) && cfg.pqcRequired && who in s.pqcKeys
      && !cfg.verifyPqc(cfg.hashSignature(who, number), sig, s.pqcKeys[who])
    case _ => false
  }

  /** Every refusal changes nothing and its error names something that is wrong with the call. */
  lemma RefusalExplained(cfg: Config, s: State, x: Extrinsic)
    requires ValidConfig(cfg) && HeaderStore(cfg, s)
    ensures Dispatch(cfg, s, x).1 != Ok ==> Dispatch(cfg, s, x).0 == s
    ensures Dispatch(cfg, s, x).1.Err? ==> Explains(cfg, s, x, Dispatch(cfg, s, x).1.error)
  {
    hide SubmitBlock, ValidateBlock, Stake, Unstake, TransferOutside, ReportMisbehavior, Wins, PowValue;
    match x
    case Signed(who, SubmitBlockCall(h)) => SubmitRefusal(cfg, s, who, h);
    case Signed(who, StakeCall(amount)) => StakeRefusal(cfg, s, who, amount);
    case Signed(who, UnstakeCall(amount)) => UnstakeRefusal(cfg, s, who, amount);
    case Signed(who, ValidateBlockCall(number, sig)) => ValidateRefusal(cfg, s, who, number, sig);
    case Signed(_, ReportMisbehaviorCall(v, reason)) => ReportNeverErrs(cfg, s, v, reason);
    case Outside(from, to, value, keepAlive) => OutsideRefusal(cfg, s, from, to, value, keepAlive);
    case _ =>
  }

  lemma SubmitRefusal(cfg: Config, s: State, who: AccountId, h: Header)
    requires HeaderStore(cfg, s)
    ensures var (s', o) := SubmitBlock(cfg, s, who, h);
            (o != Ok ==> s' == s) && (o.Err? ==> Explains(cfg, s, Signed(who, SubmitBlockCall(h)), o.error))
  {
    hide PowValue, Submitted;
  }

  lemma StakeRefusal(cfg: Config, s: State, who: AccountId, amount: nat)
    ensures var (s', o) := Stake(cfg, s, who, amount);
            (o != Ok ==> s' == s) && (o.Err? ==> Explains(cfg, s, Signed(who, StakeCall(amount)), o.error))
  {}

  lemma UnstakeRefusal(cfg: Config, s: State, who: AccountId, amount: nat)
    ensures var (s', o) := Unstake(cfg, s, who, amount);
            (o != Ok ==> s' == s) && (o.Err? ==> Explains(cfg, s, Signed(who, UnstakeCall(amount)), o.error))
  {}

  lemma ValidateRefusal(cfg: Config, s: State, who: AccountId, number: u32, sig: PqcSignature)
    requires ValidConfig(cfg)
    ensures var (s', o) := ValidateBlock(cfg, s, who, number, sig);
            (o != Ok ==> s' == s) && (o.Err? ==> Explains(cfg, s, Signed(who, ValidateBlockCall(number, sig)), o.error))
  {
    hide Wins, Stakers, PayoutOverflows, PaidOut, Choose, CalculateBlockReward, ValidConfig;
    WinsIff(cfg, s, number, who);
  }

  lemma ReportNeverErrs(cfg: Config, s: State, v: AccountId, reason: Reason)
    ensures var (s', o) := ReportMisbehavior(cfg, s, v, reason); !o.Err? && (o != Ok ==> s' == s)
  {}

  lemma OutsideRefusal(cfg: Config, s: State, from: AccountId, to: AccountId, value: nat, keepAlive: bool)
    ensures var (s', o) := TransferOutside(cfg, s, from, to, value, keepAlive);
            (o != Ok ==> s' == s) && (o.Err? ==> Explains(cfg, s, Outside(from, to, value, keepAlive), o.error))
  {}

  // ----- The miners and the pallet agree

  /**
   * What the sequential search returns for a mineable header is accepted by the pallet, and where it returns nothing the
   * pallet refuses every nonce it tried.
   */
  lemma MinedBlockIsAccepted(cfg: Config, s: State, miner: AccountId, h: Header, r: Option<u64>)
    requires HeaderStore(cfg, s) && Mineable(cfg, s, h) && SequentialResult(cfg.blake, h, h.difficulty, r)
    ensures r.Some? ==> SubmitBlock(cfg, s, miner, h.(nonce := r.value)).1 == Ok
    ensures forall m: u64 :: m < (if r.Some? then r.value else 1_000_000) ==>
      SubmitBlock(cfg, s, miner, h.(nonce := m)).1 == Err(InvalidPow)
  {
    hide PowValue, SubmitBlock;
    if r.Some? { SubmitOkIff(cfg, s, miner, h.(nonce := r.value)); }
    forall m: u64 | m < (if r.Some? then r.value else 1_000_000)
      ensures SubmitBlock(cfg, s, miner, h.(nonce := m)).1 == Err(InvalidPow)
    {
      assert !VerifyPow(cfg.blake, h.(nonce := m), h.difficulty);
      OnlyPowRefuses(cfg, s, miner, h.(nonce := m));
    }
  }

  lemma OnlyPowRefuses(cfg: Config, s: State, miner: AccountId, h: Header)
    requires HeaderStore(cfg, s) && Mineable(cfg, s, h) && !VerifyPow(cfg.blake, h, h.difficulty)
    ensures SubmitBlock(cfg, s, miner, h).1 == Err(InvalidPow)
  {
    hide PowValue;
  }

  /** So is what any finished multi-threaded search returns, under every schedule and for every miner target. */
  lemma FoundNonceIsAccepted(cfg: Config, s: State, miner: AccountId, job: Job, n: nat, h0: u64, actions: seq<Action>,
                             minerTarget: u64)
    requires HeaderStore(cfg, s) && Mineable(cfg, s, Completed(job.header, 0))
    requires n < U64_LIMIT && job.blake == cfg.blake && job.target == Min(minerTarget, job.header.difficulty)
    requires Joined(RunActions(job, Initial(n, h0), actions))
    ensures var r := Result(RunActions(job, Initial(n, h0), actions));
            r.Some? ==> SubmitBlock(cfg, s, miner, Completed(job.header, r.value)).1 == Ok
  {
    hide RunActions, Initial, PowValue, SubmitBlock;
    var r := Result(RunActions(job, Initial(n, h0), actions));
    ReturnedNonceIsValid(job, n, h0, actions, minerTarget);
    if r.Some? { SubmitOkIff(cfg, s, miner, Completed(job.header, r.value)); }
  }
}
