/** Quantities read off the event log, and the invariants of the pallet that use them. */
module History {
  import opened Arith
  import opened MapSums
  import opened Types
  import opened Ledger
  import opened Protocol

  /** What an event log is added up by. */
  datatype Kind = Submissions | Validations | Slashes | AllDust | DustOf(owner: AccountId) | GiftsTo(receiver: AccountId)

  function Weight(k: Kind, e: Event): nat
  {
    match e
    case BlockMined(_, _, _) => if k == Submissions then 1 else 0
    case ValidatorSelected(_, _) => if k == Validations then 1 else 0
    case ValidatorSlashed(_, _, amount) => if k == Slashes then amount else 0
    case DustLost(a, dust) => if k == AllDust || k == DustOf(a) then dust else 0
    case OutsideTransfer(_, to, moved) => if k == GiftsTo(to) then moved else 0
    case _ => 0
  }

  function Tally(k: Kind, es: seq<Event>): nat
  {
    if es == [] then 0 else Tally(k, es[..|es| - 1]) + Weight(k, es[|es| - 1])
  }

  lemma {:induction false} TallyAppend(k: Kind, es: seq<Event>, fs: seq<Event>)
    ensures Tally(k, es + fs) == Tally(k, es) + Tally(k, fs)
  {
    if fs == [] {
      assert es + fs == es;
    } else {
      var n := |fs| - 1;
      assert (es + fs)[..|es + fs| - 1] == es + fs[..n];
      TallyAppend(k, es, fs[..n]);
    }
  }

  lemma NothingTallied(k: Kind)
    ensures Tally(k, []) == 0
  {}

  lemma TallyOne(k: Kind, e: Event)
    ensures Tally(k, [e]) == Weight(k, e)
  {
    assert [e][..0] == [];
  }

  lemma TallyAdd(k: Kind, es: seq<Event>, e: Event)
    ensures Tally(k, es + [e]) == Tally(k, es) + Weight(k, e)
  {
    TallyAppend(k, es, [e]);
    TallyOne(k, e);
  }

  /** Dust of one account is part of all dust. */
  lemma {:induction false} DustWithinAll(a: AccountId, es: seq<Event>)
    ensures Tally(DustOf(a), es) <= Tally(AllDust, es)
  {
    if es != [] { DustWithinAll(a, es[..|es| - 1]); }
  }

  /** The miners of all accepted submissions, oldest first. */
  function Miners(es: seq<Event>): seq<AccountId>
  {
    if es == [] then []
    else
      var e := es[|es| - 1];
      Miners(es[..|es| - 1]) + if e.BlockMined? then [e.miner] else []
  }

  lemma {:induction false} MinersAppend(es: seq<Event>, fs: seq<Event>)
    ensures Miners(es + fs) == Miners(es) + Miners(fs)
  {
    if fs == [] {
      assert es + fs == es;
    } else {
      var n := |fs| - 1;
      assert (es + fs)[..|es + fs| - 1] == es + fs[..n];
      MinersAppend(es, fs[..n]);
    }
  }

  lemma {:induction false} MinersCountSubmissions(es: seq<Event>)
    ensures |Miners(es)| == Tally(Submissions, es)
  {
    if es != [] { MinersCountSubmissions(es[..|es| - 1]); }
  }

  /** Whose submission of block `k` was accepted last. */
  function MinerOf(es: seq<Event>, k: u32): Option<AccountId>
  {
    if es == [] then None
    else
      var e := es[|es| - 1];
      if e.BlockMined? && e.number == k then Some(e.miner) else MinerOf(es[..|es| - 1], k)
  }

  lemma MinerOfAdd(es: seq<Event>, e: Event, k: u32)
    ensures MinerOf(es + [e], k) == if e.BlockMined? && e.number == k then Some(e.miner) else MinerOf(es, k)
  {}

  // ----- Invariants

  /** Stored numbers have no gap, agree with their keys, and every mined header meets its own target. */
  ghost predicate HeaderStore(cfg: Config, s: State)
  {
    && 0 in s.headers
    && (forall k :: k in s.headers ==> s.headers[k].number == k)
    && (forall k :: k in s.headers && k > 0 ==> k - 1 in s.headers)
    && (forall k :: k in s.producers <==> k in s.headers && k > 0)
    && (forall k :: k in s.producers ==> VerifyPow(cfg.blake, s.headers[k], s.headers[k].difficulty))
    && (Miners(s.events) != [] ==> s.producers.Keys != {})
  }

  /** The recorded producer of a block is the account whose submission of it was accepted last. */
  ghost predicate ProducersMatchLog(s: State)
  {
    forall k :: k in s.producers ==> MinerOf(s.events, k) == Some(s.producers[k])
  }

  lemma {:induction false} StoredRangeHasNoGap(cfg: Config, s: State, j: u32, k: u32)
    requires HeaderStore(cfg, s) && k in s.headers && j <= k
    ensures j in s.headers
    decreases k
  {
    if j < k { StoredRangeHasNoGap(cfg, s, j, k - 1); }
  }

  function LastOf(miners: seq<AccountId>): Window
  {
    if |miners| <= WINDOW_LIMIT then miners else miners[|miners| - WINDOW_LIMIT..]
  }

  /** The rolling window is the end of the full log of accepted miners. */
  predicate WindowMatches(s: State)
  {
    s.window == LastOf(Miners(s.events))
  }

  /** Submissions and validations alternate, starting with a submission. */
  predicate PhaseMatches(s: State)
  {
    Tally(Submissions, s.events) == Tally(Validations, s.events) + (if s.phase == PosValidation then 1 else 0)
  }

  /** The keyless escrow account holds no stake of its own and mined nothing. */
  ghost predicate EscrowIdle(cfg: Config, s: State)
  {
    Get(s.stakes, cfg.escrow) == 0 && forall k :: k in s.producers ==> s.producers[k] != cfg.escrow
  }

  /** Money in escrow, and burned from it, beyond the recorded stakes. */
  ghost function Backing(cfg: Config, s: State): int
  {
    Balance(s.ledger, cfg.escrow) + Tally(DustOf(cfg.escrow), s.events) - Sum(s.stakes)
  }

  /** The backing that neither announced slashes nor gifts explain. */
  ghost function Imbalance(cfg: Config, s: State): int
  {
    Backing(cfg, s) - Tally(Slashes, s.events) - Tally(GiftsTo(cfg.escrow), s.events)
  }

  /** Everything ever issued: what exists plus what was burned as dust. */
  function Gross(s: State): nat
  {
    s.ledger.issuance + Tally(AllDust, s.events)
  }

  /** Header store, producers, window and phase agree with the log. */
  ghost predicate ChainSound(cfg: Config, s: State)
  {
    HeaderStore(cfg, s) && ProducersMatchLog(s) && WindowMatches(s) && PhaseMatches(s)
  }

  ghost predicate MoneySound(cfg: Config, s: State)
  {
    EscrowIdle(cfg, s) && Valid(s.ledger, cfg.existentialDeposit)
  }

  ghost predicate Sound(cfg: Config, s: State)
  {
    ChainSound(cfg, s) && MoneySound(cfg, s)
  }

  /** No slash takes more than the whole stake. Only the escrow identity needs this. */
  predicate Percentages(cfg: Config)
  {
    cfg.doubleSignPct <= 100 && cfg.invalidBlockPct <= 100 && cfg.downtimePct <= 100
  }

  /** Nobody signs for the escrow account: a pallet account has no key. */
  predicate Keyless(cfg: Config, x: Extrinsic)
  {
    match x
    case Signed(who, _) => who != cfg.escrow
    case Outside(from, _, _, _) => from != cfg.escrow
  }

  /** A chain before its first host block: a seeded header 0 and nothing else. */
  ghost predicate Genesis(cfg: Config, s: State)
  {
    && s.phase == PowMining
    && 0 in s.headers && s.headers.Keys == {0} && s.headers[0].number == 0
    && s.producers == map[] && s.stakes == map[] && s.window == [] && s.events == []
    && Valid(s.ledger, cfg.existentialDeposit)
  }

  lemma GenesisIsSound(cfg: Config, s: State)
    requires Genesis(cfg, s)
    ensures Sound(cfg, s)
    ensures Imbalance(cfg, s) == Backing(cfg, s) == Balance(s.ledger, cfg.escrow)
  {}
}
