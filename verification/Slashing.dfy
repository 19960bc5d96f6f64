/**
 * Who is slashed, by how much, and what is recorded about it: by a report, by the downtime sweep, and over runs. The
 * statements are in terms of stakes, percentages and block numbers, not of the functions that compute a slash.
 */
module Slashing {
  import opened Arith
  import opened MapSums
  import opened Types
  import opened Ledger
  import opened Rewards
  import opened Entropy
  import opened Retarget
  import opened Protocol

  /** `amount` is the floored `pct` percent of `stake`. */
  predicate IsPercentage(amount: nat, stake: nat, pct: nat)
  {
    amount * 100 <= stake * pct < (amount + 1) * 100
  }

  /** The stake falls by the floored percentage, or to zero if that is more than all of it. */
  predicate Loses(before: nat, after: nat, pct: nat)
  {
    after <= before && if pct <= 100 then IsPercentage(before - after, before, pct) else after == 0
  }

  lemma SlashIsPercentage(stake: nat, pct: u8)
    ensures IsPercentage(SlashAmount(stake, pct), stake, pct)
  {
    DivIsLargest(stake * pct, 100, stake * pct / 100);
    DivIsLargest(stake * pct, 100, stake * pct / 100 + 1);
  }

  lemma SlashLoses(stake: nat, pct: u8)
    ensures Loses(stake, AfterSlash(stake, pct), pct)
  {
    hide SlashAmount;
    SlashIsPercentage(stake, pct);
    var amount := SlashAmount(stake, pct);
    if pct <= 100 {
      MulMono(pct, 100, stake);
      assert amount <= stake;
    } else {
      MulMono(100, pct, stake);
      assert amount >= stake;
    }
  }

  // ----- Reports

  /** The percentage each reason costs. */
  function PercentageFor(cfg: Config, reason: Reason): u8
  {
    if reason == DoubleSigning then cfg.doubleSignPct
    else if reason == InvalidBlock then cfg.invalidBlockPct
    else if reason == Downtime then cfg.downtimePct
    else 10
  }

  /** The account has a report on record for this reason; only two reasons are recorded. */
  predicate Flagged(s: State, a: AccountId, reason: Reason)
  {
    match reason
    case DoubleSigning => a in s.doubleSignReports
    case InvalidBlock => a in s.invalidBlockReports
    case _ => false
  }

  /**
   * A report is accepted exactly while the percentage of the stake fits in u128. It takes that percentage from the
   * reported account and from nobody else, announces it, and records double signing and invalid blocks.
   */
  lemma ReportTakes(cfg: Config, s: State, v: AccountId, reason: Reason)
    ensures var pct, stake := PercentageFor(cfg, reason), Get(s.stakes, v);
            var (s', outcome) := ReportMisbehavior(cfg, s, v, reason);
            && (outcome == Ok <==> stake * pct < U128_LIMIT)
            && (outcome == Ok ==>
                  && v in s'.stakes && Loses(stake, s'.stakes[v], pct)
                  && |s'.events| == |s.events| + 1 && s'.events[..|s.events|] == s.events
                  && var e := s'.events[|s.events|];
                     e.ValidatorSlashed? && e.offender == v && e.reason == reason && IsPercentage(e.amount, stake, pct))
    ensures forall a :: a != v ==> Lookup(ReportMisbehavior(cfg, s, v, reason).0.stakes, a) == Lookup(s.stakes, a)
    ensures var (s', outcome) := ReportMisbehavior(cfg, s, v, reason);
            forall a :: Flagged(s', a, DoubleSigning) == (Flagged(s, a, DoubleSigning)
                                                          || (a == v && reason == DoubleSigning && outcome == Ok))
    ensures var (s', outcome) := ReportMisbehavior(cfg, s, v, reason);
            forall a :: Flagged(s', a, InvalidBlock) == (Flagged(s, a, InvalidBlock)
                                                         || (a == v && reason == InvalidBlock && outcome == Ok))
    ensures ReportMisbehavior(cfg, s, v, reason).0.ledger == s.ledger
    ensures ReportMisbehavior(cfg, s, v, reason).0.records == s.records
  {
    hide SlashAmount, AfterSlash, Loses, IsPercentage;
    SlashIsPercentage(Get(s.stakes, v), PercentageFor(cfg, reason));
    SlashLoses(Get(s.stakes, v), PercentageFor(cfg, reason));
  }

  // ----- The downtime sweep

  /** The block number an absence is measured against: the host block, saturated to u32. */
  function CurrentBlock(now: nat): nat
  {
    if now < 0x1_0000_0000 then now else 0xFFFF_FFFF
  }

  /** More than the allowed number of blocks have passed since the account was last active. */
  predicate Absent(cfg: Config, s: State, now: nat, v: AccountId)
  {
    v in s.lastActive && CurrentBlock(now) > s.lastActive[v] + cfg.maxDowntime
  }

  lemma AbsentIsInactive(cfg: Config, s: State, v: AccountId)
    ensures Absent(cfg, s, s.now, v) <==> Inactive(cfg, s, v)
  {}

  /** A sweep takes the downtime percentage from every absent staker and nothing from anybody else. */
  lemma SweepTakes(cfg: Config, s: State, v: AccountId)
    requires ValidConfig(cfg)
    ensures v in Sweep(cfg, s).stakes <==> v in s.stakes
    ensures v in s.stakes ==>
      if Absent(cfg, s, s.now, v) then Loses(s.stakes[v], Sweep(cfg, s).stakes[v], cfg.downtimePct)
      else Sweep(cfg, s).stakes[v] == s.stakes[v]
  {
    hide AfterSlash, SweepRecords, SweepEvents, Loses;
    AbsentIsInactive(cfg, s, v);
    if v in s.stakes { SlashLoses(s.stakes[v], cfg.downtimePct); }
  }

  /** The hook sweeps at every tenth host block, and only then. */
  lemma InitializeTakes(cfg: Config, s: State, v: AccountId)
    requires ValidConfig(cfg) && Initialize(cfg, s).1 == Ok
    ensures v in Initialize(cfg, s).0.stakes <==> v in s.stakes
    ensures v in s.stakes ==>
      if (s.now + 1) % 10 == 0 && Absent(cfg, s, s.now + 1, v)
      then Loses(s.stakes[v], Initialize(cfg, s).0.stakes[v], cfg.downtimePct)
      else Initialize(cfg, s).0.stakes[v] == s.stakes[v]
  {
    hide Sweep, SweepOverflows, Adjusted, EntropyOf, Loses, Absent;
    var s1 := s.(now := s.now + 1);
    SweepTakes(cfg, s1, v);
    SameAbsence(cfg, s, s1, v);
  }

  lemma SameAbsence(cfg: Config, s: State, s': State, v: AccountId)
    requires s'.lastActive == s.lastActive
    ensures Absent(cfg, s, s'.now, v) <==> Absent(cfg, s', s'.now, v)
  {}

  /** The hook overflows exactly when the percentage of some absent stake does not fit at a tenth block. */
  lemma InitializeOkIff(cfg: Config, s: State)
    ensures Initialize(cfg, s).1 == Ok <==>
      (s.now + 1) % 10 != 0
      || forall v :: v in s.stakes && Absent(cfg, s, s.now + 1, v) ==> s.stakes[v] * cfg.downtimePct < U128_LIMIT
  {
    hide Sweep, AdjustDifficulty, Absent;
    var s1 := s.(now := s.now + 1);
    forall v ensures Absent(cfg, s, s1.now, v) <==> Inactive(cfg, s1, v) {
      SameAbsence(cfg, s, s1, v);
      AbsentIsInactive(cfg, s1, v);
    }
    if SweepOverflows(cfg, s1) {
      var v :| SlashOverflows(cfg, s1, v);
      assert v in s.stakes && Absent(cfg, s, s.now + 1, v);
    }
    forall v | v in s.stakes && Absent(cfg, s, s.now + 1, v) && s.stakes[v] * cfg.downtimePct >= U128_LIMIT
      ensures SweepOverflows(cfg, s1)
    {
      assert SlashOverflows(cfg, s1, v);
    }
  }

  /** The hook measures entropy at every hundredth host block, and logs a retarget exactly when it changes something. */
  lemma InitializeMeasures(cfg: Config, s: State)
    requires Initialize(cfg, s).1 == Ok
    ensures var s', due := Initialize(cfg, s).0, (s.now + 1) % 100 == 0;
            && s'.now == s.now + 1 && s'.lastActive == s.lastActive
            && s'.entropy == (if due then EntropyOf(s.window) else s.entropy)
            && (s'.difficulty != s.difficulty ==>
                  due && s'.events != [] && s'.events[|s'.events| - 1] == DifficultyAdjusted(s.difficulty, s'.difficulty))
            && (s'.difficulty == s.difficulty ==>
                  forall i :: |s.events| <= i < |s'.events| ==> !s'.events[i].DifficultyAdjusted?)
  {
    hide Sweep, SweepOverflows, Adjusted, EntropyOf;
    SweepLeaves(cfg, s.(now := s.now + 1));
    SweepLogsSlashes(cfg, s.(now := s.now + 1));
  }

  function AsEvent(r: Record): Event
  {
    ValidatorSlashed(r.validator, r.reason, r.amount)
  }

  /** The events of a sweep announce exactly its records, in the same order. */
  lemma {:induction false} SweepEventsAreRecords(cfg: Config, s: State, visited: seq<AccountId>)
    ensures var rs, es := SweepRecords(cfg, s, visited), SweepEvents(cfg, s, visited);
            |es| == |rs| && forall i :: 0 <= i < |rs| ==> es[i] == AsEvent(rs[i])
  {
    hide SlashAmount, Inactive;
    if visited != [] { SweepEventsAreRecords(cfg, s, visited[..|visited| - 1]); }
  }

  lemma SweepLogsSlashes(cfg: Config, s: State)
    ensures forall i :: |s.events| <= i < |Sweep(cfg, s).events| ==> Sweep(cfg, s).events[i].ValidatorSlashed?
  {
    hide SweptStakes, SweepRecords, SweepEvents;
    SweepEventsAreRecords(cfg, s, cfg.iter(s.lastActive.Keys));
  }

  lemma SweepLeaves(cfg: Config, s: State)
    ensures var s' := Sweep(cfg, s);
            && s'.now == s.now && s'.window == s.window && s'.lastActive == s.lastActive
            && s'.entropy == s.entropy && s'.difficulty == s.difficulty
  {}

  // ----- What a sweep records

  function RecordsAbout(rs: seq<Record>, v: AccountId): seq<Record>
  {
    if rs == [] then []
    else RecordsAbout(rs[..|rs| - 1], v) + if rs[|rs| - 1].validator == v then [rs[|rs| - 1]] else []
  }

  lemma RecordsAboutAdd(rs: seq<Record>, r: Record, v: AccountId)
    ensures RecordsAbout(rs + [r], v) == RecordsAbout(rs, v) + if r.validator == v then [r] else []
  {
    assert (rs + [r])[..|rs|] == rs;
  }

  lemma {:induction false} RecordsOfVisited(cfg: Config, s: State, order: seq<AccountId>, i: nat, v: AccountId)
    requires i <= |order| && Enumerates(order, s.lastActive.Keys)
    ensures RecordsAbout(SweepRecords(cfg, s, order[..i]), v)
         == if v in order[..i] && Swept(cfg, s, v)
            then [Record(v, Downtime, SlashAmount(s.stakes[v], cfg.downtimePct), s.now)] else []
    decreases i
  {
    hide SlashAmount, Inactive;
    if i == 0 {
      assert order[..0] == [];
    } else {
      var u, visited := order[i - 1], order[..i - 1];
      assert order[..i] == visited + [u] && order[..i][..i - 1] == visited;
      assert u !in visited;
      RecordsOfVisited(cfg, s, order, i - 1, v);
      if Swept(cfg, s, u) {
        RecordsAboutAdd(SweepRecords(cfg, s, visited),
                        Record(u, Downtime, SlashAmount(s.stakes[u], cfg.downtimePct), s.now), v);
      } else {
        assert SweepRecords(cfg, s, visited) + [] == SweepRecords(cfg, s, visited);
      }
    }
  }

  /** A sweep keeps all earlier records and adds one, with block, reason and amount, for every absent staker. */
  lemma SweepRecordsEach(cfg: Config, s: State, v: AccountId) returns (added: seq<Record>)
    requires ValidConfig(cfg)
    ensures Sweep(cfg, s).records == s.records + added
    ensures v in s.stakes && Absent(cfg, s, s.now, v) ==>
      |RecordsAbout(added, v)| == 1
      && RecordsAbout(added, v)[0].reason == Downtime && RecordsAbout(added, v)[0].block == s.now
      && IsPercentage(RecordsAbout(added, v)[0].amount, s.stakes[v], cfg.downtimePct)
    ensures v !in s.stakes || !Absent(cfg, s, s.now, v) ==> RecordsAbout(added, v) == []
  {
    hide SlashAmount, SweepRecords, RecordsAbout, IsPercentage, Absent, Inactive;
    var order := cfg.iter(s.lastActive.Keys);
    added := SweepRecords(cfg, s, order);
    RecordsOfVisited(cfg, s, order, |order|, v);
    assert order[..|order|] == order;
    AbsentIsInactive(cfg, s, v);
    if Inactive(cfg, s, v) { InactiveIsListed(cfg, s, v); }
    if v in s.stakes { SlashIsPercentage(s.stakes[v], cfg.downtimePct); }
  }

  lemma InactiveIsListed(cfg: Config, s: State, v: AccountId)
    requires ValidConfig(cfg) && Inactive(cfg, s, v)
    ensures v in cfg.iter(s.lastActive.Keys)
  {}

  // ----- Activity over runs

  /** The block number an accepted call names as the last activity of its signer. */
  ghost function Names(cfg: Config, s: State, x: Extrinsic, v: AccountId): Option<u32>
  {
    if Dispatch(cfg, s, x).1 != Ok || !x.Signed? || x.who != v then None
    else
      match x.call
      case SubmitBlockCall(h) => Some(h.number)
      case ValidateBlockCall(number, _) => Some(number)
      case _ => None
  }

  /** The block number named last by an accepted submission or validation of `v`, or else the one before these calls. */
  ghost function NamedByCalls(cfg: Config, s: State, xs: seq<Extrinsic>, v: AccountId, earlier: Option<u32>): Option<u32>
  {
    if xs == [] then earlier
    else
      var k := |xs| - 1;
      var last := Names(cfg, RunCalls(cfg, s, xs[..k]), xs[k], v);
      if last.Some? then last else NamedByCalls(cfg, s, xs[..k], v, earlier)
  }

  ghost function NamedByRun(cfg: Config, s: State, blocks: seq<seq<Extrinsic>>, v: AccountId): Option<u32>
  {
    if blocks == [] then LastActivity(s, v)
    else
      var k := |blocks| - 1;
      var before := Run(cfg, s, blocks[..k]);
      var earlier := NamedByRun(cfg, s, blocks[..k], v);
      if Initialize(cfg, before).1 != Ok then earlier
      else NamedByCalls(cfg, Initialize(cfg, before).0, blocks[k], v, earlier)
  }

  function LastActivity(s: State, v: AccountId): Option<u32>
  {
    if v in s.lastActive then Some(s.lastActive[v]) else None
  }

  lemma DispatchNames(cfg: Config, s: State, x: Extrinsic, v: AccountId)
    ensures LastActivity(Dispatch(cfg, s, x).0, v)
         == if Names(cfg, s, x, v).Some? then Names(cfg, s, x, v) else LastActivity(s, v)
  {
    hide Transfer, ValidateHeader, PushProducer, CheckPqc, PaidOut, PayoutOverflows, Stakers, Sign;
  }

  lemma {:induction false} CallsName(cfg: Config, s: State, xs: seq<Extrinsic>, v: AccountId)
    ensures LastActivity(RunCalls(cfg, s, xs), v) == NamedByCalls(cfg, s, xs, v, LastActivity(s, v))
  {
    hide Dispatch, Names;
    if xs != [] {
      var k := |xs| - 1;
      CallsName(cfg, s, xs[..k], v);
      DispatchNames(cfg, RunCalls(cfg, s, xs[..k]), xs[k], v);
    }
  }

  /** On every run the last activity is the block number the account named last. */
  lemma {:induction false} RunNames(cfg: Config, s: State, blocks: seq<seq<Extrinsic>>, v: AccountId)
    ensures LastActivity(Run(cfg, s, blocks), v) == NamedByRun(cfg, s, blocks, v)
  {
    hide Initialize, RunCalls, NamedByCalls;
    if blocks != [] {
      var k := |blocks| - 1;
      RunNames(cfg, s, blocks[..k], v);
      var before := Run(cfg, s, blocks[..k]);
      if Initialize(cfg, before).1 == Ok {
        InitializeMeasures(cfg, before);
        CallsName(cfg, Initialize(cfg, before).0, blocks[k], v);
      }
    }
  }

  /**
   * After any run: the next hook takes the downtime percentage from an account if it is a tenth block and the block the
   * account named last, in an accepted submission or validation, is too far back. Otherwise the account loses nothing.
   */
  lemma OnlyAbsenteesLose(cfg: Config, g: State, blocks: seq<seq<Extrinsic>>, v: AccountId)
    requires ValidConfig(cfg) && Initialize(cfg, Run(cfg, g, blocks)).1 == Ok && v in Run(cfg, g, blocks).stakes
    ensures var s, named := Run(cfg, g, blocks), NamedByRun(cfg, g, blocks, v);
            var s' := Initialize(cfg, s).0;
            && v in s'.stakes
            && if (s.now + 1) % 10 == 0 && named.Some? && CurrentBlock(s.now + 1) > named.value + cfg.maxDowntime
               then Loses(s.stakes[v], s'.stakes[v], cfg.downtimePct)
               else s'.stakes[v] == s.stakes[v]
  {
    hide Run, Initialize, NamedByRun, Loses;
    RunNames(cfg, g, blocks, v);
    InitializeTakes(cfg, Run(cfg, g, blocks), v);
  }
}
