/**
 * The downtime sweep visits a map in an unspecified order. Each visited validator is slashed once,
 * from its original stake, so the order does not matter and the amounts add up.
 */
module Downtime {
  import opened Arith
  import opened MapSums
  import opened Types
  import opened Rewards
  import opened Protocol
  import opened History
  import opened Steps

  lemma SweepOverNobody(cfg: Config, s: State)
    ensures SweepOver(cfg, s, []) == s
  {
    assert SweptStakes(cfg, s, []) == s.stakes;
  }

  /** Visiting one more validator of an enumeration slashes it exactly once, from its original stake. */
  lemma SweepOverNext(cfg: Config, s: State, order: seq<AccountId>, i: nat)
    requires i < |order| && Enumerates(order, s.lastActive.Keys)
    ensures order[i] in s.lastActive
    ensures SlashOverflows(cfg, SweepOver(cfg, s, order[..i]), order[i]) == SlashOverflows(cfg, s, order[i])
    ensures SweepOver(cfg, s, order[..i + 1]) == SweepOne(cfg, SweepOver(cfg, s, order[..i]), order[i])
  {
    hide SlashAmount, SweptStakes;
    var v, visited := order[i], order[..i];
    assert order[..i + 1] == visited + [v];
    assert order[..i + 1][..i] == visited;
    SweptStakesNext(cfg, s, visited, v);
  }

  lemma SweptStakesNext(cfg: Config, s: State, visited: seq<AccountId>, v: AccountId)
    requires v !in visited
    ensures v in s.stakes ==> v in SweptStakes(cfg, s, visited) && SweptStakes(cfg, s, visited)[v] == s.stakes[v]
    ensures SweptStakes(cfg, s, visited).Keys == s.stakes.Keys
    ensures SweptStakes(cfg, s, visited + [v])
         == if Swept(cfg, s, v) then SweptStakes(cfg, s, visited)[v := AfterSlash(s.stakes[v], cfg.downtimePct)]
            else SweptStakes(cfg, s, visited)
  {
    hide AfterSlash;
  }

  // ----- Conservation

  /** The computed slash of a swept validator fits in its stake. */
  predicate SlashFits(cfg: Config, s: State, v: AccountId)
  {
    Swept(cfg, s, v) ==> SlashAmount(s.stakes[v], cfg.downtimePct) <= s.stakes[v]
  }

  /** The sweep announces at least what it takes, and exactly that when every slash so far fits in its stake. */
  lemma {:induction false} SweepAnnounces(cfg: Config, s: State, order: seq<AccountId>, i: nat)
    requires i <= |order| && Enumerates(order, s.lastActive.Keys)
    ensures var left, announced := Sum(SweptStakes(cfg, s, order[..i])), Tally(Slashes, SweepEvents(cfg, s, order[..i]));
            && left <= Sum(s.stakes) <= left + announced
            && (left + announced == Sum(s.stakes) <==> forall j :: 0 <= j < i ==> SlashFits(cfg, s, order[j]))
    decreases i
  {
    hide AfterSlash, SlashAmount, SweptStakes, Sum, Tally;
    if i == 0 {
      SweepOverNobody(cfg, s);
      assert order[..0] == [];
      NothingTallied(Slashes);
    } else {
      var v, visited := order[i - 1], order[..i - 1];
      assert order[..i] == visited + [v];
      assert (visited + [v])[..i - 1] == visited;
      SweepAnnounces(cfg, s, order, i - 1);
      SweptStakesNext(cfg, s, visited, v);
      if Swept(cfg, s, v) {
        SlashAnnounced(s.stakes[v], cfg.downtimePct);
        SumUpdate(SweptStakes(cfg, s, visited), v, AfterSlash(s.stakes[v], cfg.downtimePct));
        TallyAdd(Slashes, SweepEvents(cfg, s, visited),
                 ValidatorSlashed(v, Downtime, SlashAmount(s.stakes[v], cfg.downtimePct)));
      } else {
        assert SweepEvents(cfg, s, order[..i]) == SweepEvents(cfg, s, visited) + [];
        assert SweepEvents(cfg, s, visited) + [] == SweepEvents(cfg, s, visited);
      }
    }
  }

  /** The same for the whole sweep, in any order. */
  lemma SweepAnnouncesIff(cfg: Config, s: State)
    requires ValidConfig(cfg)
    ensures var order := cfg.iter(s.lastActive.Keys);
            var left, announced := Sum(Sweep(cfg, s).stakes), Tally(Slashes, SweepEvents(cfg, s, order));
            && left <= Sum(s.stakes) <= left + announced
            && (left + announced == Sum(s.stakes) <==> forall v :: SlashFits(cfg, s, v))
  {
    hide SweptStakes, SlashAmount;
    var order := cfg.iter(s.lastActive.Keys);
    SweepAnnounces(cfg, s, order, |order|);
    assert order[..|order|] == order;
    if forall j :: 0 <= j < |order| ==> SlashFits(cfg, s, order[j]) {
      forall v ensures SlashFits(cfg, s, v) {
        if Swept(cfg, s, v) {
          assert v in order;
        }
      }
    }
  }

  /** Percentages up to one hundred always fit. */
  lemma PercentagesFit(cfg: Config, s: State)
    requires cfg.downtimePct <= 100
    ensures forall v :: SlashFits(cfg, s, v)
  {
    hide SlashAmount;
    forall v ensures SlashFits(cfg, s, v) {
      if Swept(cfg, s, v) { SlashWithin(s.stakes[v], cfg.downtimePct); }
    }
  }

  function RecordTotal(rs: seq<Record>): nat
  {
    if rs == [] then 0 else RecordTotal(rs[..|rs| - 1]) + rs[|rs| - 1].amount
  }

  lemma {:induction false} RecordsMatchEvents(cfg: Config, s: State, visited: seq<AccountId>)
    ensures RecordTotal(SweepRecords(cfg, s, visited)) == Tally(Slashes, SweepEvents(cfg, s, visited))
  {
    hide SlashAmount;
    if visited != [] {
      var front, v := visited[..|visited| - 1], visited[|visited| - 1];
      RecordsMatchEvents(cfg, s, front);
      var rs, es := SweepRecords(cfg, s, front), SweepEvents(cfg, s, front);
      if Swept(cfg, s, v) {
        var amount := SlashAmount(s.stakes[v], cfg.downtimePct);
        assert (rs + [Record(v, Downtime, amount, s.now)])[..|rs|] == rs;
        TallyAdd(Slashes, es, ValidatorSlashed(v, Downtime, amount));
      } else {
        assert rs + [] == rs && es + [] == es;
      }
    }
  }

  /**
   * The amounts appended to the slashing records add up to at least the total drop of the stakes, and to exactly
   * that if and only if no computed slash exceeds its stake.
   */
  lemma RecordsSumToStakeDropIff(cfg: Config, s: State)
    requires ValidConfig(cfg)
    ensures Sweep(cfg, s).records == s.records + SweepRecords(cfg, s, cfg.iter(s.lastActive.Keys))
    ensures var left, recorded := Sum(Sweep(cfg, s).stakes), RecordTotal(SweepRecords(cfg, s, cfg.iter(s.lastActive.Keys)));
            && left <= Sum(s.stakes) <= left + recorded
            && (left + recorded == Sum(s.stakes) <==> forall v :: SlashFits(cfg, s, v))
  {
    hide SweptStakes, SweepRecords, SweepEvents, SlashAmount;
    SweepAnnouncesIff(cfg, s);
    RecordsMatchEvents(cfg, s, cfg.iter(s.lastActive.Keys));
  }

  /** A sweep at 200 percent records two units for a stake of one, whatever else it visits. */
  lemma OversweepBreaksRecords(cfg: Config, s: State, v: AccountId)
    requires ValidConfig(cfg) && cfg.downtimePct == 200 && Swept(cfg, s, v) && s.stakes[v] == 1
    ensures Sum(Sweep(cfg, s).stakes) + RecordTotal(SweepRecords(cfg, s, cfg.iter(s.lastActive.Keys))) > Sum(s.stakes)
  {
    hide Sum, Sweep, SweepRecords;
    RecordsSumToStakeDropIff(cfg, s);
    assert !SlashFits(cfg, s, v);
  }

  /** Folding the single-validator step over any two orders of the map gives the same stakes. */
  lemma SweepOrderIndependent(cfg: Config, s: State, order: seq<AccountId>, order': seq<AccountId>)
    requires Enumerates(order, s.lastActive.Keys) && Enumerates(order', s.lastActive.Keys)
    ensures SweepEach(cfg, s, order).stakes == SweepEach(cfg, s, order').stakes
  {
    SweepEachIsSweepOver(cfg, s, order, |order|);
    SweepEachIsSweepOver(cfg, s, order', |order'|);
    assert order[..|order|] == order && order'[..|order'|] == order';
  }

  function SweepEach(cfg: Config, s: State, order: seq<AccountId>): State
  {
    if order == [] then s else SweepOne(cfg, SweepEach(cfg, s, order[..|order| - 1]), order[|order| - 1])
  }

  lemma {:induction false} SweepEachIsSweepOver(cfg: Config, s: State, order: seq<AccountId>, i: nat)
    requires i <= |order| && Enumerates(order, s.lastActive.Keys)
    ensures SweepEach(cfg, s, order[..i]) == SweepOver(cfg, s, order[..i])
    decreases i
  {
    hide SweepOne, SweepOver;
    if i == 0 {
      assert order[..0] == [];
      SweepOverNobody(cfg, s);
    } else {
      assert order[..i][..i - 1] == order[..i - 1];
      SweepEachIsSweepOver(cfg, s, order, i - 1);
      SweepOverNext(cfg, s, order, i - 1);
    }
  }

  // ----- Repeated sweeps

  /** The state after sweeps at the given host block numbers. */
  ghost function AfterSweeps(cfg: Config, s: State, times: seq<nat>): State
  {
    if times == [] then s
    else Sweep(cfg, AfterSweeps(cfg, s, times[..|times| - 1]).(now := times[|times| - 1]))
  }

  /** However often a validator is swept, it keeps at least `((100 - p) / 100)^k` of its stake. */
  lemma {:induction false} StakeDecaysGeometrically(cfg: Config, s: State, times: seq<nat>, v: AccountId)
    requires v in s.stakes && cfg.downtimePct < 100
    ensures v in AfterSweeps(cfg, s, times).stakes
    ensures AfterSweeps(cfg, s, times).stakes[v] <= s.stakes[v]
    ensures AfterSweeps(cfg, s, times).stakes[v] * Pow(100, |times|) >= s.stakes[v] * Pow(100 - cfg.downtimePct, |times|)
    ensures s.stakes[v] > 0 ==> AfterSweeps(cfg, s, times).stakes[v] > 0
  {
    hide AfterSlash, Sweep, Pow;
    PowNext(100, |times|);
    PowNext(100 - cfg.downtimePct, |times|);
    if times != [] {
      var k := |times| - 1;
      PowNext(100, k);
      PowNext(100 - cfg.downtimePct, k);
      StakeDecaysGeometrically(cfg, s, times[..k], v);
      SweepKeepsShare(cfg, AfterSweeps(cfg, s, times[..k]).(now := times[k]), v);
      var before := AfterSweeps(cfg, s, times[..k]).stakes[v];
      var after := AfterSweeps(cfg, s, times).stakes[v];
      Compound(after, before, s.stakes[v], Pow(100 - cfg.downtimePct, k), Pow(100, k), 100 - cfg.downtimePct, 100);
    }
  }

  lemma SweepKeepsShare(cfg: Config, s: State, v: AccountId)
    requires v in s.stakes && cfg.downtimePct < 100
    ensures v in Sweep(cfg, s).stakes
    ensures Sweep(cfg, s).stakes[v] <= s.stakes[v]
    ensures Sweep(cfg, s).stakes[v] * 100 >= s.stakes[v] * (100 - cfg.downtimePct)
    ensures s.stakes[v] > 0 ==> Sweep(cfg, s).stakes[v] > 0
  {
    hide AfterSlash, SweepRecords, SweepEvents;
    SlashKeepsShare(s.stakes[v], cfg.downtimePct);
    MulMono(100 - cfg.downtimePct, 100, s.stakes[v]);
    assert Sweep(cfg, s).stakes[v] == s.stakes[v] || Sweep(cfg, s).stakes[v] == AfterSlash(s.stakes[v], cfg.downtimePct);
  }

  lemma SlashKeepsShare(stake: nat, pct: u8)
    requires pct < 100
    ensures AfterSlash(stake, pct) <= stake
    ensures AfterSlash(stake, pct) * 100 >= stake * (100 - pct)
    ensures stake > 0 ==> AfterSlash(stake, pct) > 0
  {
    SlashWithin(stake, pct);
    assert SlashAmount(stake, pct) * 100 <= stake * pct;
    assert stake * (100 - pct) == stake * 100 - stake * pct;
    if stake > 0 { MulMono(1, 100 - pct, stake); }
  }
}
