/** `select_pos_validator`: the validator whose cumulative weight interval holds the seed. */
module Selection {
  import opened Arith
  import opened Types

  datatype ValidatorStake = ValidatorStake(account: AccountId, stake: nat, weight: u64)

  /** `Overflow` stands for the overflow of the u64 weight total. */
  datatype Choice = Selected(validator: AccountId, weight: u64, round: u64) | NoneSelected | Overflow

  /** The selection of a staker at host block `now`. */
  function SelectedAt(staker: ValidatorStake, now: nat): Choice
  {
    Selected(staker.account, staker.weight, SaturateU64(now))
  }

  function TotalWeight(stakers: seq<ValidatorStake>): nat
  {
    if stakers == [] then 0
    else TotalWeight(stakers[..|stakers| - 1]) + stakers[|stakers| - 1].weight
  }

  /** The weight of the first `i` stakers. */
  function Before(stakers: seq<ValidatorStake>, i: nat): nat
    requires i <= |stakers|
  {
    TotalWeight(stakers[..i])
  }

  lemma BeforeNext(stakers: seq<ValidatorStake>, i: nat)
    requires i < |stakers|
    ensures Before(stakers, i + 1) == Before(stakers, i) + stakers[i].weight
  {
    assert stakers[..i + 1][..i] == stakers[..i];
  }

  lemma BeforeAll(stakers: seq<ValidatorStake>)
    ensures Before(stakers, |stakers|) == TotalWeight(stakers)
  {
    assert stakers[..|stakers|] == stakers;
  }

  lemma {:induction false} BeforeMono(stakers: seq<ValidatorStake>, i: nat, j: nat)
    requires i <= j <= |stakers|
    ensures Before(stakers, i) <= Before(stakers, j)
    decreases j
  {
    if i < j {
      BeforeMono(stakers, i, j - 1);
      BeforeNext(stakers, j - 1);
    }
  }

  /** Staker `i` owns the interval of residues starting at the weight before it. */
  predicate Owns(stakers: seq<ValidatorStake>, i: nat, residue: nat)
  {
    i < |stakers| && Before(stakers, i) <= residue < Before(stakers, i + 1)
  }

  lemma OwnerUnique(stakers: seq<ValidatorStake>, i: nat, j: nat, residue: nat)
    requires Owns(stakers, i, residue) && Owns(stakers, j, residue)
    ensures i == j
  {
    if i < j { BeforeMono(stakers, i + 1, j); }
    if j < i { BeforeMono(stakers, j + 1, i); }
  }

  lemma {:induction false} OwnerExists(stakers: seq<ValidatorStake>, n: nat, residue: nat) returns (i: nat)
    requires n <= |stakers| && residue < Before(stakers, n)
    ensures Owns(stakers, i, residue)
    decreases n
  {
    BeforeNext(stakers, n - 1);
    if residue < Before(stakers, n - 1) {
      i := OwnerExists(stakers, n - 1, residue);
    } else {
      i := n - 1;
    }
  }

  ghost predicate IsSelection(stakers: seq<ValidatorStake>, seed: Hash, now: nat, s: Choice)
  {
    var total := TotalWeight(stakers);
    if total >= U64_LIMIT then s == Overflow
    else if total == 0 then s == NoneSelected
    else
      exists i: nat :: Owns(stakers, i, Prefix64(seed) % total)
             && s == SelectedAt(stakers[i], now)
  }

  lemma SelectionUnique(stakers: seq<ValidatorStake>, seed: Hash, now: nat, s: Choice, t: Choice)
    requires IsSelection(stakers, seed, now, s) && IsSelection(stakers, seed, now, t)
    ensures s == t
  {
    var total := TotalWeight(stakers);
    if 0 < total < U64_LIMIT {
      var r := Prefix64(seed) % total;
      var i: nat :| Owns(stakers, i, r) && s == SelectedAt(stakers[i], now);
      var j: nat :| Owns(stakers, j, r) && t == SelectedAt(stakers[j], now);
      OwnerUnique(stakers, i, j, r);
    }
  }

  /** A positive total that fits always selects somebody, and whoever is selected has positive weight. */
  lemma SelectionSucceeds(stakers: seq<ValidatorStake>, seed: Hash, now: nat) returns (i: nat)
    requires 0 < TotalWeight(stakers) < U64_LIMIT
    ensures i < |stakers| && stakers[i].weight > 0
    ensures IsSelection(stakers, seed, now, SelectedAt(stakers[i], now))
  {
    BeforeAll(stakers);
    i := OwnerExists(stakers, |stakers|, Prefix64(seed) % TotalWeight(stakers));
    BeforeNext(stakers, i);
  }

  /** The one result `select_pos_validator` can have. */
  ghost function Choose(stakers: seq<ValidatorStake>, seed: Hash, now: nat): (c: Choice)
    ensures IsSelection(stakers, seed, now, c)
  {
    assert exists c :: IsSelection(stakers, seed, now, c) by {
      if 0 < TotalWeight(stakers) < U64_LIMIT {
        var i := SelectionSucceeds(stakers, seed, now);
      } else if TotalWeight(stakers) == 0 {
        assert IsSelection(stakers, seed, now, NoneSelected);
      } else {
        assert IsSelection(stakers, seed, now, Overflow);
      }
    }
    var c :| IsSelection(stakers, seed, now, c);
    c
  }

  /** Sums the weights, then walks the cumulative weights; a positive total always selects. */
  method SelectPosValidator(stakers: seq<ValidatorStake>, seed: Hash, now: nat) returns (s: Choice)
    ensures IsSelection(stakers, seed, now, s)
    ensures s == Choose(stakers, seed, now)
  {
    forall c | IsSelection(stakers, seed, now, c) ensures c == Choose(stakers, seed, now) {
      SelectionUnique(stakers, seed, now, c, Choose(stakers, seed, now));
    }
    if stakers == [] {
      return NoneSelected;
    }
    var totalWeight: nat := 0;
    for i := 0 to |stakers|
      invariant totalWeight == Before(stakers, i) < U64_LIMIT
    {
      BeforeNext(stakers, i);
      if totalWeight + stakers[i].weight >= U64_LIMIT {
        BeforeMono(stakers, i + 1, |stakers|);
        BeforeAll(stakers);
        return Overflow;
      }
      totalWeight := totalWeight + stakers[i].weight;
    }
    BeforeAll(stakers);
    if totalWeight == 0 {
      return NoneSelected;
    }
    var randomValue: u64 := Prefix64(seed);
    randomValue := randomValue % totalWeight;
    var cumulativeWeight: nat := 0;
    for i := 0 to |stakers|
      invariant cumulativeWeight == Before(stakers, i) <= randomValue
    {
      BeforeNext(stakers, i);
      cumulativeWeight := cumulativeWeight + stakers[i].weight;
      if randomValue < cumulativeWeight {
        assert Owns(stakers, i, randomValue);
        return SelectedAt(stakers[i], now);
      }
    }
    assert false;
  }

  // ----- Fairness

  /** The seed prefixes below `n` that staker `i` wins. */
  ghost function WinningPrefixes(stakers: seq<ValidatorStake>, i: nat, n: nat): set<nat>
    requires TotalWeight(stakers) > 0
  {
    set x: nat | x < n && Owns(stakers, i, x % TotalWeight(stakers))
  }

  ghost function InInterval(n: nat, t: nat, lo: nat, hi: nat): set<nat>
    requires t > 0
  {
    set x: nat | x < n && lo <= x % t < hi
  }

  function Clamp(x: int, hi: nat): nat { if x < 0 then 0 else if x > hi then hi else x }

  /** The exact number of `x < n` whose residue lies in `[lo, hi)`. */
  lemma {:induction false} CountInInterval(n: nat, t: nat, lo: nat, hi: nat)
    requires lo <= hi <= t && t > 0
    ensures |InInterval(n, t, lo, hi)| == n / t * (hi - lo) + Clamp(n % t - lo, hi - lo)
  {
    if n == 0 {
      assert InInterval(n, t, lo, hi) == {};
    } else {
      var m := n - 1;
      CountInInterval(m, t, lo, hi);
      NextQuotient(m, t);
      if lo <= m % t < hi {
        assert InInterval(n, t, lo, hi) == InInterval(m, t, lo, hi) + {m};
      } else {
        assert InInterval(n, t, lo, hi) == InInterval(m, t, lo, hi);
      }
      if m % t == t - 1 {
        assert (m / t + 1) * (hi - lo) == m / t * (hi - lo) + (hi - lo);
      }
    }
  }

  lemma NextQuotient(m: nat, t: nat)
    requires t > 0
    ensures m % t == t - 1 ==> (m + 1) / t == m / t + 1 && (m + 1) % t == 0
    ensures m % t < t - 1 ==> (m + 1) / t == m / t && (m + 1) % t == m % t + 1
  {
    var q, r := m / t, m % t;
    if r == t - 1 {
      assert m + 1 == (q + 1) * t + 0;
      DivModUnique(q + 1, t, 0);
    } else {
      assert m + 1 == q * t + (r + 1);
      DivModUnique(q, t, r + 1);
    }
  }

  /** Full cycles give the whole weight; the last partial cycle gives the part of the interval it covers. */
  function WinCount(n: nat, total: nat, before: nat, weight: nat): nat
    requires total > 0
  {
    n / total * weight + Clamp(n % total - before, weight)
  }

  /** The exact number of winning prefixes. */
  lemma CountWinning(stakers: seq<ValidatorStake>, i: nat, n: nat)
    requires i < |stakers| && TotalWeight(stakers) > 0
    ensures |WinningPrefixes(stakers, i, n)|
         == WinCount(n, TotalWeight(stakers), Before(stakers, i), stakers[i].weight)
  {
    hide TotalWeight, Before;
    var t := TotalWeight(stakers);
    BeforeNext(stakers, i);
    BeforeMono(stakers, i + 1, |stakers|);
    BeforeAll(stakers);
    CountInInterval(n, t, Before(stakers, i), Before(stakers, i + 1));
    assert WinningPrefixes(stakers, i, n) == InInterval(n, t, Before(stakers, i), Before(stakers, i + 1));
  }

  lemma OneCycle(total: nat, before: nat, weight: nat)
    requires total > 0
    ensures WinCount(total, total, before, weight) == weight
  {
    DivModUnique(1, total, 0);
  }

  lemma WinCountBounds(n: nat, total: nat, before: nat, weight: nat)
    requires total > 0
    ensures weight * (n / total) <= WinCount(n, total, before, weight) <= weight * (n / total + 1)
    ensures weight == 0 ==> WinCount(n, total, before, weight) == 0
  {
    Cycles(n / total, weight);
  }

  lemma Cycles(k: nat, w: nat)
    ensures w * (k + 1) == k * w + w == w * k + w
  {}

  // ----- Fairness of the result

  /** A hash whose first eight bytes are `x`. */
  function SeedOf(x: u64): Hash
  {
    x * U128_LIMIT * U64_LIMIT
  }

  /** The first eight bytes of a hash are all the selection reads of it. */
  lemma PrefixOfSeed(x: u64, rest: nat)
    requires rest < U128_LIMIT * U64_LIMIT
    ensures SeedOf(x) + rest < U256_LIMIT && Prefix64(SeedOf(x) + rest) == x
  {
    DivModUnique(x, U128_LIMIT * U64_LIMIT, rest);
  }

  ghost predicate DistinctAccounts(stakers: seq<ValidatorStake>)
  {
    forall i, j :: 0 <= i < j < |stakers| ==> stakers[i].account != stakers[j].account
  }

  /** Staker `i` is chosen exactly when the seed, modulo the total, falls into its cumulative interval. */
  lemma ChosenIff(stakers: seq<ValidatorStake>, i: nat, seed: Hash, now: nat)
    requires DistinctAccounts(stakers) && i < |stakers| && 0 < TotalWeight(stakers) < U64_LIMIT
    ensures Choose(stakers, seed, now) == SelectedAt(stakers[i], now)
       <==> Before(stakers, i) <= Prefix64(seed) % TotalWeight(stakers) < Before(stakers, i) + stakers[i].weight
  {
    hide TotalWeight, Before;
    var r := Prefix64(seed) % TotalWeight(stakers);
    BeforeNext(stakers, i);
    assert IsSelection(stakers, seed, now, Choose(stakers, seed, now));
    var j: nat :| Owns(stakers, j, r) && Choose(stakers, seed, now) == SelectedAt(stakers[j], now);
    if Owns(stakers, i, r) {
      OwnerUnique(stakers, i, j, r);
    }
  }

  lemma SomebodyChosen(stakers: seq<ValidatorStake>, seed: Hash, now: nat) returns (i: nat)
    requires 0 < TotalWeight(stakers) < U64_LIMIT
    ensures i < |stakers| && Choose(stakers, seed, now) == SelectedAt(stakers[i], now)
  {
    assert IsSelection(stakers, seed, now, Choose(stakers, seed, now));
    i :| Owns(stakers, i, Prefix64(seed) % TotalWeight(stakers)) && Choose(stakers, seed, now) == SelectedAt(stakers[i], now);
  }

  /** A selection reports the account and weight of one staker, and the block number, saturated to u64, as its round. */
  lemma SelectionReports(stakers: seq<ValidatorStake>, seed: Hash, now: nat) returns (i: nat)
    requires 0 < TotalWeight(stakers) < U64_LIMIT
    ensures var c := Choose(stakers, seed, now);
            && i < |stakers| && c.Selected? && c.validator == stakers[i].account && c.weight == stakers[i].weight
            && c.round == (if now < 0x1_0000_0000_0000_0000 then now else 0xFFFF_FFFF_FFFF_FFFF)
  {
    i := SomebodyChosen(stakers, seed, now);
  }

  lemma NobodyChosen(stakers: seq<ValidatorStake>, seed: Hash, now: nat)
    requires TotalWeight(stakers) == 0 || TotalWeight(stakers) >= U64_LIMIT
    ensures Choose(stakers, seed, now) == if TotalWeight(stakers) == 0 then NoneSelected else Overflow
  {
    assert IsSelection(stakers, seed, now, Choose(stakers, seed, now));
  }

  /** The seeds with prefix below `n` for which the selection returns staker `i`. */
  ghost function WinningSeeds(stakers: seq<ValidatorStake>, i: nat, now: nat, n: nat): set<nat>
    requires i < |stakers| && n <= U64_LIMIT
  {
    set x: nat | x < n && Choose(stakers, SeedOf(x), now) == SelectedAt(stakers[i], now)
  }

  lemma WinningSeedsAre(stakers: seq<ValidatorStake>, i: nat, now: nat, n: nat)
    requires DistinctAccounts(stakers) && i < |stakers| && 0 < TotalWeight(stakers) < U64_LIMIT && n <= U64_LIMIT
    ensures WinningSeeds(stakers, i, now, n) == WinningPrefixes(stakers, i, n)
  {
    hide TotalWeight, Before, Prefix64, SeedOf, Choose;
    BeforeNext(stakers, i);
    forall x: nat | x < n
      ensures x in WinningSeeds(stakers, i, now, n) <==> x in WinningPrefixes(stakers, i, n)
    {
      PrefixOfSeed(x, 0);
      ChosenIff(stakers, i, SeedOf(x), now);
    }
  }

  /** Of the seeds of one full cycle exactly `w` select a staker of weight `w`. */
  lemma ResiduesEqualWeight(stakers: seq<ValidatorStake>, i: nat, now: nat)
    requires DistinctAccounts(stakers) && i < |stakers| && 0 < TotalWeight(stakers) < U64_LIMIT
    ensures |WinningSeeds(stakers, i, now, TotalWeight(stakers))| == stakers[i].weight
  {
    hide WinningSeeds;
    WinningSeedsAre(stakers, i, now, TotalWeight(stakers));
    CountWinning(stakers, i, TotalWeight(stakers));
    OneCycle(TotalWeight(stakers), Before(stakers, i), stakers[i].weight);
  }

  /** Over all 2^64 seed prefixes a staker is selected in proportion to its weight, up to one extra cycle. */
  lemma SelectionIsFair(stakers: seq<ValidatorStake>, i: nat, now: nat)
    requires DistinctAccounts(stakers) && i < |stakers| && 0 < TotalWeight(stakers) < U64_LIMIT
    ensures var w, cycles := stakers[i].weight, U64_LIMIT / TotalWeight(stakers);
            w * cycles <= |WinningSeeds(stakers, i, now, U64_LIMIT)| <= w * (cycles + 1)
    ensures stakers[i].weight == 0 ==> WinningSeeds(stakers, i, now, U64_LIMIT) == {}
  {
    hide WinCount, TotalWeight, WinningPrefixes, WinningSeeds;
    WinningSeedsAre(stakers, i, now, U64_LIMIT);
    CountWinning(stakers, i, U64_LIMIT);
    WinCountBounds(U64_LIMIT, TotalWeight(stakers), Before(stakers, i), stakers[i].weight);
  }
}
