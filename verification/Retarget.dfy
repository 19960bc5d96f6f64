/** `calculate_difficulty_adjustment`: the accepted target, steered down when producers are few. */
module Retarget {
  import opened Arith
  import opened Types
  import opened Tangent
  import opened Entropy

  /** The target scaled by the observed block time, never zero. */
  function Unsteered(current: u64, actual: u64, target: u64): u64
    requires target > 0
  {
    Max(1, SatMul64(current, actual) / target)
  }

  /** Low entropy multiplies the target by `(4 * 10^6 + entropy) / (8 * 10^6)`. */
  function Steered(t: u64, entropy: u64): u64
  {
    if entropy < THRESHOLD
    then Max(1, SatMul64(t, THRESHOLD + entropy) / (2 * THRESHOLD))
    else t
  }

  function Retargeted(current: u64, actual: u64, target: u64, entropy: u64): u64
  {
    if actual == 0 || target == 0 then Max(1, current / 2)
    else Steered(Unsteered(current, actual, target), entropy)
  }

  method CalculateDifficultyAdjustment(current: u64, actual: u64, target: u64, entropy: u64)
    returns (newTarget: u64)
    ensures newTarget == Retargeted(current, actual, target, entropy)
  {
    hide SatMul64;
    Constants(entropy);
    if actual == 0 || target == 0 {
      return Max(1, current / 2);
    }
    QuotientFits(SatMul64(current, actual), target);
    if actual < target {
      newTarget := SatMul64(current, actual) / target;
    } else {
      newTarget := SatMul64(current, actual) / target;
    }
    newTarget := Max(1, newTarget);
    if entropy < THRESHOLD {
      var factor := SatAdd64(THRESHOLD, entropy);
      QuotientFits(SatMul64(newTarget, factor), 2 * THRESHOLD);
      newTarget := SatMul64(newTarget, factor) / SatMul64(THRESHOLD, 2);
      newTarget := Max(1, newTarget);
    }
  }

  lemma Constants(entropy: u64)
    ensures SatMul64(THRESHOLD, 2) == 2 * THRESHOLD
    ensures entropy < THRESHOLD ==> SatAdd64(THRESHOLD, entropy) == THRESHOLD + entropy
  {}

  lemma QuotientFits(a: u64, d: nat)
    requires d > 0
    ensures 0 <= a / d < U64_LIMIT
  {
    DivAnti(a, 1, d);
  }

  // ----- Laws of one retarget

  lemma SatMulMono(a: u64, b: u64, c: u64, d: u64)
    requires a <= c && b <= d
    ensures SatMul64(a, b) <= SatMul64(c, d)
  {
    MulMono(a, c, b);
    MulMono(b, d, c);
  }

  lemma SteeredMono(t: u64, u: u64, e: u64, f: u64)
    requires 0 < t <= u && e <= f
    ensures 0 < Steered(t, e) <= Steered(u, f)
  {
    hide SatMul64;
    if f < THRESHOLD {
      SatMulMono(t, THRESHOLD + e, u, THRESHOLD + f);
    } else if e < THRESHOLD {
      SteeringNeverRaises(t, e);
    }
  }

  /** Steering never raises the target, and strictly lowers any target above one. */
  lemma SteeringNeverRaises(t: u64, e: u64)
    requires t > 0
    ensures Steered(t, e) <= t
    ensures e < THRESHOLD && t > 1 ==> Steered(t, e) < t
  {
    if e < THRESHOLD {
      MulMono(THRESHOLD + e, 2 * THRESHOLD - 1, t);
      assert SatMul64(t, THRESHOLD + e) <= t * (THRESHOLD + e) <= t * (2 * THRESHOLD - 1) < t * (2 * THRESHOLD);
    }
  }

  /**
   * Steering keeps at least the floored half exactly while entropy does not steer at all or the target is
   * small enough: beyond that the saturated product cuts it to a constant.
   */
  lemma SteeringKeepsHalfIff(t: u64, e: u64)
    ensures t / 2 <= Steered(t, e) <==> e >= THRESHOLD || t <= U64_MAX / THRESHOLD
  {
    if e < THRESHOLD {
      SteeredProduct(t, e);
    }
  }

  /** A steered target never exceeds this constant, however large the target was. */
  const STEERED_MAX: nat := U64_MAX / (2 * THRESHOLD)

  lemma SteeredProduct(t: u64, e: u64)
    requires e < THRESHOLD
    ensures Steered(t, e) <= STEERED_MAX
    ensures t <= U64_MAX / THRESHOLD ==> t / 2 <= Steered(t, e)
  {
    MulMono(THRESHOLD, THRESHOLD + e, t);
    assert t * THRESHOLD <= SatMul64(t, THRESHOLD + e) || SatMul64(t, THRESHOLD + e) == U64_MAX;
  }

  /** For positive times: positive, monotone in target, observed time and entropy, antitone in target time. */
  lemma RetargetLaws(c: u64, a: u64, t: u64, e: u64, c': u64, a': u64, t': u64, e': u64)
    requires c <= c' && 0 < a <= a' && 0 < t' <= t && e <= e'
    ensures 1 <= Retargeted(c, a, t, e) <= Retargeted(c', a', t', e')
    ensures Retargeted(c, a, t, e) <= Unsteered(c, a, t)
  {
    hide SatMul64, Steered;
    SatMulMono(c, a, c', a');
    var m, m' := SatMul64(c, a), SatMul64(c', a');
    DivMono(m, m', t);
    DivAnti(m', t', t);
    assert m / t <= m' / t' <= U64_MAX by { DivAnti(m', 1, t'); }
    SteeredMono(Unsteered(c, a, t), Unsteered(c', a', t'), e, e');
    SteeringNeverRaises(Unsteered(c, a, t), e);
  }

  ghost predicate MonotoneFrom(a: u64)
  {
    forall c: u64, a': u64, t: u64, e: u64 :: a <= a' && t > 0 ==> Retargeted(c, a, t, e) <= Retargeted(c, a', t, e)
  }

  /** A longer observed time never lowers the result, except that the zero-time branch breaks this. */
  lemma MonotoneInTimeIff(a: u64)
    ensures MonotoneFrom(a) <==> a > 0
  {
    if a > 0 {
      hide Retargeted;
      forall c: u64, a': u64, t: u64, e: u64 | a <= a' && t > 0
        ensures Retargeted(c, a, t, e) <= Retargeted(c, a', t, e)
      {
        RetargetLaws(c, a, t, e, c, a', t, e);
      }
    } else {
      ZeroTimeIsNotMonotone();
    }
  }

  /** A witness: no observed time at all gives a larger target than one second. */
  lemma ZeroTimeIsNotMonotone()
    ensures Retargeted(100, 0, 1000, THRESHOLD) > Retargeted(100, 1, 1000, THRESHOLD)
  {}

  // ----- The exact share one retarget keeps

  /** `q` is the integer quotient of `a` by `d`, raised to one if it is zero. */
  predicate QuotientOrOne(q: int, a: int, d: int)
  {
    if a < d then q == 1 else q * d <= a < (q + 1) * d
  }

  lemma IsQuotientOrOne(a: nat, d: nat)
    requires d > 0
    ensures QuotientOrOne(Max(1, a / d), a, d)
  {
    DivIsLargest(a, d, 1);
    DivIsLargest(a, d, a / d);
    DivIsLargest(a, d, a / d + 1);
  }

  /**
   * For all inputs: the target is scaled by observed over target time, and then, below an entropy of four units, by
   * four million plus the entropy over eight million. Each product saturates, each quotient is floored and at least one.
   */
  lemma RetargetShare(c: u64, a: u64, t: u64, e: u64) returns (scaled: u64)
    requires a > 0 && t > 0
    ensures QuotientOrOne(scaled, Min(c * a, U64_MAX), t)
    ensures e < 4_000_000 ==>
      QuotientOrOne(Retargeted(c, a, t, e), Min(scaled * (4_000_000 + e), U64_MAX), 8_000_000)
    ensures e >= 4_000_000 ==> Retargeted(c, a, t, e) == scaled
  {
    hide QuotientOrOne;
    scaled := Unsteered(c, a, t);
    IsQuotientOrOne(SatMul64(c, a), t);
    SatMulIsMin(c, a);
    IsQuotientOrOne(SatMul64(scaled, 4_000_000 + e), 8_000_000);
    SatMulIsMin(scaled, 4_000_000 + e);
  }

  lemma SatMulIsMin(a: nat, b: nat)
    ensures SatMul64(a, b) == Min(a * b, U64_MAX)
  {}

  /** Without a time measurement the target is halved, whatever the entropy. */
  lemma ZeroTimeHalves(c: u64, a: u64, t: u64, e: u64)
    requires a == 0 || t == 0
    ensures QuotientOrOne(Retargeted(c, a, t, e), c, 2)
  {}

  // ----- Runs of the hook, where observed and target time are both five seconds

  const BLOCK_TIME: u64 := 5

  ghost function Adjusted(d: u64, producers: Window): u64
  {
    EntropyFitsU64(producers);
    Retargeted(d, BLOCK_TIME, BLOCK_TIME, EntropyOf(producers))
  }

  lemma UnsteeredAtFive(d: u64)
    ensures 1 <= Unsteered(d, BLOCK_TIME, BLOCK_TIME) <= Max(1, d)
  {}

  /** The exact share the hook keeps below the threshold, and all of it from the threshold on. */
  lemma AdjustedShare(d: u64, producers: Window)
    requires d > 0
    ensures var e := EntropyOf(producers);
            && (e < 4_000_000 && d * (4_000_000 + e) < U64_LIMIT ==>
                  QuotientOrOne(Adjusted(d, producers), d * (4_000_000 + e), 8_000_000))
            && (e >= 4_000_000 && d * 5 < U64_LIMIT ==> Adjusted(d, producers) == d)
  {
    hide EntropyOf, Steered, QuotientOrOne;
    EntropyFitsU64(producers);
    var e := EntropyOf(producers);
    MulMono(5, 4_000_000 + e, d);
    if d * 5 < U64_LIMIT {
      FiveOverFive(d);
      var scaled := RetargetShare(d, BLOCK_TIME, BLOCK_TIME, e);
      SameScaled(scaled, d);
    }
  }

  lemma FiveOverFive(d: u64)
    requires d > 0 && d * 5 < U64_LIMIT
    ensures Unsteered(d, BLOCK_TIME, BLOCK_TIME) == d
  {}

  lemma SameScaled(scaled: u64, d: u64)
    requires d > 0 && d * 5 < U64_LIMIT && QuotientOrOne(scaled, Min(d * BLOCK_TIME, U64_MAX), BLOCK_TIME)
    ensures scaled == d
  {}

  /** The hook raises the difficulty exactly from its storage default 0, and lowers it with fewer than sixteen producers. */
  lemma AdjustedRaisesIff(d: u64, producers: Window)
    ensures 1 <= Adjusted(d, producers) <= Max(1, d)
    ensures Adjusted(d, producers) > d <==> d == 0
    ensures d > 1 && |Counts(producers)| < 16 ==> Adjusted(d, producers) < d
  {
    hide EntropyOf, Counts, Steered;
    EntropyFitsU64(producers);
    var e := EntropyOf(producers);
    var u := Unsteered(d, BLOCK_TIME, BLOCK_TIME);
    UnsteeredAtFive(d);
    SteeredMono(u, u, e, e);
    SteeringNeverRaises(u, e);
    if |Counts(producers)| < 16 {
      FewProducersBelowThreshold(producers);
    }
  }

  /** One retarget with fewer than sixteen producers leaves at most a constant, whatever the difficulty was. */
  lemma FewProducersCap(d: u64, producers: Window)
    requires |Counts(producers)| < 16
    ensures Adjusted(d, producers) <= STEERED_MAX
  {
    hide EntropyOf, Counts, Steered;
    EntropyFitsU64(producers);
    FewProducersBelowThreshold(producers);
    SteeredProduct(Unsteered(d, BLOCK_TIME, BLOCK_TIME), EntropyOf(producers));
  }

  /** What fifteen producers leave of a steered target, out of `2 * THRESHOLD`. */
  const KEPT: nat := THRESHOLD + 15 * PER_PRODUCER + BASE

  lemma SteeredKeepsShare(t: u64, e: u64)
    requires THRESHOLD + e <= KEPT
    ensures Steered(t, e) <= 1 || Steered(t, e) * (2 * THRESHOLD) <= t * KEPT
  {
    MulMono(THRESHOLD + e, KEPT, t);
    assert SatMul64(t, THRESHOLD + e) <= t * (THRESHOLD + e) <= t * KEPT;
  }

  /** With fewer than sixteen producers one retarget keeps at most 7,956,851 parts in 8,000,000. */
  lemma FewProducersShrink(d: u64, producers: Window)
    requires |Counts(producers)| < 16
    ensures Adjusted(d, producers) <= 1 || Adjusted(d, producers) * (2 * THRESHOLD) <= d * KEPT
  {
    hide EntropyOf, Counts, Steered;
    EntropyFitsU64(producers);
    EntropyByProducers(producers);
    AdjustedRaisesIff(d, producers);
    UnsteeredAtFive(d);
    SteeredKeepsShare(Unsteered(d, BLOCK_TIME, BLOCK_TIME), EntropyOf(producers));
    if d > 0 { MulMono(Unsteered(d, BLOCK_TIME, BLOCK_TIME), d, KEPT); }
  }

  ghost predicate SingleProducerWindow(ps: Window)
  {
    forall p, q :: p in ps && q in ps ==> p == q
  }

  ghost function AfterRetargets(d: u64, windows: seq<Window>): u64
  {
    if windows == [] then d
    else Adjusted(AfterRetargets(d, windows[..|windows| - 1]), windows[|windows| - 1])
  }

  lemma AfterRetargetsNext(d: u64, windows: seq<Window>, w: Window)
    ensures AfterRetargets(d, []) == d
    ensures AfterRetargets(d, windows + [w]) == Adjusted(AfterRetargets(d, windows), w)
  {
    hide Adjusted;
    assert (windows + [w])[..|windows|] == windows;
  }

  /** Any number of retargets raises the difficulty exactly when it starts at 0 and there is one. */
  lemma {:induction false} RetargetsRaiseIff(d: u64, windows: seq<Window>)
    ensures AfterRetargets(d, windows) <= Max(1, d)
    ensures windows != [] ==> AfterRetargets(d, windows) >= 1
    ensures AfterRetargets(d, windows) > d <==> d == 0 && windows != []
  {
    hide Adjusted;
    if windows != [] {
      var k := |windows| - 1;
      RetargetsRaiseIff(d, windows[..k]);
      AdjustedRaisesIff(AfterRetargets(d, windows[..k]), windows[k]);
    }
  }

  /** Windows of a single producer halve the difficulty each time, down to one. */
  lemma {:induction false} SingleProducerHalves(d: u64, windows: seq<Window>)
    requires forall w :: w in windows ==> SingleProducerWindow(w)
    ensures AfterRetargets(d, windows) <= Max(1, d / Pow(2, |windows|))
    ensures d > 0 || windows != [] ==> AfterRetargets(d, windows) >= 1
  {
    if windows != [] {
      var k := |windows| - 1;
      SingleProducerHalves(d, windows[..k]);
      HalvedOnce(AfterRetargets(d, windows[..k]), windows[k]);
      HalveQuotient(AfterRetargets(d, windows[..k]), d, Pow(2, k));
    }
  }

  lemma HalvedOnce(d: u64, w: Window)
    requires SingleProducerWindow(w)
    ensures 1 <= Adjusted(d, w) <= Max(1, d / 2)
  {
    hide EntropyOf, Retargeted;
    if w == [] { EntropyOfNone(); } else { SingleProducer(w); }
    HalfAtZero(d);
  }

  lemma HalfAtZero(t: u64)
    ensures 1 <= Retargeted(t, BLOCK_TIME, BLOCK_TIME, 0) <= Max(1, t / 2)
  {}

  lemma HalveQuotient(b: nat, d: nat, p: nat)
    requires p > 0 && b <= Max(1, d / p)
    ensures Max(1, b / 2) <= Max(1, d / (2 * p))
  {
    if b > 1 {
      var q := b / 2;
      DivIsLargest(d, p, 2 * q);
      Regroup(q, p);
      DivIsLargest(d, 2 * p, q);
    }
  }

  lemma Regroup(q: nat, p: nat)
    ensures (2 * q) * p == q * (2 * p)
  {}

  /** Windows with fewer than sixteen producers shrink the difficulty geometrically, until it is one. */
  lemma {:induction false} FewProducersDecay(d: u64, windows: seq<Window>)
    requires forall w :: w in windows ==> |Counts(w)| < 16
    ensures AfterRetargets(d, windows) <= 1
         || AfterRetargets(d, windows) * Pow(2 * THRESHOLD, |windows|) <= d * Pow(KEPT, |windows|)
  {
    hide Adjusted, Counts;
    if windows != [] {
      var k := |windows| - 1;
      var before, after := AfterRetargets(d, windows[..k]), AfterRetargets(d, windows);
      FewProducersDecay(d, windows[..k]);
      FewProducersShrink(before, windows[k]);
      AdjustedRaisesIff(before, windows[k]);
      if after > 1 {
        Compound(d, before, after, 2 * THRESHOLD, KEPT, Pow(2 * THRESHOLD, k), Pow(KEPT, k));
      }
    }
  }

  /** They also lower it by at least one every time. */
  lemma {:induction false} FewProducersReachOne(d: u64, windows: seq<Window>)
    requires forall w :: w in windows ==> |Counts(w)| < 16
    ensures AfterRetargets(d, windows) <= Max(1, d - |windows|)
    ensures d > 0 || windows != [] ==> AfterRetargets(d, windows) >= 1
  {
    hide Adjusted, Counts;
    if windows != [] {
      var k := |windows| - 1;
      FewProducersReachOne(d, windows[..k]);
      AdjustedRaisesIff(AfterRetargets(d, windows[..k]), windows[k]);
    }
  }
}
