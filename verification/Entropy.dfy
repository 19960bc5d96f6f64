/** `calculate_entropy`: the scaled Shannon entropy of a list of block producers. */
module Entropy {
  import opened Arith
  import opened MapSums
  import opened Log2
  import opened Tangent
  import opened Types

  /** Below this length no u64 product in the computation can overflow. */
  const LENGTH_LIMIT: nat := 0x400_0000_0000 // 2^42

  /** Windows up to this length are long enough apart from rounding for strict comparisons. */
  const STRICT_LENGTH: nat := 500_000

  const THRESHOLD: nat := 4_000_000

  function Counts(ps: seq<AccountId>): map<AccountId, nat>
  {
    map p | p in ps :: multiset(ps)[p]
  }

  function Term(count: nat, total: nat): nat
    requires total > 0
  {
    Share(count, SatSub(Scaled(total), Scaled(count)), total)
  }

  function Share(count: nat, gap: nat, total: nat): nat
    requires total > 0
  {
    Quotient(count * gap, total)
  }

  function Quotient(a: nat, d: nat): nat
    requires d > 0
  {
    a / d
  }

  ghost function Terms(counts: map<AccountId, nat>, total: nat): map<AccountId, nat>
    requires total > 0
  {
    map p | p in counts :: Term(counts[p], total)
  }

  ghost function EntropyOf(ps: seq<AccountId>): nat
  {
    if ps == [] then 0 else Sum(Terms(Counts(ps), |ps|))
  }

  ghost predicate Within(counts: map<AccountId, nat>, total: nat)
  {
    forall p :: p in counts ==> 0 < counts[p] <= total
  }

  // ----- Counting

  lemma {:induction false} CountsAppend(ps: seq<AccountId>, p: AccountId)
    ensures Counts(ps + [p]) == Counts(ps)[p := Get(Counts(ps), p) + 1]
  {
    assert multiset(ps + [p]) == multiset(ps) + multiset{p};
    assert forall q :: q in ps + [p] <==> q in ps || q == p;
  }

  lemma {:induction false} CountsSum(ps: seq<AccountId>)
    ensures Sum(Counts(ps)) == |ps|
    ensures Within(Counts(ps), |ps|)
  {
    if ps == [] {
      assert Counts(ps) == map[];
    } else {
      var k := |ps| - 1;
      CountsSum(ps[..k]);
      assert ps == ps[..k] + [ps[k]];
      CountsAppend(ps[..k], ps[k]);
      SumUpdate(Counts(ps[..k]), ps[k], Get(Counts(ps[..k]), ps[k]) + 1);
    }
    forall p | p in Counts(ps) ensures Counts(ps)[p] <= |ps| { SumAtLeast(Counts(ps), p); }
  }

  lemma TermsRemove(counts: map<AccountId, nat>, total: nat, p: AccountId)
    requires total > 0 && p in counts
    ensures Sum(Terms(counts, total)) == Term(counts[p], total) + Sum(Terms(counts - {p}, total))
  {
    hide Scaled, Term;
    SumRemove(Terms(counts, total), p);
    assert Terms(counts, total) - {p} == Terms(counts - {p}, total);
  }

  /** The result depends only on how often each producer occurs, not on the order. */
  lemma OrderIndependent(ps: seq<AccountId>, qs: seq<AccountId>)
    requires multiset(ps) == multiset(qs)
    ensures EntropyOf(ps) == EntropyOf(qs)
  {
    assert |ps| == |multiset(ps)| == |multiset(qs)| == |qs|;
    assert forall p :: p in ps <==> p in multiset(ps);
    assert forall p :: p in qs <==> p in multiset(qs);
    assert Counts(ps) == Counts(qs);
  }

  // ----- Upper bounds

  /** Every term lies below the line, so the sum is bounded by the number of distinct producers. */
  lemma {:induction false} TermsBelowLine(counts: map<AccountId, nat>, total: nat)
    requires total > 0 && Within(counts, total)
    ensures Sum(Terms(counts, total)) * total <= PER_PRODUCER * total * |counts| + BASE * Sum(counts)
    decreases |counts|
  {
    hide Scaled, Term;
    if counts == map[] {
      assert Terms(counts, total) == map[];
    } else {
      var p :| p in counts;
      var rest := counts - {p};
      RemoveShrinks(counts, p);
      SumRemove(counts, p);
      TermsRemove(counts, total, p);
      TermsBelowLine(rest, total);
      TermBelowLine(counts[p], total);
      AddLines(Term(counts[p], total), Sum(Terms(rest, total)), total, |rest|, counts[p], Sum(rest));
    }
  }

  lemma TermBelowLine(c: nat, n: nat)
    requires 0 < c <= n
    ensures Term(c, n) * n <= PER_PRODUCER * n + BASE * c
  {
    hide Scaled;
    Line(c, n);
    DivIsLargest(c * (Scaled(n) - Scaled(c)), n, Term(c, n));
  }

  lemma AddLines(t: nat, ts: nat, n: nat, k: nat, c: nat, cs: nat)
    requires t * n <= PER_PRODUCER * n + BASE * c
    requires ts * n <= PER_PRODUCER * n * k + BASE * cs
    ensures (t + ts) * n <= PER_PRODUCER * n * (k + 1) + BASE * (c + cs)
  {}

  /** Entropy in terms of the number of distinct producers alone. */
  lemma EntropyByProducers(ps: seq<AccountId>)
    ensures EntropyOf(ps) <= PER_PRODUCER * |Counts(ps)| + BASE
  {
    hide Scaled;
    if ps != [] {
      CountsSum(ps);
      TermsBelowLine(Counts(ps), |ps|);
      CancelTotal(EntropyOf(ps), |ps|, |Counts(ps)|);
    }
  }

  lemma CancelTotal(e: nat, n: nat, k: nat)
    requires n > 0 && e * n <= PER_PRODUCER * n * k + BASE * n
    ensures e <= PER_PRODUCER * k + BASE
  {
    if e > PER_PRODUCER * k + BASE {
      MulMono(PER_PRODUCER * k + BASE + 1, e, n);
    }
  }

  /** Fewer than sixteen distinct producers always stay below the "log2(16)" threshold. */
  lemma FewProducersBelowThreshold(ps: seq<AccountId>)
    requires |Counts(ps)| < 16
    ensures EntropyOf(ps) < THRESHOLD
  {
    EntropyByProducers(ps);
  }

  /** Sixteen producers with equal shares reach the threshold exactly: the bound above is sharp. */
  lemma SixteenEqualReachThreshold(ps: seq<AccountId>, c: nat)
    requires ps != [] && |Counts(ps)| == 16
    requires forall p :: p in Counts(ps) ==> Counts(ps)[p] == c
    ensures EntropyOf(ps) == THRESHOLD
  {
    hide Scaled;
    var counts := Counts(ps);
    CountsSum(ps);
    EqualSum(counts, c);
    var n := |ps|;
    assert n == 16 * c && c > 0;
    ScaledDouble(c);
    ScaledDouble(2 * c);
    ScaledDouble(4 * c);
    ScaledDouble(8 * c);
    assert Term(c, n) == c * 4_000_000 / n == (16 * c) * 250_000 / n;
    DivExact(250_000, n);
    var terms := Terms(counts, n);
    assert terms.Keys == counts.Keys;
    assert |terms| == |terms.Keys| == |counts.Keys| == 16;
    EqualSum(terms, 250_000);
  }

  lemma {:induction false} EqualSum(m: map<AccountId, nat>, v: nat)
    requires forall p :: p in m ==> m[p] == v
    ensures Sum(m) == |m| * v
    decreases |m|
  {
    if m != map[] {
      var p :| p in m;
      SumRemove(m, p);
      RemoveShrinks(m, p);
      EqualSum(m - {p}, v);
      MulSucc(|m| - 1, v);
    }
  }

  /** Entropy never exceeds the logarithm of the window length. */
  lemma EntropyAtMostLog(ps: seq<AccountId>)
    ensures EntropyOf(ps) <= Scaled(|ps|)
  {
    hide Scaled;
    if ps != [] {
      CountsSum(ps);
      TermsBelowLog(Counts(ps), |ps|);
      CancelLength(EntropyOf(ps), Scaled(|ps|), |ps|);
    }
  }

  lemma CancelLength(e: nat, l: nat, n: nat)
    requires n > 0 && e * n <= l * n
    ensures e <= l
  {
    if e > l { MulMono(l + 1, e, n); }
  }

  lemma {:induction false} TermsBelowLog(counts: map<AccountId, nat>, total: nat)
    requires total > 0 && Within(counts, total)
    ensures Sum(Terms(counts, total)) * total <= Scaled(total) * Sum(counts)
    decreases |counts|
  {
    hide Scaled, Term;
    if counts == map[] {
      assert Terms(counts, total) == map[];
    } else {
      var p :| p in counts;
      var rest, c := counts - {p}, counts[p];
      RemoveShrinks(counts, p);
      SumRemove(counts, p);
      TermsRemove(counts, total, p);
      TermsBelowLog(rest, total);
      TermBelowLog(c, total);
      AddProducts(Term(c, total), Sum(Terms(rest, total)), total, Scaled(total), c, Sum(rest));
    }
  }

  lemma TermBelowLog(c: nat, n: nat)
    requires n > 0
    ensures Term(c, n) * n <= Scaled(n) * c
  {
    hide Scaled;
    var gap := SatSub(Scaled(n), Scaled(c));
    DivIsLargest(c * gap, n, Term(c, n));
    MulMono(gap, Scaled(n), c);
  }

  lemma AddProducts(t: nat, ts: nat, n: nat, l: nat, c: nat, cs: nat)
    requires t * n <= l * c && ts * n <= l * cs
    ensures (t + ts) * n <= l * (c + cs)
  {}

  // ----- The average it computes

  /** The drop of the logarithm from the whole list to one producer's share. */
  function LogDrop(c: nat, n: nat): nat
  {
    if Scaled(c) <= Scaled(n) then Scaled(n) - Scaled(c) else 0
  }

  /** What each producer contributes: its count times the drop. */
  ghost function Contributions(counts: map<AccountId, nat>, total: nat): map<AccountId, nat>
  {
    map p | p in counts :: Contribution(counts[p], total)
  }

  function Contribution(c: nat, n: nat): nat
  {
    c * LogDrop(c, n)
  }

  lemma ContributionsRemove(counts: map<AccountId, nat>, total: nat, p: AccountId)
    requires p in counts
    ensures Sum(Contributions(counts, total))
         == Contribution(counts[p], total) + Sum(Contributions(counts - {p}, total))
  {
    hide Contribution;
    SumRemove(Contributions(counts, total), p);
    assert Contributions(counts, total) - {p} == Contributions(counts - {p}, total);
  }

  lemma {:induction false} TermsAverage(counts: map<AccountId, nat>, total: nat)
    requires total > 0 && Within(counts, total)
    ensures Sum(Terms(counts, total)) * total <= Sum(Contributions(counts, total))
    ensures Sum(Contributions(counts, total)) <= Sum(Terms(counts, total)) * total + |counts| * (total - 1)
    decreases |counts|
  {
    hide Term, Contribution, Sum, Terms, Contributions;
    if counts == map[] {
      NoTerms(total);
      NoContributions(total);
    } else {
      var p :| p in counts;
      var rest := counts - {p};
      RemoveShrinks(counts, p);
      TermsRemove(counts, total, p);
      ContributionsRemove(counts, total, p);
      TermsAverage(rest, total);
      TermIsFloor(counts[p], total);
      AddFloors(Term(counts[p], total), Contribution(counts[p], total), Sum(Terms(rest, total)),
                Sum(Contributions(rest, total)), total, |rest|);
    }
  }

  lemma NoContributions(total: nat)
    ensures Sum(Contributions(map[], total)) == 0
  {
    assert Contributions(map[], total) == map[];
  }

  lemma TermIsFloor(c: nat, n: nat)
    requires 0 < c <= n
    ensures Term(c, n) * n <= Contribution(c, n) <= Term(c, n) * n + (n - 1)
  {
    hide Scaled;
    ScaledMono(c, n);
    FloorBounds(Contribution(c, n), n);
  }

  lemma FloorBounds(x: nat, n: nat)
    requires n > 0
    ensures x / n * n <= x <= x / n * n + (n - 1)
  {
    DivIsLargest(x, n, x / n);
    DivIsLargest(x, n, x / n + 1);
    MulSucc(x / n, n);
  }

  lemma AddFloors(t: nat, c: nat, ts: nat, cs: nat, n: nat, k: nat)
    requires n > 0 && t * n <= c <= t * n + (n - 1) && ts * n <= cs <= ts * n + k * (n - 1)
    ensures (t + ts) * n <= c + cs <= (t + ts) * n + (k + 1) * (n - 1)
  {
    Distribute(t, ts, n);
    Distribute(k, 1, n - 1);
  }

  /** Entropy is the average contribution, up to one floor per distinct producer. */
  lemma EntropyIsAverage(ps: seq<AccountId>)
    requires ps != []
    ensures var total := Sum(Contributions(Counts(ps), |ps|));
            EntropyOf(ps) * |ps| <= total <= EntropyOf(ps) * |ps| + |Counts(ps)| * (|ps| - 1)
  {
    CountsSum(ps);
    TermsAverage(Counts(ps), |ps|);
  }

  // ----- Centralisation

  /** Every block of `from` is credited to `to` instead. */
  function Relabel(ps: seq<AccountId>, from: AccountId, to: AccountId): (qs: seq<AccountId>)
    ensures |qs| == |ps|
  {
    seq(|ps|, i requires 0 <= i < |ps| => if ps[i] == from then to else ps[i])
  }

  /** The effect of relabelling on the counts. */
  function MergeCounts(counts: map<AccountId, nat>, from: AccountId, to: AccountId): map<AccountId, nat>
  {
    if from in counts then (counts - {from})[to := Get(counts, to) + counts[from]] else counts
  }

  lemma MergeCountsAppend(counts: map<AccountId, nat>, from: AccountId, to: AccountId, p: AccountId)
    requires from != to
    ensures var p' := if p == from then to else p;
            var merged := MergeCounts(counts, from, to);
            MergeCounts(counts[p := Get(counts, p) + 1], from, to) == merged[p' := Get(merged, p') + 1]
  {
    var p' := if p == from then to else p;
    var merged := MergeCounts(counts, from, to);
    var left, right := MergeCounts(counts[p := Get(counts, p) + 1], from, to), merged[p' := Get(merged, p') + 1];
    assert left.Keys == right.Keys;
    assert forall q :: q in left ==> left[q] == right[q];
  }

  lemma {:induction false} RelabelCounts(ps: seq<AccountId>, from: AccountId, to: AccountId)
    requires from != to
    ensures Counts(Relabel(ps, from, to)) == MergeCounts(Counts(ps), from, to)
  {
    hide MergeCounts, Counts, Relabel;
    if ps == [] {
      RelabelEmpty(from, to);
    } else {
      var k := |ps| - 1;
      var front, last := ps[..k], ps[k];
      assert ps == front + [last];
      RelabelCounts(front, from, to);
      CountsAppend(front, last);
      RelabelAppend(front, from, to, last);
      CountsAppend(Relabel(front, from, to), if last == from then to else last);
      MergeCountsAppend(Counts(front), from, to, last);
    }
  }

  lemma RelabelEmpty(from: AccountId, to: AccountId)
    ensures Counts(Relabel([], from, to)) == MergeCounts(Counts([]), from, to)
  {
    assert Relabel([], from, to) == [];
    assert Counts([]) == map[];
  }

  lemma RelabelAppend(ps: seq<AccountId>, from: AccountId, to: AccountId, p: AccountId)
    ensures Relabel(ps + [p], from, to) == Relabel(ps, from, to) + [if p == from then to else p]
  {}

  /** Two producers acting as one: at most one rounding unit up, and strictly down on real windows. */
  lemma MergeLowersEntropy(ps: seq<AccountId>, from: AccountId, to: AccountId)
    requires from != to && from in ps && to in ps
    ensures EntropyOf(Relabel(ps, from, to)) <= EntropyOf(ps) + 1
    ensures |ps| <= STRICT_LENGTH ==> EntropyOf(Relabel(ps, from, to)) < EntropyOf(ps)
  {
    hide Terms, MergeCounts;
    CountsSum(ps);
    RelabelCounts(ps, from, to);
    MergeSums(Counts(ps), |ps|, from, to);
    assert Relabel(ps, from, to) != [];
  }

  lemma MergeSums(counts: map<AccountId, nat>, n: nat, from: AccountId, to: AccountId)
    requires from != to && from in counts && to in counts
    requires n == Sum(counts) > 0 && Within(counts, n)
    ensures Sum(Terms(MergeCounts(counts, from, to), n)) <= Sum(Terms(counts, n)) + 1
    ensures n <= STRICT_LENGTH ==> Sum(Terms(MergeCounts(counts, from, to), n)) < Sum(Terms(counts, n))
  {
    hide Scaled, Term, Terms, Sum;
    var merged := MergeCounts(counts, from, to);
    SumRemove(counts, from);
    SumAtLeast(counts - {from}, to);
    TermsRemove(counts, n, from);
    TermsRemove(counts - {from}, n, to);
    TermsRemove(merged, n, to);
    assert merged - {to} == counts - {from} - {to};
    MergeTerms(counts[from], counts[to], n);
  }

  lemma MergeTerms(a: nat, b: nat, n: nat)
    requires a > 0 && b > 0 && a + b <= n
    ensures Term(a + b, n) <= Term(a, n) + Term(b, n) + 1
    ensures n <= STRICT_LENGTH ==> Term(a + b, n) < Term(a, n) + Term(b, n)
  {
    hide Scaled, Share;
    ScaledMono(a, a + b);
    ScaledMono(b, a + b);
    ScaledMono(a + b, n);
    ScaledMono(2 * (if a <= b then a else b), a + b);
    ScaledDouble(if a <= b then a else b);
    MergeShares(a, b, Scaled(a), Scaled(b), Scaled(a + b), Scaled(n), n);
  }

  lemma MergeShares(a: nat, b: nat, la: nat, lb: nat, lab: nat, ln: nat, n: nat)
    requires n > 0 && a > 0 && b > 0 && la <= lab && lb <= lab <= ln
    requires lab >= la + SCALE || lab >= lb + SCALE
    ensures Share(a + b, ln - lab, n) <= Share(a, ln - la, n) + Share(b, ln - lb, n) + 1
    ensures n <= STRICT_LENGTH ==> Share(a + b, ln - lab, n) < Share(a, ln - la, n) + Share(b, ln - lb, n)
  {
    MergeGap(a, b, la, lb, lab, ln);
    var x, y, z := a * (ln - la), b * (ln - lb), (a + b) * (ln - lab);
    SharesOf(a, ln - la, b, ln - lb, ln - lab, x, y, z, n);
  }

  lemma SharesOf(a: nat, ga: nat, b: nat, gb: nat, gab: nat, x: nat, y: nat, z: nat, n: nat)
    requires x == a * ga && y == b * gb && z == (a + b) * gab
    requires n > 0 && z + SCALE <= x + y
    ensures Share(a + b, gab, n) <= Share(a, ga, n) + Share(b, gb, n) + 1
    ensures n <= STRICT_LENGTH ==> Share(a + b, gab, n) < Share(a, ga, n) + Share(b, gb, n)
  {
    FloorsOfSplit(x, y, z, n);
  }

  /** Merging loses at least one full unit of `c * log c`, because `L(a + b) >= L(2 min(a, b))`. */
  lemma MergeGap(a: nat, b: nat, la: nat, lb: nat, lab: nat, ln: nat)
    requires a > 0 && b > 0 && la <= lab && lb <= lab <= ln
    requires lab >= la + SCALE || lab >= lb + SCALE
    ensures (a + b) * (ln - lab) + SCALE <= a * (ln - la) + b * (ln - lb)
  {
    SplitGap(a, ln - lab, lab - la);
    SplitGap(b, ln - lab, lab - lb);
    Distribute(a, b, ln - lab);
    if lab >= la + SCALE {
      MulMono(SCALE, lab - la, a);
    } else {
      MulMono(SCALE, lab - lb, b);
    }
  }

  lemma SplitGap(c: nat, x: nat, y: nat)
    ensures c * (x + y) == c * x + y * c
  {}

  lemma FloorsOfSplit(x: nat, y: nat, z: nat, n: nat)
    requires n > 0 && z <= x + y
    ensures z / n <= x / n + y / n + 1
    ensures z + 2 * n <= x + y ==> z / n < x / n + y / n
  {
    var qx, qy := x / n, y / n;
    Below(x, n, qx + 1);
    Below(y, n, qy + 1);
    Distribute(qx + 1, qy + 1, n);
    Below(z, n, qx + qy + 2);
    if z + 2 * n <= x + y {
      Distribute(qx + qy, 2, n);
      Below(z, n, qx + qy);
    }
  }

  lemma Below(a: nat, d: nat, k: nat)
    requires d > 0
    ensures a / d < k <==> a < k * d
  {
    DivIsLargest(a, d, k);
  }

  lemma Distribute(a: nat, b: nat, n: nat)
    ensures (a + b) * n == a * n + b * n
  {}

  /** On real windows entropy is zero exactly when at most one producer occurs. */
  lemma ZeroIffCentralised(ps: seq<AccountId>)
    requires |ps| <= STRICT_LENGTH
    ensures EntropyOf(ps) == 0 <==> forall p, q :: p in ps && q in ps ==> p == q
  {
    if p, q :| p in ps && q in ps && p != q {
      MergeLowersEntropy(ps, p, q);
    } else if ps != [] {
      SingleProducer(ps);
    }
  }

  lemma SingleProducer(ps: seq<AccountId>)
    requires ps != [] && forall p, q :: p in ps && q in ps ==> p == q
    ensures EntropyOf(ps) == 0
  {
    hide Scaled;
    var counts, p := Counts(ps), ps[0];
    CountsSum(ps);
    SumRemove(counts, p);
    TermsRemove(counts, |ps|, p);
    assert counts - {p} == map[];
    assert Terms(counts - {p}, |ps|) == map[];
  }

  // ----- The algorithm

  /** Counts occurrences, then adds up the terms; the keys may come in any order. */
  method CalculateEntropy(producers: seq<AccountId>) returns (totalEntropy: u64)
    requires |producers| <= LENGTH_LIMIT
    ensures totalEntropy == EntropyOf(producers)
  {
    hide Terms, Sum, EntropyOf;
    if |producers| == 0 {
      EntropyOfNone();
      return 0;
    }
    var counts := CountOccurrences(producers);
    CountsSum(producers);
    EntropyFitsU64(producers);
    EntropyIsSum(producers);
    totalEntropy := AddTerms(counts, |producers|);
  }

  method CountOccurrences(producers: seq<AccountId>) returns (counts: map<AccountId, nat>)
    ensures counts == Counts(producers)
  {
    hide Counts;
    NoCounts();
    counts := map[];
    for i := 0 to |producers|
      invariant counts == Counts(producers[..i])
    {
      assert producers[..i + 1] == producers[..i] + [producers[i]];
      CountsAppend(producers[..i], producers[i]);
      counts := counts[producers[i] := Get(counts, producers[i]) + 1];
    }
    assert producers[..|producers|] == producers;
  }

  lemma NoCounts()
    ensures Counts([]) == map[]
  {}

  /** The accumulating loop; the checked types show that neither the product nor the sum overflows. */
  method AddTerms(counts: map<AccountId, nat>, total: nat) returns (totalEntropy: u64)
    requires 0 < total <= LENGTH_LIMIT && Within(counts, total) && Sum(Terms(counts, total)) < U64_LIMIT
    ensures totalEntropy == Sum(Terms(counts, total))
  {
    hide Scaled, Terms, Quotient, Sum;
    totalEntropy := 0;
    var log2Total := Scaled(total);
    var remaining := counts;
    while remaining != map[]
      invariant Within(remaining, total)
      invariant totalEntropy + Sum(Terms(remaining, total)) == Sum(Terms(counts, total))
      decreases |remaining|
    {
      var p :| p in remaining;
      var count := remaining[p];
      ProductFitsU64(count, total);
      TakeTerm(remaining, total, p);
      var product: u64 := count * SatSub(log2Total, Scaled(count));
      totalEntropy := SatAdd64(totalEntropy, Quotient(product, total));
      remaining := remaining - {p};
    }
    NoTerms(total);
  }

  lemma TakeTerm(remaining: map<AccountId, nat>, total: nat, p: AccountId)
    requires total > 0 && p in remaining
    ensures |remaining - {p}| < |remaining|
    ensures Sum(Terms(remaining, total))
         == Quotient(remaining[p] * SatSub(Scaled(total), Scaled(remaining[p])), total)
            + Sum(Terms(remaining - {p}, total))
  {
    hide Scaled, Quotient;
    RemoveShrinks(remaining, p);
    TermsRemove(remaining, total, p);
  }

  lemma EntropyOfNone()
    ensures EntropyOf([]) == 0
  {}

  lemma EntropyIsSum(ps: seq<AccountId>)
    requires ps != []
    ensures EntropyOf(ps) == Sum(Terms(Counts(ps), |ps|))
  {}

  lemma NoTerms(total: nat)
    requires total > 0
    ensures Sum(Terms(map[], total)) == 0
  {
    assert Terms(map[], total) == map[];
  }

  /** `saturating_sub` and `saturating_add` never clip, and the product fits. */
  lemma ProductFitsU64(count: nat, total: nat)
    requires 0 < count <= total <= LENGTH_LIMIT
    ensures Scaled(count) <= Scaled(total)
    ensures count * SatSub(Scaled(total), Scaled(count)) < U64_LIMIT
  {
    hide Scaled;
    Line(count, total);
  }

  lemma EntropyFitsU64(ps: seq<AccountId>)
    requires |ps| <= LENGTH_LIMIT
    ensures EntropyOf(ps) < U64_LIMIT
  {
    EntropyAtMostLog(ps);
    if ps != [] {
      SumFitsU64(|ps|);
    }
  }
}
