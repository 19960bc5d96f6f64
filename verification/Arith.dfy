/** Fixed-width arithmetic of the runtime, and a few facts about division. */
module Arith {
  const U8_LIMIT: nat := 0x100
  const U32_LIMIT: nat := 0x1_0000_0000
  const U64_LIMIT: nat := 0x1_0000_0000_0000_0000
  const U128_LIMIT: nat := U64_LIMIT * U64_LIMIT
  const U256_LIMIT: nat := U128_LIMIT * U128_LIMIT
  const U64_MAX: nat := U64_LIMIT - 1

  type u8 = n: nat | n < U8_LIMIT
  type u32 = n: nat | n < U32_LIMIT
  type u64 = n: nat | n < U64_LIMIT

  function Min(a: int, b: int): int { if a <= b then a else b }

  function Max(a: int, b: int): int { if a >= b then a else b }

  /** `saturating_sub` on an unsigned type. */
  function SatSub(a: nat, b: nat): nat { if a >= b then a - b else 0 }

  /** `u64::saturating_add`. */
  function SatAdd64(a: nat, b: nat): u64 { if a + b < U64_LIMIT then a + b else U64_MAX }

  /** `u64::saturating_mul`. */
  function SatMul64(a: nat, b: nat): u64 { if a * b < U64_LIMIT then a * b else U64_MAX }

  /** `saturated_into::<u64>`. */
  function SaturateU64(n: nat): u64 { Min(n, U64_MAX) }

  function Pow(b: nat, e: nat): (p: nat)
    ensures b > 0 ==> p > 0
  {
    if e == 0 then 1 else b * Pow(b, e - 1)
  }

  lemma PowNext(b: nat, e: nat)
    ensures Pow(b, 0) == 1 && Pow(b, e + 1) == b * Pow(b, e)
  {}

  lemma MulMono(a: nat, b: nat, c: nat)
    requires a <= b
    ensures a * c <= b * c
  {}

  lemma MulSucc(k: nat, v: nat)
    ensures (k + 1) * v == k * v + v
  {}

  /** Integer division is monotone in the dividend. */
  lemma DivMono(a: nat, b: nat, d: nat)
    requires a <= b && d > 0
    ensures a / d <= b / d
  {
    if a / d > b / d {
      MulMono(b / d + 1, a / d, d);
    }
  }

  /** The quotient is the largest `q` with `q * d <= a`. */
  lemma DivIsLargest(a: nat, d: nat, q: nat)
    requires d > 0
    ensures q <= a / d <==> q * d <= a
  {
    if q <= a / d {
      MulMono(q, a / d, d);
    } else {
      MulMono(a / d + 1, q, d);
    }
  }

  /** Integer division is antitone in the divisor. */
  lemma DivAnti(a: nat, c: nat, d: nat)
    requires 0 < c <= d
    ensures a / d <= a / c
  {
    MulMono(c, d, a / d);
    DivIsLargest(a, c, a / d);
  }

  lemma DivExact(q: nat, d: nat)
    requires d > 0
    ensures (q * d) / d == q
  {
    DivIsLargest(q * d, d, q);
    DivIsLargest(q * d, d, q + 1);
  }

  /** `q * d + r` has quotient `q` and remainder `r`. */
  lemma DivModUnique(q: nat, d: nat, r: nat)
    requires r < d
    ensures (q * d + r) / d == q && (q * d + r) % d == r
  {
    DivIsLargest(q * d + r, d, q);
    DivIsLargest(q * d + r, d, q + 1);
  }

  /** Multiplying dividend and divisor by the same number keeps the quotient. */
  lemma DivCancel(a: nat, d: nat, k: nat)
    requires d > 0 && k > 0
    ensures k * d > 0 && (k * a) / (k * d) == a / d
  {
    var q := a / d;
    DivIsLargest(a, d, q);
    DivIsLargest(a, d, q + 1);
    Scale(q * d, a, k);
    Scale(a + 1, (q + 1) * d, k);
    MulAssoc(k, q, d);
    MulAssoc(k, q + 1, d);
    DivIsLargest(k * a, k * d, q);
    DivIsLargest(k * a, k * d, q + 1);
  }

  lemma Scale(a: nat, b: nat, k: nat)
    requires a <= b
    ensures k * a <= k * b
  {}

  lemma MulAssoc(k: nat, a: nat, b: nat)
    ensures k * (a * b) == a * (k * b)
  {}

  /** Two steps that each keep at most a share keep at most the product of the shares. */
  lemma Compound(a: nat, b: nat, c: nat, m: nat, q: nat, ph: nat, pq: nat)
    requires b * ph <= a * pq && c * m <= b * q
    ensures c * (m * ph) <= a * (q * pq)
  {
    MulMono(c * m, b * q, ph);
    MulMono(b * ph, a * pq, q);
    RegroupShares(c, m, ph);
    RegroupShares(a, pq, q);
    Exchange(b, q, ph);
  }

  lemma RegroupShares(c: nat, m: nat, ph: nat)
    ensures c * m * ph == c * (m * ph) == c * (ph * m)
  {}

  lemma Exchange(b: nat, q: nat, ph: nat)
    ensures b * q * ph == b * ph * q
  {}
}
