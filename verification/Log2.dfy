/**
 * `integer_log2_scaled`: a piecewise-linear base-2 logarithm scaled by one million.
 * The laws are proved over the reals first, where the only rounding is the final floor.
 */
module Log2 {
  import opened Arith
  import opened Reals

  const SCALE: nat := 1_000_000

  const TWO_POW_45: nat := 0x2000_0000_0000

  /** The first input for which the u64 product inside `Scaled` overflows. */
  const FIRST_OVERFLOW: nat := TWO_POW_45 + U64_MAX / SCALE + 1

  /** `63 - leading_zeros(x)`: the position of the highest set bit. */
  function Floor(x: nat): (i: nat)
    requires x > 0
    ensures Pow(2, i) <= x < 2 * Pow(2, i)
  {
    if x == 1 then 0 else 1 + Floor(x / 2)
  }

  /** Clearing the top bit with XOR leaves `x - 2^i`, since that bit is set. */
  function Scaled(x: nat): nat
  {
    if x == 0 then 0
    else
      var integerPart := Floor(x);
      var rem := x - Pow(2, integerPart);
      var fractionalPart := rem * SCALE / Pow(2, integerPart);
      integerPart * SCALE + fractionalPart
  }

  // ----- Powers of two and the integer part

  lemma Pow2Mono(a: nat, b: nat)
    requires a <= b
    ensures Pow(2, a) <= Pow(2, b)
    decreases b
  {
    if a < b { Pow2Mono(a, b - 1); }
  }

  lemma {:induction false} Pow2Add(a: nat, b: nat)
    ensures Pow(2, a + b) == Pow(2, a) * Pow(2, b)
  {
    if a > 0 {
      Pow2Add(a - 1, b);
      calc {
        Pow(2, a + b);
        2 * Pow(2, a - 1 + b);
        2 * (Pow(2, a - 1) * Pow(2, b));
        (2 * Pow(2, a - 1)) * Pow(2, b);
      }
    }
  }

  lemma FloorMono(x: nat, y: nat)
    requires 0 < x <= y
    ensures Floor(x) <= Floor(y)
  {
    if Floor(y) < Floor(x) { Pow2Mono(Floor(y) + 1, Floor(x)); }
  }

  lemma FloorUnique(x: nat, i: nat)
    requires x > 0 && Pow(2, i) <= x < 2 * Pow(2, i)
    ensures Floor(x) == i
  {
    var j := Floor(x);
    if j < i { Pow2Mono(j + 1, i); }
    if i < j { Pow2Mono(i, j - 1); }
  }

  // ----- Mantissas: x == m * 2^i with 1 <= m < 2

  ghost predicate Decomposed(x: nat, i: nat, m: real)
  {
    1.0 <= m < 2.0 && m * Pow(2, i) as real == x as real
  }

  lemma Decompose(x: nat) returns (m: real)
    requires x > 0
    ensures Decomposed(x, Floor(x), m)
  {
    m := QuotientInRange(x as real, Pow(2, Floor(x)) as real);
  }

  lemma QuotientInRange(x: real, p: real) returns (m: real)
    requires 0.0 < p <= x < 2.0 * p
    ensures m * p == x && 1.0 <= m < 2.0
  {
    m := x / p;
    MantissaInRange(m, x, p);
  }

  lemma MantissaInRange(m: real, x: real, p: real)
    requires 0.0 < p && m * p == x
    ensures p <= x < 2.0 * p <==> 1.0 <= m < 2.0
  {
    if m < 1.0 { MulPos(1.0 - m, p); }
    if m >= 1.0 { MulLe(1.0, m, p); }
    if m >= 2.0 { MulLe(2.0, m, p); }
    if m < 2.0 { MulPos(2.0 - m, p); }
  }

  lemma DecompositionUnique(x: nat, i: nat, m: real)
    requires Decomposed(x, i, m)
    ensures x > 0 && Floor(x) == i
  {
    IntegerInRange(x, Pow(2, i), m);
    FloorUnique(x, i);
  }

  lemma IntegerInRange(x: nat, p: nat, m: real)
    requires 0 < p && 1.0 <= m < 2.0 && m * p as real == x as real
    ensures p <= x < 2 * p
  {
    MantissaInRange(m, x as real, p as real);
  }

  /** The unrounded value: `10^6 * (i + m - 1)`. */
  ghost function Curve(i: nat, m: real): real
  {
    1_000_000.0 * (i as real + m - 1.0)
  }

  /** The only error of `Scaled` is one floor. */
  lemma ScaledIsFloorOfCurve(x: nat, i: nat, m: real)
    requires Decomposed(x, i, m)
    ensures Scaled(x) as real <= Curve(i, m) < Scaled(x) as real + 1.0
  {
    hide Pow, Floor, Scaled;
    DecompositionUnique(x, i, m);
    ScaledOf(x, i);
    FractionIsFloor(x, Pow(2, i), m);
  }

  lemma ScaledOf(x: nat, i: nat)
    requires x > 0 && Floor(x) == i
    ensures Scaled(x) == i * SCALE + (x - Pow(2, i)) * SCALE / Pow(2, i)
  {}

  lemma FractionIsFloor(x: nat, p: nat, m: real)
    requires 0 < p <= x && m * p as real == x as real
    ensures ((x - p) * SCALE / p) as real <= 1_000_000.0 * (m - 1.0) < ((x - p) * SCALE / p) as real + 1.0
  {
    FloorOfQuotient((x - p) * SCALE, p, 1_000_000.0 * (m - 1.0));
  }

  /** If `r * p == a` over the reals, then `a / p` is the floor of `r`. */
  lemma FloorOfQuotient(a: nat, p: nat, r: real)
    requires p > 0 && r * p as real == a as real
    ensures (a / p) as real <= r < (a / p) as real + 1.0
  {
    BelowQuotient(a, p, r, a / p);
    BelowQuotient(a, p, r, a / p + 1);
  }

  /** An integer is at most the integer quotient exactly when it is at most the real one. */
  lemma BelowQuotient(a: nat, p: nat, r: real, k: nat)
    requires p > 0 && r * p as real == a as real
    ensures k <= a / p <==> k as real <= r
  {
    DivIsLargest(a, p, k);
    BelowProduct(a as real, p as real, r, k as real);
    MulCast(k, p);
  }

  lemma BelowProduct(a: real, p: real, r: real, k: real)
    requires p > 0.0 && r * p == a
    ensures k * p <= a <==> k <= r
  {
    CancelLe(k, r, p);
  }

  // ----- Main laws

  /** Exact on powers of two. */
  lemma ScaledPow2(i: nat)
    ensures Scaled(Pow(2, i)) == i * SCALE
  {
    FloorUnique(Pow(2, i), i);
    NoRemainder(Pow(2, i));
  }

  lemma NoRemainder(p: nat)
    requires p > 0
    ensures (p - p) * SCALE / p == 0
  {}

  /** Doubling the input adds exactly one unit. */
  lemma ScaledDouble(x: nat)
    requires x > 0
    ensures Scaled(2 * x) == Scaled(x) + SCALE
  {
    var i := Floor(x);
    FloorUnique(2 * x, i + 1);
    DivCancel((x - Pow(2, i)) * SCALE, Pow(2, i), 2);
    assert (2 * x - Pow(2, i + 1)) * SCALE == 2 * ((x - Pow(2, i)) * SCALE);
  }

  lemma ScaledBelowNext(x: nat)
    requires x > 0
    ensures Floor(x) * SCALE <= Scaled(x) < (Floor(x) + 1) * SCALE
  {
    var m := Decompose(x);
    ScaledIsFloorOfCurve(x, Floor(x), m);
  }

  /** Monotone on all inputs, zero included. */
  lemma ScaledMono(x: nat, y: nat)
    requires x <= y
    ensures Scaled(x) <= Scaled(y)
  {
    if x > 0 {
      ScaledBelowNext(x);
      ScaledBelowNext(y);
      var i, j := Floor(x), Floor(y);
      if i == j {
        FractionMono(x, y, Pow(2, i));
      } else if j < i {
        Pow2Mono(j + 1, i);
      }
    }
  }

  lemma FractionMono(x: nat, y: nat, p: nat)
    requires 0 < p <= x <= y
    ensures (x - p) * SCALE / p <= (y - p) * SCALE / p
  {
    DivMono((x - p) * SCALE, (y - p) * SCALE, p);
  }

  /** The product law up to rounding and interpolation: the constant is 10^6 * (3 - 2 * sqrt 2), plus 2. */
  lemma ScaledProduct(a: nat, b: nat)
    requires a > 0 && b > 0
    ensures Scaled(a) + Scaled(b) <= Scaled(a * b) < Scaled(a) + Scaled(b) + 171_575
  {
    var i, j := Floor(a), Floor(b);
    var x := Decompose(a);
    var y := Decompose(b);
    ScaledIsFloorOfCurve(a, i, x);
    ScaledIsFloorOfCurve(b, j, y);
    ProductMantissa(a, i, x, b, j, y);
    if x * y < 2.0 {
      ScaledIsFloorOfCurve(a * b, i + j, x * y);
      ChordLow(x, y);
    } else {
      ScaledIsFloorOfCurve(a * b, i + j + 1, x * y / 2.0);
      ChordHigh(x, y);
    }
  }

  lemma ProductMantissa(a: nat, i: nat, x: real, b: nat, j: nat, y: real)
    requires Decomposed(a, i, x) && Decomposed(b, j, y)
    ensures x * y < 2.0 ==> Decomposed(a * b, i + j, x * y)
    ensures x * y >= 2.0 ==> Decomposed(a * b, i + j + 1, x * y / 2.0)
  {
    hide Pow;
    Pow2Add(i, j);
    MultiplyMantissas(a, Pow(2, i), x, b, Pow(2, j), y, Pow(2, i + j), a * b, i + j, x * y);
  }

  lemma MultiplyMantissas(a: nat, p: nat, x: real, b: nat, q: nat, y: real, r: nat, n: nat, k: nat, z: real)
    requires 1.0 <= x < 2.0 && x * p as real == a as real
    requires 1.0 <= y < 2.0 && y * q as real == b as real
    requires n == a * b && r == p * q && r == Pow(2, k) && z == x * y
    ensures z < 2.0 ==> Decomposed(n, k, z)
    ensures z >= 2.0 ==> Decomposed(n, k + 1, z / 2.0)
  {
    MulCast(p, q);
    MulCast(a, b);
    Shuffle(x, p as real, y, q as real);
    ProductRange(x, y);
    Normalize(n, k, z);
  }

  lemma Normalize(n: nat, k: nat, z: real)
    requires 1.0 <= z < 4.0 && z * Pow(2, k) as real == n as real
    ensures z < 2.0 ==> Decomposed(n, k, z)
    ensures z >= 2.0 ==> Decomposed(n, k + 1, z / 2.0)
  {
    assert Pow(2, k + 1) == 2 * Pow(2, k);
    Halve(z, Pow(2, k) as real);
  }

  lemma Halve(z: real, p: real)
    ensures (z / 2.0) * (2.0 * p) == z * p
  {}

  lemma Shuffle(x: real, p: real, y: real, q: real)
    ensures (x * p) * (y * q) == (x * y) * (p * q)
  {}

  lemma ProductRange(x: real, y: real)
    requires 1.0 <= x < 2.0 && 1.0 <= y < 2.0
    ensures 1.0 <= x * y < 4.0
  {
    MulNonneg(x - 1.0, y - 1.0);
    MulPos(2.0 - x, y);
  }

  /** Below the breakpoint the chord loses (x-1)(y-1), largest at x = y = sqrt 2. */
  lemma ChordLow(x: real, y: real)
    requires 1.0 <= x < 2.0 && 1.0 <= y < 2.0 && x * y < 2.0
    ensures 0.0 <= (x - 1.0) * (y - 1.0) < 0.171573
    ensures x * y - 1.0 == (x - 1.0) + (y - 1.0) + (x - 1.0) * (y - 1.0)
  {
    MulNonneg(x - 1.0, y - 1.0);
    Square(x - y);
    LowGap((x - 1.0) + (y - 1.0), (x - 1.0) * (y - 1.0));
  }

  lemma LowGap(s: real, w: real)
    requires s >= 0.0 && w >= 0.0 && 4.0 * w <= s * s && s + w < 1.0
    ensures w < 0.171573
  {
    if s <= 0.828427 {
      MulLe(s, 0.828427, s);
    }
  }

  /** Above the breakpoint the chord loses (2-x)(2-y)/2, again largest at x = y = sqrt 2. */
  lemma ChordHigh(x: real, y: real)
    requires 1.0 <= x < 2.0 && 1.0 <= y < 2.0 && x * y >= 2.0
    ensures 0.0 <= (2.0 - x) * (2.0 - y) / 2.0 < 0.171573
    ensures x * y / 2.0 == (x - 1.0) + (y - 1.0) + (2.0 - x) * (2.0 - y) / 2.0
  {
    MulNonneg(2.0 - x, 2.0 - y);
    Square(x - y);
    HighGap((2.0 - x) + (2.0 - y), (2.0 - x) * (2.0 - y));
  }

  /** `s <= 1 + s^2/8` forces `s <= 4 - sqrt 8 < 1.171573`, hence `w <= s^2/4 < 0.343146`. */
  lemma HighGap(s: real, w: real)
    requires 0.0 <= s <= 2.0 && w >= 0.0 && 4.0 * w <= s * s && 2.0 * s <= 2.0 + w
    ensures w < 0.343146
  {
    if s <= 1.171573 {
      MulLe(s, 1.171573, s);
    } else {
      BetweenRoots(s, 1.171573, 6.828427);
    }
  }

  /** The u64 product of the Rust expression stays in range. */
  predicate FractionFits(x: nat)
    requires x > 0
  {
    (x - Pow(2, Floor(x))) * SCALE < U64_LIMIT
  }

  /** Exactly how far the integer logarithm can be trusted: inputs fit up to the first that overflows. */
  lemma ScaledFitsU64(n: nat)
    ensures (forall x :: 0 < x < n ==> FractionFits(x)) <==> n <= FIRST_OVERFLOW
  {
    hide FractionFits;
    if n <= FIRST_OVERFLOW {
      forall x | 0 < x < n ensures FractionFits(x) { FitsBelow(x); }
    } else {
      FirstOverflows();
    }
  }

  lemma FitsBelow(x: nat)
    requires 0 < x < FIRST_OVERFLOW
    ensures FractionFits(x)
  {
    hide Pow;
    var i := Floor(x);
    Pow2At45();
    if i >= 46 { Pow2Mono(46, i); }
    if i <= 44 { Pow2Mono(i, 44); }
  }

  lemma FirstOverflows()
    ensures !FractionFits(FIRST_OVERFLOW)
  {
    hide Pow, Floor;
    Pow2At45();
    FloorUnique(FIRST_OVERFLOW, 45);
  }

  /** The final sum fits for every u64 input. */
  lemma SumFitsU64(x: u64)
    ensures Scaled(x) < 64 * SCALE < U64_LIMIT
  {
    hide Pow;
    if x > 0 {
      ScaledBelowNext(x);
      Pow2At45();
      if Floor(x) >= 64 { Pow2Mono(64, Floor(x)); }
    }
  }

  lemma Pow2At45()
    ensures Pow(2, 44) == 0x1000_0000_0000 && Pow(2, 45) == TWO_POW_45
    ensures Pow(2, 46) == 2 * TWO_POW_45 && Pow(2, 64) == U64_LIMIT
  {
    assert Pow(2, 4) == 16;
    Pow2AddValues(4, 16, 4, 16);
    Pow2AddValues(8, 0x100, 8, 0x100);
    Pow2AddValues(16, 0x1_0000, 16, 0x1_0000);
    Pow2AddValues(32, 0x1_0000_0000, 8, 0x100);
    Pow2AddValues(40, 0x100_0000_0000, 4, 16);
    Pow2AddValues(32, 0x1_0000_0000, 32, 0x1_0000_0000);
  }

  lemma Pow2AddValues(a: nat, u: nat, b: nat, v: nat)
    requires Pow(2, a) == u && Pow(2, b) == v
    ensures Pow(2, a + b) == u * v
  {
    Pow2Add(a, b);
  }
}
