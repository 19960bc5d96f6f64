/**
 * A straight line above `c * (L(n) - L(c))`, where `L` is the scaled logarithm.
 * The slope in `n` is 3/32, so fifteen producers stay below four units of entropy.
 */
module Tangent {
  import opened Arith
  import opened Reals
  import opened Log2

  const PER_PRODUCER: nat := 93_750 // 10^6 * 3/32
  const BASE: nat := 2_550_601

  /** `x^2 - (e + 1 - B) x + (3/32) 2^e` has no root on the positive axis, for any `e`. */
  lemma Parabola(e: nat, x: real)
    requires x >= 0.0
    ensures x * x - (e as real - 1.5506) * x + 0.09375 * Pow(2, e) as real >= 0.0
  {
    var p := e as real - 1.5506;
    Square(x);
    if e <= 1 {
      MulNonneg(-p, x);
    } else {
      Discriminant(e);
      Square(x - p / 2.0);
      assert (x - p / 2.0) * (x - p / 2.0) == x * x - p * x + p * p / 4.0;
    }
  }

  lemma {:induction false} Discriminant(e: nat)
    requires e >= 2
    ensures (e as real - 1.5506) * (e as real - 1.5506) <= 0.375 * Pow(2, e) as real
  {
    if e == 2 {
      assert Pow(2, 2) == 4;
    } else if e == 3 {
      assert Pow(2, 3) == 2 * Pow(2, 2) == 8;
    } else if e == 4 {
      assert Pow(2, 4) == 2 * Pow(2, 3) == 4 * Pow(2, 2) == 16;
    } else {
      Discriminant(e - 1);
      GrowSquare(e as real - 2.5506);
    }
  }

  lemma GrowSquare(p: real)
    requires p >= 2.4494
    ensures (p + 1.0) * (p + 1.0) <= 2.0 * (p * p)
  {
    MulLe(2.4494, p, p);
    assert (p + 1.0) * (p + 1.0) == p * p + 2.0 * p + 1.0;
  }

  /** The line over mantissas: interpolate in `y` between two parabolas. */
  lemma LineOverMantissas(d: nat, x: real, y: real)
    requires 1.0 <= x < 2.0 && 1.0 <= y < 2.0
    ensures (d as real + y - x - 2.5506) * x <= 0.09375 * Pow(2, d) as real * y
  {
    Parabola(d, x);
    Parabola(d + 1, x);
    assert Pow(2, d + 1) == 2 * Pow(2, d);
    hide Pow;
    BetweenParabolas(d as real - 2.5506, 0.09375 * Pow(2, d) as real, x, y);
  }

  lemma BetweenParabolas(s: real, a: real, x: real, y: real)
    requires 1.0 <= y < 2.0
    requires x * x - (s + 1.0) * x + a >= 0.0 && x * x - (s + 2.0) * x + 2.0 * a >= 0.0
    ensures (s + y - x) * x <= a * y
  {
    MulNonneg(x * x - (s + 1.0) * x + a, 2.0 - y);
    MulNonneg(x * x - (s + 2.0) * x + 2.0 * a, y - 1.0);
    Interpolate(s, a, x, y);
  }

  lemma Interpolate(s: real, a: real, x: real, y: real)
    ensures (x * x - (s + 1.0) * x + a) * (2.0 - y) + (x * x - (s + 2.0) * x + 2.0 * a) * (y - 1.0)
         == a * y - (s + y - x) * x
  {}

  /** `c * (L(n) - L(c))` lies below a line in `n` and `c`. */
  lemma Line(c: nat, n: nat)
    requires 0 < c <= n
    ensures Scaled(c) <= Scaled(n)
    ensures c * (Scaled(n) - Scaled(c)) <= PER_PRODUCER * n + BASE * c
  {
    hide Scaled;
    ScaledMono(c, n);
    var gap := CurveGap(c, n);
    Round(c, n, Scaled(n) - Scaled(c), gap);
  }

  lemma CurveGap(c: nat, n: nat) returns (gap: real)
    requires 0 < c <= n
    ensures Scaled(n) as real - Scaled(c) as real <= 1_000_000.0 * gap + 1.0
    ensures (gap - 2.5506) * c as real <= 0.09375 * n as real
  {
    hide Decomposed, Scaled;
    FloorMono(c, n);
    var x := Decompose(c);
    var y := Decompose(n);
    gap := CurveGapOf(c, Floor(c), x, n, Floor(n), y);
  }

  lemma CurveGapOf(c: nat, i: nat, x: real, n: nat, j: nat, y: real) returns (gap: real)
    requires Decomposed(c, i, x) && Decomposed(n, j, y) && i <= j
    ensures Scaled(n) as real - Scaled(c) as real <= 1_000_000.0 * gap + 1.0
    ensures (gap - 2.5506) * c as real <= 0.09375 * n as real
  {
    hide Decomposed, Scaled;
    gap := (j - i) as real + y - x;
    CurveDifference(c, i, x, n, j, y);
    LineOverDecompositions(c, i, x, n, j, y);
  }

  lemma CurveDifference(c: nat, i: nat, x: real, n: nat, j: nat, y: real)
    requires Decomposed(c, i, x) && Decomposed(n, j, y) && i <= j
    ensures Scaled(n) as real - Scaled(c) as real <= 1_000_000.0 * ((j - i) as real + y - x) + 1.0
  {
    hide Decomposed, Scaled;
    ScaledIsFloorOfCurve(c, i, x);
    ScaledIsFloorOfCurve(n, j, y);
  }

  lemma LineOverDecompositions(c: nat, i: nat, x: real, n: nat, j: nat, y: real)
    requires Decomposed(c, i, x) && Decomposed(n, j, y) && i <= j
    ensures ((j - i) as real + y - x - 2.5506) * c as real <= 0.09375 * n as real
  {
    hide Floor, Pow;
    Pow2Add(i, j - i);
    LineOverProduct(c, n, j - i, x, y, Pow(2, i), Pow(2, j));
  }

  lemma LineOverProduct(c: nat, n: nat, d: nat, x: real, y: real, p: nat, r: nat)
    requires p > 0 && r == p * Pow(2, d)
    requires 1.0 <= x < 2.0 && x * p as real == c as real
    requires 1.0 <= y < 2.0 && y * r as real == n as real
    ensures (d as real + y - x - 2.5506) * c as real <= 0.09375 * n as real
  {
    LineOverMantissas(d, x, y);
    LineOverIntegers(c, n, d as real + y - x, x, y, p, Pow(2, d), r);
  }

  lemma LineOverIntegers(c: nat, n: nat, gap: real, x: real, y: real, p: nat, q: nat, r: nat)
    requires p > 0 && r == p * q && x * p as real == c as real && y * r as real == n as real
    requires (gap - 2.5506) * x <= 0.09375 * q as real * y
    ensures (gap - 2.5506) * c as real <= 0.09375 * n as real
  {
    MulCast(p, q);
    ScaleUp(gap, x, y, p as real, q as real);
  }

  lemma Round(c: nat, n: nat, g: nat, gap: real)
    requires (gap - 2.5506) * c as real <= 0.09375 * n as real
    requires g as real <= 1_000_000.0 * gap + 1.0
    ensures c * g <= PER_PRODUCER * n + BASE * c
  {
    MulLe(g as real, 1_000_000.0 * gap + 1.0, c as real);
    MulCast(g, c);
    assert (1_000_000.0 * gap + 1.0) * c as real
        == 1_000_000.0 * ((gap - 2.5506) * c as real) + 2_550_601.0 * c as real;
    assert (c * g) as real <= 93_750.0 * n as real + 2_550_601.0 * c as real;
  }

  lemma ScaleUp(gap: real, x: real, y: real, p: real, q: real)
    requires p > 0.0 && (gap - 2.5506) * x <= 0.09375 * q * y
    ensures (gap - 2.5506) * (x * p) <= 0.09375 * (y * (p * q))
  {
    MulLe((gap - 2.5506) * x, 0.09375 * q * y, p);
    Assoc(gap - 2.5506, x, p);
    assert 0.09375 * q * y * p == 0.09375 * (y * (p * q));
  }
}
