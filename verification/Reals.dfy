/** Sign and order of products of reals, one product at a time. */
module Reals {
  lemma MulNonneg(a: real, b: real)
    requires a >= 0.0 && b >= 0.0
    ensures a * b >= 0.0
  {}

  lemma MulPos(a: real, b: real)
    requires a > 0.0 && b > 0.0
    ensures a * b > 0.0
  {}

  lemma Square(a: real)
    ensures a * a >= 0.0
  {
    if a >= 0.0 { MulNonneg(a, a); } else { MulNonneg(-a, -a); }
  }

  lemma MulLe(a: real, b: real, c: real)
    requires a <= b && c >= 0.0
    ensures a * c <= b * c
  {
    MulNonneg(b - a, c);
  }

  lemma CancelLe(a: real, b: real, c: real)
    requires c > 0.0
    ensures a * c <= b * c <==> a <= b
  {
    if a <= b { MulNonneg(b - a, c); } else { MulPos(a - b, c); }
  }

  lemma Assoc(a: real, b: real, c: real)
    ensures (a * b) * c == a * (b * c)
  {}

  lemma MulCast(a: int, b: int)
    ensures (a * b) as real == a as real * b as real
  {}

  /** The parabola `(s - c) * (d - s)` is positive strictly between its roots. */
  lemma BetweenRoots(s: real, c: real, d: real)
    requires c < s < d
    ensures s * s < (c + d) * s - c * d
  {
    MulPos(s - c, d - s);
    assert (s - c) * (d - s) == (c + d) * s - c * d - s * s;
  }
}
