/** Squares of reals, and the facts about them that the magnitude, distance
    and clamp reasoning of the vector and collider modules rests on. */
module Reals {

  /** a * a */
  function Sqr(a: real): real {
    a * a
  }

  lemma MulPos(a: real, b: real)
    requires a > 0.0 && b > 0.0
    ensures a * b > 0.0
  {
  }

  lemma SqrNonNeg(a: real)
    ensures Sqr(a) >= 0.0
  {
  }

  lemma SqrNeg(a: real)
    ensures Sqr(-a) == Sqr(a)
  {
  }

  lemma SqrSub(a: real, b: real)
    ensures Sqr(a - b) == Sqr(b - a)
  {
    SqrNeg(b - a);
    assert a - b == -(b - a);
  }

  /** Squaring is strictly monotonic on the non-negative reals. */
  lemma SqrMono(a: real, b: real)
    requires 0.0 <= a && 0.0 <= b
    ensures a <= b <==> Sqr(a) <= Sqr(b)
  {
    if a < b {
      MulPos(b - a, b + a);
      assert Sqr(b) - Sqr(a) == (b - a) * (b + a);
    } else if b < a {
      MulPos(a - b, a + b);
      assert Sqr(a) - Sqr(b) == (a - b) * (a + b);
    }
  }

  /** A square is zero only for zero. */
  lemma SqrZero(a: real)
    ensures Sqr(a) == 0.0 <==> a == 0.0
  {
    if a > 0.0 {
      SqrMono(a, 0.0);
    } else if a < 0.0 {
      SqrMono(-a, 0.0);
      SqrNeg(a);
    }
  }

  /** The square of a quotient is the quotient of the squares. */
  lemma SqrDiv(a: real, m: real)
    requires m != 0.0
    ensures Sqr(a / m) * Sqr(m) == Sqr(a)
  {
    var q := a / m;
    assert a == q * m;
    assert Sqr(a) == Sqr(q) * Sqr(m);
  }

  /** A non-zero factor can be cancelled. */
  lemma MulCancel(x: real, y: real, s: real)
    requires s != 0.0 && x * s == y * s
    ensures x == y
  {
    assert x == (x * s) / s;
    assert y == (y * s) / s;
  }
}
