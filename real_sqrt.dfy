/** The square root the Python code takes from `math.sqrt`, given to the model as a
    function value together with the one fact it relies on. */
module RealSqrt {

  /** `sqrt` returns the non-negative square root of every non-negative real. */
  ghost predicate IsSqrt(sqrt: real -> real)
  {
    forall x :: 0.0 <= x ==> 0.0 <= sqrt(x) && sqrt(x) * sqrt(x) == x
  }

  /** A square root of a positive number is positive. */
  lemma SqrtPositive(sqrt: real -> real, x: real)
    requires IsSqrt(sqrt)
    requires 0.0 < x
    ensures 0.0 < sqrt(x)
  {
  }

  /** Between non-negative reals, a smaller square means a smaller number. */
  lemma SquareLessThan(x: real, y: real)
    requires 0.0 <= x && 0.0 <= y
    requires x * x < y * y
    ensures x < y
  {
    var d := y * y - x * x;
    assert (y - x) * (y + x) == d;
    assert 0.0 < y + x;
    assert y - x == d / (y + x);
  }

  /** The square root of s*s + c, for c > 0, exceeds |s|. */
  lemma SqrtAboveAbs(sqrt: real -> real, s: real, c: real)
    requires IsSqrt(sqrt)
    requires 0.0 < c
    ensures -sqrt(s * s + c) < s < sqrt(s * s + c)
  {
    var t := sqrt(s * s + c);
    assert 0.0 <= s * s;
    var a := if s < 0.0 then -s else s;
    assert a * a == s * s;
    SquareLessThan(a, t);
  }
}
