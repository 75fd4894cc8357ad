/** Products and quotients of reals under a name of their own, with their ordering laws, so that a
    proof meets a nonlinear term only where it asks for it. */
module Arithmetic {

  function Times(a: real, b: real): real {
    a * b
  }

  function Over(a: real, b: real): real
    requires b != 0.0
  {
    a / b
  }

  lemma TimesSign(a: real, b: real)
    ensures a >= 0.0 && b >= 0.0 ==> Times(a, b) >= 0.0
    ensures a > 0.0 && b > 0.0 ==> Times(a, b) > 0.0
    ensures a <= 0.0 && b >= 0.0 ==> Times(a, b) <= 0.0
    ensures a < 0.0 && b > 0.0 ==> Times(a, b) < 0.0
  {
  }

  /** Scaling by a fraction shrinks towards zero. */
  lemma TimesShrink(a: real, s: real)
    requires a >= 0.0 && 0.0 <= s <= 1.0
    ensures 0.0 <= Times(a, s) <= a
  {
    TimesSign(a, s);
    TimesSign(a, 1.0 - s);
    assert a * (1.0 - s) == a - a * s;
  }

  lemma TimesMonotone(a: real, b: real, s: real)
    requires s >= 0.0
    ensures a <= b ==> Times(a, s) <= Times(b, s)
    ensures s > 0.0 && a < b ==> Times(a, s) < Times(b, s)
  {
    TimesSign(b - a, s);
    assert (b - a) * s == b * s - a * s;
  }

  lemma TimesRight(a: real, x: real, y: real)
    requires a >= 0.0
    ensures x <= y ==> Times(a, x) <= Times(a, y)
    ensures a > 0.0 && x < y ==> Times(a, x) < Times(a, y)
  {
    TimesMonotone(x, y, a);
    assert a * x == x * a && a * y == y * a;
  }

  lemma OverTimes(a: real, b: real)
    requires b != 0.0
    ensures Times(Over(a, b), b) == a
    ensures Over(Times(a, b), b) == a
  {
  }

  lemma OverSign(a: real, b: real)
    requires b > 0.0
    ensures a >= 0.0 ==> Over(a, b) >= 0.0
    ensures a > 0.0 ==> Over(a, b) > 0.0
    ensures a < 0.0 ==> Over(a, b) < 0.0
  {
    OverTimes(a, b);
    TimesSign(Over(a, b), b);
    TimesSign(-Over(a, b), b);
  }

  /** `x <= a / b` exactly when `x * b <= a`, for a positive divisor. */
  lemma OverAtLeast(a: real, b: real, x: real)
    requires b > 0.0
    ensures x <= Over(a, b) <==> Times(x, b) <= a
    ensures x < Over(a, b) <==> Times(x, b) < a
    ensures x == Over(a, b) <==> Times(x, b) == a
  {
    OverTimes(a, b);
    TimesMonotone(x, Over(a, b), b);
    TimesMonotone(Over(a, b), x, b);
  }
}
