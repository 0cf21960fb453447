/** Products of reals behind a name, so that proofs use one law of arithmetic at a time. */
module Reals {
  function Abs(x: real): real { if x < 0.0 then -x else x }

  function Max(x: real, y: real): real { if x < y then y else x }

  function Times(x: real, y: real): real { x * y }

  lemma TimesCommutes(x: real, y: real)
    ensures Times(x, y) == Times(y, x)
  {
  }

  lemma TimesSwap(a: real, k: real, x: real)
    ensures Times(a, Times(k, x)) == Times(k, Times(a, x))
  {
  }

  lemma TimesDistributes(k: real, x: real, y: real)
    ensures Times(k, x + y) == Times(k, x) + Times(k, y)
    ensures Times(k, x - y) == Times(k, x) - Times(k, y)
  {
  }

  lemma TimesNegates(k: real, x: real)
    ensures Times(-k, x) == -Times(k, x) && Times(k, -x) == -Times(k, x)
  {
  }

  lemma TimesUnits(x: real)
    ensures Times(0.0, x) == 0.0 && Times(x, 0.0) == 0.0 && Times(1.0, x) == x && Times(x, 1.0) == x
    ensures Times(-1.0, x) == -x
  {
  }

  lemma TimesMonotone(w: real, x: real, y: real)
    requires 0.0 <= w && x <= y
    ensures Times(w, x) <= Times(w, y)
  {
  }

  lemma TimesPositive(w: real, x: real)
    requires w > 0.0 && x > 0.0
    ensures Times(w, x) > 0.0
  {
  }

  lemma TimesAbs(k: real, e: real)
    ensures Abs(Times(k, e)) == Times(Abs(k), Abs(e))
  {
  }

  lemma Quotient(e: real, m: real, tol: real)
    requires m > 0.0
    ensures e / m <= tol <==> e <= Times(tol, m)
    ensures Times(e / m, m) == e
  {
    var q := e / m;
    assert Times(m, q) == e;
    if q <= tol {
      TimesMonotone(m, q, tol);
    } else {
      TimesPositive(m, q - tol);
      TimesDistributes(m, q, tol);
    }
  }

  /** The point a fraction alpha of the way from x to y. */
  function Blend(alpha: real, x: real, y: real): real { Times(1.0 - alpha, x) + Times(alpha, y) }

  lemma BlendIsMonotone(alpha: real, x: real, y: real, u: real, v: real)
    requires 0.0 <= alpha <= 1.0 && x <= u && y <= v
    ensures Blend(alpha, x, y) <= Blend(alpha, u, v)
  {
    hide Times;
    TimesMonotone(1.0 - alpha, x, u);
    TimesMonotone(alpha, y, v);
  }

  lemma BlendScales(alpha: real, k: real, x: real, y: real)
    ensures Blend(alpha, Times(k, x), Times(k, y)) == Times(k, Blend(alpha, x, y))
  {
    hide Times;
    TimesSwap(1.0 - alpha, k, x);
    TimesSwap(alpha, k, y);
    TimesDistributes(k, Times(1.0 - alpha, x), Times(alpha, y));
  }

  lemma BlendSubtracts(alpha: real, x: real, y: real, u: real, v: real)
    ensures Blend(alpha, x - u, y - v) == Blend(alpha, x, y) - Blend(alpha, u, v)
  {
    hide Times;
    TimesDistributes(1.0 - alpha, x, u);
    TimesDistributes(alpha, y, v);
  }

  lemma BlendNegates(alpha: real, x: real, y: real)
    ensures Blend(alpha, -x, -y) == -Blend(alpha, x, y)
  {
    hide Times;
    TimesNegates(1.0 - alpha, x);
    TimesNegates(alpha, y);
  }

  lemma BlendOfConstant(alpha: real, c: real)
    ensures Blend(alpha, c, c) == c
  {
  }

  lemma BlendByGap(alpha: real, b: real, a: real)
    ensures Blend(alpha, b, a) == b + Times(alpha, a - b)
  {
  }
}
