/** Mean and variance of a list of reals. */
module Statistics {
  import opened Permutations
  import opened Reals
  import opened Vectors

  function Shifted(v: Vector, t: real): (r: Vector)
    ensures |r| == |v| && forall k :: 0 <= k < |v| ==> r[k] == v[k] + t
  {
    seq(|v|, k requires 0 <= k < |v| => v[k] + t)
  }

  function Squared(v: Vector): (r: Vector)
    ensures |r| == |v| && forall k :: 0 <= k < |v| ==> r[k] == Times(v[k], v[k])
  {
    seq(|v|, k requires 0 <= k < |v| => Times(v[k], v[k]))
  }

  function Mean(v: Vector): real { if v == [] then 0.0 else Sum(v) / |v| as real }

  function Centred(v: Vector): Vector { Shifted(v, -Mean(v)) }

  lemma {:induction false} SumShifted(v: Vector, t: real)
    ensures Sum(Shifted(v, t)) == Sum(v) + Times(|v| as real, t)
  {
    if v != [] {
      var n := |v| - 1;
      SumShifted(v[..n], t);
      assert Shifted(v, t)[..n] == Shifted(v[..n], t);
      assert Times(|v| as real, t) == Times(n as real, t) + t;
    }
  }

  lemma MeanIs(v: Vector)
    requires v != []
    ensures Times(|v| as real, Mean(v)) == Sum(v)
  {
    hide Times;
    Quotient(Sum(v), |v| as real, 0.0);
    TimesCommutes(|v| as real, Mean(v));
  }

  /** A recentred list has zero sum, and moving the old list by any constant does not change it. */
  lemma CentredIsCanonical(v: Vector, t: real)
    ensures Sum(Centred(v)) == 0.0
    ensures Centred(Shifted(v, t)) == Centred(v)
    ensures v != [] ==> Mean(Shifted(v, t)) == Mean(v) + t
  {
    hide Times, Mean;
    if v != [] {
      MeanIs(v);
      SumShifted(v, -Mean(v));
      TimesNegates(|v| as real, Mean(v));
      var s := Shifted(v, t);
      MeanIs(s);
      SumShifted(v, t);
      TimesDistributes(|v| as real, Mean(v), t);
      if Mean(s) != Mean(v) + t {
        SameProduct(|v| as real, Mean(s), Mean(v) + t);
        assert false;
      }
    }
  }

  lemma SameProduct(k: real, x: real, y: real)
    requires k > 0.0 && Times(k, x) == Times(k, y)
    ensures x == y
  {
    hide Times;
    TimesDistributes(k, x, y);
    if x > y {
      TimesPositive(k, x - y);
    } else if y > x {
      TimesPositive(k, y - x);
      TimesDistributes(k, y, x);
    }
  }

  function SumOfSquares(v: Vector): real { Sum(Squared(v)) }

  lemma Append(v: Vector, x: real)
    ensures Sum(v + [x]) == Sum(v) + x
    ensures SumOfSquares(v + [x]) == SumOfSquares(v) + Times(x, x)
  {
    hide Times;
    assert (v + [x])[..|v|] == v;
    assert Squared(v + [x])[..|v|] == Squared(v);
  }

  /** Mean squared deviation from the mean. */
  function Variance(v: Vector): real { if v == [] then 0.0 else SumOfSquares(Centred(v)) / |v| as real }

  lemma SquareShift(x: real, m: real)
    ensures Times(x - m, x - m) == Times(x, x) - Times(m, 2.0 * x) + Times(m, m)
  {
  }

  lemma {:induction false} DeviationStep(v: Vector, m: real)
    ensures SumOfSquares(Shifted(v, -m)) ==
            SumOfSquares(v) - Times(m, 2.0 * Sum(v)) + Times(|v| as real, Times(m, m))
  {
    hide Times;
    TimesUnits(m);
    TimesUnits(Times(m, m));
    if v != [] {
      var n := |v| - 1;
      DeviationStep(v[..n], m);
      assert Squared(v)[..n] == Squared(v[..n]);
      assert Shifted(v, -m)[..n] == Shifted(v[..n], -m);
      assert Squared(Shifted(v, -m))[..n] == Squared(Shifted(v[..n], -m));
      SquareShift(v[n], m);
      TimesDistributes(m, 2.0 * Sum(v[..n]), 2.0 * v[n]);
      CountOneMore(n, Times(m, m));
    }
  }

  lemma CountOneMore(n: nat, x: real)
    ensures Times((n + 1) as real, x) == Times(n as real, x) + x
  {
  }

  lemma DoubleTimes(m: real, s: real)
    ensures Times(m, 2.0 * s) == 2.0 * Times(m, s)
  {
  }

  /** The one-pass formula is the population variance. */
  lemma OnePassVariance(v: Vector)
    requires v != []
    ensures SumOfSquares(v) / |v| as real - Times(Mean(v), Mean(v)) == Variance(v)
  {
    hide Times, Mean, SumOfSquares;
    var n, m := |v| as real, Mean(v);
    DeviationStep(v, m);
    MeanIs(v);
    TimesSwap(m, n, m);
    DoubleTimes(m, Sum(v));
    assert SumOfSquares(Centred(v)) == SumOfSquares(v) - Times(n, Times(m, m));
    QuotientMinus(SumOfSquares(v), n, Times(m, m));
  }

  lemma QuotientMinus(s: real, n: real, x: real)
    requires n > 0.0
    ensures (s - Times(n, x)) / n == s / n - x
  {
    var q := s / n;
    assert s == Times(n, q);
    assert s - Times(n, x) == Times(n, q - x);
  }

  lemma {:induction false} SquaresAreNonNegative(v: Vector)
    ensures SumOfSquares(v) >= 0.0
  {
    if v != [] {
      var n := |v| - 1;
      SquaresAreNonNegative(v[..n]);
      assert Squared(v)[..n] == Squared(v[..n]);
      assert Times(v[n], v[n]) >= 0.0;
    }
  }

  /** So clamping it at zero changes nothing. */
  lemma VarianceIsNonNegative(v: Vector)
    ensures Variance(v) >= 0.0
  {
    if v != [] {
      SquaresAreNonNegative(Centred(v));
    }
  }

  lemma {:induction false} SumWithout(v: Vector, k: nat)
    requires k < |v|
    ensures Sum(v) == Sum(Without(v, k)) + v[k]
  {
    var n := |v| - 1;
    if k < n {
      SumWithout(v[..n], k);
      var rest := Without(v, k);
      assert rest[..|rest| - 1] == Without(v[..n], k);
    } else {
      assert Without(v, k) == v[..n];
    }
  }

  lemma {:induction false} SumIgnoresOrder(a: Vector, b: Vector)
    requires multiset(a) == multiset(b)
    ensures Sum(a) == Sum(b)
    decreases |a|
  {
    if a == [] {
      assert |multiset(b)| == 0;
    } else {
      var k := Match(a, b);
      SumIgnoresOrder(a[..|a| - 1], Without(b, k));
      SumWithout(b, k);
    }
  }

  lemma {:induction false} SquaresIgnoreOrder(a: Vector, b: Vector)
    requires multiset(a) == multiset(b)
    ensures SumOfSquares(a) == SumOfSquares(b)
    decreases |a|
  {
    if a == [] {
      assert |multiset(b)| == 0;
    } else {
      var k := Match(a, b);
      SquaresIgnoreOrder(a[..|a| - 1], Without(b, k));
      assert Squared(Without(b, k)) == Without(Squared(b), k);
      assert Squared(a)[..|a| - 1] == Squared(a[..|a| - 1]);
      SumWithout(Squared(b), k);
    }
  }
}
