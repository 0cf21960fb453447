/** Real vectors as sequences. */
module Vectors {
  import opened Reals

  type Vector = seq<real>

  function Dot(a: Vector, b: Vector): real
    requires |a| == |b|
  {
    if a == [] then 0.0 else Dot(a[..|a| - 1], b[..|a| - 1]) + Times(a[|a| - 1], b[|a| - 1])
  }

  function Sum(a: Vector): real {
    if a == [] then 0.0 else Sum(a[..|a| - 1]) + a[|a| - 1]
  }

  function Constant(n: nat, c: real): (v: Vector)
    ensures |v| == n && forall i :: 0 <= i < n ==> v[i] == c
  {
    seq(n, _ => c)
  }

  function Unit(n: nat, i: nat): (v: Vector)
    ensures |v| == n && forall j :: 0 <= j < n ==> v[j] == if i == j then 1.0 else 0.0
  {
    seq(n, j => if i == j then 1.0 else 0.0)
  }

  function Scale(x: real, a: Vector): (v: Vector)
    ensures |v| == |a| && forall i :: 0 <= i < |a| ==> v[i] == Times(x, a[i])
  {
    seq(|a|, i requires 0 <= i < |a| => Times(x, a[i]))
  }

  function Add(a: Vector, b: Vector): (v: Vector)
    requires |a| == |b|
    ensures |v| == |a| && forall i :: 0 <= i < |a| ==> v[i] == a[i] + b[i]
  {
    seq(|a|, i requires 0 <= i < |a| => a[i] + b[i])
  }

  /** The field a fraction alpha of the way from a to b. */
  function Mix(alpha: real, a: Vector, b: Vector): (v: Vector)
    requires |a| == |b|
    ensures |v| == |a|
  {
    Add(Scale(1.0 - alpha, a), Scale(alpha, b))
  }

  /** v with x added at position i. */
  function Bump(v: Vector, i: nat, x: real): (r: Vector)
    requires i < |v|
    ensures |r| == |v|
  {
    v[i := v[i] + x]
  }

  ghost predicate Within(e: Vector, tol: real) {
    forall i :: 0 <= i < |e| ==> Abs(e[i]) <= tol
  }

  ghost predicate NonNegative(a: Vector) {
    forall i :: 0 <= i < |a| ==> 0.0 <= a[i]
  }

  ghost predicate AtMost(e: Vector, f: Vector) {
    |e| == |f| && forall i :: 0 <= i < |e| ==> e[i] <= f[i]
  }

  lemma DotLast(a: Vector, b: Vector)
    requires |a| == |b|
    ensures a == [] ==> Dot(a, b) == 0.0
    ensures a != [] ==> Dot(a, b) == Dot(a[..|a| - 1], b[..|b| - 1]) + Times(a[|a| - 1], b[|b| - 1])
  {
    hide Times;
  }

  lemma BumpAdd(u: Vector, v: Vector, i: nat, x: real, y: real)
    requires |u| == |v| && i < |v|
    ensures Bump(Add(u, v), i, x + y) == Add(Bump(u, i, x), Bump(v, i, y))
    ensures Bump(Add(u, v), i, y) == Add(u, Bump(v, i, y))
  {
  }

  lemma BumpScale(k: real, v: Vector, i: nat, x: real)
    requires i < |v|
    ensures Bump(Scale(k, v), i, Times(k, x)) == Scale(k, Bump(v, i, x))
  {
    hide Times;
    TimesDistributes(k, v[i], x);
  }

  lemma BumpPrefix(v: Vector, i: nat, x: real)
    requires i < |v|
    ensures
      var n := |v| - 1;
      && Bump(v, i, x)[..n] == (if i < n then Bump(v[..n], i, x) else v[..n])
      && Bump(v, i, x)[n] == if i < n then v[n] else v[n] + x
  {
  }

  lemma {:induction false} DotUpdate(a: Vector, v: Vector, i: nat, x: real)
    requires |a| == |v| && i < |v|
    ensures Dot(a, Bump(v, i, x)) == Dot(a, v) + Times(a[i], x)
  {
    hide Times, Dot, Bump;
    var n := |v| - 1;
    DotLast(a, v);
    DotLast(a, Bump(v, i, x));
    BumpPrefix(v, i, x);
    if i < n {
      DotUpdate(a[..n], v[..n], i, x);
    } else {
      TimesDistributes(a[n], v[n], x);
    }
  }

  lemma AddPrefix(b: Vector, c: Vector, n: nat)
    requires n <= |b| == |c|
    ensures Add(b, c)[..n] == Add(b[..n], c[..n])
  {
  }

  lemma ScalePrefix(x: real, b: Vector, n: nat)
    requires n <= |b|
    ensures Scale(x, b)[..n] == Scale(x, b[..n])
  {
    hide Times;
  }

  lemma {:induction false} DotAdd(a: Vector, b: Vector, c: Vector)
    requires |a| == |b| == |c|
    ensures Dot(a, Add(b, c)) == Dot(a, b) + Dot(a, c)
  {
    hide Dot, Times;
    DotLast(a, b);
    DotLast(a, c);
    DotLast(a, Add(b, c));
    if a != [] {
      var n := |a| - 1;
      DotAdd(a[..n], b[..n], c[..n]);
      AddPrefix(b, c, n);
      TimesDistributes(a[n], b[n], c[n]);
    }
  }

  lemma {:induction false} DotScale(a: Vector, x: real, b: Vector)
    requires |a| == |b|
    ensures Dot(a, Scale(x, b)) == Times(x, Dot(a, b))
  {
    hide Dot, Times;
    DotLast(a, b);
    DotLast(a, Scale(x, b));
    TimesUnits(x);
    if a != [] {
      var n := |a| - 1;
      DotScale(a[..n], x, b[..n]);
      ScalePrefix(x, b, n);
      TimesSwap(a[n], x, b[n]);
      TimesDistributes(x, Dot(a[..n], b[..n]), Times(a[n], b[n]));
    }
  }

  lemma {:induction false} DotCommutes(a: Vector, b: Vector)
    requires |a| == |b|
    ensures Dot(a, b) == Dot(b, a)
  {
    hide Dot, Times;
    DotLast(a, b);
    DotLast(b, a);
    if a != [] {
      DotCommutes(a[..|a| - 1], b[..|a| - 1]);
      TimesCommutes(a[|a| - 1], b[|a| - 1]);
    }
  }

  lemma SumLast(a: Vector)
    ensures a == [] ==> Sum(a) == 0.0
    ensures a != [] ==> Sum(a) == Sum(a[..|a| - 1]) + a[|a| - 1]
  {
  }

  lemma {:induction false} DotConstant(a: Vector, c: real)
    ensures Dot(a, Constant(|a|, c)) == Times(c, Sum(a))
  {
    hide Dot, Times, Sum;
    DotLast(a, Constant(|a|, c));
    SumLast(a);
    TimesUnits(c);
    if a != [] {
      var n := |a| - 1;
      DotConstant(a[..n], c);
      assert Constant(|a|, c)[..n] == Constant(n, c);
      TimesCommutes(a[n], c);
      TimesDistributes(c, Sum(a[..n]), a[n]);
    }
  }

  lemma DotUnit(a: Vector, i: nat)
    requires i < |a|
    ensures Dot(a, Unit(|a|, i)) == a[i]
  {
    hide Dot, Times, Sum;
    var zeros := Constant(|a|, 0.0);
    DotConstant(a, 0.0);
    DotUpdate(a, zeros, i, 1.0);
    TimesUnits(Sum(a));
    TimesUnits(a[i]);
    assert Bump(zeros, i, 1.0) == Unit(|a|, i);
  }

  lemma {:induction false} DotMonotone(a: Vector, e: Vector, f: Vector)
    requires |a| == |e| && NonNegative(a) && AtMost(e, f)
    ensures Dot(a, e) <= Dot(a, f)
  {
    hide Dot, Times;
    DotLast(a, e);
    DotLast(a, f);
    if a != [] {
      var n := |a| - 1;
      assert NonNegative(a[..n]) && AtMost(e[..n], f[..n]);
      DotMonotone(a[..n], e[..n], f[..n]);
      TimesMonotone(a[n], e[n], f[n]);
    }
  }

  /** A weighted sum of errors is at most the total weight times the largest error. */
  lemma DotBound(a: Vector, e: Vector, tol: real)
    requires |a| == |e| && NonNegative(a) && Within(e, tol)
    ensures Abs(Dot(a, e)) <= Times(tol, Sum(a))
  {
    hide Dot, Times, Sum;
    DotMonotone(a, e, Constant(|a|, tol));
    DotMonotone(a, Constant(|a|, -tol), e);
    DotConstant(a, tol);
    DotConstant(a, -tol);
    TimesNegates(tol, Sum(a));
  }

  lemma {:induction false} SumNonNegative(a: Vector)
    requires NonNegative(a)
    ensures 0.0 <= Sum(a)
  {
    if a != [] {
      SumNonNegative(a[..|a| - 1]);
    }
  }

  lemma BlendOfLinear(alpha: real, x: real, y: real, b: real, e: real)
    ensures Blend(alpha, x + Times(b, y), x + Times(e, y)) == x + Times(Blend(alpha, b, e), y)
  {
    hide Times;
    BlendSubtracts(alpha, x + Times(b, y), x + Times(e, y), x, x);
    BlendOfConstant(alpha, x);
    TimesCommutes(b, y);
    TimesCommutes(e, y);
    BlendScales(alpha, y, b, e);
    TimesCommutes(y, Blend(alpha, b, e));
  }

  /** Mixing two moments of a field that changes linearly in time gives the field in between. */
  lemma MixOfLinear(alpha: real, x: Vector, y: Vector, b: real, e: real)
    requires |x| == |y|
    ensures Mix(alpha, Add(x, Scale(b, y)), Add(x, Scale(e, y))) == Add(x, Scale(Blend(alpha, b, e), y))
  {
    hide Times;
    forall i | 0 <= i < |x|
      ensures Mix(alpha, Add(x, Scale(b, y)), Add(x, Scale(e, y)))[i] == Add(x, Scale(Blend(alpha, b, e), y))[i]
    {
      BlendOfLinear(alpha, x[i], y[i], b, e);
    }
  }
}
