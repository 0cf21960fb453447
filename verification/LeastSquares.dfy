/** Regularised weighted least squares: the solution of the normal equations is the minimum. */
module LeastSquares {
  import opened Reals
  import opened Vectors

  /** One row of values per predictor, one column per observation. */
  type Matrix = seq<Vector>

  predicate Sized(p: Matrix, rows: nat, columns: nat) {
    |p| == rows && forall i :: 0 <= i < rows ==> |p[i]| == columns
  }

  /** Elementwise product. */
  function Hadamard(a: Vector, b: Vector): (v: Vector)
    requires |a| == |b|
    ensures |v| == |a| && forall i :: 0 <= i < |a| ==> v[i] == Times(a[i], b[i])
  {
    seq(|a|, i requires 0 <= i < |a| => Times(a[i], b[i]))
  }

  function Minus(a: Vector, b: Vector): (v: Vector)
    requires |a| == |b|
    ensures |v| == |a| && forall i :: 0 <= i < |a| ==> v[i] == a[i] - b[i]
  {
    seq(|a|, i requires 0 <= i < |a| => a[i] - b[i])
  }

  /** The combination of the rows with the given coefficients: transpose(p) times b. */
  function Fit(p: Matrix, b: Vector, columns: nat): (v: Vector)
    requires Sized(p, |b|, columns)
    ensures |v| == columns
  {
    if b == [] then Constant(columns, 0.0)
    else
      var n := |b| - 1;
      Add(Fit(p[..n], b[..n], columns), Scale(b[n], p[n]))
  }

  /** p times v. */
  function Apply(p: Matrix, v: Vector): (r: Vector)
    requires Sized(p, |p|, |v|)
    ensures |r| == |p| && forall i :: 0 <= i < |p| ==> r[i] == Dot(p[i], v)
  {
    seq(|p|, i requires 0 <= i < |p| => Dot(p[i], v))
  }

  /** Weighted sum of squares. */
  function Square(w: Vector, v: Vector): real
    requires |w| == |v|
  {
    Dot(Hadamard(w, v), v)
  }

  // ---- Laws ----

  lemma {:induction false} DotHadamard(p: Vector, r: Vector, v: Vector)
    requires |p| == |r| == |v|
    ensures Dot(Hadamard(p, r), v) == Dot(Hadamard(r, v), p)
  {
    hide Times, Dot;
    DotLast(Hadamard(p, r), v);
    DotLast(Hadamard(r, v), p);
    if p != [] {
      var n := |p| - 1;
      DotHadamard(p[..n], r[..n], v[..n]);
      assert Hadamard(p, r)[..n] == Hadamard(p[..n], r[..n]);
      assert Hadamard(r, v)[..n] == Hadamard(r[..n], v[..n]);
      TimesAround(p[n], r[n], v[n]);
    }
  }

  lemma TimesAround(x: real, y: real, z: real)
    ensures Times(Times(x, y), z) == Times(Times(y, z), x)
  {
  }

  lemma {:induction false} FitDot(c: Vector, p: Matrix, d: Vector)
    requires Sized(p, |d|, |c|)
    ensures Dot(c, Fit(p, d, |c|)) == Dot(d, Apply(p, c))
  {
    hide Times, Dot, Fit;
    FitLast(p, d, |c|);
    DotLast(d, Apply(p, c));
    if d == [] {
      DotConstant(c, 0.0);
      TimesUnits(Sum(c));
    } else {
      var n := |d| - 1;
      FitDot(c, p[..n], d[..n]);
      assert Apply(p, c)[..n] == Apply(p[..n], c);
      DotAdd(c, Fit(p[..n], d[..n], |c|), Scale(d[n], p[n]));
      DotScale(c, d[n], p[n]);
      DotCommutes(c, p[n]);
    }
  }

  lemma FitLast(p: Matrix, b: Vector, columns: nat)
    requires Sized(p, |b|, columns)
    ensures b == [] ==> Fit(p, b, columns) == Constant(columns, 0.0)
    ensures b != [] ==>
      Fit(p, b, columns) == Add(Fit(p[..|b| - 1], b[..|b| - 1], columns), Scale(b[|b| - 1], p[|b| - 1]))
  {
  }

  lemma {:induction false} FitAdds(p: Matrix, a: Vector, b: Vector, columns: nat)
    requires |a| == |b| && Sized(p, |a|, columns)
    ensures Fit(p, Add(a, b), columns) == Add(Fit(p, a, columns), Fit(p, b, columns))
  {
    hide Times, Fit;
    FitLast(p, a, columns);
    FitLast(p, b, columns);
    FitLast(p, Add(a, b), columns);
    if a != [] {
      var n := |a| - 1;
      FitAdds(p[..n], a[..n], b[..n], columns);
      AddPrefix(a, b, n);
      forall j | 0 <= j < columns
        ensures Scale(a[n] + b[n], p[n])[j] == Scale(a[n], p[n])[j] + Scale(b[n], p[n])[j]
      {
        TimesDistributes(p[n][j], a[n], b[n]);
        TimesCommutes(p[n][j], a[n] + b[n]);
        TimesCommutes(p[n][j], a[n]);
        TimesCommutes(p[n][j], b[n]);
      }
    }
  }

  lemma SquareStep(w: real, u: real, v: real)
    ensures Times(Times(w, u + v), u + v) ==
            Times(Times(w, u), u) + 2.0 * Times(Times(w, u), v) + Times(Times(w, v), v)
  {
    hide Times;
    TimesDistributes(w, u, v);
    TimesDistributes(Times(w, u + v), u, v);
    TimesSum(Times(w, u), Times(w, v), u);
    TimesSum(Times(w, u), Times(w, v), v);
    TimesRotate(w, u, v);
  }

  lemma TimesSum(a: real, b: real, x: real)
    ensures Times(a + b, x) == Times(a, x) + Times(b, x)
  {
  }

  lemma TimesRotate(w: real, u: real, v: real)
    ensures Times(Times(w, v), u) == Times(Times(w, u), v)
  {
  }

  /** Completing the square. */
  lemma {:induction false} SquareOfSum(w: Vector, u: Vector, v: Vector)
    requires |w| == |u| == |v|
    ensures Square(w, Add(u, v)) == Square(w, u) + 2.0 * Dot(Hadamard(w, u), v) + Square(w, v)
  {
    hide Times, Dot;
    DotLast(Hadamard(w, Add(u, v)), Add(u, v));
    DotLast(Hadamard(w, u), u);
    DotLast(Hadamard(w, u), v);
    DotLast(Hadamard(w, v), v);
    if w != [] {
      var n := |w| - 1;
      SquareOfSum(w[..n], u[..n], v[..n]);
      AddPrefix(u, v, n);
      assert Hadamard(w, Add(u, v))[..n] == Hadamard(w[..n], Add(u[..n], v[..n]));
      assert Hadamard(w, u)[..n] == Hadamard(w[..n], u[..n]);
      assert Hadamard(w, v)[..n] == Hadamard(w[..n], v[..n]);
      SquareStep(w[n], u[n], v[n]);
    }
  }

  lemma {:induction false} SquareNonNegative(w: Vector, v: Vector)
    requires |w| == |v| && NonNegative(w)
    ensures Square(w, v) >= 0.0
    ensures Square(w, v) == 0.0 ==> forall i :: 0 <= i < |v| ==> Times(v[i], w[i]) == 0.0
  {
    hide Times, Dot;
    DotLast(Hadamard(w, v), v);
    if w != [] {
      var n := |w| - 1;
      SquareNonNegative(w[..n], v[..n]);
      assert Hadamard(w, v)[..n] == Hadamard(w[..n], v[..n]);
      WeightedSquare(w[n], v[n]);
    }
  }

  lemma WeightedSquare(w: real, v: real)
    requires w >= 0.0
    ensures Times(Times(w, v), v) >= 0.0
    ensures Times(Times(w, v), v) == 0.0 ==> Times(v, w) == 0.0
  {
    assert Times(v, v) >= 0.0;
    assert Times(Times(w, v), v) == Times(w, Times(v, v));
    assert v != 0.0 ==> v * v > 0.0;
  }

  // ---- The minimum ----

  /** Predictors, observation weights, departures, prior coefficients and prior weights. */
  datatype Problem = Problem(p: Matrix, rinv: Vector, y: Vector, prior: Vector, binv: Vector)

  predicate WellPosed(q: Problem) {
    Sized(q.p, |q.prior|, |q.y|) && |q.rinv| == |q.y| && |q.binv| == |q.prior|
  }

  /** Distance from the prior plus weighted misfit to the departures. */
  function Cost(q: Problem, b: Vector): real
    requires WellPosed(q) && |b| == |q.prior|
  {
    Square(q.binv, Minus(b, q.prior)) + Square(q.rinv, Minus(Fit(q.p, b, |q.y|), q.y))
  }

  /** Half the gradient of the cost. */
  function Gradient(q: Problem, b: Vector): (g: Vector)
    requires WellPosed(q) && |b| == |q.prior|
    ensures |g| == |b|
  {
    Add(Hadamard(q.binv, Minus(b, q.prior)), Apply(q.p, Hadamard(q.rinv, Minus(Fit(q.p, b, |q.y|), q.y))))
  }

  lemma MinusOfSum(a: Vector, b: Vector, c: Vector)
    requires |a| == |b| == |c|
    ensures Minus(Add(a, b), c) == Add(Minus(a, c), b)
  {
  }

  /** The cost around any point: linear term by the gradient, quadratic terms by the weights. */
  lemma CostAround(q: Problem, b: Vector, d: Vector)
    requires WellPosed(q) && |b| == |d| == |q.prior|
    ensures Cost(q, Add(b, d)) ==
            Cost(q, b) + 2.0 * Dot(d, Gradient(q, b)) + Square(q.binv, d) + Square(q.rinv, Fit(q.p, d, |q.y|))
  {
    hide Times, Dot, Fit, Square;
    var n := |q.y|;
    var u, r, f := Minus(b, q.prior), Minus(Fit(q.p, b, n), q.y), Fit(q.p, d, n);
    MinusOfSum(b, d, q.prior);
    FitAdds(q.p, b, d, n);
    MinusOfSum(Fit(q.p, b, n), f, q.y);
    SquareOfSum(q.binv, u, d);
    SquareOfSum(q.rinv, r, f);
    FitDot(Hadamard(q.rinv, r), q.p, d);
    DotCommutes(Hadamard(q.binv, u), d);
    DotAdd(d, Hadamard(q.binv, u), Apply(q.p, Hadamard(q.rinv, r)));
  }

  /** Moving along d changes no weighted term of the cost. */
  ghost predicate Unweighted(q: Problem, d: Vector)
    requires WellPosed(q) && |d| == |q.prior|
  {
    var f := Fit(q.p, d, |q.y|);
    && (forall i :: 0 <= i < |d| ==> Times(d[i], q.binv[i]) == 0.0)
    && (forall k :: 0 <= k < |f| ==> Times(f[k], q.rinv[k]) == 0.0)
  }

  /** Where the gradient vanishes the cost is least; another minimum differs only where nothing is
      weighted. */
  lemma StationaryIsMinimum(q: Problem, beta: Vector, b: Vector)
    requires WellPosed(q) && |beta| == |b| == |q.prior|
    requires NonNegative(q.binv) && NonNegative(q.rinv)
    requires Gradient(q, beta) == Constant(|beta|, 0.0)
    ensures Cost(q, beta) <= Cost(q, b)
    ensures Cost(q, b) == Cost(q, beta) ==> Unweighted(q, Minus(b, beta))
  {
    hide Times, Dot, Fit, Square, Cost, Gradient;
    var d := Minus(b, beta);
    assert Add(beta, d) == b;
    CostAround(q, beta, d);
    DotConstant(d, 0.0);
    TimesUnits(Sum(d));
    SquareNonNegative(q.binv, d);
    SquareNonNegative(q.rinv, Fit(q.p, d, |q.y|));
  }

  // ---- Solving the normal equations ----

  /** Predictors scaled by the observation weights. */
  function Weighted(q: Problem): (m: Matrix)
    requires WellPosed(q)
    ensures Sized(m, |q.p|, |q.y|)
  {
    seq(|q.p|, i requires 0 <= i < |q.p| => Hadamard(q.p[i], q.rinv))
  }

  /** Prior weights on the diagonal plus weighted predictors times transposed predictors. */
  function Hessian(q: Problem): (h: Matrix)
    requires WellPosed(q)
    ensures Sized(h, |q.prior|, |q.prior|)
  {
    seq(|q.prior|, i requires 0 <= i < |q.prior| =>
      Add(Scale(q.binv[i], Unit(|q.prior|, i)), Apply(q.p, Weighted(q)[i])))
  }

  /** Weighted prior plus weighted predictors times departures. */
  function RightSide(q: Problem): (v: Vector)
    requires WellPosed(q)
    ensures |v| == |q.prior|
  {
    Add(Hadamard(q.binv, q.prior), Apply(Weighted(q), q.y))
  }

  /** What the solver asks of an inverse of the Hessian. */
  ghost predicate RightInverse(h: Matrix, a: Matrix) {
    && Sized(h, |h|, |h|) && Sized(a, |h|, |h|)
    && forall v: Vector {:trigger Apply(a, v)} :: |v| == |h| ==> Apply(h, Apply(a, v)) == v
  }

  function Solution(q: Problem, a: Matrix): (beta: Vector)
    requires WellPosed(q) && Sized(a, |q.prior|, |q.prior|)
    ensures |beta| == |q.prior|
  {
    Apply(a, RightSide(q))
  }

  lemma Rows(q: Problem, i: nat)
    requires WellPosed(q) && i < |q.prior|
    ensures Weighted(q)[i] == Hadamard(q.p[i], q.rinv)
    ensures Hessian(q)[i] == Add(Scale(q.binv[i], Unit(|q.prior|, i)), Apply(q.p, Weighted(q)[i]))
  {
    hide Times, Dot;
  }

  lemma WeightMoves(p: Vector, r: Vector, f: Vector)
    requires |p| == |r| == |f|
    ensures Dot(Hadamard(p, r), f) == Dot(p, Hadamard(r, f))
  {
    hide Times, Dot;
    DotHadamard(p, r, f);
    DotCommutes(Hadamard(r, f), p);
  }

  /** What the Hessian applied to x is, term by term of the cost. */
  function Image(q: Problem, x: Vector): (v: Vector)
    requires WellPosed(q) && |x| == |q.prior|
    ensures |v| == |x|
  {
    Add(Hadamard(q.binv, x), Apply(q.p, Hadamard(q.rinv, Fit(q.p, x, |q.y|))))
  }

  lemma ImageAt(q: Problem, x: Vector, i: nat)
    requires WellPosed(q) && |x| == |q.prior| && i < |x|
    ensures Image(q, x)[i] == Times(q.binv[i], x[i]) + Dot(q.p[i], Hadamard(q.rinv, Fit(q.p, x, |q.y|)))
  {
    hide Times, Dot, Fit;
  }

  lemma HessianRow(q: Problem, x: Vector, i: nat)
    requires WellPosed(q) && |x| == |q.prior| && i < |x|
    ensures Dot(Hessian(q)[i], x) == Image(q, x)[i]
  {
    hide Times, Dot, Fit, Hessian, Weighted, Image;
    Rows(q, i);
    var f, unit, cross := Fit(q.p, x, |q.y|), Scale(q.binv[i], Unit(|x|, i)), Apply(q.p, Weighted(q)[i]);
    DotCommutes(Hessian(q)[i], x);
    DotAdd(x, unit, cross);
    DotScale(x, q.binv[i], Unit(|x|, i));
    DotUnit(x, i);
    FitDot(Weighted(q)[i], q.p, x);
    WeightMoves(q.p[i], q.rinv, f);
    ImageAt(q, x, i);
  }

  lemma HessianApplied(q: Problem, x: Vector)
    requires WellPosed(q) && |x| == |q.prior|
    ensures Apply(Hessian(q), x) == Image(q, x)
  {
    hide Times, Dot, Fit, Hessian, Weighted, Image;
    forall i | 0 <= i < |x|
      ensures Dot(Hessian(q)[i], x) == Image(q, x)[i]
    {
      HessianRow(q, x, i);
    }
  }

  lemma HadamardOfMinus(r: Vector, f: Vector, y: Vector)
    requires |r| == |f| == |y|
    ensures Hadamard(r, Minus(f, y)) == Minus(Hadamard(r, f), Hadamard(r, y))
  {
    hide Times;
    forall k | 0 <= k < |r|
      ensures Times(r[k], f[k] - y[k]) == Times(r[k], f[k]) - Times(r[k], y[k])
    {
      TimesDistributes(r[k], f[k], y[k]);
    }
  }

  lemma RightSideAt(q: Problem, i: nat)
    requires WellPosed(q) && i < |q.prior|
    ensures RightSide(q)[i] == Times(q.binv[i], q.prior[i]) + Dot(q.p[i], Hadamard(q.rinv, q.y))
  {
    hide Times, Dot;
    WeightMoves(q.p[i], q.rinv, q.y);
  }

  /** The gradient is the Hessian applied to the coefficients minus the right-hand side. */
  lemma GradientAt(q: Problem, b: Vector, i: nat)
    requires WellPosed(q) && |b| == |q.prior| && i < |b|
    ensures Gradient(q, b)[i] == Image(q, b)[i] - RightSide(q)[i]
  {
    hide Times, Dot, Fit, RightSide, Image;
    var f := Fit(q.p, b, |q.y|);
    ImageAt(q, b, i);
    RightSideAt(q, i);
    HadamardOfMinus(q.rinv, f, q.y);
    DotMinus(q.p[i], Hadamard(q.rinv, f), Hadamard(q.rinv, q.y));
    TimesDistributes(q.binv[i], b[i], q.prior[i]);
  }

  lemma DotMinus(a: Vector, f: Vector, y: Vector)
    requires |a| == |f| == |y|
    ensures Dot(a, Minus(f, y)) == Dot(a, f) - Dot(a, y)
  {
    hide Times, Dot;
    assert Add(Minus(f, y), y) == f;
    DotAdd(a, Minus(f, y), y);
  }

  lemma DotOfZeros(z: Vector, v: Vector)
    requires |z| == |v| && forall i :: 0 <= i < |z| ==> z[i] == 0.0
    ensures Dot(z, v) == 0.0
  {
    hide Times, Dot, Sum;
    assert z == Constant(|v|, 0.0);
    DotConstant(v, 0.0);
    DotCommutes(z, v);
    TimesUnits(Sum(v));
  }

  /** A direction that changes no weighted term is orthogonal to the image of the Hessian. */
  lemma UnweightedIsOrthogonal(q: Problem, d: Vector, x: Vector)
    requires WellPosed(q) && |d| == |x| == |q.prior| && Unweighted(q, d)
    ensures Dot(d, Apply(Hessian(q), x)) == 0.0
  {
    hide Times, Dot, Fit, Hessian, Apply;
    var n := |q.y|;
    var fd, fx := Fit(q.p, d, n), Fit(q.p, x, n);
    HessianApplied(q, x);
    DotAdd(d, Hadamard(q.binv, x), Apply(q.p, Hadamard(q.rinv, fx)));
    DotCommutes(d, Hadamard(q.binv, x));
    DotHadamard(d, q.binv, x);
    DotOfZeros(Hadamard(d, q.binv), x);
    FitDot(Hadamard(q.rinv, fx), q.p, d);
    DotHadamard(fd, q.rinv, fx);
    DotOfZeros(Hadamard(fd, q.rinv), fx);
  }

  lemma {:induction false} NoLength(v: Vector)
    requires Dot(v, v) == 0.0
    ensures forall i :: 0 <= i < |v| ==> v[i] == 0.0
  {
    hide Times, Dot;
    var ones := Constant(|v|, 1.0);
    forall i | 0 <= i < |v|
      ensures Hadamard(ones, v)[i] == v[i] && Times(v[i], 1.0) == v[i]
    {
      TimesUnits(v[i]);
    }
    assert Hadamard(ones, v) == v;
    SquareNonNegative(ones, v);
  }

  /** With an inverse of the Hessian, the weights determine every direction. */
  lemma UnweightedIsZero(q: Problem, a: Matrix, d: Vector)
    requires WellPosed(q) && RightInverse(Hessian(q), a) && |d| == |q.prior| && Unweighted(q, d)
    ensures forall i :: 0 <= i < |d| ==> d[i] == 0.0
  {
    hide Times, Dot, Hessian, Unweighted, Apply;
    assert Apply(Hessian(q), Apply(a, d)) == d;
    UnweightedIsOrthogonal(q, d, Apply(a, d));
    NoLength(d);
  }

  /** The solver's coefficients are the one minimum of the cost over all coefficients. */
  lemma SolutionIsMinimum(q: Problem, a: Matrix, b: Vector)
    requires WellPosed(q) && |b| == |q.prior|
    requires Sized(a, |q.prior|, |q.prior|) && RightInverse(Hessian(q), a)
    requires NonNegative(q.binv) && NonNegative(q.rinv)
    ensures Cost(q, Solution(q, a)) <= Cost(q, b)
    ensures Cost(q, b) == Cost(q, Solution(q, a)) ==> b == Solution(q, a)
  {
    hide Times, Dot, Fit, Hessian, RightSide, Image, Gradient, Cost, Unweighted, Apply;
    var beta := Solution(q, a);
    HessianApplied(q, beta);
    assert Image(q, beta) == RightSide(q);
    forall i | 0 <= i < |beta|
      ensures Gradient(q, beta)[i] == 0.0
    {
      GradientAt(q, beta, i);
    }
    assert Gradient(q, beta) == Constant(|beta|, 0.0);
    StationaryIsMinimum(q, beta, b);
    if Cost(q, b) == Cost(q, beta) {
      UnweightedIsZero(q, a, Minus(b, beta));
      assert forall i :: 0 <= i < |b| ==> Minus(b, beta)[i] == 0.0;
      assert b == beta;
    }
  }
}
