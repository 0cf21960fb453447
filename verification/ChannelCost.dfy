/** The regression of one channel, told from its accumulated lists: its cost as sums over predictors and
    observations, and the normal equations that minimise it. */
module ChannelCost {
  import opened Reals
  import opened Vectors
  import opened LeastSquares
  import R = ObsoutReader

  datatype Names = Names(obs: string, hofx: string, bias: string, error: string)

  /** Lists of equal length for every predictor and observation group of a channel. */
  predicate Aligned(lists: R.Lists, names: Names, predictors: seq<string>, channel: int, n: nat) {
    && (forall i :: 0 <= i < |predictors| ==> |R.Get(lists, (predictors[i] + "Predictor", channel))| == n)
    && |R.Get(lists, (names.obs, channel))| == |R.Get(lists, (names.hofx, channel))|
    == |R.Get(lists, (names.bias, channel))| == |R.Get(lists, (names.error, channel))| == n
  }

  predicate Invertible(v: Vector) { forall i :: 0 <= i < |v| ==> v[i] != 0.0 }

  function Reciprocal(v: Vector): (r: Vector)
    requires Invertible(v)
    ensures |r| == |v| && forall i :: 0 <= i < |v| ==> r[i] == 1.0 / v[i]
  {
    seq(|v|, i requires 0 <= i < |v| => 1.0 / v[i])
  }

  /** Diagonal of the pseudo-inverse of a diagonal matrix: a zero stays zero. */
  function PseudoReciprocal(v: Vector): (r: Vector)
    ensures |r| == |v| && forall i :: 0 <= i < |v| ==> r[i] == if v[i] == 0.0 then 0.0 else 1.0 / v[i]
  {
    seq(|v|, i requires 0 <= i < |v| => if v[i] == 0.0 then 0.0 else 1.0 / v[i])
  }

  function Predictors(lists: R.Lists, predictors: seq<string>, channel: int): (p: Matrix)
    ensures |p| == |predictors|
    ensures forall i :: 0 <= i < |p| ==> p[i] == R.Get(lists, (predictors[i] + "Predictor", channel))
  {
    seq(|predictors|, i requires 0 <= i < |predictors| => R.Get(lists, (predictors[i] + "Predictor", channel)))
  }

  /** Observation minus simulation, with the applied bias put back. */
  function Departures(lists: R.Lists, names: Names, channel: int): Vector
    requires |R.Get(lists, (names.obs, channel))| == |R.Get(lists, (names.hofx, channel))|
             == |R.Get(lists, (names.bias, channel))|
  {
    Add(Minus(R.Get(lists, (names.obs, channel)), R.Get(lists, (names.hofx, channel))),
        R.Get(lists, (names.bias, channel)))
  }

  /** The regression of one channel, given its prior coefficients and error variances. */
  function ProblemOf(lists: R.Lists, names: Names, predictors: seq<string>, channel: int, n: nat,
                     prior: Vector, errors: Vector): (q: Problem)
    requires Aligned(lists, names, predictors, channel, n)
    requires |prior| == |errors| == |predictors|
    requires Invertible(R.Get(lists, (names.error, channel)))
    ensures WellPosed(q) && |q.prior| == |predictors| && |q.y| == n
  {
    Problem(Predictors(lists, predictors, channel), Reciprocal(R.Get(lists, (names.error, channel))),
            Departures(lists, names, channel), prior, PseudoReciprocal(errors))
  }

  lemma ReciprocalsArePositive(v: Vector)
    requires forall i :: 0 <= i < |v| ==> v[i] > 0.0
    ensures Invertible(v) && forall i :: 0 <= i < |v| ==> Reciprocal(v)[i] > 0.0
  {
  }

  // ---- The regression written out ----

  /** One channel's lists. */
  datatype Channel = Channel(lists: R.Lists, names: Names, predictors: seq<string>, number: int)

  ghost predicate Full(c: Channel, n: nat) {
    Aligned(c.lists, c.names, c.predictors, c.number, n) && Invertible(Error(c))
  }

  function Predictor(c: Channel, i: nat): Vector
    requires i < |c.predictors|
  {
    R.Get(c.lists, (c.predictors[i] + "Predictor", c.number))
  }

  function Error(c: Channel): Vector { R.Get(c.lists, (c.names.error, c.number)) }

  /** Observation minus simulation plus the bias that the simulation carried. */
  ghost function Departure(c: Channel, n: nat, k: nat): real
    requires Full(c, n) && k < n
  {
    R.Get(c.lists, (c.names.obs, c.number))[k] - R.Get(c.lists, (c.names.hofx, c.number))[k]
    + R.Get(c.lists, (c.names.bias, c.number))[k]
  }

  /** What the first m coefficients contribute to the bias of observation k. */
  ghost function FittedBias(c: Channel, n: nat, b: Vector, k: nat, m: nat): real
    requires Full(c, n) && k < n && m <= |c.predictors| == |b|
  {
    if m == 0 then 0.0 else FittedBias(c, n, b, k, m - 1) + Times(b[m - 1], Predictor(c, m - 1)[k])
  }

  /** Squared distances from the prior over its variances; a predictor of variance zero has no share. */
  ghost function PriorDistance(prior: Vector, variances: Vector, b: Vector, m: nat): real
    requires m <= |prior| == |variances| == |b|
  {
    if m == 0 then 0.0
    else
      var d := b[m - 1] - prior[m - 1];
      PriorDistance(prior, variances, b, m - 1) + if variances[m - 1] ==
        0.0 then 0.0 else Times(d, d) / variances[m - 1]
  }

  /** Squared residuals of the first k observations over their errors. */
  ghost function Misfit(c: Channel, n: nat, b: Vector, k: nat): real
    requires Full(c, n) && k <= n && |b| == |c.predictors|
  {
    if k == 0 then 0.0
    else
      var d := Departure(c, n, k - 1) - FittedBias(c, n, b, k - 1, |b|);
      Misfit(c, n, b, k - 1) + Times(d, d) / Error(c)[k - 1]
  }

  ghost function RegressionCost(c: Channel, n: nat, prior: Vector, variances: Vector, b: Vector): real
    requires Full(c, n) && |prior| == |variances| == |b| == |c.predictors|
  {
    PriorDistance(prior, variances, b, |b|) + Misfit(c, n, b, n)
  }

  /** Sum over the first k observations of the products of two predictors over the errors. */
  ghost function Cross(c: Channel, n: nat, i: nat, j: nat, k: nat): real
    requires Full(c, n) && i < |c.predictors| && j < |c.predictors| && k <= n
  {
    if k == 0 then 0.0
    else Cross(c, n, i, j, k - 1) + Times(Predictor(c, i)[k - 1], Predictor(c, j)[k - 1]) / Error(c)[k - 1]
  }

  /** The same with the departures in the place of a predictor. */
  ghost function Pull(c: Channel, n: nat, i: nat, k: nat): real
    requires Full(c, n) && i < |c.predictors| && k <= n
  {
    if k == 0 then 0.0
    else Pull(c, n, i, k - 1) + Times(Predictor(c, i)[k - 1], Departure(c, n, k - 1)) / Error(c)[k - 1]
  }

  function Inverse(v: real): real { if v == 0.0 then 0.0 else 1.0 / v }

  ghost function NormalMatrix(c: Channel, n: nat, variances: Vector): (h: Matrix)
    requires Full(c, n) && |variances| == |c.predictors|
    ensures Sized(h, |variances|, |variances|)
  {
    seq(|variances|, i requires 0 <= i < |variances| =>
      seq(|variances|, j requires 0 <= j < |variances| =>
        (if i == j then Inverse(variances[i]) else 0.0) + Cross(c, n, i, j, n)))
  }

  ghost function NormalRight(c: Channel, n: nat, prior: Vector, variances: Vector): (v: Vector)
    requires Full(c, n) && |prior| == |variances| == |c.predictors|
    ensures |v| == |prior|
  {
    seq(|prior|, i requires 0 <= i < |prior| => Times(Inverse(variances[i]), prior[i]) + Pull(c, n, i, n))
  }

  ghost function TheProblem(c: Channel, n: nat, prior: Vector, variances: Vector): (q: Problem)
    requires Full(c, n) && |prior| == |variances| == |c.predictors|
    ensures WellPosed(q) && |q.prior| == |c.predictors| && |q.y| == n
  {
    ProblemOf(c.lists, c.names, c.predictors, c.number, n, prior, variances)
  }

  // ---- The two tellings agree ----

  lemma {:induction false} DotPrefix(a: Vector, b: Vector, k: nat)
    requires k < |a| == |b|
    ensures Dot(a[..k + 1], b[..k + 1]) == Dot(a[..k], b[..k]) + Times(a[k], b[k])
  {
    hide Times, Dot;
    DotLast(a[..k + 1], b[..k + 1]);
    assert a[..k + 1][..k] == a[..k] && b[..k + 1][..k] == b[..k];
  }

  lemma OverError(x: real, y: real, e: real)
    requires e != 0.0
    ensures Times(y, Times(x, 1.0 / e)) == Times(x, y) / e
    ensures Times(Times(1.0 / e, x), x) == Times(-x, -x) / e
    ensures Times(Times(x, 1.0 / e), y) == Times(x, y) / e
    ensures Times(Times(1.0 / e, x), x) == Times(x, x) / e
  {
    var r := 1.0 / e;
    assert x * y / e == x * y * r;
    assert x * x / e == x * x * r;
  }

  lemma {:induction false} FitWrittenOut(c: Channel, n: nat, prior: Vector, variances: Vector, b: Vector, k: nat,
                                         m: nat)
    requires Full(c, n) && |prior| == |variances| == |b| == |c.predictors| && k < n && m <= |b|
    ensures
      var p := TheProblem(c, n, prior, variances).p;
      Sized(p[..m], m, n) && Fit(p[..m], b[..m], n)[k] == FittedBias(c, n, b, k, m)
  {
    hide Times, Fit;
    var p := TheProblem(c, n, prior, variances).p;
    FitLast(p[..m], b[..m], n);
    if m > 0 {
      FitWrittenOut(c, n, prior, variances, b, k, m - 1);
      assert p[..m][..m - 1] == p[..m - 1] && b[..m][..m - 1] == b[..m - 1];
    }
  }

  lemma {:induction false} MisfitWrittenOut(c: Channel, n: nat, prior: Vector, variances: Vector, b: Vector, k: nat)
    requires Full(c, n) && |prior| == |variances| == |b| == |c.predictors| && k <= n
    ensures
      var q := TheProblem(c, n, prior, variances);
      var v := Minus(Fit(q.p, b, n), q.y);
      Dot(Hadamard(q.rinv, v)[..k], v[..k]) == Misfit(c, n, b, k)
  {
    hide Times, Fit, Dot;
    var q := TheProblem(c, n, prior, variances);
    var v := Minus(Fit(q.p, b, n), q.y);
    if k == 0 {
      DotLast(Hadamard(q.rinv, v)[..k], v[..k]);
    } else {
      MisfitWrittenOut(c, n, prior, variances, b, k - 1);
      DotPrefix(Hadamard(q.rinv, v), v, k - 1);
      FitWrittenOut(c, n, prior, variances, b, k - 1, |b|);
      assert q.p[..|b|] == q.p && b[..|b|] == b;
      OverError(v[k - 1], 0.0, Error(c)[k - 1]);
    }
  }

  lemma {:induction false} PriorWrittenOut(prior: Vector, variances: Vector, b: Vector, m: nat)
    requires m <= |prior| == |variances| == |b|
    ensures
      var w, v := PseudoReciprocal(variances), Minus(b, prior);
      Dot(Hadamard(w, v)[..m], v[..m]) == PriorDistance(prior, variances, b, m)
  {
    hide Times, Dot;
    var w, v := PseudoReciprocal(variances), Minus(b, prior);
    if m == 0 {
      DotLast(Hadamard(w, v)[..m], v[..m]);
    } else {
      PriorWrittenOut(prior, variances, b, m - 1);
      DotPrefix(Hadamard(w, v), v, m - 1);
      TimesUnits(v[m - 1]);
      if variances[m - 1] != 0.0 {
        OverError(v[m - 1], 0.0, variances[m - 1]);
      }
    }
  }

  /** The cost that the solution minimises is the one written out. */
  lemma CostWrittenOut(c: Channel, n: nat, prior: Vector, variances: Vector, b: Vector)
    requires Full(c, n) && |prior| == |variances| == |b| == |c.predictors|
    ensures Cost(TheProblem(c, n, prior, variances), b) == RegressionCost(c, n, prior, variances, b)
  {
    hide Times, Fit, Dot, PriorDistance, Misfit;
    var q := TheProblem(c, n, prior, variances);
    MisfitWrittenOut(c, n, prior, variances, b, n);
    PriorWrittenOut(prior, variances, b, |b|);
    var u, v := Minus(b, q.prior), Minus(Fit(q.p, b, n), q.y);
    assert Hadamard(q.rinv, v)[..n] == Hadamard(q.rinv, v) && v[..n] == v;
    assert Hadamard(q.binv, u)[..|b|] == Hadamard(q.binv, u) && u[..|b|] == u;
  }

  lemma {:induction false} CrossWrittenOut(c: Channel, n: nat, prior: Vector, variances: Vector, i: nat, j: nat, k: nat)
    requires Full(c, n) && |prior| == |variances| == |c.predictors| && k <= n && i < |prior| && j < |prior|
    ensures
      var q := TheProblem(c, n, prior, variances);
      Dot(q.p[j][..k], Hadamard(q.p[i], q.rinv)[..k]) == Cross(c, n, i, j, k)
  {
    hide Times, Dot;
    var q := TheProblem(c, n, prior, variances);
    if k == 0 {
      DotLast(q.p[j][..k], Hadamard(q.p[i], q.rinv)[..k]);
    } else {
      CrossWrittenOut(c, n, prior, variances, i, j, k - 1);
      DotPrefix(q.p[j], Hadamard(q.p[i], q.rinv), k - 1);
      OverError(q.p[i][k - 1], q.p[j][k - 1], Error(c)[k - 1]);
    }
  }

  lemma {:induction false} PullWrittenOut(c: Channel, n: nat, prior: Vector, variances: Vector, i: nat, k: nat)
    requires Full(c, n) && |prior| == |variances| == |c.predictors| && k <= n && i < |prior|
    ensures
      var q := TheProblem(c, n, prior, variances);
      Dot(Hadamard(q.p[i], q.rinv)[..k], q.y[..k]) == Pull(c, n, i, k)
  {
    hide Times, Dot;
    var q := TheProblem(c, n, prior, variances);
    if k == 0 {
      DotLast(Hadamard(q.p[i], q.rinv)[..k], q.y[..k]);
    } else {
      PullWrittenOut(c, n, prior, variances, i, k - 1);
      DotPrefix(Hadamard(q.p[i], q.rinv), q.y, k - 1);
      OverError(q.p[i][k - 1], q.y[k - 1], Error(c)[k - 1]);
    }
  }

  lemma NormalEntry(c: Channel, n: nat, prior: Vector, variances: Vector, i: nat, j: nat)
    requires Full(c, n) && |prior| == |variances| == |c.predictors| && i < |prior| && j < |prior|
    ensures Hessian(TheProblem(c, n, prior, variances))[i][j] == NormalMatrix(c, n, variances)[i][j]
  {
    hide Times, Dot, Cross;
    var q := TheProblem(c, n, prior, variances);
    CrossWrittenOut(c, n, prior, variances, i, j, n);
    assert q.p[j][..n] == q.p[j] && Hadamard(q.p[i], q.rinv)[..n] == Hadamard(q.p[i], q.rinv);
    TimesUnits(q.binv[i]);
  }

  /** The equations that are solved are the normal equations written out. */
  lemma NormalEquationsWrittenOut(c: Channel, n: nat, prior: Vector, variances: Vector)
    requires Full(c, n) && |prior| == |variances| == |c.predictors|
    ensures Hessian(TheProblem(c, n, prior, variances)) == NormalMatrix(c, n, variances)
    ensures RightSide(TheProblem(c, n, prior, variances)) == NormalRight(c, n, prior, variances)
  {
    hide Times, Dot, Cross, Pull, Hessian, NormalMatrix;
    var q := TheProblem(c, n, prior, variances);
    var h, m := Hessian(q), NormalMatrix(c, n, variances);
    forall i | 0 <= i < |prior|
      ensures h[i] == m[i]
    {
      forall j | 0 <= j < |prior| ensures h[i][j] == m[i][j] { NormalEntry(c, n, prior, variances, i, j); }
    }
    forall i | 0 <= i < |prior|
      ensures RightSide(q)[i] == NormalRight(c, n, prior, variances)[i]
    {
      PullWrittenOut(c, n, prior, variances, i, n);
      assert Hadamard(q.p[i], q.rinv)[..n] == Hadamard(q.p[i], q.rinv) && q.y[..n] == q.y;
    }
  }
}
