/** Estimating bias coefficients channel by channel from the accumulated observations. */
module BiasCorrection {
  import opened Permutations
  import opened Reals
  import opened Vectors
  import opened LeastSquares
  import opened ChannelCost
  import R = ObsoutReader

  /** Column of a table of predictors by channels. */
  function ColumnAt(table: map<string, Vector>, predictors: seq<string>, c: nat): (v: Vector)
    requires forall i :: 0 <= i < |predictors| ==> predictors[i] in table && c < |table[predictors[i]]|
    ensures |v| == |predictors| && forall i :: 0 <= i < |v| ==> v[i] == table[predictors[i]][c]
  {
    seq(|predictors|, i requires 0 <= i < |predictors| => table[predictors[i]][c])
  }

  ghost predicate Tabulated(table: map<string, Vector>, predictors: seq<string>, channels: nat) {
    forall i :: 0 <= i < |predictors| ==> predictors[i] in table && |table[predictors[i]]| == channels
  }

  class Satbias {
    const predictors: seq<string>
    const channels: seq<int>
    var beta: map<string, Vector>
    var err: map<string, Vector>
    var used: seq<nat>

    ghost predicate Valid() reads this {
      && NoRepeats(predictors)
      && Tabulated(beta, predictors, |channels|) && Tabulated(err, predictors, |channels|)
      && |used| == |channels|
    }

    constructor (predictors: seq<string>, channels: seq<int>, beta: map<string, Vector>, err: map<string, Vector>)
      requires NoRepeats(predictors)
      requires Tabulated(beta, predictors, |channels|) && Tabulated(err, predictors, |channels|)
      ensures Valid() && this.predictors == predictors && this.channels == channels
      ensures this.beta == beta && this.err == err
    {
      this.predictors, this.channels, this.beta, this.err := predictors, channels, beta, err;
      used := seq(|channels|, _ => 0);
    }

    /** Replaces one channel's coefficients and variances, predictor by predictor. */
    method Store(c: nat, solution: Vector, inverse: Matrix, n: nat)
      requires Valid() && c < |channels| && |solution| == |predictors|
      requires Sized(inverse, |predictors|, |predictors|)
      modifies this
      ensures Valid() && used == old(used)[c := n]
      ensures ColumnAt(beta, predictors, c) == solution
      ensures forall i :: 0 <= i < |predictors| ==> ColumnAt(err, predictors, c)[i] == inverse[i][i]
      ensures forall d: nat :: d < |channels| && d != c ==>
        ColumnAt(beta, predictors, d) == old(ColumnAt(beta, predictors, d)) &&
        ColumnAt(err, predictors, d) == old(ColumnAt(err, predictors, d))
    {
      ghost var beta0, err0 := beta, err;
      var i := 0;
      while i < |predictors|
        invariant 0 <= i <= |predictors| && Valid() && used == old(used)
        invariant forall k :: 0 <= k < i ==>
          beta[predictors[k]] == beta0[predictors[k]][c := solution[k]] &&
          err[predictors[k]] == err0[predictors[k]][c := inverse[k][k]]
        invariant forall k :: i <= k < |predictors| ==>
          beta[predictors[k]] == beta0[predictors[k]] && err[predictors[k]] == err0[predictors[k]]
      {
        var key := predictors[i];
        beta := beta[key := beta[key][c := solution[i]]];
        err := err[key := err[key][c := inverse[i][i]]];
        i := i + 1;
      }
      used := used[c := n];
    }
  }

  /** What the run assumes of its data: aligned lists and nonzero observation errors. */
  ghost predicate Solvable(lists: R.Lists, names: Names, s: Satbias, c: nat, n: nat)
    requires s.Valid() && c < |s.channels|
    reads s
  {
    Full(ChannelOf(lists, names, s, c), n)
  }

  ghost function ChannelOf(lists: R.Lists, names: Names, s: Satbias, c: nat): Channel
    requires c < |s.channels|
  {
    Channel(lists, names, s.predictors, s.channels[c])
  }

  ghost predicate InverseSized(pinv: Matrix -> Matrix, m: nat) {
    forall h: Matrix :: Sized(h, m, m) ==> Sized(pinv(h), m, m)
  }

  /** No other coefficients have a cost as low. */
  ghost predicate IsMinimum(c: Channel, n: nat, prior: Vector, variances: Vector, beta: Vector)
    requires Full(c, n) && |prior| == |variances| == |beta| == |c.predictors|
  {
    forall b: Vector :: |b| == |beta| ==>
      && RegressionCost(c, n, prior, variances, beta) <= RegressionCost(c, n, prior, variances, b)
      && (RegressionCost(c, n, prior, variances, b) == RegressionCost(c, n, prior, variances, beta) ==> b == beta)
  }

  /** What a channel ends with: the solution of its normal equations, the diagonal of their inverse as new
      variances, and so the one minimum of its cost where the equations have an inverse. */
  ghost predicate Solved(c: Channel, n: nat, prior: Vector, variances: Vector, beta: Vector, err: Vector,
                         pinv: Matrix -> Matrix)
    requires |prior| == |variances| == |beta| == |err| == |c.predictors|
  {
    && Full(c, n)
    && var h := NormalMatrix(c, n, variances);
       var a := pinv(h);
       && Sized(a, |beta|, |beta|) && beta == Apply(a, NormalRight(c, n, prior, variances))
       && (forall i :: 0 <= i < |err| ==> err[i] == a[i][i])
       && (RightInverse(h, a) && NonNegative(variances) && Positive(Error(c)) ==>
             IsMinimum(c, n, prior, variances, beta))
  }

  ghost predicate Positive(v: Vector) { forall i :: 0 <= i < |v| ==> v[i] > 0.0 }

  /** Solves one channel; `pinv` stands for the library's pseudo-inverse. */
  method SolveBeta(lists: R.Lists, names: Names, s: Satbias, c: nat, n: nat, pinv: Matrix -> Matrix)
    requires s.Valid() && c < |s.channels| && Solvable(lists, names, s, c, n) && InverseSized(pinv, |s.predictors|)
    modifies s
    ensures s.Valid() && s.used == old(s.used)[c := n]
    ensures Solved(ChannelOf(lists, names, s, c), n,
                   old(ColumnAt(s.beta, s.predictors, c)), old(ColumnAt(s.err, s.predictors, c)),
                   ColumnAt(s.beta, s.predictors, c), ColumnAt(s.err, s.predictors, c), pinv)
    ensures forall d: nat :: d < |s.channels| && d != c ==>
      ColumnAt(s.beta, s.predictors, d) == old(ColumnAt(s.beta, s.predictors, d)) &&
      ColumnAt(s.err, s.predictors, d) == old(ColumnAt(s.err, s.predictors, d))
  {
    hide Dot, Times, Hessian, RightSide, Solution, IsMinimum, NormalMatrix, NormalRight;
    var channel, prior, variances := s.channels[c], ColumnAt(s.beta, s.predictors, c), ColumnAt(s.err, s.predictors, c);
    var q := ProblemOf(lists, names, s.predictors, channel, n, prior, variances);
    var a := pinv(Hessian(q));
    var beta := Solution(q, a);
    SolutionSolves(ChannelOf(lists, names, s, c), n, prior, variances, pinv);
    s.Store(c, beta, a, n);
  }

  /** Solves every channel from the coefficients and variances the run started with. */
  method Update(lists: R.Lists, names: Names, s: Satbias, ns: seq<nat>, pinv: Matrix -> Matrix)
    requires s.Valid() && |ns| == |s.channels| && InverseSized(pinv, |s.predictors|)
    requires forall c: nat :: c < |s.channels| ==> Solvable(lists, names, s, c, ns[c])
    modifies s
    ensures s.Valid() && s.used == ns
    ensures forall c: nat :: c < |s.channels| ==>
      Solved(ChannelOf(lists, names, s, c), ns[c],
             old(ColumnAt(s.beta, s.predictors, c)), old(ColumnAt(s.err, s.predictors, c)),
             ColumnAt(s.beta, s.predictors, c), ColumnAt(s.err, s.predictors, c), pinv)
  {
    hide Solved, Full;
    var c := 0;
    while c < |s.channels|
      invariant 0 <= c <= |s.channels| && s.Valid()
      invariant forall d :: 0 <= d < c ==> s.used[d] == ns[d]
      invariant forall d: nat :: d < c ==>
        Solved(ChannelOf(lists, names, s, d), ns[d],
               old(ColumnAt(s.beta, s.predictors, d)), old(ColumnAt(s.err, s.predictors, d)),
               ColumnAt(s.beta, s.predictors, d), ColumnAt(s.err, s.predictors, d), pinv)
      invariant forall d: nat :: c <= d < |s.channels| ==>
        ColumnAt(s.beta, s.predictors, d) == old(ColumnAt(s.beta, s.predictors, d)) &&
        ColumnAt(s.err, s.predictors, d) == old(ColumnAt(s.err, s.predictors, d))
    {
      SolveBeta(lists, names, s, c, ns[c], pinv);
      c := c + 1;
    }
  }

  /** With positive observation errors, prior variances of zero or more and an inverse of the normal
      matrix, the solution is the one minimum of the squared distances from the prior over their
      variances plus the squared residuals over their errors. */
  lemma CoefficientsMinimiseTheCost(c: Channel, n: nat, prior: Vector, variances: Vector, a: Matrix)
    requires Full(c, n) && |prior| == |variances| == |c.predictors|
    requires NonNegative(variances) && Positive(Error(c))
    requires Sized(a, |prior|, |prior|) && RightInverse(NormalMatrix(c, n, variances), a)
    ensures IsMinimum(c, n, prior, variances, Apply(a, NormalRight(c, n, prior, variances)))
  {
    hide Dot, Times, Hessian, RightSide, Cost, RightInverse, RegressionCost, NormalMatrix, NormalRight, Apply;
    var q := TheProblem(c, n, prior, variances);
    NormalEquationsWrittenOut(c, n, prior, variances);
    assert NonNegative(PseudoReciprocal(variances));
    ReciprocalsArePositive(Error(c));
    var beta := Apply(a, RightSide(q));
    assert beta == Solution(q, a);
    CostWrittenOut(c, n, prior, variances, beta);
    forall b: Vector | |b| == |beta|
      ensures RegressionCost(c, n, prior, variances, beta) <= RegressionCost(c, n, prior, variances, b)
      ensures RegressionCost(c, n, prior, variances, b) == RegressionCost(c, n, prior, variances, beta) ==> b == beta
    {
      CostWrittenOut(c, n, prior, variances, b);
      SolutionIsMinimum(q, a, b);
    }
  }

  lemma SolutionSolves(c: Channel, n: nat, prior: Vector, variances: Vector, pinv: Matrix -> Matrix)
    requires Full(c, n) && |prior| == |variances| == |c.predictors| && InverseSized(pinv, |prior|)
    ensures
      var q := TheProblem(c, n, prior, variances);
      var a := pinv(Hessian(q));
      && Hessian(q) == NormalMatrix(c, n, variances)
      && Sized(a, |prior|, |prior|) && Solution(q, a) == Apply(a, NormalRight(c, n, prior, variances))
      && (RightInverse(Hessian(q), a) && NonNegative(variances) && Positive(Error(c)) ==>
            IsMinimum(c, n, prior, variances, Solution(q, a)))
  {
    hide Dot, Times, Hessian, RightSide, RightInverse, NormalMatrix, NormalRight, IsMinimum, Apply;
    NormalEquationsWrittenOut(c, n, prior, variances);
    var h := NormalMatrix(c, n, variances);
    if RightInverse(h, pinv(h)) && NonNegative(variances) && Positive(Error(c)) {
      CoefficientsMinimiseTheCost(c, n, prior, variances, pinv(h));
    }
  }

  /** The lists any files leave behind can be used for every channel. */
  lemma AccumulatedListsAreAligned(files: seq<R.File>, groups: seq<string>, channels: seq<int>, names: Names,
                                   predictors: seq<string>, c: nat)
    requires forall i, j :: 0 <= i < |files| && 0 <= j < |groups| ==> R.Usable(files[i], groups[j], |channels|)
    requires NoRepeats(channels) && NoRepeats(groups) && c < |channels| && R.Flagged(files, |channels|)
    requires names.obs in groups && names.hofx in groups && names.bias in groups && names.error in groups
    requires forall i :: 0 <= i < |predictors| ==> predictors[i] + "Predictor" in groups
    ensures Aligned(R.FilesAdded(files, groups, channels), names, predictors, channels[c],
                    |R.Origins(files, c, |channels|)|)
  {
    forall name | name in groups
      ensures |R.Get(R.FilesAdded(files, groups, channels), (name, channels[c]))| == |R.Origins(files, c, |channels|)|
    {
      var g :| 0 <= g < |groups| && groups[g] == name;
      R.ListsAreAligned(files, groups, channels, g, c, 0);
    }
  }

  /** Recentring the lapse rate leaves lists of one length as long as they were, whether or not the
      square of the lapse rate is itself a predictor. */
  lemma RecentredListsAreAligned(before: R.Lists, lists: R.Lists, groups: seq<string>, channels: seq<int>, names: Names,
                                 predictors: seq<string>, c: nat, n: nat)
    requires c < |channels| && R.LAPSE_RATE in groups && Covers(groups, names, predictors)
    requires forall name :: name in groups ==> |R.Get(before, (name, channels[c]))| == n
    requires R.Recentred(before, lists, channels)
    ensures Aligned(lists, names, predictors, channels[c], n)
  {
    hide R.Get;
    forall name | name in groups || name == R.LAPSE_RATE_SQUARED
      ensures |R.Get(lists, (name, channels[c]))| == n
    {
    }
  }

  /** The groups read from each file; the square of the lapse rate is computed. */
  ghost predicate Covers(groups: seq<string>, names: Names, predictors: seq<string>) {
    && names.obs in groups && names.hofx in groups && names.bias in groups && names.error in groups
    && forall i :: 0 <= i < |predictors| ==>
         predictors[i] + "Predictor" in groups || predictors[i] + "Predictor" == R.LAPSE_RATE_SQUARED
  }

  // ---- The whole run ----

  /** Every observation that passes quality control has a positive error. */
  ghost predicate PositiveErrors(files: seq<R.File>, error: string, channels: nat)
    requires R.AllUsable(files, error, channels)
  {
    forall i, l, c :: 0 <= i < |files| && 0 <= l < |files[i].qc| && 0 <= c < channels && files[i].qc[l][c] == 0 ==>
      files[i].groups[error][l][c] > 0.0
  }

  /** What a run asks of its files and of the groups read from them. */
  ghost predicate Trainable(files: seq<R.File>, groups: seq<string>, channels: nat, names: Names,
                            predictors: seq<string>) {
    && files != [] && NoRepeats(groups) && R.LAPSE_RATE in groups && Covers(groups, names, predictors)
    && (forall i, j :: 0 <= i < |files| && 0 <= j < |groups| ==> R.Usable(files[i], groups[j], channels))
    && names.error != R.LAPSE_RATE && names.error != R.LAPSE_RATE_SQUARED
    && R.AllUsable(files, names.error, channels) && PositiveErrors(files, names.error, channels)
  }

  lemma ErrorsArePositive(files: seq<R.File>, groups: seq<string>, channels: seq<int>, names: Names,
                          predictors: seq<string>, c: nat)
    requires Trainable(files, groups, |channels|, names, predictors) && NoRepeats(channels) && c < |channels|
    ensures
      var errors := R.Get(R.FilesAdded(files, groups, channels), (names.error, channels[c]));
      forall k :: 0 <= k < |errors| ==> errors[k] > 0.0
  {
    hide R.FilesAdded, R.Origins, R.Get, R.Usable;
    var g :| 0 <= g < |groups| && groups[g] == names.error;
    R.ListsAreAligned(files, groups, channels, g, c, 0);
    var o := R.Origins(files, c, |channels|);
    forall k | 0 <= k < |o|
      ensures R.Get(R.FilesAdded(files, groups, channels), (names.error, channels[c]))[k] > 0.0
    {
      R.ListsAreAligned(files, groups, channels, g, c, k);
    }
  }

  lemma RatePresent(files: seq<R.File>, groups: seq<string>, channels: seq<int>)
    requires files != [] && R.LAPSE_RATE in groups
    requires forall i, j :: 0 <= i < |files| && 0 <= j < |groups| ==> R.Usable(files[i], groups[j], |channels|)
    ensures R.Flagged(files, |channels|)
    ensures forall c :: 0 <= c < |channels| ==> (R.LAPSE_RATE, channels[c]) in R.FilesAdded(files, groups, channels)
  {
    hide R.FileAdded;
    var g :| 0 <= g < |groups| && groups[g] == R.LAPSE_RATE;
    assert forall i :: 0 <= i < |files| ==> R.Usable(files[i], groups[g], |channels|);
    var n := |files| - 1;
    R.FileAddedHas(R.FilesAdded(files[..n], groups, channels), files[n], groups, channels, |groups|);
  }

  /** All files are added, the lapse rate is recentred, and every channel is solved: from the recentred
      lists and the coefficients the run started with, to the one minimum where the Hessian has an
      inverse. */
  method Estimate(reader: R.Reader, files: seq<R.File>, lines: seq<(int, real)>, names: Names, s: Satbias,
                  pinv: Matrix -> Matrix)
    requires reader.db == map[] && reader.channels == s.channels && s.Valid() && NoRepeats(s.channels)
    requires Trainable(files, reader.groups, |s.channels|, names, s.predictors)
    requires InverseSized(pinv, |s.predictors|)
    modifies reader, s
    ensures s.Valid()
    ensures R.Recentred(R.FilesAdded(files, reader.groups, s.channels), reader.db, s.channels)
    ensures R.Flagged(files, |s.channels|)
    ensures forall c: nat :: c < |s.channels| ==>
      && s.used[c] == |R.Origins(files, c, |s.channels|)|
      && Positive(Error(ChannelOf(reader.db, names, s, c)))
      && Solved(ChannelOf(reader.db, names, s, c), s.used[c],
                old(ColumnAt(s.beta, s.predictors, c)), old(ColumnAt(s.err, s.predictors, c)),
                ColumnAt(s.beta, s.predictors, c), ColumnAt(s.err, s.predictors, c), pinv)
  {
    hide R.FilesAdded, R.Origins, R.Get;
    var channels, groups := s.channels, reader.groups;
    reader.AddFiles(files);
    RatePresent(files, groups, channels);
    ghost var added := reader.db;
    var means := reader.UpdateLapseRateMean(lines);
    var db := reader.db;
    var ns := seq(|channels|, c requires 0 <= c < |channels| => |R.Get(db, (names.obs, channels[c]))|);
    forall c: nat | c < |channels|
      ensures Solvable(db, names, s, c, ns[c]) && ns[c] == |R.Origins(files, c, |channels|)|
      ensures forall k :: 0 <= k < ns[c] ==> R.Get(db, (names.error, channels[c]))[k] > 0.0
    {
      forall name | name in groups
        ensures |R.Get(added, (name, channels[c]))| == |R.Origins(files, c, |channels|)|
      {
        var g :| 0 <= g < |groups| && groups[g] == name;
        R.ListsAreAligned(files, groups, channels, g, c, 0);
      }
      RecentredListsAreAligned(added, db, groups, channels, names, s.predictors, c, |R.Origins(files, c, |channels|)|);
      ErrorsArePositive(files, groups, channels, names, s.predictors, c);
      assert R.Get(db, (names.error, channels[c])) == R.Get(added, (names.error, channels[c]));
    }
    Update(db, names, s, ns, pinv);
  }

  /** Departures that the prior coefficients explain exactly leave them as they are. */
  lemma ExactPriorIsKept(c: Channel, n: nat, prior: Vector, variances: Vector, a: Matrix)
    requires Full(c, n) && |prior| == |variances| == |c.predictors|
    requires NonNegative(variances) && Positive(Error(c))
    requires Sized(a, |prior|, |prior|) && RightInverse(NormalMatrix(c, n, variances), a)
    requires forall k: nat :: k < n ==> Departure(c, n, k) == FittedBias(c, n, prior, k, |prior|)
    ensures Apply(a, NormalRight(c, n, prior, variances)) == prior
  {
    hide Times, RightInverse, NormalMatrix, NormalRight, Apply, FittedBias, Departure, PriorDistance, Misfit;
    var beta := Apply(a, NormalRight(c, n, prior, variances));
    CoefficientsMinimiseTheCost(c, n, prior, variances, a);
    PriorIsFree(prior, variances, |prior|);
    NoMisfit(c, n, prior, n);
    DistanceIsNonNegative(prior, variances, beta, |prior|);
    MisfitIsNonNegative(c, n, beta, n);
  }

  lemma SquareOver(d: real, v: real)
    requires v > 0.0
    ensures Times(d, d) / v >= 0.0 && (d == 0.0 ==> Times(d, d) / v == 0.0)
  {
    assert d * d >= 0.0;
  }

  lemma {:induction false} PriorIsFree(prior: Vector, variances: Vector, m: nat)
    requires m <= |prior| == |variances| && NonNegative(variances)
    ensures PriorDistance(prior, variances, prior, m) == 0.0
  {
    hide Times;
    if m > 0 {
      PriorIsFree(prior, variances, m - 1);
      if variances[m - 1] > 0.0 {
        SquareOver(0.0, variances[m - 1]);
      }
    }
  }

  lemma {:induction false} DistanceIsNonNegative(prior: Vector, variances: Vector, b: Vector, m: nat)
    requires m <= |prior| == |variances| == |b| && NonNegative(variances)
    ensures PriorDistance(prior, variances, b, m) >= 0.0
  {
    hide Times;
    if m > 0 {
      DistanceIsNonNegative(prior, variances, b, m - 1);
      if variances[m - 1] > 0.0 {
        SquareOver(b[m - 1] - prior[m - 1], variances[m - 1]);
      }
    }
  }

  lemma {:induction false} NoMisfit(c: Channel, n: nat, b: Vector, k: nat)
    requires Full(c, n) && |b| == |c.predictors| && k <= n && Positive(Error(c))
    requires forall i: nat :: i < n ==> Departure(c, n, i) == FittedBias(c, n, b, i, |b|)
    ensures Misfit(c, n, b, k) == 0.0
  {
    hide Times, FittedBias, Departure;
    if k > 0 {
      NoMisfit(c, n, b, k - 1);
      SquareOver(0.0, Error(c)[k - 1]);
    }
  }

  lemma {:induction false} MisfitIsNonNegative(c: Channel, n: nat, b: Vector, k: nat)
    requires Full(c, n) && |b| == |c.predictors| && k <= n && Positive(Error(c))
    ensures Misfit(c, n, b, k) >= 0.0
  {
    hide Times, FittedBias, Departure;
    if k > 0 {
      MisfitIsNonNegative(c, n, b, k - 1);
      SquareOver(Departure(c, n, k - 1) - FittedBias(c, n, b, k - 1, |b|), Error(c)[k - 1]);
    }
  }
}
