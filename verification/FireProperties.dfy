/** Daily fire properties per mesh cell: one-pass moments, and the separate plume-rise category
    aggregation over the same records. */
module FireProperties {
  import opened Outcome
  import opened Permutations
  import opened Reals
  import opened Vectors
  import opened Statistics

  /** A fire record with the cell it was assigned to; -1 when it was assigned to none. */
  datatype Fire = Fire(cell: int, accepted: bool, value: real)

  predicate Used(f: Fire) { f.accepted && f.cell >= 0 && f.value >= 0.0 }

  predicate Counts(f: Fire, cell: nat) { Used(f) && f.cell == cell }

  /** The values a cell's statistics are made of, in record order. */
  function ValuesIn(fires: seq<Fire>, cell: nat): Vector {
    if fires == [] then []
    else
      var last := fires[|fires| - 1];
      ValuesIn(fires[..|fires| - 1], cell) + if Counts(last, cell) then [last.value] else []
  }

  ghost predicate Assigned(fires: seq<Fire>, cells: nat) {
    forall k :: 0 <= k < |fires| ==> fires[k].cell < cells
  }

  lemma ValuesNext(fires: seq<Fire>, k: nat, cell: nat)
    requires k < |fires|
    ensures
      var now, later := ValuesIn(fires[..k], cell), ValuesIn(fires[..k + 1], cell);
      if Counts(fires[k], cell) then
        && |later| == |now| + 1
        && Sum(later) == Sum(now) + fires[k].value
        && SumOfSquares(later) == SumOfSquares(now) + Times(fires[k].value, fires[k].value)
      else later == now
  {
    hide Sum, SumOfSquares, Times, Counts;
    assert fires[..k + 1][..k] == fires[..k];
    Append(ValuesIn(fires[..k], cell), fires[k].value);
  }

  /** Count, sum and sum of squares of every cell in one pass, then mean and variance; the source
      returns the square root of the variance. */
  method Moments(fires: seq<Fire>, cells: nat) returns (mean: array<real>, variance: array<real>)
    requires Assigned(fires, cells)
    ensures fresh(mean) && fresh(variance) && mean.Length == variance.Length == cells
    ensures forall c :: 0 <= c < cells ==>
      mean[c] == Mean(ValuesIn(fires, c)) && variance[c] == Variance(ValuesIn(fires, c))
  {
    hide Sum, SumOfSquares, Times, Variance, ValuesIn;
    var count := new nat[cells](_ => 0);
    var sums := new real[cells](_ => 0.0);
    var squares := new real[cells](_ => 0.0);
    NoValues(fires);
    var k := 0;
    while k < |fires|
      invariant 0 <= k <= |fires|
      invariant forall c :: 0 <= c < cells ==>
        && count[c] == |ValuesIn(fires[..k], c)|
        && sums[c] == Sum(ValuesIn(fires[..k], c))
        && squares[c] == SumOfSquares(ValuesIn(fires[..k], c))
    {
      forall c | 0 <= c < cells
        ensures
          var now, later := ValuesIn(fires[..k], c), ValuesIn(fires[..k + 1], c);
          if Counts(fires[k], c) then
            && |later| == |now| + 1
            && Sum(later) == Sum(now) + fires[k].value
            && SumOfSquares(later) == SumOfSquares(now) + Times(fires[k].value, fires[k].value)
          else later == now
      {
        ValuesNext(fires, k, c);
      }
      var f := fires[k];
      if Used(f) {
        count[f.cell] := count[f.cell] + 1;
        sums[f.cell] := sums[f.cell] + f.value;
        squares[f.cell] := squares[f.cell] + Times(f.value, f.value);
      }
      k := k + 1;
    }
    assert fires[..k] == fires;
    mean := new real[cells](_ => 0.0);
    variance := new real[cells](_ => 0.0);
    var c := 0;
    while c < cells
      invariant 0 <= c <= cells
      invariant forall i :: 0 <= i < c ==>
        mean[i] == Mean(ValuesIn(fires, i)) && variance[i] == Variance(ValuesIn(fires, i))
      invariant forall i :: c <= i < cells ==> mean[i] == 0.0 && variance[i] == 0.0
      modifies mean, variance
    {
      EmptyStatistics(ValuesIn(fires, c));
      if count[c] > 0 {
        OnePassVariance(ValuesIn(fires, c));
        VarianceIsNonNegative(ValuesIn(fires, c));
        mean[c] := sums[c] / count[c] as real;
        variance[c] := Max(squares[c] / count[c] as real - Times(mean[c], mean[c]), 0.0);
      }
      c := c + 1;
    }
  }

  lemma NoValues(fires: seq<Fire>)
    ensures forall c: nat :: ValuesIn(fires[..0], c) == []
    ensures Sum([]) == 0.0 && SumOfSquares([]) == 0.0
  {
    assert Squared([]) == [];
  }

  lemma EmptyStatistics(v: Vector)
    ensures v == [] ==> Mean(v) == 0.0 && Variance(v) == 0.0
  {
  }

  /** The values of two stretches of records are those of the first and then those of the second; a single
      record gives its value if it was accepted into the cell and is not negative. */
  lemma {:induction false} ValuesInOrder(a: seq<Fire>, b: seq<Fire>, cell: nat)
    ensures ValuesIn(a + b, cell) == ValuesIn(a, cell) + ValuesIn(b, cell)
    ensures |b| == 1 ==>
      ValuesIn(b, cell) == if b[0].accepted && b[0].cell == cell && b[0].value >= 0.0 then [b[0].value] else []
    decreases |b|
  {
    if b == [] {
      assert a + b == a;
    } else {
      var n := |b| - 1;
      ValuesInOrder(a, b[..n], cell);
      assert (a + b)[..|a| + n] == a + b[..n];
    }
  }

  // ---- Order of the records ----

  /** What one record adds to a cell's values, order aside. */
  function Share(f: Fire, cell: nat): multiset<real> {
    if Counts(f, cell) then multiset{f.value} else multiset{}
  }

  lemma ValuesLast(fires: seq<Fire>, cell: nat)
    requires fires != []
    ensures multiset(ValuesIn(fires, cell)) ==
            multiset(ValuesIn(fires[..|fires| - 1], cell)) + Share(fires[|fires| - 1], cell)
  {
  }

  lemma {:induction false} ValuesWithout(fires: seq<Fire>, k: nat, cell: nat)
    requires k < |fires|
    ensures multiset(ValuesIn(fires, cell)) == multiset(ValuesIn(Without(fires, k), cell)) + Share(fires[k], cell)
  {
    hide Share, ValuesIn;
    var n := |fires| - 1;
    ValuesLast(fires, cell);
    if k < n {
      ValuesWithout(fires[..n], k, cell);
      var rest := Without(fires, k);
      assert rest[..|rest| - 1] == Without(fires[..n], k) && rest[|rest| - 1] == fires[n];
      ValuesLast(rest, cell);
    } else {
      assert Without(fires, k) == fires[..n];
    }
  }

  lemma {:induction false} ValuesPermute(a: seq<Fire>, b: seq<Fire>, cell: nat)
    requires multiset(a) == multiset(b)
    ensures multiset(ValuesIn(a, cell)) == multiset(ValuesIn(b, cell))
    decreases |a|
  {
    hide Share, ValuesIn;
    if a == [] {
      assert |multiset(b)| == 0;
      assert a == b;
    } else {
      var k := Match(a, b);
      ValuesPermute(a[..|a| - 1], Without(b, k), cell);
      ValuesLast(a, cell);
      ValuesWithout(b, k, cell);
    }
  }

  /** Mean and variance do not depend on the order of the records. */
  lemma MomentsIgnoreRecordOrder(a: seq<Fire>, b: seq<Fire>, cell: nat)
    requires multiset(a) == multiset(b)
    ensures Mean(ValuesIn(a, cell)) == Mean(ValuesIn(b, cell))
    ensures Variance(ValuesIn(a, cell)) == Variance(ValuesIn(b, cell))
  {
    hide Sum, SumOfSquares, Times, Variance;
    ValuesPermute(a, b, cell);
    var x, y := ValuesIn(a, cell), ValuesIn(b, cell);
    assert |multiset(x)| == |x| && |multiset(y)| == |y|;
    SumIgnoresOrder(x, y);
    SquaresIgnoreOrder(x, y);
    if x != [] {
      OnePassVariance(x);
      OnePassVariance(y);
    }
  }

  // ---- Plume-rise categories ----

  /** A record of the category aggregator: cell, vegetation code, area. */
  datatype Burn = Burn(cell: int, genveg: int, area: real)

  /** Vegetation code to category; category 0 is unknown. */
  const CROSSWALK: map<int, nat> := map[0 := 0, 1 := 4, 2 := 3, 3 := 1, 4 := 2, 5 := 2, 6 := 2, 9 := 4]

  const CATEGORIES: nat := 5

  datatype BurnError = CellOutOfRange | InvalidArea | UnknownVegetation

  datatype Summary = Summary(category: nat, share: real, coverage: real, count: nat, mean: real)

  predicate Valid(b: Burn, cells: nat) { 0 <= b.cell < cells && b.area >= 0.0 && b.genveg in CROSSWALK }

  /** Area burned in a cell under one category. */
  function AreaOf(burns: seq<Burn>, cell: nat, category: nat): real {
    if burns == [] then 0.0
    else
      var last := burns[|burns| - 1];
      AreaOf(burns[..|burns| - 1], cell, category) +
      if last.cell == cell && last.genveg in CROSSWALK && CROSSWALK[last.genveg] == category then last.area else 0.0
  }

  function CountIn(burns: seq<Burn>, cell: nat): nat {
    if burns == [] then 0
    else CountIn(burns[..|burns| - 1], cell) + if burns[|burns| - 1].cell == cell then 1 else 0
  }

  function Known(w: Vector): real
    requires |w| == CATEGORIES
  {
    w[1] + w[2] + w[3] + w[4]
  }

  /** The first of the four known categories with the largest area. */
  function Dominant(w: Vector): (k: nat)
    requires |w| == CATEGORIES
    ensures 1 <= k < CATEGORIES
    ensures forall j :: 1 <= j < CATEGORIES ==> w[j] <= w[k] && (w[j] == w[k] ==> k <= j)
  {
    if w[2] <= w[1] && w[3] <= w[1] && w[4] <= w[1] then 1
    else if w[3] <= w[2] && w[4] <= w[2] then 2
    else if w[4] <= w[3] then 3 else 4
  }

  /** What one cell's category areas and record count amount to. */
  function Summarize(w: Vector, count: nat): Summary
    requires |w| == CATEGORIES
  {
    var known, total := Known(w), w[0] + Known(w);
    Summary(if known == 0.0 then 0 else Dominant(w),
            if known > 0.0 then w[Dominant(w)] / known else 0.0,
            if total > 0.0 then known / total else 0.0,
            count,
            if count > 0 then total / count as real else 0.0)
  }

  function Areas(burns: seq<Burn>, cell: nat): (w: Vector)
    ensures |w| == CATEGORIES
  {
    [AreaOf(burns, cell, 0), AreaOf(burns, cell, 1), AreaOf(burns, cell, 2), AreaOf(burns, cell, 3),
      AreaOf(burns, cell, 4)]
  }

  /** Scatters every record into its cell and category, then summarises each cell. */
  method Aggregate(burns: seq<Burn>, cells: nat) returns (r: Result<seq<Summary>, BurnError>)
    ensures r == Err(CellOutOfRange) <==> exists k :: 0 <= k < |burns| && !(0 <= burns[k].cell < cells)
    ensures r == Err(InvalidArea) <==>
      && (forall k :: 0 <= k < |burns| ==> 0 <= burns[k].cell < cells)
      && (exists k :: 0 <= k < |burns| && burns[k].area < 0.0)
    ensures r == Err(UnknownVegetation) <==>
      && (forall k :: 0 <= k < |burns| ==> 0 <= burns[k].cell < cells && burns[k].area >= 0.0)
      && (exists k :: 0 <= k < |burns| && burns[k].genveg !in CROSSWALK)
    ensures r.Ok? <==> forall k :: 0 <= k < |burns| ==> Valid(burns[k], cells)
    ensures r.Ok? ==> |r.value| == cells
    ensures r.Ok? ==> forall c :: 0 <= c < cells ==> r.value[c] == Summarize(Areas(burns, c), CountIn(burns, c))
  {
    if exists k :: 0 <= k < |burns| && !(0 <= burns[k].cell < cells) {
      return Err(CellOutOfRange);
    }
    if exists k :: 0 <= k < |burns| && burns[k].area < 0.0 {
      return Err(InvalidArea);
    }
    if exists k :: 0 <= k < |burns| && burns[k].genveg !in CROSSWALK {
      return Err(UnknownVegetation);
    }
    var weights := new real[cells, CATEGORIES]((_, _) => 0.0);
    var count := new nat[cells](_ => 0);
    var k := 0;
    while k < |burns|
      invariant 0 <= k <= |burns|
      invariant forall c, j :: 0 <= c < cells && 0 <= j < CATEGORIES ==> weights[c, j] == AreaOf(burns[..k], c, j)
      invariant forall c :: 0 <= c < cells ==> count[c] == CountIn(burns[..k], c)
    {
      var b := burns[k];
      var category := CROSSWALK[b.genveg];
      assert burns[..k + 1][..k] == burns[..k];
      weights[b.cell, category] := weights[b.cell, category] + b.area;
      count[b.cell] := count[b.cell] + 1;
      k := k + 1;
    }
    assert burns[..k] == burns;
    var out := [];
    var c := 0;
    while c < cells
      invariant 0 <= c <= cells && |out| == c
      invariant forall i :: 0 <= i < c ==> out[i] == Summarize(Areas(burns, i), CountIn(burns, i))
    {
      var w := [weights[c, 0], weights[c, 1], weights[c, 2], weights[c, 3], weights[c, 4]];
      assert w == Areas(burns, c);
      out := out + [Summarize(w, count[c])];
      c := c + 1;
    }
    return Ok(out);
  }

  /** Areas add up record by record; a single record gives its area to its own cell, under the category of
      its vegetation code. */
  lemma {:induction false} AreasAddUp(a: seq<Burn>, b: seq<Burn>, cell: nat, category: nat)
    ensures AreaOf(a + b, cell, category) == AreaOf(a, cell, category) + AreaOf(b, cell, category)
    ensures |b| == 1 ==>
      AreaOf(b, cell, category) ==
      if b[0].cell == cell && b[0].genveg in CROSSWALK && CROSSWALK[b[0].genveg] == category then b[0].area else 0.0
    decreases |b|
  {
    if b == [] {
      assert a + b == a;
    } else {
      var n := |b| - 1;
      AreasAddUp(a, b[..n], cell, category);
      assert (a + b)[..|a| + n] == a + b[..n];
    }
  }

  // ---- What the categories say ----

  lemma {:induction false} AreasAreNonNegative(burns: seq<Burn>, cells: nat, cell: nat, category: nat)
    requires forall k :: 0 <= k < |burns| ==> Valid(burns[k], cells)
    ensures AreaOf(burns, cell, category) >= 0.0
  {
    if burns != [] {
      AreasAreNonNegative(burns[..|burns| - 1], cells, cell, category);
    }
  }

  lemma Fraction(part: real, whole: real)
    requires 0.0 <= part <= whole && 0.0 < whole
    ensures 0.0 <= part / whole <= 1.0
    ensures whole <= 4.0 * part ==> 0.25 <= part / whole
    ensures part / whole * whole == part
  {
    var q := part / whole;
    assert q * whole == part;
    if q < 0.25 {
      TimesPositive(0.25 - q, whole);
    }
  }

  ghost predicate Dominates(w: Vector, s: Summary)
    requires |w| == CATEGORIES
  {
    && (s.category == 0 <==> Known(w) == 0.0)
    && (Known(w) > 0.0 ==>
          && 0.25 <= s.share <= 1.0
          && 1 <= s.category < CATEGORIES && s.share * Known(w) == w[s.category]
          && forall j :: 1 <= j < CATEGORIES ==> w[j] <= w[s.category] && (w[j] == w[s.category] ==> s.category <= j))
    && 0.0 <= s.coverage <= 1.0 && s.coverage * (w[0] + Known(w)) == Known(w)
  }

  lemma SummaryDominates(w: Vector, count: nat)
    requires |w| == CATEGORIES && NonNegative(w)
    ensures Dominates(w, Summarize(w, count))
  {
    var known, total := Known(w), w[0] + Known(w);
    if known > 0.0 {
      Fraction(w[Dominant(w)], known);
    }
    if total > 0.0 {
      Fraction(known, total);
    }
  }

  /** Where area of known vegetation burned, the category holds the largest share, at least a
      quarter; the lowest category wins ties; and nothing is classified exactly when none did. */
  lemma DominantShare(burns: seq<Burn>, cells: nat, cell: nat)
    requires forall k :: 0 <= k < |burns| ==> Valid(burns[k], cells)
    ensures
      var w := seq(CATEGORIES, (category: nat) => AreaOf(burns, cell, category));
      Dominates(w, Summarize(Areas(burns, cell), CountIn(burns, cell)))
  {
    hide AreaOf, CountIn, Summarize, Dominates, Valid;
    forall j: nat | j < CATEGORIES
      ensures AreaOf(burns, cell, j) >= 0.0
    {
      AreasAreNonNegative(burns, cells, cell, j);
    }
    assert Areas(burns, cell) == seq(CATEGORIES, (category: nat) => AreaOf(burns, cell, category));
    SummaryDominates(Areas(burns, cell), CountIn(burns, cell));
  }

  /** The records of the category aggregator, as fire records. */
  function AsFires(burns: seq<Burn>): (fires: seq<Fire>)
    ensures |fires| == |burns|
    ensures forall k :: 0 <= k < |burns| ==> fires[k] == Fire(burns[k].cell, true, burns[k].area)
  {
    seq(|burns|, k requires 0 <= k < |burns| => Fire(burns[k].cell, true, burns[k].area))
  }

  lemma {:induction false} TotalsAgree(burns: seq<Burn>, cells: nat, cell: nat)
    requires forall k :: 0 <= k < |burns| ==> Valid(burns[k], cells)
    ensures
      var w := Areas(burns, cell);
      w[0] + Known(w) == Sum(ValuesIn(AsFires(burns), cell)) && CountIn(burns, cell) == |ValuesIn(AsFires(burns), cell)|
  {
    hide Sum, SumOfSquares, Times;
    if burns == [] {
      NoValues([]);
      assert [][..0] == AsFires(burns);
    } else {
      var n := |burns| - 1;
      var fires := AsFires(burns);
      TotalsAgree(burns[..n], cells, cell);
      assert fires[..n] == AsFires(burns[..n]) && fires[..n + 1] == fires;
      ValuesNext(fires, n, cell);
      assert burns[n].genveg in CROSSWALK && CROSSWALK[burns[n].genveg] < CATEGORIES;
    }
  }

  /** Both programs report the same mean fire size for the same records and cells. */
  lemma AggregatorsAgreeOnTheMean(burns: seq<Burn>, cells: nat, cell: nat)
    requires forall k :: 0 <= k < |burns| ==> Valid(burns[k], cells)
    ensures Summarize(Areas(burns, cell), CountIn(burns, cell)).mean == Mean(ValuesIn(AsFires(burns), cell))
  {
    hide Sum, Areas, ValuesIn, CountIn;
    TotalsAgree(burns, cells, cell);
  }
}
