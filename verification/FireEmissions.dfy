/** Daily fire totals per cell, their conversion to fluxes, and their expansion to UTC hours. */
module FireEmissions {
  import opened Outcome
  import opened Reals
  import opened Vectors

  const AVOGADRO: real := 6.022e23
  const SECONDS_PER_DAY: real := 86400.0
  const SECONDS_PER_HOUR: real := 3600.0
  const AEROSOL_MW_G_MOL: real := 12.0
  const GRAMS_PER_KG: real := 1000.0
  const CM2_PER_M2: real := 1.0e4
  const HOURS: nat := 24

  // ---- Points to cells ----

  datatype Record = Record(cell: int, accepted: bool, value: real)

  predicate Placed(p: Record) { p.accepted && p.cell >= 0 }

  ghost predicate Assigned(points: seq<Record>, cells: nat) {
    forall k :: 0 <= k < |points| ==> points[k].cell < cells
  }

  /** Sum of the placed records in each cell. */
  function Totals(points: seq<Record>, cells: nat): (v: Vector)
    requires Assigned(points, cells)
    ensures |v| == cells
  {
    if points == [] then Constant(cells, 0.0)
    else
      var p, before := points[|points| - 1], Totals(points[..|points| - 1], cells);
      if Placed(p) then Bump(before, p.cell, p.value) else before
  }

  function TotalPlaced(points: seq<Record>): real {
    if points == [] then 0.0
    else
      var p := points[|points| - 1];
      TotalPlaced(points[..|points| - 1]) + if Placed(p) then p.value else 0.0
  }

  method Aggregate(points: seq<Record>, cells: nat) returns (out: array<real>)
    requires Assigned(points, cells)
    ensures fresh(out) && out[..] == Totals(points, cells)
  {
    out := new real[cells](_ => 0.0);
    assert out[..] == Constant(cells, 0.0);
    var k := 0;
    while k < |points|
      invariant 0 <= k <= |points|
      invariant out[..] == Totals(points[..k], cells)
    {
      var p := points[k];
      assert points[..k + 1][..k] == points[..k];
      ghost var before := out[..];
      if Placed(p) {
        out[p.cell] := out[p.cell] + p.value;
        assert out[..] == Bump(before, p.cell, p.value);
      }
      k := k + 1;
    }
    assert points[..k] == points;
  }

  lemma {:induction false} SumBump(v: Vector, i: nat, x: real)
    requires i < |v|
    ensures Sum(Bump(v, i, x)) == Sum(v) + x
  {
    hide Sum, Bump;
    SumLast(v);
    SumLast(Bump(v, i, x));
    BumpPrefix(v, i, x);
    if i < |v| - 1 {
      SumBump(v[..|v| - 1], i, x);
    }
  }

  lemma {:induction false} SumOfZeros(n: nat)
    ensures Sum(Constant(n, 0.0)) == 0.0
  {
    if n > 0 {
      SumOfZeros(n - 1);
      assert Constant(n, 0.0)[..n - 1] == Constant(n - 1, 0.0);
    }
  }

  /** Nothing that was placed is lost or counted twice. */
  lemma {:induction false} TotalsConserve(points: seq<Record>, cells: nat)
    requires Assigned(points, cells)
    ensures Sum(Totals(points, cells)) == TotalPlaced(points)
  {
    hide Sum, Bump;
    if points == [] {
      SumOfZeros(cells);
    } else {
      var p := points[|points| - 1];
      TotalsConserve(points[..|points| - 1], cells);
      if Placed(p) {
        SumBump(Totals(points[..|points| - 1], cells), p.cell, p.value);
      }
    }
  }

  /** Sum of the placed records of one cell. */
  function PlacedIn(points: seq<Record>, cell: int): real {
    if points == [] then 0.0
    else
      var p := points[|points| - 1];
      PlacedIn(points[..|points| - 1], cell) + if Placed(p) && p.cell == cell then p.value else 0.0
  }

  /** Every cell gets its own records and no others. */
  lemma {:induction false} TotalsByCell(points: seq<Record>, cells: nat, c: nat)
    requires Assigned(points, cells) && c < cells
    ensures Totals(points, cells)[c] == PlacedIn(points, c)
  {
    if points != [] {
      TotalsByCell(points[..|points| - 1], cells, c);
    }
  }

  // ---- Fluxes ----

  datatype Kind = Gas | Aerosol

  /** Molecules per square centimetre and second from a daily total per cell (moles of a gas,
      kilograms of an aerosol). */
  function Flux(kind: Kind, total: real, areaM2: real): real
    requires areaM2 > 0.0
  {
    var moles := if kind.Aerosol? then total * GRAMS_PER_KG / AEROSOL_MW_G_MOL else total;
    moles / SECONDS_PER_DAY * AVOGADRO / (areaM2 * CM2_PER_M2)
  }

  /** What a flux amounts to over one hour and one cell, in the unit of the daily total. */
  function HourAmount(kind: Kind, flux: real, areaM2: real): real {
    var moles := flux * SECONDS_PER_HOUR * (areaM2 * CM2_PER_M2) / AVOGADRO;
    if kind.Aerosol? then moles * AEROSOL_MW_G_MOL / GRAMS_PER_KG else moles
  }

  lemma HourAmountAdds(kind: Kind, x: real, y: real, areaM2: real)
    ensures HourAmount(kind, x + y, areaM2) == HourAmount(kind, x, areaM2) + HourAmount(kind, y, areaM2)
    ensures HourAmount(kind, 0.0, areaM2) == 0.0
  {
  }

  /** Twenty-four hours of a constant flux amount to the daily total it came from. */
  lemma FluxOverADay(kind: Kind, total: real, areaM2: real)
    requires areaM2 > 0.0
    ensures HourAmount(kind, HOURS as real * Flux(kind, total, areaM2), areaM2) == total
  {
    var d := areaM2 * CM2_PER_M2;
    var moles := if kind.Aerosol? then total * GRAMS_PER_KG / AEROSOL_MW_G_MOL else total;
    var m := moles / SECONDS_PER_DAY * AVOGADRO;
    var f := m / d;
    assert f * d == m;
    assert HOURS as real * f * SECONDS_PER_HOUR * d == HOURS as real * SECONDS_PER_HOUR * m;
  }

  // ---- Hours ----

  datatype ProfileError = NotTwentyFour | SizesDiffer | BadWeights

  function Normalized(profile: Vector): Vector
    requires Sum(profile) > 0.0
  {
    Scale(HOURS as real / Sum(profile), profile)
  }

  predicate GoodProfile(profile: Vector) {
    |profile| == HOURS && (forall i :: 0 <= i < |profile| ==> profile[i] >= 0.0) && Sum(profile) > 0.0
  }

  /** Hour h of a cell: its daily value times the factor of its local hour. */
  function HourValue(n: Vector, hour: nat, offset: int, value: real): real
    requires |n| == HOURS
  {
    Times(n[(hour + offset) % HOURS], value)
  }

  function Hourly(values: Vector, offsets: seq<int>, profile: Vector): (r: Result<seq<Vector>, ProfileError>)
    ensures r.Ok? <==> GoodProfile(profile) && |values| == |offsets|
    ensures r.Ok? ==> |r.value| == HOURS && forall h :: 0 <= h < HOURS ==> |r.value[h]| == |values|
    ensures r.Ok? <==>
      && |profile| == HOURS && |values| == |offsets|
      && (forall i :: 0 <= i < |profile| ==> 0.0 <= profile[i]) && 0.0 < Sum(profile)
    ensures r == Err(NotTwentyFour) <==> |profile| != HOURS
    ensures r == Err(SizesDiffer) <==> |profile| == HOURS && |values| != |offsets|
  {
    if |profile| != HOURS then Err(NotTwentyFour)
    else if |values| != |offsets| then Err(SizesDiffer)
    else if !GoodProfile(profile) then Err(BadWeights)
    else
      var n := Normalized(profile);
      Ok(seq(HOURS, hour requires 0 <= hour < HOURS =>
        seq(|values|, c requires 0 <= c < |values| => HourValue(n, hour, offsets[c], values[c]))))
  }

  /** A cell's 24 values in UTC order. */
  function DayOf(n: Vector, offset: int, value: real): (v: Vector)
    requires |n| == HOURS
    ensures |v| == HOURS && forall h :: 0 <= h < HOURS ==> v[h] == HourValue(n, h, offset, value)
  {
    seq(HOURS, h requires 0 <= h < HOURS => HourValue(n, h, offset, value))
  }

  lemma {:induction false} SumConcat(a: Vector, b: Vector)
    ensures Sum(a + b) == Sum(a) + Sum(b)
  {
    if b == [] {
      assert a + b == a;
    } else {
      var n := |b| - 1;
      SumConcat(a, b[..n]);
      assert (a + b)[..|a + b| - 1] == a + b[..n];
    }
  }

  lemma {:induction false} SumScale(x: real, a: Vector)
    ensures Sum(Scale(x, a)) == Times(x, Sum(a))
  {
    hide Times;
    TimesUnits(x);
    if a != [] {
      var n := |a| - 1;
      SumScale(x, a[..n]);
      ScalePrefix(x, a, n);
      TimesDistributes(x, Sum(a[..n]), a[n]);
    }
  }

  /** Shifting the profile to a cell's local time only rotates it. */
  lemma ShiftIsRotation(n: Vector, offset: int, value: real)
    requires |n| == HOURS
    ensures
      var k := offset % HOURS;
      DayOf(n, offset, value) == Scale(value, n[k..] + n[..k])
  {
    hide Times;
    var k := offset % HOURS;
    var v, w := DayOf(n, offset, value), Scale(value, n[k..] + n[..k]);
    forall h | 0 <= h < HOURS
      ensures v[h] == w[h]
    {
      assert (h + offset) % HOURS == if h + k < HOURS then h + k else h + k - HOURS;
      TimesCommutes(n[(h + offset) % HOURS], value);
    }
  }

  /** A cell one hour further east sees every hour of its profile one UTC hour earlier. */
  lemma EasternCellRunsAhead(n: Vector, hour: nat, offset: int, value: real)
    requires |n| == HOURS && hour < HOURS
    ensures HourValue(n, hour, offset + 1, value) == HourValue(n, (hour + 1) % HOURS, offset, value)
  {
    assert ((hour + 1) % HOURS + offset) % HOURS == (hour + (offset + 1)) % HOURS;
  }

  /** Whatever its offset, a cell's 24 fields sum to 24 times its daily value. */
  lemma DaySumsToTwentyFour(profile: Vector, offset: int, value: real)
    requires GoodProfile(profile)
    ensures Sum(DayOf(Normalized(profile), offset, value)) == HOURS as real * value
  {
    hide Times, Sum;
    var n, k := Normalized(profile), offset % HOURS;
    ShiftIsRotation(n, offset, value);
    SumScale(value, n[k..] + n[..k]);
    SumConcat(n[k..], n[..k]);
    SumConcat(n[..k], n[k..]);
    assert n[..k] + n[k..] == n;
    SumScale(HOURS as real / Sum(profile), profile);
    Quotient(HOURS as real, Sum(profile), 0.0);
    TimesIs(value, HOURS as real);
  }

  lemma TimesIs(x: real, y: real)
    ensures Times(x, y) == y * x
  {
  }

  // ---- Conservation over a day ----

  function Amounts(kind: Kind, hours: Vector, areaM2: real): real {
    if hours == [] then 0.0
    else Amounts(kind, hours[..|hours| - 1], areaM2) + HourAmount(kind, hours[|hours| - 1], areaM2)
  }

  lemma {:induction false} AmountsOfSum(kind: Kind, hours: Vector, areaM2: real)
    ensures Amounts(kind, hours, areaM2) == HourAmount(kind, Sum(hours), areaM2)
  {
    hide HourAmount;
    HourAmountAdds(kind, 0.0, 0.0, areaM2);
    if hours != [] {
      var n := |hours| - 1;
      AmountsOfSum(kind, hours[..n], areaM2);
      HourAmountAdds(kind, Sum(hours[..n]), hours[n], areaM2);
    }
  }

  lemma CellEmitsItsTotal(kind: Kind, total: real, areaM2: real, offset: int, profile: Vector)
    requires areaM2 > 0.0 && GoodProfile(profile)
    ensures Amounts(kind, DayOf(Normalized(profile), offset, Flux(kind, total, areaM2)), areaM2) == total
  {
    hide HourAmount, Flux, Times, Sum;
    var f := Flux(kind, total, areaM2);
    AmountsOfSum(kind, DayOf(Normalized(profile), offset, f), areaM2);
    DaySumsToTwentyFour(profile, offset, f);
    FluxOverADay(kind, total, areaM2);
  }

  /** The 24 values of one cell. */
  function Column(hours: seq<Vector>, c: nat): (v: Vector)
    requires forall h :: 0 <= h < |hours| ==> c < |hours[h]|
    ensures |v| == |hours| && forall h :: 0 <= h < |v| ==> v[h] == hours[h][c]
  {
    seq(|hours|, h requires 0 <= h < |hours| => hours[h][c])
  }

  /** A cell's hours sum to 24 times its daily value, and each stands to the daily value as the factor of
      its local hour stands to the mean factor. */
  lemma HourlyFollowsTheProfile(values: Vector, offsets: seq<int>, profile: Vector, c: nat)
    requires Hourly(values, offsets, profile).Ok? && c < |values|
    ensures
      var hours := Hourly(values, offsets, profile).value;
      && Sum(Column(hours, c)) == HOURS as real * values[c]
      && forall h :: 0 <= h < HOURS ==>
           Times(Sum(profile), hours[h][c]) == Times(HOURS as real * values[c], profile[(h + offsets[c]) % HOURS])
  {
    hide Times, Sum;
    var hours, n := Hourly(values, offsets, profile).value, Normalized(profile);
    assert Column(hours, c) == DayOf(n, offsets[c], values[c]);
    DaySumsToTwentyFour(profile, offsets[c], values[c]);
    forall h | 0 <= h < HOURS
      ensures Times(Sum(profile), hours[h][c]) == Times(HOURS as real * values[c], profile[(h + offsets[c]) % HOURS])
    {
      UndoNormalize(Sum(profile), profile[(h + offsets[c]) % HOURS], values[c]);
    }
  }

  lemma UndoNormalize(total: real, factor: real, value: real)
    requires total > 0.0
    ensures Times(total, Times(Times(HOURS as real / total, factor), value)) == Times(HOURS as real * value, factor)
  {
    var q := HOURS as real / total;
    assert q * total == HOURS as real;
    assert total * (q * factor * value) == (q * total) * (value * factor);
  }

  /** Fluxes of all cells. */
  function Fluxes(kind: Kind, totals: Vector, areas: Vector): (v: Vector)
    requires |totals| == |areas| && forall c :: 0 <= c < |areas| ==> areas[c] > 0.0
    ensures |v| == |totals| && forall c :: 0 <= c < |v| ==> v[c] == Flux(kind, totals[c], areas[c])
  {
    seq(|totals|, c requires 0 <= c < |totals| => Flux(kind, totals[c], areas[c]))
  }

  /** Everything the hourly fields of the first n cells emit in a day. */
  function Emission(kind: Kind, hours: seq<Vector>, areas: Vector, n: nat): real
    requires n <= |areas| && forall h :: 0 <= h < |hours| ==> |hours[h]| == |areas|
  {
    if n == 0 then 0.0 else Emission(kind, hours, areas, n - 1) + Amounts(kind, Column(hours, n - 1), areas[n - 1])
  }

  lemma {:induction false} CellsEmitTheirTotals(kind: Kind, totals: Vector, areas: Vector, offsets: seq<int>,
                                                profile: Vector, n: nat)
    requires |totals| == |areas| == |offsets| && GoodProfile(profile) && n <= |totals|
    requires forall c :: 0 <= c < |areas| ==> areas[c] > 0.0
    ensures Emission(kind, Hourly(Fluxes(kind, totals, areas), offsets, profile).value, areas, n) == Sum(totals[..n])
  {
    hide Amounts, Flux, HourValue, Times, Sum;
    SumLast(totals[..n]);
    if n > 0 {
      var hours := Hourly(Fluxes(kind, totals, areas), offsets, profile).value;
      CellsEmitTheirTotals(kind, totals, areas, offsets, profile, n - 1);
      CellEmitsItsTotal(kind, totals[n - 1], areas[n - 1], offsets[n - 1], profile);
      assert Column(hours, n - 1) ==
             DayOf(Normalized(profile), offsets[n - 1], Flux(kind, totals[n - 1], areas[n - 1]));
      assert totals[..n][..n - 1] == totals[..n - 1];
    }
  }

  /** The hourly fluxes, integrated over area and the day, are exactly the total of the accepted
      records, for any cell offsets and any valid profile. */
  lemma DailyMassIsConserved(kind: Kind, points: seq<Record>, areas: Vector, offsets: seq<int>, profile: Vector)
    requires Assigned(points, |areas|) && |offsets| == |areas| && GoodProfile(profile)
    requires forall c :: 0 <= c < |areas| ==> areas[c] > 0.0
    ensures
      var hourly := Hourly(Fluxes(kind, Totals(points, |areas|), areas), offsets, profile);
      hourly.Ok? && Emission(kind, hourly.value, areas, |areas|) == TotalPlaced(points)
  {
    var totals := Totals(points, |areas|);
    CellsEmitTheirTotals(kind, totals, areas, offsets, profile, |areas|);
    assert totals[..|areas|] == totals;
    TotalsConserve(points, |areas|);
  }
}
