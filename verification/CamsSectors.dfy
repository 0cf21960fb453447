/** Exclusion and scaling of the sectors of one species, and of the sum field beside them. */
module CamsSectors {
  import opened Outcome
  import opened Permutations
  import opened Reals
  import opened Vectors
  import opened SparseWeights

  /** Sector names excluded, the sector factors as written in the configuration, and the factor of
      the species (default times species). */
  datatype Config = Config(exclusions: seq<string>, sectors: seq<(string, real)>, species: real)

  datatype Fault = NegativeFactor | NegativeSum

  // ---- Factors ----

  function Lower(c: char): char {
    if 'A' <= c <= 'Z' then (c as int - 'A' as int + 'a' as int) as char
    else if c == '_' then '-' else c
  }

  predicate Blank(c: char) { c == ' ' || c == '\t' || c == '\n' || c == '\r' }

  function Stripped(s: string): string {
    if s != "" && Blank(s[0]) then Stripped(s[1..])
    else if s != "" && Blank(s[|s| - 1]) then Stripped(s[..|s| - 1])
    else s
  }

  /** Spelling under which names are compared. */
  function Norm(s: string): string {
    var t := Stripped(s);
    seq(|t|, i requires 0 <= i < |t| => Lower(t[i]))
  }

  /** The last entry whose spelling matches, else one. */
  function Lookup(entries: seq<(string, real)>, name: string): real {
    if entries == [] then 1.0
    else
      var last := entries[|entries| - 1];
      if Norm(last.0) == Norm(name) then last.1 else Lookup(entries[..|entries| - 1], name)
  }

  /** Is the sector a key of the block exactly as the file spells it? */
  predicate Listed(c: Config, name: string) {
    exists i :: 0 <= i < |c.sectors| && c.sectors[i].0 == name
  }

  predicate Excluded(c: Config, name: string) { name in c.exclusions }

  function Factor(c: Config, name: string): real { Lookup(c.sectors, name) }

  // ---- One species at one time ----

  /** The variables of the file, in its order; the provided sum is the one called "sum". */
  ghost predicate Fields(names: seq<string>, fields: map<string, Vector>, cells: nat) {
    && NoRepeats(names)
    && forall i :: 0 <= i < |names| ==> names[i] in fields && |fields[names[i]]| == cells
  }

  /** What an excluded or scaled variable of the file takes away from or adds to the provided sum. */
  function Correction(c: Config, name: string, x: Vector): (v: Vector)
    ensures |v| == |x|
  {
    if Excluded(c, name) then Scale(-1.0, x)
    else if Listed(c, name) then Scale(Factor(c, name) - 1.0, x)
    else Constant(|x|, 0.0)
  }

  function Corrected(c: Config, sum: Vector, names: seq<string>, fields: map<string, Vector>): (v: Vector)
    requires Fields(names, fields, |sum|)
    ensures |v| == |sum|
  {
    if names == [] then sum
    else
      var n := |names| - 1;
      Add(Corrected(c, sum, names[..n], fields), Correction(c, names[n], fields[names[n]]))
  }

  function Clamped(v: Vector): (r: Vector)
    ensures |r| == |v| && forall i :: 0 <= i < |v| ==> r[i] == Max(v[i], 0.0)
  {
    seq(|v|, i requires 0 <= i < |v| => Max(v[i], 0.0))
  }

  const ROUNDING: real := 1.0e-12

  /** Correcting the sum evaluates the factor of this variable, which is refused. */
  predicate Refused(c: Config, name: string) { !Excluded(c, name) && Listed(c, name) && Factor(c, name) < 0.0 }

  /** Writing this sector evaluates its factor, which is refused. */
  predicate WriteRefused(c: Config, name: string) {
    name != "sum" && !Excluded(c, name) && Times(c.species, Factor(c, name)) < 0.0
  }

  function SumOut(c: Config, names: seq<string>, fields: map<string, Vector>, cells: nat): Result<Vector, Fault>
    requires Fields(names, fields, cells) && "sum" in names
  {
    var a := Corrected(c, fields["sum"], names, fields);
    if exists i :: 0 <= i < |names| && Refused(c, names[i]) then Err(NegativeFactor)
    else if exists k :: 0 <= k < cells && a[k] < -ROUNDING then Err(NegativeSum)
    else if c.species < 0.0 then Err(NegativeFactor)
    else Ok(Scale(c.species, Clamped(a)))
  }

  function SectorOut(c: Config, name: string, x: Vector): Result<Vector, Fault> {
    if Excluded(c, name) then Ok(Constant(|x|, 0.0))
    else if Times(c.species, Factor(c, name)) < 0.0 then Err(NegativeFactor)
    else Ok(Scale(Times(c.species, Factor(c, name)), x))
  }

  function FieldOut(c: Config, names: seq<string>, fields: map<string, Vector>, cells: nat,
                    name: string): (r: Result<Vector, Fault>)
    requires Fields(names, fields, cells) && name in names
    ensures r.Ok? ==> |r.value| == cells
  {
    if name == "sum" then SumOut(c, names, fields, cells) else SectorOut(c, name, fields[name])
  }

  /** The provided sum with the correction of every variable of the file, its own included. */
  method CorrectSum(c: Config, names: seq<string>, fields: map<string, Vector>, cells: nat) returns (r: Result<Vector,
                    Fault>)
    requires Fields(names, fields, cells) && "sum" in names
    ensures r == SumOut(c, names, fields, cells)
  {
    hide Scale, Factor, Excluded, Listed, Times, Clamped;
    var a := fields["sum"];
    var i := 0;
    while i < |names|
      invariant 0 <= i <= |names| && Fields(names[..i], fields, cells)
      invariant a == Corrected(c, fields["sum"], names[..i], fields)
      invariant forall j :: 0 <= j < i ==> !Refused(c, names[j])
    {
      if Refused(c, names[i]) {
        return Err(NegativeFactor);
      }
      assert names[..i + 1][..i] == names[..i];
      a := Add(a, Correction(c, names[i], fields[names[i]]));
      i := i + 1;
    }
    assert names[..i] == names;
    if exists k :: 0 <= k < cells && a[k] < -ROUNDING {
      return Err(NegativeSum);
    }
    if c.species < 0.0 {
      return Err(NegativeFactor);
    }
    return Ok(Scale(c.species, Clamped(a)));
  }

  /** Every variable of the file, in its order, up to the first that is refused. */
  method Process(c: Config, names: seq<string>, fields: map<string, Vector>, cells: nat)
    returns (r: Result<map<string, Vector>, Fault>)
    requires Fields(names, fields, cells)
    ensures r.Ok? ==> r.value.Keys == set n | n in names
    ensures r.Ok? ==> forall n | n in names :: FieldOut(c, names, fields, cells, n) == Ok(r.value[n])
    ensures r.Err? ==> exists i :: 0 <= i < |names| && FieldOut(c, names, fields, cells, names[i]) == Err(r.error) &&
                                   forall j :: 0 <= j < i ==> FieldOut(c, names, fields, cells, names[j]).Ok?
  {
    hide Scale, Factor, Excluded, Listed, Times, SumOut, Corrected;
    var out := map[];
    var i := 0;
    while i < |names|
      invariant 0 <= i <= |names|
      invariant out.Keys == set n | n in names[..i]
      invariant forall j :: 0 <= j < i ==> FieldOut(c, names, fields, cells, names[j]) == Ok(out[names[j]])
    {
      var field;
      if names[i] == "sum" {
        field := CorrectSum(c, names, fields, cells);
      } else {
        field := SectorOut(c, names[i], fields[names[i]]);
      }
      if field.Err? {
        return Err(field.error);
      }
      out := out[names[i] := field.value];
      i := i + 1;
    }
    assert names[..i] == names;
    return Ok(out);
  }

  // ---- Sums over sectors ----

  /** Factor by which the corrected sum carries a variable's own entry. */
  function Carried(c: Config, name: string): real {
    if Excluded(c, name) then 0.0 else if Listed(c, name) then Factor(c, name) else 1.0
  }

  /** Factor by which the sector's own output carries it, before the factor of the species. */
  function Applied(c: Config, name: string): real {
    if Excluded(c, name) then 0.0 else Factor(c, name)
  }

  /** Factor by which the corrected sum carries a sector, itself and through the sum. */
  function Net(c: Config, name: string): real { Carried(c, name) + Carried(c, "sum") - 1.0 }

  /** Sum of the sectors. */
  function Total(names: seq<string>, fields: map<string, Vector>, cells: nat): (v: Vector)
    requires forall i :: 0 <= i < |names| ==> names[i] in fields && |fields[names[i]]| == cells
    ensures |v| == cells
  {
    if names == [] then Constant(cells, 0.0)
    else
      var n := |names| - 1;
      var rest := Total(names[..n], fields, cells);
      if names[n] == "sum" then rest else Add(rest, fields[names[n]])
  }

  /** Weighted sum of the sectors in one cell. */
  function Weighted(weight: string -> real, names: seq<string>, fields: map<string, Vector>, k: nat): real
    requires forall i :: 0 <= i < |names| ==> names[i] in fields && k < |fields[names[i]]|
  {
    if names == [] then 0.0
    else
      var n := |names| - 1;
      var rest := Weighted(weight, names[..n], fields, k);
      if names[n] == "sum" then rest else rest + Times(weight(names[n]), fields[names[n]][k])
  }

  lemma {:induction false} WeightsMatter(v: string -> real, w: string -> real, names: seq<string>, fields: map<string,
                                         Vector>, k: nat)
    requires forall i :: 0 <= i < |names| ==> names[i] in fields && k < |fields[names[i]]|
    requires forall i :: 0 <= i < |names| && names[i] != "sum" ==> v(names[i]) == w(names[i])
    ensures Weighted(v, names, fields, k) == Weighted(w, names, fields, k)
  {
    hide Times;
    if names != [] {
      WeightsMatter(v, w, names[..|names| - 1], fields, k);
    }
  }

  lemma {:induction false} WeightedIsNonNegative(w: string -> real, names: seq<string>, fields: map<string, Vector>,
                                                 k: nat)
    requires forall i :: 0 <= i < |names| ==> names[i] in fields && k < |fields[names[i]]|
    requires forall i :: 0 <= i < |names| && names[i] != "sum" ==> w(names[i]) >= 0.0 && fields[names[i]][k] >= 0.0
    ensures Weighted(w, names, fields, k) >= 0.0
  {
    hide Times;
    if names != [] {
      var n := |names| - 1;
      var x := fields[names[n]][k];
      WeightedIsNonNegative(w, names[..n], fields, k);
      if names[n] != "sum" {
        TimesMonotone(w(names[n]), 0.0, x);
        TimesUnits(w(names[n]));
      }
    }
  }

  lemma CorrectionAt(c: Config, name: string, x: Vector, k: nat)
    requires k < |x|
    ensures Correction(c, name, x)[k] == Times(Carried(c, name) - 1.0, x[k]) == Times(Carried(c, name), x[k]) - x[k]
  {
    hide Times, Factor, Excluded, Listed;
    TimesUnits(x[k]);
    var f := Carried(c, name);
    TimesCommutes(f - 1.0, x[k]);
    TimesDistributes(x[k], f, 1.0);
    TimesCommutes(f, x[k]);
  }

  lemma {:induction false} CorrectedAt(c: Config, sum: Vector, names: seq<string>, fields: map<string, Vector>, k: nat)
    requires Fields(names, fields, |sum|) && k < |sum|
    requires "sum" in fields && fields["sum"] == sum
    ensures Corrected(c, sum, names, fields)[k] - sum[k] ==
            Weighted(n => Carried(c, n), names, fields, k) - Total(names, fields, |sum|)[k] +
            if "sum" in names then Times(Carried(c, "sum") - 1.0, sum[k]) else 0.0
  {
    hide Times, Carried, Correction;
    if names != [] {
      var n := |names| - 1;
      CorrectedAt(c, sum, names[..n], fields, k);
      CorrectionAt(c, names[n], fields[names[n]], k);
    }
  }

  lemma {:induction false} NetSplits(c: Config, names: seq<string>, fields: map<string, Vector>, cells: nat, k: nat)
    requires Fields(names, fields, cells) && k < cells
    ensures Weighted(n => Net(c, n), names, fields, k) ==
            Weighted(n => Carried(c, n), names, fields, k) +
              Times(Carried(c, "sum") - 1.0, Total(names, fields, cells)[k])
  {
    hide Times, Carried;
    var d := Carried(c, "sum") - 1.0;
    TimesUnits(d);
    if names != [] {
      var n := |names| - 1;
      NetSplits(c, names[..n], fields, cells, k);
      if names[n] != "sum" {
        var x := fields[names[n]][k];
        TimesDistributes(d, Total(names[..n], fields, cells)[k], x);
        TimesCommutes(Net(c, names[n]), x);
        TimesDistributes(x, Carried(c, names[n]), d);
        TimesCommutes(Carried(c, names[n]), x);
        TimesCommutes(d, x);
      }
    }
  }

  lemma {:induction false} OutputsTotal(c: Config, names: seq<string>, fields: map<string, Vector>, out: map<string,
                                        Vector>, cells: nat, k: nat)
    requires Fields(names, fields, cells) && Fields(names, out, cells) && k < cells
    requires forall n :: n in names && n != "sum" ==> SectorOut(c, n, fields[n]) == Ok(out[n])
    ensures Total(names, out, cells)[k] == Times(c.species, Weighted(n => Applied(c, n), names, fields, k))
  {
    hide Times, Factor, Excluded;
    TimesUnits(c.species);
    if names != [] {
      var n := |names| - 1;
      var x := fields[names[n]][k];
      OutputsTotal(c, names[..n], fields, out, cells, k);
      if names[n] != "sum" {
        assert SectorOut(c, names[n], fields[names[n]]) == Ok(out[names[n]]);
        TimesUnits(x);
        TimesThree(c.species, Factor(c, names[n]), x);
        TimesDistributes(c.species, Weighted(m => Applied(c, m), names[..n], fields, k),
          Times(Applied(c, names[n]), x));
      }
    }
  }

  lemma TimesThree(a: real, b: real, x: real)
    ensures Times(Times(a, b), x) == Times(a, Times(b, x))
  {
  }

  // ---- Consistency ----

  /** The source's own sum is the total of its nonnegative sectors. */
  ghost predicate Summed(names: seq<string>, fields: map<string, Vector>, cells: nat) {
    && Fields(names, fields, cells) && "sum" in names
    && fields["sum"] == Total(names, fields, cells)
    && forall i :: 0 <= i < |names| ==> NonNegative(fields[names[i]])
  }

  /** No factor that the run evaluates is refused. */
  predicate FactorsAccepted(c: Config, names: seq<string>) {
    && c.species >= 0.0
    && forall i :: 0 <= i < |names| && !Excluded(c, names[i]) ==>
         && (Listed(c, names[i]) ==> Factor(c, names[i]) >= 0.0)
         && (names[i] != "sum" ==> Times(c.species, Factor(c, names[i])) >= 0.0)
  }

  predicate NeverNegative(c: Config, names: seq<string>) {
    forall i :: 0 <= i < |names| && names[i] != "sum" ==> Net(c, names[i]) >= 0.0
  }

  ghost predicate Accepted(c: Config, names: seq<string>, fields: map<string, Vector>, cells: nat)
    requires Fields(names, fields, cells)
  {
    forall n :: n in names ==> FieldOut(c, names, fields, cells, n).Ok?
  }

  function Outputs(c: Config, names: seq<string>, fields: map<string, Vector>, cells: nat): (out: map<string, Vector>)
    requires Fields(names, fields, cells) && Accepted(c, names, fields, cells)
    ensures Fields(names, out, cells)
    ensures forall n :: n in names ==> FieldOut(c, names, fields, cells, n) == Ok(out[n])
  {
    map n | n in names :: FieldOut(c, names, fields, cells, n).value
  }

  /** The run succeeds and the sum it writes is the total of the sectors it writes. */
  ghost predicate Consistent(c: Config, names: seq<string>, fields: map<string, Vector>, cells: nat)
    requires Fields(names, fields, cells) && "sum" in names
  {
    && Accepted(c, names, fields, cells)
    && var out := Outputs(c, names, fields, cells);
       out["sum"] == Total(names, out, cells)
  }

  /** The corrected sum of a consistent source is its sectors, each with its net factor. */
  lemma CorrectedIsNet(c: Config, names: seq<string>, fields: map<string, Vector>, cells: nat, k: nat)
    requires Summed(names, fields, cells) && k < cells
    ensures Corrected(c, fields["sum"], names, fields)[k] == Weighted(n => Net(c, n), names, fields, k)
  {
    hide Times, Corrected, Total, Weighted, Net;
    CorrectedAt(c, fields["sum"], names, fields, k);
    NetSplits(c, names, fields, cells, k);
  }

  /** Refused factors are the only obstacle when no sector's net factor is negative: the sum is then
      never negative and never clamped. */
  lemma ConsistentSourceIsAccepted(c: Config, names: seq<string>, fields: map<string, Vector>, cells: nat)
    requires Summed(names, fields, cells) && FactorsAccepted(c, names) && NeverNegative(c, names)
    ensures Accepted(c, names, fields, cells)
    ensures FieldOut(c, names, fields, cells, "sum") == Ok(Scale(c.species, Corrected(c, fields["sum"], names, fields)))
  {
    hide Times, Factor, Excluded, Listed, Corrected, Total, Weighted, Net;
    var a := Corrected(c, fields["sum"], names, fields);
    forall k | 0 <= k < cells
      ensures a[k] >= 0.0
    {
      CorrectedIsNet(c, names, fields, cells, k);
      WeightedIsNonNegative(n => Net(c, n), names, fields, k);
    }
    assert Clamped(a) == a;
    forall n | n in names
      ensures FieldOut(c, names, fields, cells, n).Ok?
    {
      var i :| 0 <= i < |names| && names[i] == n;
      assert !Refused(c, names[i]);
    }
  }

  /** Written sum and written sectors in one cell. */
  lemma WrittenAt(c: Config, names: seq<string>, fields: map<string, Vector>, cells: nat, k: nat)
    requires Summed(names, fields, cells) && FactorsAccepted(c, names) && NeverNegative(c, names) && k < cells
    ensures Accepted(c, names, fields, cells)
    ensures
      var out := Outputs(c, names, fields, cells);
      && out["sum"][k] == Times(c.species, Weighted(n => Net(c, n), names, fields, k))
      && Total(names, out, cells)[k] == Times(c.species, Weighted(n => Applied(c, n), names, fields, k))
  {
    hide Times, Corrected, Total, Weighted, FactorsAccepted, NeverNegative, SectorOut, SumOut, Net, Applied;
    ConsistentSourceIsAccepted(c, names, fields, cells);
    var out := Outputs(c, names, fields, cells);
    CorrectedIsNet(c, names, fields, cells, k);
    forall n | n in names && n != "sum"
      ensures SectorOut(c, n, fields[n]) == Ok(out[n])
    {
      assert FieldOut(c, names, fields, cells, n) == Ok(out[n]);
    }
    OutputsTotal(c, names, fields, out, cells, k);
  }

  /** Every sector enters the sum with the factor it is written with; with a species factor of zero
      it is enough that none enters with a negative one. */
  predicate Balanced(c: Config, names: seq<string>) {
    if c.species == 0.0 then NeverNegative(c, names)
    else forall i :: 0 <= i < |names| && names[i] != "sum" ==> Net(c, names[i]) == Applied(c, names[i])
  }

  lemma BalancedIsNeverNegative(c: Config, names: seq<string>)
    requires FactorsAccepted(c, names) && Balanced(c, names)
    ensures NeverNegative(c, names)
  {
    hide Times, Factor, Excluded, Carried, Net;
    if c.species > 0.0 {
      forall i | 0 <= i < |names| && names[i] != "sum"
        ensures Net(c, names[i]) >= 0.0
      {
        var f := Factor(c, names[i]);
        if !Excluded(c, names[i]) && f < 0.0 {
          TimesPositive(c.species, -f);
          TimesNegates(c.species, f);
          assert false;
        }
      }
    }
  }

  /** The written sum is the total of the written sectors. */
  lemma SumStaysConsistent(c: Config, names: seq<string>, fields: map<string, Vector>, cells: nat)
    requires Summed(names, fields, cells) && FactorsAccepted(c, names) && Balanced(c, names)
    ensures Consistent(c, names, fields, cells)
  {
    hide Times, Total, Weighted, FactorsAccepted, Net, Applied, FieldOut;
    BalancedIsNeverNegative(c, names);
    ConsistentSourceIsAccepted(c, names, fields, cells);
    var out := Outputs(c, names, fields, cells);
    forall k | 0 <= k < cells
      ensures out["sum"][k] == Total(names, out, cells)[k]
    {
      WrittenAt(c, names, fields, cells, k);
      if c.species == 0.0 {
        TimesUnits(Weighted(n => Net(c, n), names, fields, k));
        TimesUnits(Weighted(n => Applied(c, n), names, fields, k));
      } else {
        WeightsMatter(n => Net(c, n), n => Applied(c, n), names, fields, k);
      }
    }
    assert FieldOut(c, names, fields, cells, "sum") == Ok(out["sum"]);
    assert out["sum"] == Total(names, out, cells);
  }

  /** A field that is x in a single sector and zero in the others. */
  function OneSector(names: seq<string>, name: string, x: real): map<string, Vector> {
    map n | n in names :: if n == name || n == "sum" then [x] else [0.0]
  }

  lemma {:induction false} OneSectorTotals(w: string -> real, names: seq<string>, all: seq<string>, name: string,
                                           x: real)
    requires NoRepeats(all) && names <= all && (name == "sum" ==> x == 0.0)
    ensures
      var f := OneSector(all, name, x);
      && Fields(names, f, 1)
      && Total(names, f, 1)[0] == (if name in names then x else 0.0)
      && Weighted(w, names, f, 0) == (if name in names && name != "sum" then Times(w(name), x) else 0.0)
  {
    hide Times;
    if names != [] {
      var n := |names| - 1;
      OneSectorTotals(w, names[..n], all, name, x);
      assert names[n] == all[n] && names[..n] == all[..n];
      TimesUnits(w(names[n]));
    }
  }

  lemma OneSectorIsSummed(names: seq<string>, name: string, x: real)
    requires NoRepeats(names) && "sum" in names && name in names && x >= 0.0 && (name == "sum" ==> x == 0.0)
    ensures Summed(names, OneSector(names, name, x), 1)
  {
    hide Total;
    var f := OneSector(names, name, x);
    OneSectorTotals(n => 0.0, names, names, name, x);
    assert f["sum"] == Total(names, f, 1);
  }

  lemma RefusedFactorStops(c: Config, names: seq<string>, fields: map<string, Vector>, cells: nat)
    requires Summed(names, fields, cells) && !FactorsAccepted(c, names)
    ensures !Accepted(c, names, fields, cells)
  {
    hide Times, Factor, Excluded, Listed, Corrected, Total;
    if c.species >= 0.0 {
      var i :| 0 <= i < |names| && (Refused(c, names[i]) || WriteRefused(c, names[i]));
      if Refused(c, names[i]) {
        assert SumOut(c, names, fields, cells) == Err(NegativeFactor);
        assert FieldOut(c, names, fields, cells, "sum").Err?;
      } else {
        assert WriteRefused(c, names[i]) && names[i] in names;
        assert SectorOut(c, names[i], fields[names[i]]).Err?;
        assert FieldOut(c, names, fields, cells, names[i]).Err?;
      }
    } else {
      assert FieldOut(c, names, fields, cells, "sum").Err?;
    }
  }

  /** A sector with a negative net factor makes the sum negative when it is large and alone. */
  lemma NegativeNetStops(c: Config, names: seq<string>, name: string)
    requires NoRepeats(names) && "sum" in names && name in names && name != "sum" && Net(c, name) < 0.0
    ensures
      var fields := OneSector(names, name, 1.0 / -Net(c, name));
      Summed(names, fields, 1) && !Accepted(c, names, fields, 1)
  {
    hide Times, Corrected, Total, Weighted, Net, Refused;
    var m := -Net(c, name);
    Quotient(1.0, m, 0.0);
    var x := 1.0 / m;
    var fields := OneSector(names, name, x);
    OneSectorIsSummed(names, name, x);
    OneSectorTotals(n => Net(c, n), names, names, name, x);
    CorrectedIsNet(c, names, fields, 1, 0);
    TimesCommutes(x, m);
    TimesNegates(m, x);
    assert Corrected(c, fields["sum"], names, fields)[0] == -1.0;
    assert FieldOut(c, names, fields, 1, "sum").Err?;
  }

  /** A sector whose net factor is not the one it is written with shows in the sum when it is alone. */
  lemma UnbalancedSectorShows(c: Config, names: seq<string>, name: string)
    requires NoRepeats(names) && "sum" in names && name in names && name != "sum"
    requires FactorsAccepted(c, names) && NeverNegative(c, names) && c.species > 0.0 && Net(c, name) != Applied(c, name)
    ensures
      var fields := OneSector(names, name, 1.0);
      Summed(names, fields, 1) && !Consistent(c, names, fields, 1)
  {
    hide Times, Total, Weighted, FactorsAccepted, NeverNegative, Net, Applied, FieldOut;
    var fields := OneSector(names, name, 1.0);
    OneSectorIsSummed(names, name, 1.0);
    OneSectorTotals(n => Net(c, n), names, names, name, 1.0);
    OneSectorTotals(n => Applied(c, n), names, names, name, 1.0);
    WrittenAt(c, names, fields, 1, 0);
    TimesUnits(Net(c, name));
    TimesUnits(Applied(c, name));
    if Times(c.species, Net(c, name)) == Times(c.species, Applied(c, name)) {
      SameFactor(c.species, Net(c, name), Applied(c, name));
      assert false;
    }
  }

  lemma SameFactor(s: real, x: real, y: real)
    requires s > 0.0 && Times(s, x) == Times(s, y)
    ensures x == y
  {
    hide Times;
    TimesDistributes(s, x, y);
    if x > y {
      TimesPositive(s, x - y);
    } else if y > x {
      TimesPositive(s, y - x);
      TimesDistributes(s, y, x);
    }
  }

  ghost predicate AlwaysConsistent(c: Config, names: seq<string>) {
    forall fields: map<string, Vector>, cells: nat :: Summed(names, fields, cells) ==>
      Consistent(c, names, fields, cells)
  }

  /** Every consistent source gives a consistent product exactly when no factor is refused and the
      sum carries every sector with the factor it is written with. */
  lemma ConsistentIffBalanced(c: Config, names: seq<string>)
    requires NoRepeats(names) && "sum" in names
    ensures AlwaysConsistent(c, names) <==> FactorsAccepted(c, names) && Balanced(c, names)
  {
    hide Times, Total, Accepted, Outputs, Refused, WriteRefused, Net, Applied;
    if !FactorsAccepted(c, names) {
      var fields := OneSector(names, "sum", 0.0);
      OneSectorIsSummed(names, "sum", 0.0);
      RefusedFactorStops(c, names, fields, 1);
    } else if !NeverNegative(c, names) {
      var i :| 0 <= i < |names| && names[i] != "sum" && Net(c, names[i]) < 0.0;
      NegativeNetStops(c, names, names[i]);
      assert !Balanced(c, names) by {
        if Balanced(c, names) {
          BalancedIsNeverNegative(c, names);
        }
      }
    } else if !Balanced(c, names) {
      var i :| 0 <= i < |names| && names[i] != "sum" && Net(c, names[i]) != Applied(c, names[i]);
      UnbalancedSectorShows(c, names, names[i]);
      assert Summed(names, OneSector(names, names[i], 1.0), 1);
    } else {
      forall fields: map<string, Vector>, cells: nat | Summed(names, fields, cells)
        ensures Consistent(c, names, fields, cells)
      {
        SumStaysConsistent(c, names, fields, cells);
      }
    }
  }

  // ---- The condition as the configuration shows it ----

  /** Every sector that is scaled at all is spelled in the configuration as in the file. */
  predicate SpelledAsInFile(c: Config, names: seq<string>) {
    forall i :: 0 <= i < |names| && names[i] != "sum" && !Excluded(c, names[i]) && !Listed(c, names[i]) ==>
      Factor(c, names[i]) == 1.0
  }

  /** Neither an exclusion nor a factor under the key "sum" changes the sum. */
  predicate SumUntouched(c: Config) {
    !Excluded(c, "sum") && (Listed(c, "sum") ==> Factor(c, "sum") == 1.0)
  }

  /** The change made to the sum itself is the one made to every sector, each under another spelling. */
  predicate ScaledWithTheSum(c: Config, names: seq<string>) {
    forall i :: 0 <= i < |names| && names[i] != "sum" ==>
      !Excluded(c, names[i]) && !Listed(c, names[i]) && Factor(c, names[i]) == Carried(c, "sum")
  }

  /** For a positive species factor: the sum is left alone and keys are spelled as in the file, or
      all sectors follow the sum. */
  lemma ConsistentIffSpelledAsInFile(c: Config, names: seq<string>)
    requires NoRepeats(names) && "sum" in names && c.species > 0.0
    ensures AlwaysConsistent(c, names) <==>
            && FactorsAccepted(c, names)
            && ((SumUntouched(c) && SpelledAsInFile(c, names)) || ScaledWithTheSum(c, names))
  {
    hide Factor, Excluded, Listed, FactorsAccepted, AlwaysConsistent;
    ConsistentIffBalanced(c, names);
  }

  lemma LookupOfOne(key: string, x: real, name: string)
    ensures Lookup([], name) == 1.0
    ensures Lookup([(key, x)], name) == if Norm(key) == Norm(name) then x else 1.0
  {
    hide Norm;
  }

  lemma SpellingsDiffer()
    ensures Norm("sum") != Norm("ene")
  {
    assert Norm("sum")[0] == 's' && Norm("ene")[0] == 'e';
  }

  /** One sector beside the sum, carried with another factor than its own, is enough to disagree. */
  lemma SingleSectorShows(c: Config)
    requires c.species == 1.0 && FactorsAccepted(c, ["ene", "sum"])
    requires Net(c, "ene") != Applied(c, "ene") && (Net(c, "ene") >= 0.0 || Net(c, "ene") == -1.0)
    ensures
      var names := ["ene", "sum"];
      var fields := map["ene" := [1.0], "sum" := [1.0]];
      && Summed(names, fields, 1)
      && !Consistent(c, names, fields, 1)
      && (Net(c, "ene") < 0.0 ==> !Accepted(c, names, fields, 1))
  {
    hide Times, Total, Outputs, Accepted, Factor, Net, Summed, OneSector, FactorsAccepted;
    var names := ["ene", "sum"];
    OneEnergySector();
    if Net(c, "ene") < 0.0 {
      assert 1.0 / -Net(c, "ene") == 1.0;
      NegativeNetStops(c, names, "ene");
    } else {
      UnbalancedSectorShows(c, names, "ene");
    }
  }

  lemma OneEnergySector()
    ensures OneSector(["ene", "sum"], "ene", 1.0) == map["ene" := [1.0], "sum" := [1.0]]
  {
  }

  /** A factor or an exclusion under the key "sum" changes the sum and no sector, or stops the run. */
  lemma SumAsKeyBreaksTheSum()
    ensures
      var names := ["ene", "sum"];
      var fields := map["ene" := [1.0], "sum" := [1.0]];
      var halved := Config([], [("sum", 0.5)], 1.0);
      var removed := Config(["sum"], [], 1.0);
      var bothRemoved := Config(["sum", "ene"], [], 1.0);
      && Summed(names, fields, 1)
      && SpelledAsInFile(halved, names) && !Consistent(halved, names, fields, 1)
      && SpelledAsInFile(removed, names) && !Consistent(removed, names, fields, 1)
      && !Accepted(bothRemoved, names, fields, 1)
  {
    hide Norm, Lookup, Summed, Consistent, Accepted;
    SpellingsDiffer();
    LookupOfOne("sum", 0.5, "ene");
    LookupOfOne("sum", 0.5, "sum");
    var halved := Config([], [("sum", 0.5)], 1.0);
    assert halved.sectors[0].0 == "sum";
    SingleSectorShows(halved);
    SingleSectorShows(Config(["sum"], [], 1.0));
    SingleSectorShows(Config(["sum", "ene"], [], 1.0));
  }

  // ---- What factors and spellings do ----

  /** With nothing configured every sector is written as it is, and so is a sum that is not negative. */
  lemma NothingConfiguredNothingChanged(names: seq<string>, fields: map<string, Vector>, cells: nat, n: string)
    requires Fields(names, fields, cells) && n in names && (n == "sum" ==> NonNegative(fields[n]))
    ensures FieldOut(Config([], [], 1.0), names, fields, cells, n) == Ok(fields[n])
  {
    hide Times, Corrected;
    var c := Config([], [], 1.0);
    var x := fields[n];
    forall k | 0 <= k < cells ensures Times(1.0, x[k]) == x[k] { TimesUnits(x[k]); }
    TimesUnits(1.0);
    assert forall m: string :: Factor(c, m) == 1.0;
    if n == "sum" {
      NothingCorrected(x, names, fields);
      assert Clamped(x) == x && Scale(1.0, x) == x;
    } else {
      assert Scale(Times(1.0, 1.0), x) == x;
    }
  }

  lemma {:induction false} NothingCorrected(sum: Vector, names: seq<string>, fields: map<string, Vector>)
    requires Fields(names, fields, |sum|)
    ensures Corrected(Config([], [], 1.0), sum, names, fields) == sum
  {
    hide Times;
    if names != [] {
      NothingCorrected(sum, names[..|names| - 1], fields);
    }
  }

  /** The factor of the species scales every field that is written. */
  lemma SpeciesScalesEveryField(c: Config, names: seq<string>, fields: map<string, Vector>, cells: nat, n: string)
    requires Fields(names, fields, cells) && n in names && c.species >= 0.0
    requires FieldOut(c.(species := 1.0), names, fields, cells, n).Ok?
    ensures FieldOut(c, names, fields, cells, n) ==
            Ok(Scale(c.species, FieldOut(c.(species := 1.0), names, fields, cells, n).value))
  {
    hide Times, Listed, Lookup, Refused;
    var one := c.(species := 1.0);
    assert forall m: string :: Factor(one, m) == Factor(c, m);
    if n == "sum" {
      SameCorrection(c, fields["sum"], names, fields);
      var v := Clamped(Corrected(c, fields["sum"], names, fields));
      forall k | 0 <= k < cells ensures Times(1.0, v[k]) == v[k] { TimesUnits(v[k]); }
      assert Scale(1.0, v) == v;
      SameRefusals(c, names);
    } else if !Excluded(c, n) {
      var f, x := Factor(c, n), fields[n];
      TimesUnits(f);
      assert Factor(one, n) == f && f >= 0.0;
      TimesMonotone(c.species, 0.0, f);
      TimesUnits(c.species);
      forall k | 0 <= k < cells
        ensures Times(Times(c.species, f), x[k]) == Times(c.species, Times(Times(1.0, f), x[k]))
      {
        TimesThree(c.species, f, x[k]);
      }
      assert Scale(Times(c.species, f), x) == Scale(c.species, Scale(Times(1.0, f), x));
    } else {
      TimesUnits(c.species);
      var zeros := Constant(cells, 0.0);
      assert Scale(c.species, zeros) == zeros;
      assert FieldOut(c, names, fields, cells, n) == Ok(zeros);
    }
  }

  lemma SameRefusals(c: Config, names: seq<string>)
    ensures forall n: string :: Refused(c.(species := 1.0), n) == Refused(c, n)
  {
  }

  lemma {:induction false} SameCorrection(c: Config, sum: Vector, names: seq<string>, fields: map<string, Vector>)
    requires Fields(names, fields, |sum|)
    ensures Corrected(c.(species := 1.0), sum, names, fields) == Corrected(c, sum, names, fields)
  {
    hide Times;
    if names != [] {
      SameCorrection(c, sum, names[..|names| - 1], fields);
    }
  }

  /** Among keys that read the same the last one counts; a name that no key reads as has factor one. */
  lemma LastReadingCounts(entries: seq<(string, real)>, name: string, k: int)
    requires -1 <= k < |entries| && forall i :: k < i < |entries| ==> Norm(entries[i].0) != Norm(name)
    requires k >= 0 ==> Norm(entries[k].0) == Norm(name)
    ensures Lookup(entries, name) == if k >= 0 then entries[k].1 else 1.0
  {
    hide Norm;
    if k < |entries| - 1 {
      LastReadingCounts(entries[..|entries| - 1], name, k);
    }
  }

  /** Names are read without regard to case, to blanks around them, and to which of two dashes is used. */
  lemma ReadingsThatAgree()
    ensures Norm(" AWB_Z\t") == Norm("awb-z") == "awb-z"
  {
    assert Stripped(" AWB_Z\t") == Stripped("AWB_Z\t") == Stripped("AWB_Z") == "AWB_Z";
  }

  // ---- After remapping ----

  function Remapped(links: seq<Link>, n: nat, names: seq<string>, fields: map<string, Vector>,
                    cells: nat): (out: map<string, Vector>)
    requires InRange(links, n, cells)
    requires forall i :: 0 <= i < |names| ==> names[i] in fields && |fields[names[i]]| == cells
    ensures forall i :: 0 <= i < |names| ==>
      names[i] in out && |out[names[i]]| == n && out[names[i]] == Product(links, n, fields[names[i]])
  {
    map s | s in names :: Product(links, n, fields[s])
  }

  lemma {:induction false} RemapTotal(links: seq<Link>, n: nat, names: seq<string>, fields: map<string, Vector>,
                                      image: map<string, Vector>, cells: nat)
    requires InRange(links, n, cells)
    requires forall i :: 0 <= i < |names| ==> names[i] in fields && |fields[names[i]]| == cells
    requires forall i :: 0 <= i < |names| ==>
      names[i] in image && |image[names[i]]| == n && image[names[i]] == Product(links, n, fields[names[i]])
    ensures Product(links, n, Total(names, fields, cells)) == Total(names, image, n)
  {
    hide Product, Times;
    if names == [] {
      var zeros := Constant(cells, 0.0);
      ProductScales(links, n, 0.0, zeros);
      ZeroImage(Product(links, n, zeros));
      ScaledZero(cells, 0.0);
    } else {
      var m := |names| - 1;
      RemapTotal(links, n, names[..m], fields, image, cells);
      if names[m] != "sum" {
        ProductAdds(links, n, Total(names[..m], fields, cells), fields[names[m]]);
      }
    }
  }

  lemma ZeroImage(v: Vector)
    ensures Scale(0.0, v) == Constant(|v|, 0.0)
  {
  }

  /** The sum stays the total of the sectors on the mesh. */
  lemma SumStaysConsistentOnTheMesh(c: Config, names: seq<string>, fields: map<string, Vector>, cells: nat,
                                    links: seq<Link>, n: nat)
    requires Summed(names, fields, cells) && FactorsAccepted(c, names) && Balanced(c, names)
    requires InRange(links, n, cells)
    ensures Accepted(c, names, fields, cells)
    ensures
      var image := Remapped(links, n, names, Outputs(c, names, fields, cells), cells);
      image["sum"] == Total(names, image, n)
  {
    hide Product, Total, FieldOut, Balanced, FactorsAccepted;
    SumStaysConsistent(c, names, fields, cells);
    var out := Outputs(c, names, fields, cells);
    var image := Remapped(links, n, names, out, cells);
    RemapTotal(links, n, names, out, image, cells);
    var i :| 0 <= i < |names| && names[i] == "sum";
    assert image[names[i]] == Product(links, n, out["sum"]);
  }
}
