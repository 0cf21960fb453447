/** Filling missing days of daily fire emissions, and finding each day's fire properties. */
module FireDays {
  import opened Outcome
  import opened Reals
  import opened Vectors

  /** One day's fields by name. */
  type Fields = map<string, Vector>

  /** Days are numbered; a stored day without fields is listed but cannot be loaded. */
  datatype Config = Config(
    primary: map<int, Fields>,
    fallback: map<int, Fields>,
    forced: seq<(int, int)>,
    maxLinear: int,
    factor: map<string, real>,
    fields: seq<string>)

  datatype Status = Forced | Primary | Linear(before: int, after: int) | Fallback

  datatype Fault = NoForcedFallback(day: int) | Missing(day: int) | LacksField(day: int, field: string)

  predicate IsForced(c: Config, day: int) {
    exists i :: 0 <= i < |c.forced| && c.forced[i].0 <= day <= c.forced[i].1
  }

  /** A day is forced by any interval that holds it, its ends included. */
  lemma ForcedByAnyInterval(c: Config, day: int)
    ensures IsForced(c, day) <==> exists interval :: interval in c.forced && interval.0 <= day <= interval.1
  {
  }

  // ---- The primary days around a missing one ----

  /** The last of the sorted days that is earlier, and the first that is later. */
  function LastBefore(days: seq<int>, day: int): Option<int> {
    if days == [] then None
    else if days[|days| - 1] < day then Some(days[|days| - 1])
    else LastBefore(days[..|days| - 1], day)
  }

  function FirstAfter(days: seq<int>, day: int): Option<int> {
    if days == [] then None
    else if day < days[0] then Some(days[0])
    else FirstAfter(days[1..], day)
  }

  ghost predicate SortedDays(c: Config, days: seq<int>) {
    && (forall i, j :: 0 <= i < j < |days| ==> days[i] < days[j])
    && (forall d :: d in days ==> d in c.primary) && (forall d :: d in c.primary ==> d in days)
  }

  /** No primary day lies strictly between two primary days. */
  ghost predicate Consecutive(c: Config, b: int, e: int) {
    b < e && b in c.primary && e in c.primary && forall x :: b < x < e ==> x !in c.primary
  }

  lemma {:induction false} LastBeforeIs(days: seq<int>, day: int, b: int)
    requires forall i, j :: 0 <= i < j < |days| ==> days[i] < days[j]
    requires b in days && b < day && forall x :: b < x < day ==> x !in days
    ensures LastBefore(days, day) == Some(b)
  {
    var n := |days| - 1;
    if days[n] >= day {
      assert days == days[..n] + [days[n]];
      assert forall x :: x in days[..n] ==> x in days;
      LastBeforeIs(days[..n], day, b);
    } else {
      assert days[n] in days;
      var i :| 0 <= i < |days| && days[i] == b;
      assert i <= n;
    }
  }

  lemma {:induction false} FirstAfterIs(days: seq<int>, day: int, e: int)
    requires forall i, j :: 0 <= i < j < |days| ==> days[i] < days[j]
    requires e in days && day < e && forall x :: day < x < e ==> x !in days
    ensures FirstAfter(days, day) == Some(e)
  {
    if days[0] <= day {
      assert days == [days[0]] + days[1..];
      assert forall x :: x in days[1..] ==> x in days;
      FirstAfterIs(days[1..], day, e);
    } else {
      assert days[0] in days;
      var i :| 0 <= i < |days| && days[i] == e;
      assert 0 <= i;
    }
  }

  lemma {:induction false} BracketHolds(days: seq<int>, day: int)
    ensures LastBefore(days, day).Some? ==> LastBefore(days, day).value in days && LastBefore(days, day).value < day
    ensures FirstAfter(days, day).Some? ==> FirstAfter(days, day).value in days && day < FirstAfter(days, day).value
  {
    if days != [] {
      BracketHolds(days[..|days| - 1], day);
      BracketHolds(days[1..], day);
    }
  }

  // ---- One day ----

  /** Where a day's emissions come from. */
  function StatusOf(c: Config, days: seq<int>, day: int): Result<Status, Fault> {
    if IsForced(c, day) then
      if day in c.fallback then Ok(Forced) else Err(NoForcedFallback(day))
    else if day in c.primary then Ok(Primary)
    else
      var b, e := LastBefore(days, day), FirstAfter(days, day);
      if b.Some? && e.Some? && e.value - b.value - 1 <= c.maxLinear then Ok(Linear(b.value, e.value))
      else if day in c.fallback then Ok(Fallback)
      else Err(Missing(day))
  }

  function Scaled(c: Config, f: Fields): Fields {
    map n | n in f :: Scale(if n in c.factor then c.factor[n] else 1.0, f[n])
  }

  /** Weight of the later day. */
  function Weight(before: int, after: int, day: int): real
    requires before < after
  {
    (day - before) as real / (after - before) as real
  }

  function Mixed(w: real, a: Fields, b: Fields): Fields {
    map n | n in a && n in b && |a[n]| == |b[n]| :: Mix(w, a[n], b[n])
  }

  function FieldsOf(c: Config, s: Status, day: int): Fields
    requires s.Forced? || s.Fallback? ==> day in c.fallback
    requires s.Primary? ==> day in c.primary
    requires s.Linear? ==> s.before in c.primary && s.after in c.primary && s.before < s.after
  {
    match s
    case Forced => Scaled(c, c.fallback[day])
    case Fallback => Scaled(c, c.fallback[day])
    case Primary => c.primary[day]
    case Linear(b, e) => Mixed(Weight(b, e, day), c.primary[b], c.primary[e])
  }

  lemma StatusIsUsable(c: Config, days: seq<int>, day: int)
    requires SortedDays(c, days)
    ensures
      var r := StatusOf(c, days, day);
      r.Ok? ==>
        && (r.value.Forced? || r.value.Fallback? ==> day in c.fallback)
        && (r.value.Primary? ==> day in c.primary)
        && (r.value.Linear? ==>
          r.value.before in c.primary && r.value.after in c.primary && r.value.before < day < r.value.after)
  {
    BracketHolds(days, day);
  }

  lemma {:induction false} NearestDays(days: seq<int>, day: int)
    requires forall i, j :: 0 <= i < j < |days| ==> days[i] < days[j]
    ensures forall x :: x in days && x < day ==> LastBefore(days, day).Some? && x <= LastBefore(days, day).value
    ensures forall x :: x in days && day < x ==> FirstAfter(days, day).Some? && FirstAfter(days, day).value <= x
  {
    if days != [] {
      var n := |days| - 1;
      NearestDays(days[..n], day);
      NearestDays(days[1..], day);
      assert days == days[..n] + [days[n]] && days == [days[0]] + days[1..];
    }
  }

  // ---- The daily value of a field, told by the files alone ----

  /** Every entry of v is k times that of x. */
  ghost predicate IsMultiple(k: real, x: Vector, v: Vector) {
    |v| == |x| && forall j :: 0 <= j < |v| ==> v[j] == Times(k, x[j])
  }

  ghost predicate FallbackValue(c: Config, day: int, name: string, v: Vector) {
    && day in c.fallback && name in c.fallback[day]
    && IsMultiple(if name in c.factor then c.factor[name] else 1.0, c.fallback[day][name], v)
  }

  /** A short gap of missing primary days around the day. */
  ghost predicate ShortGap(c: Config, day: int, b: int, e: int) {
    Consecutive(c, b, e) && b < day < e && e - b - 1 <= c.maxLinear
  }

  /** v is on the straight line from the value of day b to that of day e. */
  ghost predicate OnTheLine(b: int, e: int, day: int, x: Vector, y: Vector, v: Vector) {
    && |x| == |y| == |v|
    && forall j :: 0 <= j < |v| ==>
         Times((e - b) as real, v[j]) == Times((e - day) as real, x[j]) + Times((day - b) as real, y[j])
  }

  ghost predicate GapValue(c: Config, b: int, e: int, day: int, name: string, v: Vector)
    requires b in c.primary && e in c.primary
  {
    name in c.primary[b] && name in c.primary[e] && OnTheLine(b, e, day, c.primary[b][name], c.primary[e][name], v)
  }

  /** A forced day has the scaled fallback; a primary day its own fields as they are; a day in a short gap
      the line between the days around it; and any other the scaled fallback. */
  ghost predicate DailyValue(c: Config, day: int, name: string, v: Vector) {
    if IsForced(c, day) then FallbackValue(c, day, name, v)
    else if day in c.primary then name in c.primary[day] && v == c.primary[day][name]
    else if InShortGap(c, day) then exists b, e :: ShortGap(c, day, b, e) && GapValue(c, b, e, day, name, v)
    else FallbackValue(c, day, name, v)
  }

  ghost predicate InShortGap(c: Config, day: int) { exists b, e :: ShortGap(c, day, b, e) }

  ghost predicate HasSource(c: Config, day: int) {
    if IsForced(c, day) then day in c.fallback else day in c.primary || InShortGap(c, day) || day in c.fallback
  }

  lemma OneGap(c: Config, day: int, b: int, e: int, x: int, y: int)
    requires ShortGap(c, day, b, e) && ShortGap(c, day, x, y)
    ensures b == x && e == y
  {
    assert b in c.primary && x in c.primary && e in c.primary && y in c.primary;
  }

  /** The interpolation found by searching the sorted days is the one of the short gap. */
  lemma StatusFindsGap(c: Config, days: seq<int>, day: int)
    requires SortedDays(c, days) && !IsForced(c, day) && day !in c.primary
    ensures InShortGap(c, day) <==> StatusOf(c, days, day).Ok? && StatusOf(c, days, day).value.Linear?
    ensures InShortGap(c, day) ==>
      var s := StatusOf(c, days, day).value; ShortGap(c, day, s.before, s.after)
  {
    BracketHolds(days, day);
    NearestDays(days, day);
    if b, e :| ShortGap(c, day, b, e) {
      LastBeforeIs(days, day, b);
      FirstAfterIs(days, day, e);
    }
    var b, e := LastBefore(days, day), FirstAfter(days, day);
    if b.Some? && e.Some? && e.value - b.value - 1 <= c.maxLinear {
      assert ShortGap(c, day, b.value, e.value);
    }
  }

  lemma LineByWeight(b: int, e: int, day: int, x: real, y: real, v: real)
    requires b < e
    ensures v == Blend(Weight(b, e, day), x, y) <==>
            Times((e - b) as real, v) == Times((e - day) as real, x) + Times((day - b) as real, y)
  {
    hide Times;
    var w, gap, m := Weight(b, e, day), (e - b) as real, Blend(Weight(b, e, day), x, y);
    Quotient((day - b) as real, gap, 0.0);
    TimesThrice(gap, w, y);
    TimesThrice(gap, 1.0 - w, x);
    TimesDistributes(gap, 1.0, w);
    TimesUnits(gap);
    TimesCommutes(w, gap);
    TimesDistributes(gap, Times(1.0 - w, x), Times(w, y));
    assert Times(gap, m) == Times((e - day) as real, x) + Times((day - b) as real, y);
    TimesDistributes(gap, v, m);
    if Times(gap, v) == Times(gap, m) {
      if v > m { TimesPositive(gap, v - m); }
      if v < m { TimesDistributes(gap, m, v); TimesPositive(gap, m - v); }
    }
  }

  lemma TimesThrice(a: real, b: real, x: real)
    ensures Times(a, Times(b, x)) == Times(Times(a, b), x)
  {
  }

  lemma MixIsTheLine(b: int, e: int, day: int, x: Vector, y: Vector, v: Vector)
    requires b < e && |x| == |y|
    ensures v == Mix(Weight(b, e, day), x, y) <==> OnTheLine(b, e, day, x, y, v)
  {
    hide Times, Weight;
    var m := Mix(Weight(b, e, day), x, y);
    if |v| == |x| {
      forall j | 0 <= j < |v|
        ensures m[j] == Blend(Weight(b, e, day), x[j], y[j])
        ensures v[j] == m[j] <==>
                Times((e - b) as real, v[j]) == Times((e - day) as real, x[j]) + Times((day - b) as real, y[j])
      {
        LineByWeight(b, e, day, x[j], y[j], v[j]);
      }
      if OnTheLine(b, e, day, x, y, v) {
        assert v == m;
      }
    }
  }

  lemma ScaledIsMultiple(c: Config, day: int, name: string, v: Vector)
    requires day in c.fallback
    ensures FallbackValue(c, day, name, v) <==>
            name in Scaled(c, c.fallback[day]) && v == Scaled(c, c.fallback[day])[name]
  {
    hide Times;
    if name in c.fallback[day] && FallbackValue(c, day, name, v) {
      assert v == Scaled(c, c.fallback[day])[name];
    }
  }

  /** The fields a day resolves to are its daily values, all of them and nothing else. */
  lemma FieldsAreDailyValues(c: Config, days: seq<int>, day: int, name: string, v: Vector)
    requires SortedDays(c, days) && StatusOf(c, days, day).Ok?
    ensures (StatusIsUsable(c, days, day);
      var f := FieldsOf(c, StatusOf(c, days, day).value, day);
      DailyValue(c, day, name, v) <==> name in f && f[name] == v)
  {
    hide Scaled, Weight, Mix, OnTheLine, ShortGap, LastBefore, FirstAfter;
    StatusIsUsable(c, days, day);
    var s := StatusOf(c, days, day).value;
    if !IsForced(c, day) && day !in c.primary {
      StatusFindsGap(c, days, day);
      if s.Linear? {
        forall b, e | ShortGap(c, day, b, e) ensures b == s.before && e == s.after {
          OneGap(c, day, b, e, s.before, s.after);
        }
        GapFields(c, s.before, s.after, day, name, v);
      } else {
        ScaledIsMultiple(c, day, name, v);
      }
    } else if s.Forced? {
      ScaledIsMultiple(c, day, name, v);
    }
  }

  lemma GapFields(c: Config, b: int, e: int, day: int, name: string, v: Vector)
    requires b < e && b in c.primary && e in c.primary
    ensures GapValue(c, b, e, day, name, v) <==>
      var f := Mixed(Weight(b, e, day), c.primary[b], c.primary[e]); name in f && f[name] == v
  {
    hide Weight, Mix, OnTheLine;
    if name in c.primary[b] && name in c.primary[e] {
      var x, y := c.primary[b][name], c.primary[e][name];
      if |x| == |y| {
        MixIsTheLine(b, e, day, x, y, v);
      } else {
        UnequalHaveNoLine(b, e, day, x, y, v);
      }
    }
  }

  lemma UnequalHaveNoLine(b: int, e: int, day: int, x: Vector, y: Vector, v: Vector)
    requires |x| != |y|
    ensures !OnTheLine(b, e, day, x, y, v)
  {
  }

  lemma ResolvesIffSource(c: Config, days: seq<int>, day: int)
    requires SortedDays(c, days)
    ensures StatusOf(c, days, day).Ok? <==> HasSource(c, day)
  {
    if !IsForced(c, day) && day !in c.primary {
      StatusFindsGap(c, days, day);
    }
  }

  /** A field that changes linearly from day to day has its own value on a day that is filled in. */
  lemma LineIsReproduced(c: Config, day: int, b: int, e: int, name: string, x: Vector, y: Vector, v: Vector)
    requires !IsForced(c, day) && day !in c.primary && ShortGap(c, day, b, e) && |x| == |y|
    requires name in c.primary[b] && c.primary[b][name] == Add(x, Scale(b as real, y))
    requires name in c.primary[e] && c.primary[e][name] == Add(x, Scale(e as real, y))
    ensures DailyValue(c, day, name, v) <==> v == Add(x, Scale(day as real, y))
  {
    hide Times, Mix, Weight, OnTheLine, Add, Scale;
    forall p, q | ShortGap(c, day, p, q) ensures p == b && q == e { OneGap(c, day, p, q, b, e); }
    WeightBlends(b, e, day);
    MixOfLinear(Weight(b, e, day), x, y, b as real, e as real);
    MixIsTheLine(b, e, day, c.primary[b][name], c.primary[e][name], v);
  }

  // ---- Gaps ----

  /** A gap of missing primary days is interpolated on all its unforced days or on none: by its
      length alone, from the same two days, with weights k / (gap + 1). */
  lemma GapIsFilledAsOne(c: Config, days: seq<int>, b: int, e: int, day: int)
    requires SortedDays(c, days) && Consecutive(c, b, e) && b < day < e && !IsForced(c, day)
    ensures
      var gap := e - b - 1;
      && (gap <= c.maxLinear ==> StatusOf(c, days, day) == Ok(Linear(b, e)))
      && (gap > c.maxLinear ==> StatusOf(c, days, day) == if day in c.fallback then Ok(Fallback) else Err(Missing(day)))
      && Weight(b, e, day) == (day - b) as real / (gap + 1) as real
  {
    LastBeforeIs(days, day, b);
    FirstAfterIs(days, day, e);
  }

  lemma WeightBlends(b: int, e: int, day: int)
    requires b < e
    ensures Blend(Weight(b, e, day), b as real, e as real) == day as real
  {
    hide Times;
    var w, gap := Weight(b, e, day), (e - b) as real;
    Quotient((day - b) as real, gap, 0.0);
    BlendByGap(w, b as real, e as real);
  }

  /** Emissions that change linearly from day to day are filled in exactly. */
  lemma FilledDayIsLinear(b: int, e: int, day: int, x: Vector, y: Vector, name: string)
    requires b < e && |x| == |y|
    ensures
      var before, after := map[name := Add(x, Scale(b as real, y))], map[name := Add(x, Scale(e as real, y))];
      Mixed(Weight(b, e, day), before, after) == map[name := Add(x, Scale(day as real, y))]
  {
    hide Times, Mix, Weight;
    WeightBlends(b, e, day);
    MixOfLinear(Weight(b, e, day), x, y, b as real, e as real);
  }

  /** A day before the first or after the last primary day is never interpolated. */
  lemma OpenGapIsNeverInterpolated(c: Config, days: seq<int>, day: int)
    requires SortedDays(c, days) && !IsForced(c, day) && day !in c.primary
    requires (forall d :: d in c.primary ==> day < d) || (forall d :: d in c.primary ==> d < day)
    ensures StatusOf(c, days, day) == if day in c.fallback then Ok(Fallback) else Err(Missing(day))
  {
    BracketHolds(days, day);
  }

  /** A day forced to the fallback is not used itself, but the primary file of that day still
      serves as an end of its neighbours' interpolation. */
  lemma ForcedDayStillBrackets(c: Config, days: seq<int>, day: int)
    requires SortedDays(c, days) && Consecutive(c, day, day + 2) && c.maxLinear >= 1
    requires IsForced(c, day) && day in c.fallback && !IsForced(c, day + 1)
    ensures StatusOf(c, days, day) == Ok(Forced)
    ensures StatusOf(c, days, day + 1) == Ok(Linear(day, day + 2))
  {
    GapIsFilledAsOne(c, days, day, day + 2, day + 1);
  }

  // ---- Fire properties ----

  /** Sources of a day's fire properties; a listed file may turn out not to load. */
  datatype PrmConfig = PrmConfig(
    dedicated: map<int, Option<Fields>>,
    primaryArea: map<int, Option<Fields>>,
    fallbackArea: map<int, Option<Fields>>,
    forced: seq<(int, int)>,
    maxLinear: int)

  datatype PrmSource = DedicatedFile | PrimaryFile | FallbackFile

  datatype PrmStatus =
    | PrmForced
    | PrmActual(source: PrmSource)
    | PrmLinear(before: int, after: int)
    | PrmFallback

  datatype PrmDay = PrmDay(fields: Fields, status: PrmStatus)

  datatype PrmFault = Unloadable(day: int) | NoFireSize(day: int)

  predicate PrmIsForced(c: PrmConfig, day: int) {
    exists i :: 0 <= i < |c.forced| && c.forced[i].0 <= day <= c.forced[i].1
  }

  lemma PrmForcedByAnyInterval(c: PrmConfig, day: int)
    ensures PrmIsForced(c, day) <==> exists interval :: interval in c.forced && interval.0 <= day <= interval.1
  {
  }

  /** The best actual source of a day, if it loads; a dedicated file that fails is not replaced. */
  function Best(c: PrmConfig, day: int): Option<PrmDay> {
    if day in c.dedicated then Loaded(c.dedicated[day], PrmActual(DedicatedFile))
    else if day in c.primaryArea then Loaded(c.primaryArea[day], PrmActual(PrimaryFile))
    else if day in c.fallbackArea then Loaded(c.fallbackArea[day], PrmActual(FallbackFile))
    else None
  }

  function Loaded(file: Option<Fields>, status: PrmStatus): Option<PrmDay> {
    if file.Some? then Some(PrmDay(file.value, status)) else None
  }

  // ---- The fire properties of a day, told by the files alone ----

  /** The file of the given kind is the one that counts for the day, and holds f. */
  ghost predicate Counts(c: PrmConfig, day: int, source: PrmSource, f: Fields) {
    match source
    case DedicatedFile => day in c.dedicated && c.dedicated[day] == Some(f)
    case PrimaryFile => day !in c.dedicated && day in c.primaryArea && c.primaryArea[day] == Some(f)
    case FallbackFile =>
      day !in c.dedicated && day !in c.primaryArea && day in c.fallbackArea && c.fallbackArea[day] == Some(f)
  }

  ghost predicate HasActual(c: PrmConfig, day: int) { exists source, f :: Counts(c, day, source, f) }

  /** The day's own file, dedicated or primary, holds f, so that the day may be an end of an interpolation. */
  ghost predicate EndsWith(c: PrmConfig, day: int, f: Fields) {
    Counts(c, day, DedicatedFile, f) || Counts(c, day, PrimaryFile, f)
  }

  /** Days that may serve as an end of an interpolation. */
  ghost predicate Offers(c: PrmConfig, day: int) { exists f :: EndsWith(c, day, f) }

  /** The nearest offering days on both sides, however far, if the gap they leave is short enough. */
  ghost predicate Admissible(c: PrmConfig, day: int, b: int, a: int) {
    && b < day < a && Offers(c, b) && Offers(c, a)
    && (forall x :: b < x < day ==> !Offers(c, x)) && (forall x :: day < x < a ==> !Offers(c, x))
    && a - b - 1 <= c.maxLinear
  }

  ghost predicate HasBracket(c: PrmConfig, day: int) { exists b, a :: Admissible(c, day, b, a) }

  /** Field by field, what both ends have is on the line between them, and there is nothing else. */
  ghost predicate FieldsOnTheLine(b: int, a: int, day: int, before: Fields, after: Fields, f: Fields) {
    forall name, v :: name in f && f[name] == v <==>
      name in before && name in after && OnTheLine(b, a, day, before[name], after[name], v)
  }

  /** A forced day has its fallback; else the day's best actual file counts; else the line between the
      nearest days that have one, if they are close enough; and last the fallback. */
  ghost predicate PrmAnswers(c: PrmConfig, day: int, d: PrmDay) {
    if PrmIsForced(c, day) && day in c.fallbackArea then
      d.status == PrmForced && c.fallbackArea[day] == Some(d.fields)
    else if HasActual(c, day) then d.status.PrmActual? && Counts(c, day, d.status.source, d.fields)
    else if HasBracket(c, day) then
      && d.status.PrmLinear? && Admissible(c, day, d.status.before, d.status.after)
      && exists before, after :: EndsWith(c, d.status.before, before) && EndsWith(c, d.status.after, after) &&
                                 FieldsOnTheLine(d.status.before, d.status.after, day, before, after, d.fields)
    else d.status == PrmFallback && day in c.fallbackArea && c.fallbackArea[day] == Some(d.fields)
  }

  ghost predicate PrmServed(c: PrmConfig, day: int) {
    if PrmIsForced(c, day) && day in c.fallbackArea then c.fallbackArea[day].Some?
    else HasActual(c, day) || HasBracket(c, day) || (day in c.fallbackArea && c.fallbackArea[day].Some?)
  }

  lemma BestIsWhatCounts(c: PrmConfig, day: int)
    ensures Best(c, day).Some? <==> HasActual(c, day)
    ensures Best(c, day).Some? ==>
      var d := Best(c, day).value; d.status.PrmActual? && Counts(c, day, d.status.source, d.fields)
    ensures forall source, f :: Counts(c, day, source, f) ==> Best(c, day) == Some(PrmDay(f, PrmActual(source)))
    ensures Offers(c, day) <==> (day in c.dedicated || day in c.primaryArea) && Best(c, day).Some?
    ensures Offers(c, day) ==> EndsWith(c, day, Best(c, day).value.fields)
  {
    if Best(c, day).Some? {
      var d := Best(c, day).value;
      assert Counts(c, day, d.status.source, d.fields);
    }
    if (day in c.dedicated || day in c.primaryArea) && Best(c, day).Some? {
      assert EndsWith(c, day, Best(c, day).value.fields);
    }
  }

  lemma MixedIsOnTheLine(b: int, a: int, day: int, before: Fields, after: Fields)
    requires b < a
    ensures FieldsOnTheLine(b, a, day, before, after, Mixed(Weight(b, a, day), before, after))
  {
    hide Weight, Mix, OnTheLine;
    var f := Mixed(Weight(b, a, day), before, after);
    forall name, v
      ensures name in f && f[name] == v <==>
              name in before && name in after && OnTheLine(b, a, day, before[name], after[name], v)
    {
      if name in before && name in after {
        if |before[name]| == |after[name]| {
          MixIsTheLine(b, a, day, before[name], after[name], v);
        } else {
          UnequalHaveNoLine(b, a, day, before[name], after[name], v);
        }
      }
    }
  }

  /** Walks outward one day at a time, at most `limit` days, in the direction of `step`. */
  method Search(c: PrmConfig, day: int, step: int, limit: nat) returns (r: Option<nat>)
    requires step == 1 || step == -1
    ensures r.Some? ==> 1 <= r.value <= limit && Offers(c, day + step * r.value)
    ensures forall n :: 1 <= n <= limit && (r.Some? ==> n < r.value) ==> !Offers(c, day + step * n)
  {
    hide Best, Offers;
    var n := 1;
    while n <= limit
      invariant 1 <= n <= limit + 1
      invariant forall k :: 1 <= k < n ==> !Offers(c, day + step * k)
    {
      var x := day + step * n;
      BestIsWhatCounts(c, x);
      if (x in c.dedicated || x in c.primaryArea) && Best(c, x).Some? {
        return Some(n);
      }
      n := n + 1;
    }
    return None;
  }

  /** Finds a bracket exactly when an unbounded search on both sides would find an admissible one, and
      mixes its two ends; forced and actual sources come first, the fallback last. */
  method ResolvePrmDay(c: PrmConfig, day: int) returns (r: Result<PrmDay, PrmFault>)
    ensures r.Ok? <==> PrmServed(c, day)
    ensures r.Ok? ==> PrmAnswers(c, day, r.value)
    ensures r.Err? ==> r.error == if day in c.fallbackArea then Unloadable(day) else NoFireSize(day)
  {
    hide Best, Offers, Weight, Mixed, FieldsOnTheLine;
    if PrmIsForced(c, day) && day in c.fallbackArea {
      var forced := Loaded(c.fallbackArea[day], PrmForced);
      return if forced.Some? then Ok(forced.value) else Err(Unloadable(day));
    }
    BestIsWhatCounts(c, day);
    var best := Best(c, day);
    if best.Some? {
      return Ok(best.value);
    }
    var limit := if c.maxLinear + 1 > 1 then c.maxLinear + 1 else 1;
    var back := Search(c, day, -1, limit);
    var ahead := Search(c, day, 1, limit);
    forall b, a | Admissible(c, day, b, a)
      ensures back == Some(day - b) && ahead == Some(a - day)
    {
      FoundBy(c, day, b, a, back, ahead, limit);
    }
    if back.Some? && ahead.Some? {
      var b, a := day - back.value, day + ahead.value;
      if a - b - 1 <= c.maxLinear {
        FoundIsAdmissible(c, day, back.value, ahead.value);
        BestIsWhatCounts(c, b);
        BestIsWhatCounts(c, a);
        var before, after := Best(c, b).value.fields, Best(c, a).value.fields;
        MixedIsOnTheLine(b, a, day, before, after);
        return Ok(PrmDay(Mixed(Weight(b, a, day), before, after), PrmLinear(b, a)));
      }
    }
    if day in c.fallbackArea {
      var fallback := Loaded(c.fallbackArea[day], PrmFallback);
      return if fallback.Some? then Ok(fallback.value) else Err(Unloadable(day));
    }
    return Err(NoFireSize(day));
  }

  lemma FoundIsAdmissible(c: PrmConfig, day: int, back: nat, ahead: nat)
    requires 1 <= back && 1 <= ahead && back + ahead - 1 <= c.maxLinear
    requires Offers(c, day + -1 * back) && Offers(c, day + 1 * ahead)
    requires forall n :: 1 <= n < back ==> !Offers(c, day + -1 * n)
    requires forall n :: 1 <= n < ahead ==> !Offers(c, day + 1 * n)
    ensures Admissible(c, day, day - back, day + ahead)
  {
    hide Offers;
    forall x | day - back < x < day
      ensures !Offers(c, x)
    {
      assert !Offers(c, day + -1 * (day - x));
    }
    forall x | day < x < day + ahead
      ensures !Offers(c, x)
    {
      assert !Offers(c, day + 1 * (x - day));
    }
  }

  lemma FoundBy(c: PrmConfig, day: int, b: int, a: int, back: Option<nat>, ahead: Option<nat>, limit: nat)
    requires Admissible(c, day, b, a) && limit == if c.maxLinear + 1 > 1 then c.maxLinear + 1 else 1
    requires back.Some? ==> 1 <= back.value <= limit && Offers(c, day + -1 * back.value)
    requires forall n :: 1 <= n <= limit && (back.Some? ==> n < back.value) ==> !Offers(c, day + -1 * n)
    requires ahead.Some? ==> 1 <= ahead.value <= limit && Offers(c, day + 1 * ahead.value)
    requires forall n :: 1 <= n <= limit && (ahead.Some? ==> n < ahead.value) ==> !Offers(c, day + 1 * n)
    ensures back == Some(day - b) && ahead == Some(a - day)
  {
    assert 1 <= day - b <= limit && 1 <= a - day <= limit;
    assert Offers(c, day + -1 * (day - b)) && Offers(c, day + 1 * (a - day));
  }
}
