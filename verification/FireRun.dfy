/** The day loop of a fire emissions run. */
module FireRun {
  import opened Outcome
  import opened Vectors
  import opened FireDays
  import E = FireEmissions

  /** One hourly record: hours since midnight of day 0, and the main fields in order. */
  datatype HourRecord = HourRecord(time: int, values: seq<Vector>)

  datatype RunFault = Day(fault: Fault) | Profile(error: E.ProfileError) | Prm(prmFault: PrmFault)

  /** A resolved day has every main field, each expandable to hours. */
  predicate Expandable(f: Fields, fields: seq<string>, offsets: seq<int>, profile: Vector) {
    forall i :: 0 <= i < |fields| ==> fields[i] in f && E.Hourly(f[fields[i]], offsets, profile).Ok?
  }

  /** The 24 hours of each main field of one day. */
  function HoursOf(f: Fields, fields: seq<string>, offsets: seq<int>, profile: Vector): (hs: seq<seq<Vector>>)
    requires Expandable(f, fields, offsets, profile)
    ensures |hs| == |fields| && forall i :: 0 <= i < |hs| ==> |hs[i]| == E.HOURS
  {
    seq(|fields|, i requires 0 <= i < |fields| => E.Hourly(f[fields[i]], offsets, profile).value)
  }

  function RecordsOf(day: int, hs: seq<seq<Vector>>, n: nat): (rs: seq<HourRecord>)
    requires n <= E.HOURS && forall i :: 0 <= i < |hs| ==> |hs[i]| == E.HOURS
    ensures |rs| == n
    ensures forall h :: 0 <= h < n ==>
      && rs[h].time == E.HOURS * day + h && |rs[h].values| == |hs|
      && forall i :: 0 <= i < |hs| ==> rs[h].values[i] == hs[i][h]
  {
    seq(n, h requires 0 <= h < n =>
      HourRecord(E.HOURS * day + h, seq(|hs|, i requires 0 <= i < |hs| => hs[i][h])))
  }

  /** Main fields of one resolved day, expanded; the fields are tried in order. */
  method Expand(f: Fields, day: int, fields: seq<string>, offsets: seq<int>, profile: Vector)
    returns (r: Result<seq<seq<Vector>>, RunFault>)
    ensures r.Ok? <==> Expandable(f, fields, offsets, profile)
    ensures r.Ok? ==> r.value == HoursOf(f, fields, offsets, profile)
    ensures r.Err? ==> !r.error.Prm?
  {
    if i :| 0 <= i < |fields| && fields[i] !in f {
      return Err(Day(LacksField(day, fields[i])));
    }
    var hs := [];
    var i := 0;
    while i < |fields|
      invariant 0 <= i <= |fields| && |hs| == i
      invariant forall k :: 0 <= k < i ==>
        E.Hourly(f[fields[k]], offsets, profile).Ok? && hs[k] == E.Hourly(f[fields[k]], offsets, profile).value
    {
      var h := E.Hourly(f[fields[i]], offsets, profile);
      if h.Err? {
        return Err(Profile(h.error));
      }
      hs := hs + [h.value];
      i := i + 1;
    }
    return Ok(hs);
  }

  /** The fields a day resolves to can be written. */
  ghost predicate DayServed(c: Config, days: seq<int>, day: int, offsets: seq<int>, profile: Vector)
    requires SortedDays(c, days)
  {
    var s := StatusOf(c, days, day);
    s.Ok? && (StatusIsUsable(c, days, day); Expandable(FieldsOf(c, s.value, day), c.fields, offsets, profile))
  }

  ghost predicate Wrote(c: Config, days: seq<int>, day: int, offsets: seq<int>, profile: Vector, rs: seq<HourRecord>)
    requires SortedDays(c, days)
  {
    && DayServed(c, days, day, offsets, profile)
    && (StatusIsUsable(c, days, day);
        rs == RecordsOf(day, HoursOf(FieldsOf(c, StatusOf(c, days, day).value, day), c.fields, offsets, profile),
          E.HOURS))
  }

  /** Hours of one day, appended one at a time. */
  method WriteDay(c: Config, days: seq<int>, day: int, offsets: seq<int>, profile: Vector)
    returns (r: Result<seq<HourRecord>, RunFault>)
    requires SortedDays(c, days)
    ensures r.Ok? <==> DayServed(c, days, day, offsets, profile)
    ensures r.Ok? ==> Wrote(c, days, day, offsets, profile, r.value)
    ensures r.Err? ==> !r.error.Prm?
  {
    hide E.Hourly, StatusOf, FieldsOf;
    StatusIsUsable(c, days, day);
    var s := StatusOf(c, days, day);
    if s.Err? {
      return Err(Day(s.error));
    }
    var hs := Expand(FieldsOf(c, s.value, day), day, c.fields, offsets, profile);
    if hs.Err? {
      return Err(hs.error);
    }
    var out := [];
    var hour := 0;
    while hour < E.HOURS
      invariant 0 <= hour <= E.HOURS
      invariant out == RecordsOf(day, hs.value, hour)
    {
      out := out + [HourRecord(E.HOURS * day +
        hour, seq(|hs.value|, i requires 0 <= i < |hs.value| => hs.value[i][hour]))];
      hour := hour + 1;
    }
    return Ok(out);
  }

  /** The k-th day's part of a list of hourly records. */
  function DayPart(out: seq<HourRecord>, k: nat): seq<HourRecord>
    requires E.HOURS * (k + 1) <= |out|
  {
    out[E.HOURS * k..E.HOURS * (k + 1)]
  }

  function Days(start: int, end: int): nat { if start <= end then end + 1 - start else 0 }

  /** Column i of a day's records holds the hours of the daily value v. */
  ghost predicate HoldsHoursOf(rs: seq<HourRecord>, i: nat, v: Vector, offsets: seq<int>, profile: Vector) {
    && E.Hourly(v, offsets, profile).Ok? && |rs| == E.HOURS
    && forall h :: 0 <= h < E.HOURS ==> i < |rs[h].values| && rs[h].values[i] == E.Hourly(v, offsets, profile).value[h]
  }

  ghost predicate FieldWritten(c: Config, day: int, i: nat, offsets: seq<int>, profile: Vector, rs: seq<HourRecord>)
    requires i < |c.fields|
  {
    exists v :: DailyValue(c, day, c.fields[i], v) && HoldsHoursOf(rs, i, v, offsets, profile)
  }

  /** What is written for a day: the hours of the daily value of every field. */
  ghost predicate DayWritten(c: Config, day: int, offsets: seq<int>, profile: Vector, rs: seq<HourRecord>) {
    |rs| == E.HOURS && forall i :: 0 <= i < |c.fields| ==> FieldWritten(c, day, i, offsets, profile, rs)
  }

  ghost predicate FieldIsDue(c: Config, day: int, name: string, offsets: seq<int>, profile: Vector) {
    exists v :: DailyValue(c, day, name, v) && E.Hourly(v, offsets, profile).Ok?
  }

  /** The day has a source, and every field a daily value that can be expanded. */
  ghost predicate DayIsDue(c: Config, day: int, offsets: seq<int>, profile: Vector) {
    && HasSource(c, day)
    && forall i :: 0 <= i < |c.fields| ==> FieldIsDue(c, day, c.fields[i], offsets, profile)
  }

  lemma ServedIffDue(c: Config, days: seq<int>, day: int, offsets: seq<int>, profile: Vector)
    requires SortedDays(c, days)
    ensures DayServed(c, days, day, offsets, profile) <==> DayIsDue(c, day, offsets, profile)
  {
    hide E.Hourly, StatusOf, FieldsOf, DailyValue, HasSource;
    ResolvesIffSource(c, days, day);
    if HasSource(c, day) {
      StatusIsUsable(c, days, day);
      var f := FieldsOf(c, StatusOf(c, days, day).value, day);
      forall i | 0 <= i < |c.fields|
        ensures FieldIsDue(c, day, c.fields[i], offsets, profile) <==>
                c.fields[i] in f && E.Hourly(f[c.fields[i]], offsets, profile).Ok?
      {
        var name := c.fields[i];
        forall v ensures DailyValue(c, day, name, v) <==> name in f && f[name] == v {
          FieldsAreDailyValues(c, days, day, name, v);
        }
        if name in f {
          assert DailyValue(c, day, name, f[name]);
        }
      }
    }
  }

  lemma WroteDailyValues(c: Config, days: seq<int>, day: int, offsets: seq<int>, profile: Vector, rs: seq<HourRecord>)
    requires SortedDays(c, days) && Wrote(c, days, day, offsets, profile, rs)
    ensures DayWritten(c, day, offsets, profile, rs)
  {
    hide E.Hourly, StatusOf, FieldsOf, DailyValue;
    StatusIsUsable(c, days, day);
    var f := FieldsOf(c, StatusOf(c, days, day).value, day);
    forall i | 0 <= i < |c.fields|
      ensures FieldWritten(c, day, i, offsets, profile, rs)
    {
      FieldsAreDailyValues(c, days, day, c.fields[i], f[c.fields[i]]);
      assert HoldsHoursOf(rs, i, f[c.fields[i]], offsets, profile);
    }
  }

  /** The day's emissions and its fire properties can both be written. */
  ghost predicate Complete(c: Config, prm: PrmConfig, day: int, offsets: seq<int>, profile: Vector) {
    DayIsDue(c, day, offsets, profile) && PrmServed(prm, day)
  }

  /** All days from start to end. The run succeeds exactly when every date is complete, and then writes
      exactly 24 consecutive hours of the daily values of its fields, and one fire-property record from the
      source preferred for it. Otherwise it stops at the first date that is not. */
  method Run(c: Config, prm: PrmConfig, days: seq<int>, start: int, end: int, offsets: seq<int>, profile: Vector)
    returns (r: Result<seq<HourRecord>, RunFault>, prmDays: seq<(int, PrmDay)>)
    requires SortedDays(c, days)
    ensures r.Ok? <==> forall day :: start <= day <= end ==> Complete(c, prm, day, offsets, profile)
    ensures r.Ok? ==>
      && |r.value| == E.HOURS * Days(start, end)
      && (forall i :: 0 <= i < |r.value| ==> r.value[i].time == E.HOURS * start + i)
      && (forall k: nat :: k < Days(start, end) ==> DayWritten(c, start + k, offsets, profile, DayPart(r.value, k)))
      && |prmDays| == Days(start, end)
    ensures forall k :: 0 <= k < |prmDays| ==> prmDays[k].0 == start + k && PrmAnswers(prm, start + k, prmDays[k].1)
    ensures r.Err? ==>
      var day := start + |prmDays|;
      && start <= day <= end && (forall d :: start <= d < day ==> Complete(c, prm, d, offsets, profile))
      && (r.error.Prm? <==> DayIsDue(c, day, offsets, profile))
      && (r.error.Prm? ==>
            && !PrmServed(prm, day)
            && r.error.prmFault == if day in prm.fallbackArea then Unloadable(day) else NoFireSize(day))
  {
    hide Wrote, DayServed, PrmAnswers, PrmServed, DayIsDue, DayWritten;
    var out: seq<HourRecord> := [];
    prmDays := [];
    var day := start;
    while day <= end
      invariant start <= day && (day <= end + 1 || day == start)
      invariant |out| == E.HOURS * (day - start)
      invariant forall d :: start <= d < day ==> Complete(c, prm, d, offsets, profile)
      invariant forall i :: 0 <= i < |out| ==> out[i].time == E.HOURS * start + i
      invariant forall k: nat :: k < day - start ==> DayWritten(c, start + k, offsets, profile, DayPart(out, k))
      invariant |prmDays| == day - start
      invariant forall k :: 0 <= k < |prmDays| ==>
        prmDays[k].0 == start + k && PrmAnswers(prm, start + k, prmDays[k].1)
    {
      ServedIffDue(c, days, day, offsets, profile);
      var hours := WriteDay(c, days, day, offsets, profile);
      if hours.Err? {
        assert !Complete(c, prm, day, offsets, profile);
        return Err(hours.error), prmDays;
      }
      WroteTimes(c, days, day, offsets, profile, hours.value);
      WroteDailyValues(c, days, day, offsets, profile, hours.value);
      MoreDays(out, hours.value, day - start);
      out := out + hours.value;
      var p := ResolvePrmDay(prm, day);
      if p.Err? {
        assert !Complete(c, prm, day, offsets, profile);
        return Err(Prm(p.error)), prmDays;
      }
      prmDays := prmDays + [(day, p.value)];
      day := day + 1;
    }
    return Ok(out), prmDays;
  }

  lemma WroteTimes(c: Config, days: seq<int>, day: int, offsets: seq<int>, profile: Vector, rs: seq<HourRecord>)
    requires SortedDays(c, days) && Wrote(c, days, day, offsets, profile, rs)
    ensures |rs| == E.HOURS && forall h :: 0 <= h < E.HOURS ==> rs[h].time == E.HOURS * day + h
  {
    hide E.Hourly, StatusOf, FieldsOf;
  }

  lemma MoreDays(out: seq<HourRecord>, more: seq<HourRecord>, k: nat)
    requires |out| == E.HOURS * k && |more| == E.HOURS
    ensures DayPart(out + more, k) == more
    ensures forall i: nat :: i < k ==> DayPart(out + more, i) == DayPart(out, i)
  {
  }
}
