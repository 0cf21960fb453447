/** Target schedules and the source records that bracket each target time. */
module TimeAxis {
  import opened Outcome
  import opened Permutations

  /** Times are microseconds from a midnight. */
  const DAY: int := 86_400_000_000

  datatype SourceRecord = SourceRecord(validTime: int, path: string, timeIndex: nat)

  datatype TimeBracket = TimeBracket(target: int, before: SourceRecord, after: SourceRecord, alpha: real)

  datatype Method = Linear | Nearest | Hold | Other(name: string)

  datatype Fault = Unsupported(name: string) | Duplicate | NoRecords | Outside | GapTooLarge | BadSchedule

  /** Midnight of the calendar day that holds t. */
  function Midnight(t: int): (day: int)
    ensures day <= t < day + DAY && day % DAY == 0
  {
    t - t % DAY
  }

  /** The time that identifies a record: its instant, or its calendar day. */
  function KeyTime(t: int, daily: bool): int { if daily then Midnight(t) else t }

  // ---- Schedules ----

  method MakeSchedule(start: int, end: int, step: int) returns (r: Result<seq<int>, Fault>)
    ensures step <= 0 || end < start ==> r == Err(BadSchedule)
    ensures step > 0 && start <= end ==>
      && r.Ok? && |r.value| > 0
      && (forall i :: 0 <= i < |r.value| ==> r.value[i] == start + i * step <= end)
      && end < start + |r.value| * step
  {
    if step <= 0 || end < start {
      return Err(BadSchedule);
    }
    var out := [];
    var t := start;
    while t <= end
      invariant t == start + |out| * step
      invariant |out| > 0 || t <= end
      invariant forall i :: 0 <= i < |out| ==> out[i] == start + i * step <= end
      decreases end - t
    {
      out := out + [t];
      t := t + step;
    }
    return Ok(out);
  }

  // ---- Sorting and searching ----

  ghost predicate Increasing(ts: seq<int>) {
    forall i, j :: 0 <= i < j < |ts| ==> ts[i] < ts[j]
  }

  function Insert(ts: seq<int>, t: int): (r: seq<int>)
    ensures multiset(r) == multiset(ts) + multiset{t}
  {
    if ts == [] || t <= ts[0] then [t] + ts
    else
      assert ts == [ts[0]] + ts[1..];
      [ts[0]] + Insert(ts[1..], t)
  }

  function SortTimes(ts: seq<int>): (r: seq<int>)
    ensures multiset(r) == multiset(ts)
  {
    if ts == [] then []
    else
      assert ts == ts[..|ts| - 1] + [ts[|ts| - 1]];
      Insert(SortTimes(ts[..|ts| - 1]), ts[|ts| - 1])
  }

  /** How many of the leading times are earlier than t. */
  function Rank(ts: seq<int>, t: int): (k: nat)
    ensures k <= |ts| && forall i :: 0 <= i < k ==> ts[i] < t
    ensures k < |ts| ==> t <= ts[k]
  {
    if ts == [] || t <= ts[0] then 0 else 1 + Rank(ts[1..], t)
  }

  lemma {:induction false} RankIs(ts: seq<int>, t: int, k: nat)
    requires k <= |ts| && (forall i :: 0 <= i < k ==> ts[i] < t) && (k < |ts| ==> t <= ts[k])
    ensures k == Rank(ts, t)
  {
    if k > 0 {
      assert ts[0] < t;
      RankIs(ts[1..], t, k - 1);
    }
  }

  /** Binary search for the first position whose time is not earlier than t. */
  method BisectLeft(ts: seq<int>, t: int) returns (lo: nat)
    requires Increasing(ts)
    ensures lo == Rank(ts, t)
  {
    var hi := |ts|;
    lo := 0;
    while lo < hi
      invariant 0 <= lo <= hi <= |ts|
      invariant forall i :: 0 <= i < lo ==> ts[i] < t
      invariant forall i :: hi <= i < |ts| ==> t <= ts[i]
    {
      var mid := (lo + hi) / 2;
      if ts[mid] < t {
        lo := mid + 1;
      } else {
        hi := mid;
      }
    }
    RankIs(ts, t, lo);
  }

  // ---- The record positions that serve one target ----

  datatype Slot = Slot(before: nat, after: nat, alpha: real)

  datatype Policy = Policy(missing: Method, maxGap: Option<real>, extrapolate: bool)

  /** Positions in the sorted times, and the weight of the later one. */
  function Locate(ts: seq<int>, t: int, p: Policy): (r: Result<Slot, Fault>)
    requires ts != [] && !p.missing.Other?
    ensures r.Ok? ==> r.value.before < |ts| && r.value.after < |ts|
  {
    var k := Rank(ts, t);
    if k < |ts| && ts[k] == t then Ok(Slot(k, k, 0.0))
    else if k == 0 || k == |ts| then
      if !p.extrapolate then Err(Outside)
      else if k == 0 then Ok(Slot(0, 0, 0.0)) else Ok(Slot(k - 1, k - 1, 0.0))
    else if p.maxGap.Some? && (ts[k] - ts[k - 1]) as real > p.maxGap.value then Err(GapTooLarge)
    else
      match p.missing
      case Linear => Ok(Slot(k - 1, k, (t - ts[k - 1]) as real / (ts[k] - ts[k - 1]) as real))
      case Nearest => if t - ts[k - 1] <= ts[k] - t then Ok(Slot(k - 1, k - 1, 0.0)) else Ok(Slot(k, k, 0.0))
      case _ => Ok(Slot(k - 1, k - 1, 0.0))
  }

  // ---- What a whole call returns ----

  function Keys(records: seq<SourceRecord>, daily: bool): (ks: seq<int>)
    ensures |ks| == |records| && forall i :: 0 <= i < |ks| ==> ks[i] == KeyTime(records[i].validTime, daily)
  {
    seq(|records|, i requires 0 <= i < |records| => KeyTime(records[i].validTime, daily))
  }

  /** The record found under each key. */
  function ByKey(records: seq<SourceRecord>, daily: bool): (m: map<int, SourceRecord>)
    ensures forall t :: t in m <==> t in Keys(records, daily)
    ensures forall t :: t in m ==> m[t] in records && KeyTime(m[t].validTime, daily) == t
  {
    if records == [] then map[]
    else
      var n := |records| - 1;
      assert Keys(records, daily) == Keys(records[..n], daily) + [KeyTime(records[n].validTime, daily)];
      ByKey(records[..n], daily)[KeyTime(records[n].validTime, daily) := records[n]]
  }

  function Serve(index: map<int, SourceRecord>, ts: seq<int>, target: int, daily: bool, p: Policy)
    : Result<TimeBracket, Fault>
    requires ts != [] && !p.missing.Other? && forall t :: t in ts ==> t in index
  {
    var r := Locate(ts, KeyTime(target, daily), p);
    if r.Err? then Err(r.error)
    else Ok(TimeBracket(target, index[ts[r.value.before]], index[ts[r.value.after]], r.value.alpha))
  }

  function ServeAll(index: map<int, SourceRecord>, ts: seq<int>, targets: seq<int>, daily: bool, p: Policy)
    : (r: Result<seq<TimeBracket>, Fault>)
    requires ts != [] && !p.missing.Other? && forall t :: t in ts ==> t in index
    ensures r.Ok? ==> |r.value| == |targets|
  {
    if targets == [] then Ok([])
    else
      var n := |targets| - 1;
      var done := ServeAll(index, ts, targets[..n], daily, p);
      if done.Err? then done
      else
        var last := Serve(index, ts, targets[n], daily, p);
        if last.Err? then Err(last.error) else Ok(done.value + [last.value])
  }

  function SortedKeys(records: seq<SourceRecord>, daily: bool): (ts: seq<int>)
    ensures |ts| == |records|
    ensures forall t :: t in ts <==> t in ByKey(records, daily)
  {
    var ts := SortTimes(Keys(records, daily));
    assert |multiset(ts)| == |records|;
    assert forall t :: t in ts <==> t in multiset(ts);
    assert forall t :: t in Keys(records, daily) <==> t in multiset(Keys(records, daily));
    ts
  }

  function Resolve(records: seq<SourceRecord>, targets: seq<int>, daily: bool, p: Policy)
    : (r: Result<seq<TimeBracket>, Fault>)
    ensures r.Ok? ==> |r.value| == |targets|
  {
    if p.missing.Other? then Err(Unsupported(p.missing.name))
    else if !NoRepeats(Keys(records, daily)) then Err(Duplicate)
    else if records == [] then Err(NoRecords)
    else ServeAll(ByKey(records, daily), SortedKeys(records, daily), targets, daily, p)
  }

  lemma ServeAllPrefix(index: map<int, SourceRecord>, ts: seq<int>, targets: seq<int>, n: nat, daily: bool, p: Policy)
    requires ts != [] && !p.missing.Other? && forall t :: t in ts ==> t in index
    requires n < |targets|
    ensures
      var now, later := ServeAll(index, ts, targets[..n], daily, p), ServeAll(index, ts, targets[..n + 1], daily, p);
      var last := Serve(index, ts, targets[n], daily, p);
      && (now.Ok? && last.Ok? ==> later == Ok(now.value + [last.value]))
      && (now.Ok? && last.Err? ==> later == Err(last.error))
  {
    assert targets[..n + 1][..n] == targets[..n];
  }

  lemma {:induction false} FirstFaultStands(index: map<int, SourceRecord>, ts: seq<int>, targets: seq<int>, n: nat,
                                            daily: bool, p: Policy)
    requires ts != [] && !p.missing.Other? && forall t :: t in ts ==> t in index
    requires n <= |targets| && ServeAll(index, ts, targets[..n], daily, p).Err?
    ensures ServeAll(index, ts, targets, daily, p) == ServeAll(index, ts, targets[..n], daily, p)
    decreases |targets|
  {
    if n < |targets| {
      assert targets[..|targets| - 1][..n] == targets[..n];
      FirstFaultStands(index, ts, targets[..|targets| - 1], n, daily, p);
    } else {
      assert targets[..n] == targets;
    }
  }

  lemma Extends(ks: seq<int>, i: nat)
    requires i < |ks|
    ensures ks[i] in ks[..i] ==> !NoRepeats(ks)
    ensures ks[i] !in ks[..i] && NoRepeats(ks[..i]) ==> NoRepeats(ks[..i + 1])
  {
    if j :| 0 <= j < i && ks[..i][j] == ks[i] {
      assert ks[j] == ks[i];
    }
  }

  lemma IndexNext(records: seq<SourceRecord>, i: nat, daily: bool)
    requires i < |records|
    ensures ByKey(records[..i + 1], daily) ==
            ByKey(records[..i], daily)[KeyTime(records[i].validTime, daily) := records[i]]
    ensures Keys(records[..i], daily) == Keys(records, daily)[..i]
  {
    hide KeyTime;
    assert records[..i + 1][..i] == records[..i];
  }

  /** One record per key: the loop that fills the dictionary and rejects a repeated time. */
  method Index(records: seq<SourceRecord>, daily: bool) returns (r: Result<map<int, SourceRecord>, Fault>)
    ensures NoRepeats(Keys(records, daily)) ==> r == Ok(ByKey(records, daily))
    ensures !NoRepeats(Keys(records, daily)) ==> r == Err(Duplicate)
  {
    var index := map[];
    assert ByKey(records[..0], daily) == index;
    hide ByKey, KeyTime;
    var i := 0;
    while i < |records|
      invariant 0 <= i <= |records|
      invariant NoRepeats(Keys(records, daily)[..i])
      invariant index == ByKey(records[..i], daily)
    {
      IndexNext(records, i, daily);
      Extends(Keys(records, daily), i);
      var key := KeyTime(records[i].validTime, daily);
      if key in index {
        return Err(Duplicate);
      }
      index := index[key := records[i]];
      i := i + 1;
    }
    assert records[..i] == records && Keys(records, daily)[..i] == Keys(records, daily);
    return Ok(index);
  }

  ghost predicate Indexed(index: map<int, SourceRecord>, ts: seq<int>, daily: bool) {
    && Increasing(ts) && ts != []
    && (forall t :: t in index <==> t in ts)
    && (forall t :: t in index ==> KeyTime(index[t].validTime, daily) == t)
  }

  lemma SortedIndex(records: seq<SourceRecord>, daily: bool)
    requires records != [] && NoRepeats(Keys(records, daily))
    ensures Indexed(ByKey(records, daily), SortedKeys(records, daily), daily)
  {
    SortIncreasing(Keys(records, daily));
  }

  lemma {:induction false} InsertIncreasing(ts: seq<int>, t: int)
    requires Increasing(ts) && t !in ts
    ensures Increasing(Insert(ts, t))
  {
    if ts != [] && ts[0] < t {
      InsertIncreasing(ts[1..], t);
      var rest := Insert(ts[1..], t);
      forall i | 0 <= i < |rest|
        ensures ts[0] < rest[i]
      {
        assert rest[i] in multiset(rest);
      }
    }
  }

  lemma {:induction false} SortIncreasing(ks: seq<int>)
    requires NoRepeats(ks)
    ensures Increasing(SortTimes(ks))
  {
    if ks != [] {
      var n := |ks| - 1;
      SortIncreasing(ks[..n]);
      var before := SortTimes(ks[..n]);
      assert ks[n] !in ks[..n];
      assert ks[n] !in multiset(before);
      InsertIncreasing(before, ks[n]);
    }
  }

  /** Serves one target under instant semantics. */
  method ServeInstant(uniq: map<int, SourceRecord>, ordered: seq<int>, target: int, p: Policy)
    returns (r: Result<TimeBracket, Fault>)
    requires Indexed(uniq, ordered, false) && !p.missing.Other?
    ensures r == Serve(uniq, ordered, target, false, p)
  {
    var k := BisectLeft(ordered, target);
    if k < |ordered| && ordered[k] == target {
      var rec := uniq[ordered[k]];
      return Ok(TimeBracket(target, rec, rec, 0.0));
    }
    if k == 0 || k == |ordered| {
      if !p.extrapolate {
        return Err(Outside);
      }
      var rec := uniq[ordered[if k == 0 then k else k - 1]];
      return Ok(TimeBracket(target, rec, rec, 0.0));
    }
    var before, after := uniq[ordered[k - 1]], uniq[ordered[k]];
    var gap := after.validTime - before.validTime;
    if p.maxGap.Some? && gap as real > p.maxGap.value {
      return Err(GapTooLarge);
    }
    assert ordered[k - 1] < ordered[k];
    if p.missing.Linear? {
      var alpha := (target - before.validTime) as real / gap as real;
      return Ok(TimeBracket(target, before, after, alpha));
    } else if p.missing.Nearest? {
      var rec := if target - before.validTime <= after.validTime - target then before else after;
      return Ok(TimeBracket(target, rec, rec, 0.0));
    } else {
      return Ok(TimeBracket(target, before, before, 0.0));
    }
  }

  /** Serves one target under day-mean semantics: a day that has a record needs no search. */
  method ServeDay(byDay: map<int, SourceRecord>, days: seq<int>, target: int, p: Policy)
    returns (r: Result<TimeBracket, Fault>)
    requires Indexed(byDay, days, true) && !p.missing.Other?
    ensures r == Serve(byDay, days, target, true, p)
  {
    hide Midnight;
    var day := Midnight(target);
    ExactSlot(days, day, p);
    if day in byDay {
      var rec := byDay[day];
      return Ok(TimeBracket(target, rec, rec, 0.0));
    }
    var k := BisectLeft(days, day);
    if k == 0 || k == |days| {
      if !p.extrapolate {
        return Err(Outside);
      }
      var rec := byDay[days[if k == 0 then k else k - 1]];
      return Ok(TimeBracket(target, rec, rec, 0.0));
    }
    var beforeDay, afterDay := days[k - 1], days[k];
    var gap := afterDay - beforeDay;
    if p.maxGap.Some? && gap as real > p.maxGap.value {
      return Err(GapTooLarge);
    }
    assert beforeDay < afterDay;
    var before, after := byDay[beforeDay], byDay[afterDay];
    if p.missing.Linear? {
      return Ok(TimeBracket(target, before, after, (day - beforeDay) as real / gap as real));
    } else if p.missing.Nearest? {
      var rec := if day - beforeDay <= afterDay - day then before else after;
      return Ok(TimeBracket(target, rec, rec, 0.0));
    } else {
      return Ok(TimeBracket(target, before, before, 0.0));
    }
  }

  /** Instant semantics: exact records, or neighbours of the target time. */
  method ResolveBrackets(records: seq<SourceRecord>, targets: seq<int>, p: Policy)
    returns (r: Result<seq<TimeBracket>, Fault>)
    ensures r == Resolve(records, targets, false, p)
  {
    if p.missing.Other? {
      return Err(Unsupported(p.missing.name));
    }
    var uniq := Index(records, false);
    if uniq.Err? {
      return Err(uniq.error);
    }
    var ordered := SortedKeys(records, false);
    if ordered == [] {
      return Err(NoRecords);
    }
    SortedIndex(records, false);
    var out := [];
    var i := 0;
    while i < |targets|
      invariant 0 <= i <= |targets|
      invariant ServeAll(uniq.value, ordered, targets[..i], false, p) == Ok(out)
    {
      ServeAllPrefix(uniq.value, ordered, targets, i, false, p);
      var bracket := ServeInstant(uniq.value, ordered, targets[i], p);
      if bracket.Err? {
        FirstFaultStands(uniq.value, ordered, targets, i + 1, false, p);
        return Err(bracket.error);
      }
      out := out + [bracket.value];
      i := i + 1;
    }
    assert targets[..i] == targets;
    return Ok(out);
  }

  /** Day-mean semantics: a record serves every hour of its day, and only missing days are filled. */
  method ResolveCalendarDayBrackets(records: seq<SourceRecord>, targets: seq<int>,
                                    missing: Method, maxGapDays: Option<real>, extrapolate: bool)
    returns (r: Result<seq<TimeBracket>, Fault>)
    ensures r == Resolve(records, targets, true, DailyPolicy(missing, maxGapDays, extrapolate))
  {
    if missing.Other? {
      return Err(Unsupported(missing.name));
    }
    var byDay := Index(records, true);
    if byDay.Err? {
      return Err(byDay.error);
    }
    var days := SortedKeys(records, true);
    if days == [] {
      return Err(NoRecords);
    }
    var p := DailyPolicy(missing, maxGapDays, extrapolate);
    SortedIndex(records, true);
    var out := [];
    var i := 0;
    while i < |targets|
      invariant 0 <= i <= |targets|
      invariant ServeAll(byDay.value, days, targets[..i], true, p) == Ok(out)
    {
      ServeAllPrefix(byDay.value, days, targets, i, true, p);
      var bracket := ServeDay(byDay.value, days, targets[i], p);
      if bracket.Err? {
        FirstFaultStands(byDay.value, days, targets, i + 1, true, p);
        return Err(bracket.error);
      }
      out := out + [bracket.value];
      i := i + 1;
    }
    assert targets[..i] == targets;
    return Ok(out);
  }

  /** A day limit of none or zero means no limit. */
  function DailyPolicy(missing: Method, maxGapDays: Option<real>, extrapolate: bool): Policy {
    Policy(missing,
           if maxGapDays.None? || maxGapDays.value == 0.0 then None else Some(maxGapDays.value * DAY as real),
           extrapolate)
  }

  lemma ExactSlot(ts: seq<int>, t: int, p: Policy)
    requires ts != [] && !p.missing.Other? && Increasing(ts)
    ensures t in ts <==> Rank(ts, t) < |ts| && ts[Rank(ts, t)] == t
    ensures t in ts ==> Locate(ts, t, p) == Ok(Slot(Rank(ts, t), Rank(ts, t), 0.0))
  {
    if i :| 0 <= i < |ts| && ts[i] == t {
      var k := Rank(ts, t);
      assert k <= i;
    }
  }
}
