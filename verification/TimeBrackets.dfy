/** What the bracketing resolvers guarantee about every target. */
module TimeBrackets {
  import opened Outcome
  import opened Reals
  import opened TimeAxis
  import opened Permutations

  predicate Searchable(ts: seq<int>, p: Policy) { ts != [] && !p.missing.Other? }

  /** Positions i, i+1 are the neighbours of a time that has no record of its own. */
  predicate Straddles(ts: seq<int>, t: int, i: nat) {
    i + 1 < |ts| && ts[i] < t < ts[i + 1]
  }

  predicate GapAllowed(ts: seq<int>, i: nat, p: Policy)
    requires i + 1 < |ts|
  {
    p.maxGap.None? || (ts[i + 1] - ts[i]) as real <= p.maxGap.value
  }

  predicate Beyond(ts: seq<int>, t: int)
    requires ts != []
  {
    t < ts[0] || ts[|ts| - 1] < t
  }

  lemma RankOf(ts: seq<int>, t: int)
    requires Increasing(ts) && ts != []
    ensures t in ts <==> Rank(ts, t) < |ts| && ts[Rank(ts, t)] == t
    ensures Beyond(ts, t) <==> t !in ts && (Rank(ts, t) == 0 || Rank(ts, t) == |ts|)
    ensures t !in ts && !Beyond(ts, t) ==> Rank(ts, t) > 0 && Straddles(ts, t, Rank(ts, t) - 1)
  {
    var k := Rank(ts, t);
    if j :| 0 <= j < |ts| && ts[j] == t {
      assert k <= j;
    }
  }

  lemma StraddleIsRank(ts: seq<int>, t: int, i: nat)
    requires Increasing(ts) && Straddles(ts, t, i)
    ensures Rank(ts, t) == i + 1 && ts[Rank(ts, t)] != t
  {
    RankIs(ts, t, i + 1);
  }

  /** A target is served exactly when it has its own record, or lies between records no further
      apart than allowed, or lies outside them and extrapolation is enabled. */
  lemma ServedIff(ts: seq<int>, t: int, p: Policy)
    requires Searchable(ts, p) && Increasing(ts)
    ensures Locate(ts, t, p).Ok? <==>
            || t in ts
            || (Beyond(ts, t) && p.extrapolate)
            || exists i: nat :: Straddles(ts, t, i) && GapAllowed(ts, i, p)
    ensures Locate(ts, t, p) == Err(Outside) <==> Beyond(ts, t) && !p.extrapolate
  {
    RankOf(ts, t);
    forall i: nat | Straddles(ts, t, i)
      ensures i == Rank(ts, t) - 1
    {
      StraddleIsRank(ts, t, i);
    }
  }

  /** Off-record linear brackets are the neighbours, strictly inside, and reproduce the target. */
  lemma LinearReproducesTarget(ts: seq<int>, t: int, p: Policy)
    requires Searchable(ts, p) && Increasing(ts) && p.missing.Linear?
    requires Locate(ts, t, p).Ok? && t !in ts && !Beyond(ts, t)
    ensures
      var s := Locate(ts, t, p).value;
      && s.after == s.before + 1 && ts[s.before] < t < ts[s.after]
      && (forall j :: 0 <= j < |ts| ==> !(ts[s.before] < ts[j] < ts[s.after]))
      && 0.0 < s.alpha < 1.0
      && Blend(s.alpha, ts[s.before] as real, ts[s.after] as real) == t as real
  {
    hide Blend;
    RankOf(ts, t);
    var s := Locate(ts, t, p).value;
    Affine(ts[s.before] as real, ts[s.after] as real, t as real, s.alpha);
  }

  lemma Affine(b: real, a: real, t: real, alpha: real)
    requires b < t < a && alpha == (t - b) / (a - b)
    ensures 0.0 < alpha < 1.0 && Blend(alpha, b, a) == t
  {
    hide Times, Blend;
    var gap := a - b;
    Quotient(t - b, gap, 1.0);
    Quotient(t - b, gap, 0.0);
    TimesUnits(gap);
    BlendByGap(alpha, b, a);
  }

  function Distance(x: int, y: int): int { if x < y then y - x else x - y }

  /** No record is closer to the target, and a record at the same distance is later. */
  lemma NearestIsClosest(ts: seq<int>, t: int, p: Policy, j: nat)
    requires Searchable(ts, p) && Increasing(ts) && p.missing.Nearest?
    requires Locate(ts, t, p).Ok? && j < |ts|
    ensures
      var s := Locate(ts, t, p).value;
      && s.before == s.after
      && Distance(ts[s.before], t) <= Distance(ts[j], t)
      && (j != s.before && Distance(ts[s.before], t) == Distance(ts[j], t) ==> s.before < j)
  {
    RankOf(ts, t);
    var s := Locate(ts, t, p).value;
    if j < s.before {
      assert ts[j] < ts[s.before];
    } else if s.before < j {
      assert ts[s.before] < ts[j];
    }
    if 0 < Rank(ts, t) < |ts| {
      assert j < Rank(ts, t) ==> ts[j] <= ts[Rank(ts, t) - 1];
      assert j >= Rank(ts, t) ==> ts[j] >= ts[Rank(ts, t)];
    }
  }

  /** Hold serves the latest record that is not after the target. */
  lemma HoldIsLatestEarlier(ts: seq<int>, t: int, p: Policy, j: nat)
    requires Searchable(ts, p) && Increasing(ts) && p.missing.Hold?
    requires Locate(ts, t, p).Ok? && j < |ts| && ts[0] <= t
    ensures
      var s := Locate(ts, t, p).value;
      s.before == s.after && ts[s.before] <= t && (ts[j] <= t <==> j <= s.before)
  {
    RankOf(ts, t);
    var s := Locate(ts, t, p).value;
    if j < s.before {
      assert ts[j] < ts[s.before];
    } else if s.before < j {
      assert ts[s.before] < ts[j];
    }
  }

  // ---- Whole calls ----

  ghost predicate Ordered(targets: seq<int>) {
    forall i, j :: 0 <= i < j < |targets| ==> targets[i] <= targets[j]
  }

  /** The two sides are one record or neighbours, and never move backwards in time. */
  lemma SlotsAdvance(ts: seq<int>, t: int, u: int, p: Policy)
    requires Searchable(ts, p) && Increasing(ts) && t <= u
    requires Locate(ts, t, p).Ok? && Locate(ts, u, p).Ok?
    ensures
      var s, v := Locate(ts, t, p).value, Locate(ts, u, p).value;
      && s.before <= s.after <= s.before + 1
      && s.before <= v.before && s.after <= v.after
  {
    var k, m := Rank(ts, t), Rank(ts, u);
    RankAdvances(ts, t, u);
  }

  lemma {:induction false} RankAdvances(ts: seq<int>, t: int, u: int)
    requires t <= u
    ensures Rank(ts, t) <= Rank(ts, u)
  {
    if ts != [] {
      RankAdvances(ts[1..], t, u);
    }
  }

  lemma {:induction false} ServedEach(index: map<int, SourceRecord>, ts: seq<int>, targets: seq<int>, daily: bool,
                                      p: Policy, i: nat)
    requires Searchable(ts, p) && (forall t :: t in ts ==> t in index) && i < |targets|
    requires ServeAll(index, ts, targets, daily, p).Ok?
    ensures Serve(index, ts, targets[i], daily, p) == Ok(ServeAll(index, ts, targets, daily, p).value[i])
  {
    hide Locate, KeyTime;
    var n := |targets| - 1;
    if i < n {
      ServedEach(index, ts, targets[..n], daily, p, i);
    }
  }

  /** A call succeeds exactly when every one of its targets can be served. */
  lemma {:induction false} SucceedsIffAllServed(index: map<int, SourceRecord>, ts: seq<int>, targets: seq<int>,
                                                daily: bool, p: Policy)
    requires Searchable(ts, p) && forall t :: t in ts ==> t in index
    ensures ServeAll(index, ts, targets, daily, p).Ok? <==>
            forall i :: 0 <= i < |targets| ==> Locate(ts, KeyTime(targets[i], daily), p).Ok?
  {
    hide Locate, KeyTime;
    if targets != [] {
      var n := |targets| - 1;
      SucceedsIffAllServed(index, ts, targets[..n], daily, p);
      assert forall i :: 0 <= i < n ==> targets[..n][i] == targets[i];
    }
  }

  // ---- Records in any order ----

  lemma {:induction false} IncreasingIsUnique(a: seq<int>, b: seq<int>)
    requires Increasing(a) && Increasing(b) && multiset(a) == multiset(b)
    ensures a == b
    decreases |a|
  {
    if a == [] {
      assert |multiset(b)| == 0;
    } else {
      var k := Match(a, b);
      assert a[|a| - 1] == b[k];
      assert b[|b| - 1] in multiset(a);
      assert k == |b| - 1;
      assert Without(b, k) == b[..k];
      IncreasingIsUnique(a[..|a| - 1], b[..k]);
      assert a == a[..|a| - 1] + [b[k]];
    }
  }

  lemma {:induction false} OnceEach(ks: seq<int>, t: int)
    requires NoRepeats(ks)
    ensures multiset(ks)[t] <= 1
  {
    if ks != [] {
      var n := |ks| - 1;
      assert ks == ks[..n] + [ks[n]];
      OnceEach(ks[..n], t);
      assert ks[n] !in ks[..n];
      assert ks[n] !in multiset(ks[..n]);
    }
  }

  lemma PermutationKeepsDistinct(a: seq<int>, b: seq<int>)
    requires multiset(a) == multiset(b) && NoRepeats(a)
    ensures NoRepeats(b)
  {
    forall i, j | 0 <= i < j < |b|
      ensures b[i] != b[j]
    {
      OnceEach(a, b[j]);
      assert b == b[..j] + [b[j]] + b[j + 1..];
      assert b[i] in b[..j];
      assert multiset(b)[b[j]] == multiset(b[..j])[b[j]] + 1 + multiset(b[j + 1..])[b[j]];
    }
  }

  lemma {:induction false} KeysOfPermutation(a: seq<SourceRecord>, b: seq<SourceRecord>, daily: bool)
    requires multiset(a) == multiset(b)
    ensures multiset(Keys(a, daily)) == multiset(Keys(b, daily))
    decreases |a|
  {
    if a == [] {
      assert |multiset(b)| == 0;
    } else {
      var n := |a| - 1;
      var k := Match(a, b);
      KeysOfPermutation(a[..n], Without(b, k), daily);
      KeysSplit(a, n, daily);
      KeysSplit(b, k, daily);
      assert Without(a, n) == a[..n];
    }
  }

  lemma KeysSplit(a: seq<SourceRecord>, k: nat, daily: bool)
    requires k < |a|
    ensures multiset(Keys(a, daily)) == multiset(Keys(Without(a, k), daily)) + multiset{KeyTime(a[k].validTime, daily)}
  {
    hide KeyTime;
    var ks := Keys(a, daily);
    assert ks == ks[..k] + [ks[k]] + ks[k + 1..];
    assert Keys(Without(a, k), daily) == ks[..k] + ks[k + 1..];
  }

  lemma KeyedRecordIsUnique(records: seq<SourceRecord>, daily: bool, r: SourceRecord, s: SourceRecord)
    requires NoRepeats(Keys(records, daily)) && r in records && s in records
    requires KeyTime(r.validTime, daily) == KeyTime(s.validTime, daily)
    ensures r == s
  {
    hide KeyTime;
    var i :| 0 <= i < |records| && records[i] == r;
    var j :| 0 <= j < |records| && records[j] == s;
    assert Keys(records, daily)[i] == Keys(records, daily)[j];
  }

  lemma SameSortedKeys(a: seq<SourceRecord>, b: seq<SourceRecord>, daily: bool)
    requires multiset(Keys(a, daily)) == multiset(Keys(b, daily))
    requires NoRepeats(Keys(a, daily)) && NoRepeats(Keys(b, daily))
    ensures SortedKeys(a, daily) == SortedKeys(b, daily)
  {
    SortIncreasing(Keys(a, daily));
    SortIncreasing(Keys(b, daily));
    IncreasingIsUnique(SortTimes(Keys(a, daily)), SortTimes(Keys(b, daily)));
  }

  lemma SameIndex(a: seq<SourceRecord>, b: seq<SourceRecord>, daily: bool)
    requires multiset(a) == multiset(b) && multiset(Keys(a, daily)) == multiset(Keys(b, daily))
    requires NoRepeats(Keys(a, daily))
    ensures ByKey(a, daily) == ByKey(b, daily)
  {
    hide KeyTime;
    var x, y := ByKey(a, daily), ByKey(b, daily);
    forall t
      ensures t in x <==> t in y
    {
      assert t in x <==> t in multiset(Keys(a, daily));
    }
    forall t | t in x
      ensures x[t] == y[t]
    {
      assert y[t] in multiset(b);
      KeyedRecordIsUnique(a, daily, x[t], y[t]);
    }
  }

  /** The order in which records are discovered never matters. */
  lemma RecordOrderIsIrrelevant(a: seq<SourceRecord>, b: seq<SourceRecord>, targets: seq<int>, daily: bool, p: Policy)
    requires multiset(a) == multiset(b)
    ensures Resolve(a, targets, daily, p) == Resolve(b, targets, daily, p)
  {
    hide KeyTime, ServeAll;
    KeysOfPermutation(a, b, daily);
    if NoRepeats(Keys(a, daily)) {
      PermutationKeepsDistinct(Keys(a, daily), Keys(b, daily));
    } else if NoRepeats(Keys(b, daily)) {
      PermutationKeepsDistinct(Keys(b, daily), Keys(a, daily));
    }
    assert |multiset(a)| == |a| && |multiset(b)| == |b|;
    if NoRepeats(Keys(a, daily)) {
      SameSortedKeys(a, b, daily);
      SameIndex(a, b, daily);
    }
  }

  // ---- Calendar days ----

  function DayRecord(r: SourceRecord): SourceRecord { r.(validTime := Midnight(r.validTime)) }

  function DayRecords(records: seq<SourceRecord>): (days: seq<SourceRecord>)
    ensures |days| == |records| && forall i :: 0 <= i < |days| ==> days[i] == DayRecord(records[i])
  {
    seq(|records|, i requires 0 <= i < |records| => DayRecord(records[i]))
  }

  function Days(targets: seq<int>): (days: seq<int>)
    ensures |days| == |targets| && forall i :: 0 <= i < |days| ==> days[i] == Midnight(targets[i])
  {
    seq(|targets|, i requires 0 <= i < |targets| => Midnight(targets[i]))
  }

  lemma {:induction false} IndexOfDays(records: seq<SourceRecord>)
    ensures Keys(DayRecords(records), false) == Keys(records, true)
    ensures forall t :: t in ByKey(records, true) ==>
      t in ByKey(DayRecords(records), false) &&
        ByKey(DayRecords(records), false)[t] == DayRecord(ByKey(records, true)[t])
  {
    if records != [] {
      var n := |records| - 1;
      IndexOfDays(records[..n]);
      assert DayRecords(records)[..n] == DayRecords(records[..n]);
    }
  }

  /** The same answer, read on the day axis. */
  predicate SameOnDays(c: TimeBracket, i: TimeBracket) {
    && i.target == Midnight(c.target) && i.alpha == c.alpha
    && i.before == DayRecord(c.before) && i.after == DayRecord(c.after)
  }

  lemma {:induction false} ServedOnDays(index: map<int, SourceRecord>, days: map<int, SourceRecord>, ts: seq<int>,
                                        targets: seq<int>, p: Policy)
    requires Searchable(ts, p) && (forall t :: t in ts ==> t in index && t in days && days[t] == DayRecord(index[t]))
    ensures
      var c, i := ServeAll(index, ts, targets, true, p), ServeAll(days, ts, Days(targets), false, p);
      && (c.Err? ==> i == c)
      && (c.Ok? ==> i.Ok? && forall n :: 0 <= n < |targets| ==> SameOnDays(c.value[n], i.value[n]))
  {
    hide Locate, Midnight, DayRecord;
    if targets != [] {
      var n := |targets| - 1;
      ServedOnDays(index, days, ts, targets[..n], p);
      assert Days(targets)[..n] == Days(targets[..n]);
    }
  }

  /** The calendar-day resolver is the instant resolver on day-floored records and targets. */
  lemma CalendarIsInstantOnDays(records: seq<SourceRecord>, targets: seq<int>, p: Policy)
    ensures
      var c, i := Resolve(records, targets, true, p), Resolve(DayRecords(records), Days(targets), false, p);
      && (c.Err? ==> i == c)
      && (c.Ok? ==> i.Ok? && forall n :: 0 <= n < |targets| ==> SameOnDays(c.value[n], i.value[n]))
  {
    hide Midnight, DayRecord, ServeAll;
    IndexOfDays(records);
    if !p.missing.Other? && records != [] {
      var ts := SortedKeys(records, true);
      assert SortedKeys(DayRecords(records), false) == ts;
      ServedOnDays(ByKey(records, true), ByKey(DayRecords(records), false), ts, targets, p);
    }
  }

  /** All hours of a day share one bracket. */
  lemma HoursShareTheirDay(records: seq<SourceRecord>, targets: seq<int>, p: Policy, i: nat, j: nat)
    requires Resolve(records, targets, true, p).Ok? && i < |targets| && j < |targets|
    requires Midnight(targets[i]) == Midnight(targets[j])
    ensures
      var out := Resolve(records, targets, true, p).value;
      out[i] == out[j].(target := out[i].target)
  {
    hide Midnight;
    var ts := SortedKeys(records, true);
    ServedEach(ByKey(records, true), ts, targets, true, p, i);
    ServedEach(ByKey(records, true), ts, targets, true, p, j);
  }

  // ---- What is returned for a target, told by the records alone ----

  function TimeOf(r: SourceRecord, daily: bool): int { KeyTime(r.validTime, daily) }

  ghost predicate OnRecord(records: seq<SourceRecord>, t: int, daily: bool) {
    exists r :: r in records && TimeOf(r, daily) == t
  }

  ghost predicate AllLater(records: seq<SourceRecord>, t: int, daily: bool) {
    forall r :: r in records ==> t < TimeOf(r, daily)
  }

  ghost predicate AllEarlier(records: seq<SourceRecord>, t: int, daily: bool) {
    forall r :: r in records ==> TimeOf(r, daily) < t
  }

  /** b and a are the records on either side of t, with none in between. */
  ghost predicate Surround(records: seq<SourceRecord>, t: int, daily: bool, b: SourceRecord, a: SourceRecord) {
    && b in records && a in records && TimeOf(b, daily) < t < TimeOf(a, daily)
    && forall r :: r in records ==> !(TimeOf(b, daily) < TimeOf(r, daily) < TimeOf(a, daily))
  }

  ghost predicate CloseEnough(b: SourceRecord, a: SourceRecord, daily: bool, p: Policy) {
    p.maxGap.None? || (TimeOf(a, daily) - TimeOf(b, daily)) as real <= p.maxGap.value
  }

  /** Can t be served? */
  ghost predicate Servable(records: seq<SourceRecord>, t: int, daily: bool, p: Policy) {
    || OnRecord(records, t, daily)
    || (p.extrapolate && (AllLater(records, t, daily) || AllEarlier(records, t, daily)))
    || exists b, a :: Surround(records, t, daily, b, a) && CloseEnough(b, a, daily, p)
  }

  ghost predicate IsClosest(records: seq<SourceRecord>, t: int, daily: bool, x: SourceRecord) {
    forall r :: r in records ==>
      && Distance(TimeOf(x, daily), t) <= Distance(TimeOf(r, daily), t)
      && (Distance(TimeOf(x, daily), t) == Distance(TimeOf(r, daily), t) ==> TimeOf(x, daily) <= TimeOf(r, daily))
  }

  ghost predicate IsLatestEarlier(records: seq<SourceRecord>, t: int, daily: bool, x: SourceRecord) {
    TimeOf(x, daily) < t && forall r :: r in records && TimeOf(r, daily) < t ==> TimeOf(r, daily) <= TimeOf(x, daily)
  }

  /** What a bracket for a target must be: its own record; beyond the records, the one at that end; and
      else by the method, where linear weights reproduce the target from the times of its neighbours. */
  ghost predicate Answers(records: seq<SourceRecord>, target: int, daily: bool, p: Policy, b: TimeBracket) {
    var t := KeyTime(target, daily);
    && b.target == target && b.before in records && b.after in records
    && (b.before == b.after ==> b.alpha == 0.0)
    && if OnRecord(records, t, daily) then b.before == b.after && TimeOf(b.before, daily) == t
       else if AllLater(records, t, daily) then
         b.before == b.after && forall r :: r in records ==> TimeOf(b.before, daily) <= TimeOf(r, daily)
       else if AllEarlier(records, t, daily) then
         b.before == b.after && forall r :: r in records ==> TimeOf(r, daily) <= TimeOf(b.before, daily)
       else match p.missing
         case Linear =>
           && Surround(records, t, daily, b.before, b.after) && 0.0 < b.alpha < 1.0
           && Blend(b.alpha, TimeOf(b.before, daily) as real, TimeOf(b.after, daily) as real) == t as real
         case Nearest => b.before == b.after && IsClosest(records, t, daily, b.before)
         case _ => b.before == b.after && IsLatestEarlier(records, t, daily, b.before)
  }

  /** Records, found by key, and keys, in increasing order, are two views of one thing. */
  ghost predicate Views(records: seq<SourceRecord>, index: map<int, SourceRecord>, ts: seq<int>, daily: bool) {
    && (forall r :: r in records ==>
      TimeOf(r, daily) in ts && TimeOf(r, daily) in index && index[TimeOf(r, daily)] == r)
    && (forall t :: t in ts ==> t in index && index[t] in records && TimeOf(index[t], daily) == t)
  }

  lemma RecordsAreKeyed(records: seq<SourceRecord>, daily: bool)
    requires records != [] && NoRepeats(Keys(records, daily))
    ensures Indexed(ByKey(records, daily), SortedKeys(records, daily), daily)
    ensures Views(records, ByKey(records, daily), SortedKeys(records, daily), daily)
  {
    hide KeyTime, SortedKeys, ByKey;
    SortedIndex(records, daily);
    var index, ts := ByKey(records, daily), SortedKeys(records, daily);
    forall r | r in records
      ensures TimeOf(r, daily) in ts && TimeOf(r, daily) in index && index[TimeOf(r, daily)] == r
    {
      var i :| 0 <= i < |records| && records[i] == r;
      assert Keys(records, daily)[i] == TimeOf(r, daily);
      KeyedRecordIsUnique(records, daily, index[TimeOf(r, daily)], r);
    }
  }

  lemma KindsOfTarget(records: seq<SourceRecord>, index: map<int, SourceRecord>, ts: seq<int>, t: int, daily: bool)
    requires Indexed(index, ts, daily) && Views(records, index, ts, daily)
    ensures OnRecord(records, t, daily) <==> t in ts
    ensures AllLater(records, t, daily) <==> t < ts[0]
    ensures AllEarlier(records, t, daily) <==> ts[|ts| - 1] < t
  {
    hide KeyTime;
    if t in ts {
      assert TimeOf(index[t], daily) == t;
    }
    assert ts[0] in ts && ts[|ts| - 1] in ts;
    assert TimeOf(index[ts[0]], daily) == ts[0] && TimeOf(index[ts[|ts| - 1]], daily) == ts[|ts| - 1];
  }

  lemma Neighbours(records: seq<SourceRecord>, index: map<int, SourceRecord>, ts: seq<int>, t: int, daily: bool, i: nat)
    requires Indexed(index, ts, daily) && Views(records, index, ts, daily) && Straddles(ts, t, i)
    ensures ts[i] in ts && ts[i + 1] in ts && Surround(records, t, daily, index[ts[i]], index[ts[i + 1]])
  {
    hide KeyTime;
    forall r | r in records
      ensures !(ts[i] < TimeOf(r, daily) < ts[i + 1])
    {
      var j :| 0 <= j < |ts| && ts[j] == TimeOf(r, daily);
    }
  }

  lemma OneSurrounds(records: seq<SourceRecord>, index: map<int, SourceRecord>, ts: seq<int>, t: int, daily: bool,
                     i: nat,
                     b: SourceRecord, a: SourceRecord)
    requires Indexed(index, ts, daily) && Views(records, index, ts, daily) && Straddles(ts, t, i)
    requires Surround(records, t, daily, b, a)
    ensures ts[i] in ts && ts[i + 1] in ts && b == index[ts[i]] && a == index[ts[i + 1]]
  {
    hide KeyTime;
    Neighbours(records, index, ts, t, daily, i);
    var x, y := index[ts[i]], index[ts[i + 1]];
    assert !(TimeOf(b, daily) < TimeOf(x, daily) < TimeOf(a, daily)) &&
      !(TimeOf(b, daily) < TimeOf(y, daily) < TimeOf(a, daily));
    assert !(TimeOf(x, daily) < TimeOf(b, daily) < TimeOf(y, daily)) &&
      !(TimeOf(x, daily) < TimeOf(a, daily) < TimeOf(y, daily));
  }

  lemma ServedAnswers(records: seq<SourceRecord>, index: map<int, SourceRecord>, ts: seq<int>, target: int, daily: bool,
                      p: Policy)
    requires Searchable(ts, p) && Indexed(index, ts, daily) && Views(records, index, ts, daily)
    requires Serve(index, ts, target, daily, p).Ok?
    ensures Answers(records, target, daily, p, Serve(index, ts, target, daily, p).value)
  {
    hide KeyTime, Blend, Views;
    var t := KeyTime(target, daily);
    var s, b := Locate(ts, t, p).value, Serve(index, ts, target, daily, p).value;
    RankOf(ts, t);
    KindsOfTarget(records, index, ts, t, daily);
    BothOf(records, index, ts, daily, s);
    if t in ts {
    } else if Beyond(ts, t) {
      EndsOf(records, index, ts, daily);
    } else {
      StraddledAnswers(records, index, ts, target, daily, p);
    }
  }

  lemma BothOf(records: seq<SourceRecord>, index: map<int, SourceRecord>, ts: seq<int>, daily: bool, s: Slot)
    requires Views(records, index, ts, daily) && s.before < |ts| && s.after < |ts|
    ensures ts[s.before] in index && index[ts[s.before]] in records &&
      TimeOf(index[ts[s.before]], daily) == ts[s.before]
    ensures ts[s.after] in index && index[ts[s.after]] in records && TimeOf(index[ts[s.after]], daily) == ts[s.after]
  {
    hide KeyTime;
    var b, a := ts[s.before], ts[s.after];
    assert b in ts && a in ts;
    assert forall t :: t in ts ==> t in index && index[t] in records && TimeOf(index[t], daily) == t;
  }

  lemma EndsOf(records: seq<SourceRecord>, index: map<int, SourceRecord>, ts: seq<int>, daily: bool)
    requires Indexed(index, ts, daily) && Views(records, index, ts, daily)
    ensures forall r :: r in records ==> ts[0] <= TimeOf(r, daily) <= ts[|ts| - 1]
  {
    hide KeyTime;
    forall r | r in records
      ensures ts[0] <= TimeOf(r, daily) <= ts[|ts| - 1]
    {
      var j :| 0 <= j < |ts| && ts[j] == TimeOf(r, daily);
    }
  }

  lemma StraddledAnswers(records: seq<SourceRecord>, index: map<int, SourceRecord>, ts: seq<int>, target: int,
                         daily: bool, p: Policy)
    requires Searchable(ts, p) && Indexed(index, ts, daily) && Views(records, index, ts, daily)
    requires Serve(index, ts, target, daily, p).Ok?
    requires KeyTime(target, daily) !in ts && !Beyond(ts, KeyTime(target, daily))
    ensures Answers(records, target, daily, p, Serve(index, ts, target, daily, p).value)
  {
    hide KeyTime, Blend, Views;
    var t := KeyTime(target, daily);
    var s, b := Locate(ts, t, p).value, Serve(index, ts, target, daily, p).value;
    RankOf(ts, t);
    KindsOfTarget(records, index, ts, t, daily);
    BothOf(records, index, ts, daily, s);
    if p.missing.Linear? {
      LinearReproducesTarget(ts, t, p);
      Neighbours(records, index, ts, t, daily, s.before);
    } else if p.missing.Nearest? {
      forall r | r in records
        ensures Distance(ts[s.before], t) <= Distance(TimeOf(r, daily), t)
        ensures Distance(ts[s.before], t) == Distance(TimeOf(r, daily), t) ==> ts[s.before] <= TimeOf(r, daily)
      {
        var j := PlaceOf(records, index, ts, daily, r);
        NearestIsClosest(ts, t, p, j);
      }
    } else {
      forall r | r in records && TimeOf(r, daily) < t
        ensures TimeOf(r, daily) <= ts[s.before]
      {
        var j := PlaceOf(records, index, ts, daily, r);
        HoldIsLatestEarlier(ts, t, p, j);
      }
    }
  }

  lemma PlaceOf(records: seq<SourceRecord>, index: map<int, SourceRecord>, ts: seq<int>, daily: bool, r: SourceRecord)
    returns (j: nat)
    requires Views(records, index, ts, daily) && r in records
    ensures j < |ts| && ts[j] == TimeOf(r, daily)
  {
    j :| 0 <= j < |ts| && ts[j] == TimeOf(r, daily);
  }

  /** Every bracket that a call returns is the answer for its target. */
  lemma EveryBracketAnswers(records: seq<SourceRecord>, targets: seq<int>, daily: bool, p: Policy, i: nat)
    requires Resolve(records, targets, daily, p).Ok? && i < |targets|
    ensures Answers(records, targets[i], daily, p, Resolve(records, targets, daily, p).value[i])
  {
    hide KeyTime, Answers, ServeAll, Views, Indexed, Serve;
    var index, ts := ByKey(records, daily), SortedKeys(records, daily);
    RecordsAreKeyed(records, daily);
    ServedEach(index, ts, targets, daily, p, i);
    ServedAnswers(records, index, ts, targets[i], daily, p);
  }

  lemma LocatedIffServable(records: seq<SourceRecord>, index: map<int, SourceRecord>, ts: seq<int>, t: int, daily: bool,
                           p: Policy)
    requires Searchable(ts, p) && Indexed(index, ts, daily) && Views(records, index, ts, daily)
    ensures Locate(ts, t, p).Ok? <==> Servable(records, t, daily, p)
  {
    hide KeyTime, Views;
    RankOf(ts, t);
    ServedIff(ts, t, p);
    KindsOfTarget(records, index, ts, t, daily);
    if t !in ts && !Beyond(ts, t) {
      var i := Rank(ts, t) - 1;
      assert Straddles(ts, t, i);
      BothOf(records, index, ts, daily, Slot(i, i + 1, 0.0));
      Neighbours(records, index, ts, t, daily, i);
      forall j: nat | Straddles(ts, t, j)
        ensures j == i
      {
        StraddleIsRank(ts, t, j);
      }
      forall b, a | Surround(records, t, daily, b, a)
        ensures b == index[ts[i]] && a == index[ts[i + 1]]
      {
        OneSurrounds(records, index, ts, t, daily, i, b, a);
      }
    } else {
      forall i: nat ensures !Straddles(ts, t, i) {
        if Straddles(ts, t, i) {
          StraddleIsRank(ts, t, i);
        }
      }
      forall b, a ensures !Surround(records, t, daily, b, a) || t in ts {
        NoneSurrounds(records, t, daily, b, a);
      }
    }
  }

  lemma NoneSurrounds(records: seq<SourceRecord>, t: int, daily: bool, b: SourceRecord, a: SourceRecord)
    ensures Surround(records, t, daily, b, a) ==> !AllLater(records, t, daily) && !AllEarlier(records, t, daily)
  {
  }

  /** A call succeeds exactly for a known method, records of distinct times, and targets that can all be
      served. */
  lemma ResolvesIff(records: seq<SourceRecord>, targets: seq<int>, daily: bool, p: Policy)
    ensures Resolve(records, targets, daily, p).Ok? <==>
            && !p.missing.Other? && NoRepeats(Keys(records, daily)) && records != []
            && forall i :: 0 <= i < |targets| ==> Servable(records, KeyTime(targets[i], daily), daily, p)
  {
    hide KeyTime, Servable, ServeAll, Views, Indexed, Locate;
    if !p.missing.Other? && NoRepeats(Keys(records, daily)) && records != [] {
      var index, ts := ByKey(records, daily), SortedKeys(records, daily);
      RecordsAreKeyed(records, daily);
      SucceedsIffAllServed(index, ts, targets, daily, p);
      forall i | 0 <= i < |targets|
        ensures Locate(ts, KeyTime(targets[i], daily), p).Ok? <==>
          Servable(records, KeyTime(targets[i], daily), daily, p)
      {
        LocatedIffServable(records, index, ts, KeyTime(targets[i], daily), daily, p);
      }
    }
  }

  /** Days from one record's day to another's. */
  function DaysBetween(b: SourceRecord, a: SourceRecord): int { (Midnight(a.validTime) - Midnight(b.validTime)) / DAY }

  lemma DayLimit(b: SourceRecord, a: SourceRecord, missing: Method, maxGapDays: Option<real>, extrapolate: bool)
    ensures CloseEnough(b, a, true, DailyPolicy(missing, maxGapDays, extrapolate)) <==>
            maxGapDays.None? || maxGapDays.value == 0.0 || DaysBetween(b, a) as real <= maxGapDays.value
  {
    var n := DaysBetween(b, a);
    assert Midnight(a.validTime) - Midnight(b.validTime) == n * DAY;
    assert (n * DAY) as real == n as real * DAY as real;
    if maxGapDays.Some? {
      var g := maxGapDays.value;
      assert n as real <= g <==> n as real * DAY as real <= g * DAY as real;
    }
  }

  /** The calendar-day resolver succeeds exactly when every target's day has a record, or lies beyond them
      with extrapolation on, or between two days no further apart than the limit, where none or zero
      means no limit. */
  lemma CalendarResolvesIff(records: seq<SourceRecord>, targets: seq<int>, missing: Method, maxGapDays: Option<real>,
                            extrapolate: bool)
    ensures Resolve(records, targets, true, DailyPolicy(missing, maxGapDays, extrapolate)).Ok? <==>
            && !missing.Other? && NoRepeats(Keys(records, true)) && records != []
            && forall i :: 0 <= i < |targets| ==> DayServable(records, Midnight(targets[i]), maxGapDays, extrapolate)
  {
    hide Midnight, Servable, DayServable, Resolve, DailyPolicy;
    var p := DailyPolicy(missing, maxGapDays, extrapolate);
    PolicyKeeps(missing, maxGapDays, extrapolate);
    ResolvesIff(records, targets, true, p);
    forall i | 0 <= i < |targets|
      ensures Servable(records, Midnight(targets[i]), true, p) <==>
              DayServable(records, Midnight(targets[i]), maxGapDays, extrapolate)
    {
      ServableOnDay(records, Midnight(targets[i]), missing, maxGapDays, extrapolate);
    }
  }

  ghost predicate DayServable(records: seq<SourceRecord>, day: int, maxGapDays: Option<real>, extrapolate: bool) {
    || (exists r :: r in records && Midnight(r.validTime) == day)
    || (extrapolate && ((forall r :: r in records ==> day < Midnight(r.validTime))
                        || forall r :: r in records ==> Midnight(r.validTime) < day))
    || exists b, a :: Surround(records, day, true, b, a) &&
                      (maxGapDays.None? || maxGapDays.value == 0.0 || DaysBetween(b, a) as real <= maxGapDays.value)
  }

  lemma ServableOnDay(records: seq<SourceRecord>, day: int, missing: Method, maxGapDays: Option<real>,
                      extrapolate: bool)
    ensures Servable(records, day, true, DailyPolicy(missing, maxGapDays, extrapolate)) <==>
            DayServable(records, day, maxGapDays, extrapolate)
  {
    hide Midnight, DaysBetween, CloseEnough, DailyPolicy;
    var p := DailyPolicy(missing, maxGapDays, extrapolate);
    assert p.extrapolate == extrapolate by { PolicyKeeps(missing, maxGapDays, extrapolate); }
    forall b, a
      ensures CloseEnough(b, a, true, p) <==>
              maxGapDays.None? || maxGapDays.value == 0.0 || DaysBetween(b, a) as real <= maxGapDays.value
    {
      DayLimit(b, a, missing, maxGapDays, extrapolate);
    }
    assert forall r: SourceRecord :: TimeOf(r, true) == Midnight(r.validTime);
  }

  lemma PolicyKeeps(missing: Method, maxGapDays: Option<real>, extrapolate: bool)
    ensures DailyPolicy(missing, maxGapDays, extrapolate).missing == missing
    ensures DailyPolicy(missing, maxGapDays, extrapolate).extrapolate == extrapolate
  {
  }
}
