/** What a regular-grid inventory product contains, how often its source is read, and what its
    conservation check covers. */
module InventoryTheorems {
  import opened Outcome
  import opened Reals
  import opened Vectors
  import opened SparseWeights
  import opened LruCache
  import opened BracketLoop
  import opened Permutations
  import opened InventoryLoop
  import opened TimeAxis
  import opened TimeBrackets

  // ---- Every record is remapped once ----

  function Located(ts: seq<int>, targets: seq<int>, daily: bool, p: Policy, later: bool): (at: seq<nat>)
    requires Searchable(ts, p)
    ensures |at| == |targets|
  {
    seq(|targets|, i requires 0 <= i < |targets| =>
      var r := Locate(ts, KeyTime(targets[i], daily), p);
      if r.Err? then 0 else if later then r.value.after else r.value.before)
  }

  ghost function InOrder(index: map<int, SourceRecord>, ts: seq<int>, daily: bool): (records: seq<SourceRecord>)
    requires Indexed(index, ts, daily)
    ensures |records| == |ts| && forall i :: 0 <= i < |ts| ==> ts[i] in ts && records[i] == index[ts[i]]
  {
    seq(|ts|, i requires 0 <= i < |ts| => assert ts[i] in ts; index[ts[i]])
  }

  lemma KeysAdvance(t: int, u: int, daily: bool)
    requires t <= u
    ensures KeyTime(t, daily) <= KeyTime(u, daily)
  {
    if Midnight(u) < Midnight(t) {
      assert Midnight(u) + DAY <= Midnight(t);
    }
  }

  lemma InOrderHasNoRepeats(index: map<int, SourceRecord>, ts: seq<int>, daily: bool)
    requires Indexed(index, ts, daily)
    ensures NoRepeats(InOrder(index, ts, daily))
  {
    hide KeyTime;
    var records := InOrder(index, ts, daily);
    forall i, j | 0 <= i < j < |records|
      ensures records[i] != records[j]
    {
      assert KeyTime(records[i].validTime, daily) == ts[i] && KeyTime(records[j].validTime, daily) == ts[j];
    }
  }

  lemma SlotOf(index: map<int, SourceRecord>, ts: seq<int>, targets: seq<int>, daily: bool, p: Policy, i: nat)
    requires Searchable(ts, p) && Indexed(index, ts, daily) && i < |targets|
    requires ServeAll(index, ts, targets, daily, p).Ok?
    ensures Locate(ts, KeyTime(targets[i], daily), p).Ok?
    ensures
      var b := Pairs(ServeAll(index, ts, targets, daily, p).value)[i];
      var before, after := Located(ts, targets, daily, p, false)[i], Located(ts, targets, daily, p, true)[i];
      && before <= after <= before + 1 && after < |ts|
      && b == Pair(InOrder(index, ts, daily)[before], InOrder(index, ts, daily)[after])
  {
    hide Locate, KeyTime;
    ServedEach(index, ts, targets, daily, p, i);
    SlotsAdvance(ts, KeyTime(targets[i], daily), KeyTime(targets[i], daily), p);
  }

  /** Time-ordered targets never move back through the records. */
  lemma ServedAdvance(index: map<int, SourceRecord>, ts: seq<int>, targets: seq<int>, daily: bool, p: Policy)
    requires Searchable(ts, p) && Indexed(index, ts, daily) && Ordered(targets)
    requires ServeAll(index, ts, targets, daily, p).Ok?
    ensures Advances(Pairs(ServeAll(index, ts, targets, daily, p).value), InOrder(index, ts, daily),
                     Located(ts, targets, daily, p, false), Located(ts, targets, daily, p, true))
  {
    hide Locate, KeyTime, ServeAll;
    InOrderHasNoRepeats(index, ts, daily);
    var before, after := Located(ts, targets, daily, p, false), Located(ts, targets, daily, p, true);
    forall i | 0 <= i < |targets|
      ensures before[i] <= after[i] <= before[i] + 1 && after[i] < |ts|
      ensures Pairs(ServeAll(index, ts, targets, daily, p).value)[i] ==
              Pair(InOrder(index, ts, daily)[before[i]], InOrder(index, ts, daily)[after[i]])
    {
      SlotOf(index, ts, targets, daily, p, i);
    }
    forall i, j | 0 <= i < j < |targets|
      ensures before[i] <= before[j] && after[i] <= after[j]
    {
      KeysAdvance(targets[i], targets[j], daily);
      SlotOf(index, ts, targets, daily, p, i);
      SlotOf(index, ts, targets, daily, p, j);
      IndexedIsIncreasing(index, ts, daily);
      SlotsAdvance(ts, KeyTime(targets[i], daily), KeyTime(targets[j], daily), p);
    }
  }

  lemma IndexedIsIncreasing(index: map<int, SourceRecord>, ts: seq<int>, daily: bool)
    requires Indexed(index, ts, daily)
    ensures Increasing(ts)
  {
  }

  /** For time-ordered targets, instant or daily, a product reads and remaps each of its
      (record, field) pairs exactly once. */
  lemma EachPairReadOnce(records: seq<SourceRecord>, targets: seq<int>, daily: bool, p: Policy, fields: seq<string>)
    requires Ordered(targets) && Resolve(records, targets, daily, p).Ok?
    ensures
      var history := Accesses(Pairs(Resolve(records, targets, daily, p).value), fields);
      Misses(history, Capacity(fields)) == Firsts(history)
  {
    hide ServeAll, KeyTime;
    var index, ts := ByKey(records, daily), SortedKeys(records, daily);
    SortedIndex(records, daily);
    ServedAdvance(index, ts, targets, daily, p);
    EachRemappedOnce(Pairs(Resolve(records, targets, daily, p).value), InOrder(index, ts, daily),
                     Located(ts, targets, daily, p, false), Located(ts, targets, daily, p, true),
                     fields, Capacity(fields));
  }

  /** The cache never holds more than four fields, or two for each field of the product. */
  lemma CacheIsBounded(history: seq<Key>, fields: seq<string>)
    ensures |Cached(history, Capacity(fields))| <= 4 || |Cached(history, Capacity(fields))| <= 2 * |fields|
  {
    CachedIsBounded(history, Capacity(fields));
  }

  lemma {:induction false} CachedIsBounded<K>(history: seq<K>, capacity: nat)
    ensures |Cached(history, capacity)| <= capacity
  {
    if history != [] {
      CachedIsBounded(history[..|history| - 1], capacity);
    }
  }

  // ---- What is written ----

  /** The source field at a target time. */
  function SourceAt(s: Setup, b: TimeBracket, field: string): Vector
    requires |Source(s, (b.before, field))| == |Source(s, (b.after, field))|
  {
    if b.before == b.after then Source(s, (b.before, field))
    else Mix(b.alpha, Source(s, (b.before, field)), Source(s, (b.after, field)))
  }

  lemma RemapIsImage(s: Setup, key: Key)
    requires Ready(s) && Remap(s, key).Ok?
    ensures |Source(s, key)| == s.weights.nSrc && Remap(s, key).value == Image(s, key)
  {
  }

  lemma ProductMixes(s: Setup, alpha: real, x: Vector, y: Vector)
    requires Ready(s) && |x| == |y| == s.weights.nSrc
    ensures Product(s.weights.links, s.weights.nDest, Mix(alpha, x, y)) ==
            Mix(alpha, Product(s.weights.links, s.weights.nDest, x), Product(s.weights.links, s.weights.nDest, y))
  {
    hide Product, InRange, Times;
    var links, n := s.weights.links, s.weights.nDest;
    ProductScales(links, n, 1.0 - alpha, x);
    ProductScales(links, n, alpha, y);
    ProductAdds(links, n, Scale(1.0 - alpha, x), Scale(alpha, y));
  }

  /** Remapping and interpolating in time commute: what is written is the mapping matrix applied
      to the time-interpolated source field. */
  lemma ValueIsMappedSource(s: Setup, b: TimeBracket, field: string)
    requires Ready(s) && Value(s, b, field).Ok?
    ensures |Source(s, (b.before, field))| == |Source(s, (b.after, field))| == s.weights.nSrc
    ensures Value(s, b, field).value == Product(s.weights.links, s.weights.nDest, SourceAt(s, b, field))
  {
    hide Product, Remap, Mix;
    RemapIsImage(s, (b.before, field));
    if b.before != b.after {
      RemapIsImage(s, (b.after, field));
      ProductMixes(s, b.alpha, Source(s, (b.before, field)), Source(s, (b.after, field)));
    }
  }

  lemma {:induction false} ValueOf(s: Setup, b: TimeBracket, fields: seq<string>, f: nat)
    requires Ready(s) && f < |fields| && Values(s, b, fields).Ok?
    ensures Value(s, b, fields[f]) == Ok(Values(s, b, fields).value[f])
  {
    hide Value;
    var n := |fields| - 1;
    if f < n {
      ValueOf(s, b, fields[..n], f);
    }
  }

  lemma {:induction false} WrittenOf(s: Setup, brackets: seq<TimeBracket>, i: nat)
    requires Ready(s) && i < |brackets| && Naive(s, brackets).Ok?
    ensures
      var w := Naive(s, brackets).value[i];
      w.target == brackets[i].target && Values(s, brackets[i], s.fields) == Ok(w.values)
  {
    hide Values;
    var n := |brackets| - 1;
    if i < n {
      WrittenOf(s, brackets[..n], i);
    }
  }

  /** Every written field, of every target, is the mapped source field of that time. */
  lemma EveryFieldIsMappedSource(s: Setup, brackets: seq<TimeBracket>, i: nat, f: nat)
    requires Ready(s) && Naive(s, brackets).Ok? && i < |brackets| && f < |s.fields|
    ensures
      var b, w := brackets[i], Naive(s, brackets).value[i];
      && w.target == b.target && |w.values| == |s.fields|
      && |Source(s, (b.before, s.fields[f]))| == |Source(s, (b.after, s.fields[f]))| == s.weights.nSrc
      && w.values[f] == Product(s.weights.links, s.weights.nDest, SourceAt(s, b, s.fields[f]))
  {
    hide Values, Naive, Product, SourceAt, Value;
    WrittenOf(s, brackets, i);
    ValueOf(s, brackets[i], s.fields, f);
    ValueIsMappedSource(s, brackets[i], s.fields[f]);
  }

  /** The field changes linearly in time: x at time zero, and y more for each unit of time. */
  ghost predicate LinearInTime(s: Setup, records: seq<SourceRecord>, daily: bool, field: string, x: Vector, y: Vector) {
    && |x| == |y| == s.weights.nSrc
    && forall r :: r in records ==> Source(s, (r, field)) == Add(x, Scale(KeyTime(r.validTime, daily) as real, y))
  }

  /** A source that changes linearly in time is written with its value at the target time, for every
      target that does not lie beyond the records. */
  lemma LinearSourceIsReproduced(s: Setup, records: seq<SourceRecord>, targets: seq<int>, daily: bool, p: Policy,
                                 i: nat, f: nat, x: Vector, y: Vector)
    requires Ready(s) && Resolve(records, targets, daily, p).Ok? && i < |targets| && f < |s.fields|
    requires Naive(s, Resolve(records, targets, daily, p).value).Ok?
    requires p.missing.Linear? && LinearInTime(s, records, daily, s.fields[f], x, y)
    requires var t := KeyTime(targets[i], daily); !AllLater(records, t, daily) && !AllEarlier(records, t, daily)
    ensures
      var w := Naive(s, Resolve(records, targets, daily, p).value).value[i];
      && w.target == targets[i] && |w.values| == |s.fields|
      && w.values[f] == Product(s.weights.links, s.weights.nDest, Add(x, Scale(KeyTime(targets[i], daily) as real, y)))
  {
    hide Naive, Product, Resolve, KeyTime, Times, Mix, Blend, AllLater, AllEarlier;
    var brackets, t := Resolve(records, targets, daily, p).value, KeyTime(targets[i], daily);
    var b := brackets[i];
    EveryBracketAnswers(records, targets, daily, p, i);
    EveryFieldIsMappedSource(s, brackets, i, f);
    if b.before != b.after {
      MixOfLinear(b.alpha, x, y, TimeOf(b.before, daily) as real, TimeOf(b.after, daily) as real);
    }
  }

  // ---- The conservation check ----

  predicate Passes(source: real, dest: real, tol: real) { RelativeError(source, dest) <= tol }

  function Scaled(source: real): (m: real)
    ensures m > 0.0
  {
    Max(Abs(source), TINY)
  }

  lemma PassesIffWithin(source: real, dest: real, tol: real)
    ensures Passes(source, dest, tol) <==> Abs(dest - source) <= Times(tol, Scaled(source))
  {
    Quotient(Abs(dest - source), Scaled(source), tol);
  }

  /** The error of a blend is at most the blend of the errors. */
  lemma BlendedError(alpha: real, s1: real, d1: real, s2: real, d2: real, tol: real)
    requires 0.0 <= alpha <= 1.0 && Passes(s1, d1, tol) && Passes(s2, d2, tol)
    ensures Abs(Blend(alpha, d1, d2) - Blend(alpha, s1, s2)) <= Times(tol, Blend(alpha, Scaled(s1), Scaled(s2)))
  {
    hide Passes, Blend, Times, Scaled;
    PassesIffWithin(s1, d1, tol);
    PassesIffWithin(s2, d2, tol);
    var b1, b2 := Times(tol, Scaled(s1)), Times(tol, Scaled(s2));
    BlendSubtracts(alpha, d1, d2, s1, s2);
    BlendIsMonotone(alpha, d1 - s1, d2 - s2, b1, b2);
    BlendIsMonotone(alpha, -b1, -b2, d1 - s1, d2 - s2);
    BlendNegates(alpha, b1, b2);
    BlendScales(alpha, tol, Scaled(s1), Scaled(s2));
  }

  predicate SameSign(x: real, y: real) { x > 0.0 <==> y > 0.0 }

  lemma ScaledBlend(alpha: real, s1: real, s2: real)
    requires 0.0 <= alpha <= 1.0 && Abs(s1) >= TINY && Abs(s2) >= TINY
    ensures SameSign(s1, s2) ==> Blend(alpha, Scaled(s1), Scaled(s2)) == Scaled(Blend(alpha, s1, s2))
  {
    hide Blend, Times;
    if SameSign(s1, s2) {
      BlendOfConstant(alpha, TINY);
      if s1 > 0.0 {
        BlendIsMonotone(alpha, TINY, TINY, s1, s2);
      } else {
        BlendNegates(alpha, s1, s2);
        BlendIsMonotone(alpha, TINY, TINY, -s1, -s2);
      }
    }
  }

  /** The check guards interpolation for every destination field that passes it. */
  ghost predicate BlendAlwaysPasses(alpha: real, s1: real, s2: real, tol: real) {
    forall d1, d2 :: Passes(s1, d1, tol) && Passes(s2, d2, tol) ==>
      Passes(Blend(alpha, s1, s2), Blend(alpha, d1, d2), tol)
  }

  lemma OppositeSignsCancel(alpha: real, s1: real, s2: real)
    requires 0.0 < alpha < 1.0 && Abs(s1) > TINY && Abs(s2) > TINY && !SameSign(s1, s2)
    ensures Scaled(Blend(alpha, s1, s2)) < Blend(alpha, Scaled(s1), Scaled(s2))
  {
    hide Times;
    var w := 1.0 - alpha;
    TimesPositive(w, Abs(s1) - TINY);
    TimesPositive(alpha, Abs(s2) - TINY);
    TimesPositive(w, Abs(s1));
    TimesPositive(alpha, Abs(s2));
    TimesDistributes(w, Abs(s1), TINY);
    TimesDistributes(alpha, Abs(s2), TINY);
    TimesDistributes(w, s1, 0.0);
    TimesDistributes(alpha, s2, 0.0);
    BlendOfConstant(alpha, TINY);
    TimesNegates(w, s1);
    TimesNegates(alpha, s2);
  }

  lemma PassesAtTheEdge(s: real, tol: real)
    requires tol > 0.0
    ensures Passes(s, s + Times(tol, Scaled(s)), tol)
  {
    TimesPositive(tol, Scaled(s));
    PassesIffWithin(s, s + Times(tol, Scaled(s)), tol);
  }

  lemma OppositeSignsFail(alpha: real, s1: real, s2: real, tol: real)
    requires 0.0 < alpha < 1.0 && tol > 0.0 && Abs(s1) > TINY && Abs(s2) > TINY && !SameSign(s1, s2)
    ensures !BlendAlwaysPasses(alpha, s1, s2, tol)
  {
    hide Passes, Times, Scaled, SameSign, Blend;
    var b1, b2 := Times(tol, Scaled(s1)), Times(tol, Scaled(s2));
    PassesAtTheEdge(s1, tol);
    PassesAtTheEdge(s2, tol);
    var s, d := Blend(alpha, s1, s2), Blend(alpha, s1 + b1, s2 + b2);
    BlendSubtracts(alpha, s1 + b1, s2 + b2, s1, s2);
    assert s1 + b1 - s1 == b1 && s2 + b2 - s2 == b2;
    BlendScales(alpha, tol, Scaled(s1), Scaled(s2));
    OppositeSignsCancel(alpha, s1, s2);
    var wide, narrow := Blend(alpha, Scaled(s1), Scaled(s2)), Scaled(s);
    TimesPositive(tol, wide - narrow);
    TimesDistributes(tol, wide, narrow);
    TimesPositive(tol, narrow);
    assert d - s == Times(tol, wide) > Times(tol, narrow) > 0.0;
    PassesIffWithin(s, d, tol);
    assert !Passes(s, d, tol);
  }

  /** Checking each remapped record covers every interpolated one exactly when the two records'
      integrals have the same sign, as they do for emissions. */
  lemma RecordCheckSufficesIffSameSign(alpha: real, s1: real, s2: real, tol: real)
    requires 0.0 < alpha < 1.0 && tol > 0.0 && Abs(s1) > TINY && Abs(s2) > TINY
    ensures BlendAlwaysPasses(alpha, s1, s2, tol) <==> SameSign(s1, s2)
  {
    hide Passes, Times, Scaled, SameSign, Blend;
    if SameSign(s1, s2) {
      ScaledBlend(alpha, s1, s2);
      forall d1, d2 | Passes(s1, d1, tol) && Passes(s2, d2, tol)
        ensures Passes(Blend(alpha, s1, s2), Blend(alpha, d1, d2), tol)
      {
        BlendedError(alpha, s1, d1, s2, d2, tol);
        PassesIffWithin(Blend(alpha, s1, s2), Blend(alpha, d1, d2), tol);
      }
    } else {
      OppositeSignsFail(alpha, s1, s2, tol);
    }
  }

  /** The integral of a time blend is the blend of the integrals. */
  lemma DotMixes(area: Vector, alpha: real, x: Vector, y: Vector)
    requires |area| == |x| == |y|
    ensures Dot(area, Mix(alpha, x, y)) == Blend(alpha, Dot(area, x), Dot(area, y))
  {
    hide Dot, Times;
    DotAdd(area, Scale(1.0 - alpha, x), Scale(alpha, y));
    DotScale(area, 1.0 - alpha, x);
    DotScale(area, alpha, y);
  }

  ghost function SourceIntegral(s: Setup, key: Key): real
    requires Ready(s) && s.areas.Some? && |Source(s, key)| == s.weights.nSrc
  {
    Dot(s.areas.value.source, Source(s, key))
  }

  /** Every field the loop writes conserves its own source integral within the tolerance. */
  lemma WrittenFieldIsConserved(s: Setup, b: TimeBracket, field: string)
    requires Ready(s) && s.areas.Some? && Value(s, b, field).Ok? && 0.0 <= b.alpha <= 1.0
    ensures |Source(s, (b.before, field))| == |Source(s, (b.after, field))| == s.weights.nSrc
    ensures
      var s1, s2 := SourceIntegral(s, (b.before, field)), SourceIntegral(s, (b.after, field));
      s1 >= TINY && s2 >= TINY ==>
        Passes(Dot(s.areas.value.source, SourceAt(s, b, field)),
               Dot(s.areas.value.dest, Value(s, b, field).value), s.tolerance)
  {
    hide Dot, Blend, Mix, RelativeError, Image, Scaled, Times;
    RemapIsImage(s, (b.before, field));
    if b.before != b.after {
      RemapIsImage(s, (b.after, field));
      var x, y := Source(s, (b.before, field)), Source(s, (b.after, field));
      var u, v := Image(s, (b.before, field)), Image(s, (b.after, field));
      var from, to := s.areas.value.source, s.areas.value.dest;
      DotMixes(from, b.alpha, x, y);
      DotMixes(to, b.alpha, u, v);
      var s1, s2, d1, d2 := Dot(from, x), Dot(from, y), Dot(to, u), Dot(to, v);
      if s1 >= TINY && s2 >= TINY {
        ScaledBlend(b.alpha, s1, s2);
        BlendedError(b.alpha, s1, d1, s2, d2, s.tolerance);
        PassesIffWithin(Blend(b.alpha, s1, s2), Blend(b.alpha, d1, d2), s.tolerance);
      }
    }
  }

  // ---- When a product is written at all ----

  /** The record's field has one value for each source cell, and its integral arrives within the
      tolerance, relative to its own size but no smaller than a floor. */
  ghost predicate ArrivesWhole(s: Setup, r: SourceRecord, field: string)
    requires Ready(s)
  {
    && |Source(s, (r, field))| == s.weights.nSrc
    && (s.areas.Some? ==>
          var x := Source(s, (r, field));
          var sent := Dot(s.areas.value.source, x);
          var received := Dot(s.areas.value.dest, Product(s.weights.links, s.weights.nDest, x));
          Abs(received - sent) <= Times(s.tolerance, Max(Abs(sent), TINY)))
  }

  lemma RemapsIff(s: Setup, r: SourceRecord, field: string)
    requires Ready(s)
    ensures Remap(s, (r, field)).Ok? <==> s.chunkLinks > 0 && ArrivesWhole(s, r, field)
  {
    hide Dot, Product, Times, RelativeError;
    if |Source(s, (r, field))| == s.weights.nSrc && s.areas.Some? {
      var x := Source(s, (r, field));
      PassesIffWithin(Dot(s.areas.value.source, x),
                      Dot(s.areas.value.dest, Product(s.weights.links, s.weights.nDest, x)), s.tolerance);
    }
  }

  /** Both records of a bracket arrive whole in every field. */
  ghost predicate BothArrive(s: Setup, b: TimeBracket, fields: seq<string>)
    requires Ready(s)
  {
    forall f :: 0 <= f < |fields| ==>
      s.chunkLinks > 0 && ArrivesWhole(s, b.before, fields[f]) && ArrivesWhole(s, b.after, fields[f])
  }

  lemma {:induction false} ValuesIff(s: Setup, b: TimeBracket, fields: seq<string>)
    requires Ready(s)
    ensures Values(s, b, fields).Ok? <==> BothArrive(s, b, fields)
  {
    hide Remap, ArrivesWhole, Mix;
    if fields != [] {
      var n := |fields| - 1;
      ValuesIff(s, b, fields[..n]);
      RemapsIff(s, b.before, fields[n]);
      RemapsIff(s, b.after, fields[n]);
    }
  }

  /** The loop succeeds exactly when chunks are positive and every record and field it needs arrives
      whole; a loop with nothing to do always succeeds. */
  lemma {:induction false} LoopSucceedsIff(s: Setup, brackets: seq<TimeBracket>)
    requires Ready(s)
    ensures Naive(s, brackets).Ok? <==>
            forall i :: 0 <= i < |brackets| ==> BothArrive(s, brackets[i], s.fields)
  {
    hide Values, BothArrive;
    if brackets != [] {
      var n := |brackets| - 1;
      LoopSucceedsIff(s, brackets[..n]);
      ValuesIff(s, brackets[n], s.fields);
      assert forall i :: 0 <= i < n ==> brackets[..n][i] == brackets[i];
    }
  }

  // ---- What the check says about the mapping ----

  ghost predicate AlwaysPasses(w: Weights, a: Areas, tol: real)
    requires SparseWeights.Valid(w) && |a.source| == w.nSrc && |a.dest| == w.nDest
  {
    forall src: Vector :: |src| == w.nSrc && NonNegative(src) ==>
      Passes(Dot(a.source, src), Dot(a.dest, Product(w.links, w.nDest, src)), tol)
  }

  ghost predicate ColumnsNear(implied: Vector, source: Vector, tol: real) {
    |implied| == |source| && forall c :: 0 <= c < |source| ==> Abs(implied[c] - source[c]) <= Times(tol, source[c])
  }

  /** One side of the bound: implied - source is below tol * source in every column. */
  lemma ColumnsBelow(implied: Vector, source: Vector, src: Vector, tol: real)
    requires |implied| == |source| == |src| && NonNegative(src)
    requires forall c :: 0 <= c < |source| ==> implied[c] <= source[c] + Times(tol, source[c])
    ensures Dot(implied, src) <= Dot(source, src) + Times(tol, Dot(source, src))
  {
    hide Dot, Times;
    DotAdd(src, source, Scale(tol, source));
    DotScale(src, tol, source);
    DotMonotone(src, implied, Add(source, Scale(tol, source)));
    DotCommutes(src, implied);
    DotCommutes(src, source);
  }

  lemma ColumnsAbove(implied: Vector, source: Vector, src: Vector, tol: real)
    requires |implied| == |source| == |src| && NonNegative(src)
    requires forall c :: 0 <= c < |source| ==> source[c] <= implied[c] + Times(tol, source[c])
    ensures Dot(source, src) <= Dot(implied, src) + Times(tol, Dot(source, src))
  {
    hide Dot, Times;
    DotAdd(src, implied, Scale(tol, source));
    DotScale(src, tol, source);
    DotMonotone(src, source, Add(implied, Scale(tol, source)));
    DotCommutes(src, implied);
    DotCommutes(src, source);
  }

  /** A field of one source cell, scaled so that the floor of the check plays no part. */
  lemma OneCellCheck(implied: Vector, source: Vector, c: nat, tol: real)
    requires |implied| == |source| && c < |source| && source[c] > 0.0
    requires forall k: real :: k > 0.0 ==> Passes(Times(k, source[c]), Times(k, implied[c]), tol)
    ensures Abs(implied[c] - source[c]) <= Times(tol, source[c])
  {
    hide Passes, Times, Scaled;
    var a, e := source[c], Abs(implied[c] - source[c]);
    var k := if a >= TINY then 1.0 else TINY / a;
    Quotient(TINY, a, 1.0);
    TimesUnits(a);
    assert k > 0.0 && Times(k, a) >= TINY;
    PassesIffWithin(Times(k, a), Times(k, implied[c]), tol);
    ScaledIs(Times(k, a));
    TimesDistributes(k, implied[c], a);
    TimesAbs(k, implied[c] - a);
    TimesSwap(tol, k, a);
    if e > Times(tol, a) {
      TimesPositive(k, e - Times(tol, a));
      TimesDistributes(k, e, Times(tol, a));
      assert false;
    }
  }

  lemma ScaledIs(x: real)
    requires x >= TINY
    ensures Scaled(x) == x
  {
  }

  lemma OneCellIntegral(area: Vector, k: real, c: nat)
    requires c < |area|
    ensures Dot(area, Scale(k, Unit(|area|, c))) == Times(k, area[c])
  {
    hide Dot, Times;
    DotScale(area, k, Unit(|area|, c));
    DotUnit(area, c);
  }

  lemma OneCellIsNonNegative(n: nat, k: real, c: nat)
    requires k > 0.0
    ensures NonNegative(Scale(k, Unit(n, c)))
  {
    hide Times;
    TimesUnits(k);
  }

  lemma WithinScaled(d: real, tol: real, s: real)
    requires 0.0 <= tol && 0.0 <= s && Abs(d) <= Times(tol, s)
    ensures Abs(d) <= Times(tol, Scaled(s))
  {
    hide Times;
    TimesMonotone(tol, s, Scaled(s));
  }

  lemma NearColumnsPass(w: Weights, a: Areas, src: Vector, tol: real)
    requires SparseWeights.Valid(w) && |a.source| == w.nSrc && |a.dest| == w.nDest && 0.0 <= tol
    requires NonNegative(a.source) && ColumnsNear(ImpliedArea(w.links, w.nSrc, a.dest), a.source, tol)
    requires |src| == w.nSrc && NonNegative(src)
    ensures Passes(Dot(a.source, src), Dot(a.dest, Product(w.links, w.nDest, src)), tol)
  {
    hide Dot, Product, Times, Passes, Scaled;
    var implied := ImpliedArea(w.links, w.nSrc, a.dest);
    Adjoint(w.links, a.dest, src);
    ColumnsBelow(implied, a.source, src, tol);
    ColumnsAbove(implied, a.source, src, tol);
    DotMonotone(a.source, Constant(w.nSrc, 0.0), src);
    DotConstant(a.source, 0.0);
    TimesUnits(Sum(a.source));
    WithinScaled(Dot(implied, src) - Dot(a.source, src), tol, Dot(a.source, src));
    PassesIffWithin(Dot(a.source, src), Dot(implied, src), tol);
  }

  /** The per-record check passes for every nonnegative source field exactly when each column of
      the weight file is within the tolerance of its source cell's area. */
  lemma CheckPassesIffColumnsNear(w: Weights, a: Areas, tol: real)
    requires SparseWeights.Valid(w) && |a.source| == w.nSrc && |a.dest| == w.nDest && 0.0 <= tol
    requires forall c :: 0 <= c < w.nSrc ==> a.source[c] > 0.0
    ensures AlwaysPasses(w, a, tol) <==> ColumnsNear(ImpliedArea(w.links, w.nSrc, a.dest), a.source, tol)
  {
    hide Dot, Product, Times, Passes;
    var implied := ImpliedArea(w.links, w.nSrc, a.dest);
    if ColumnsNear(implied, a.source, tol) {
      forall src: Vector | |src| == w.nSrc && NonNegative(src)
        ensures Passes(Dot(a.source, src), Dot(a.dest, Product(w.links, w.nDest, src)), tol)
      {
        NearColumnsPass(w, a, src, tol);
      }
    }
    if AlwaysPasses(w, a, tol) {
      forall c | 0 <= c < w.nSrc
        ensures Abs(implied[c] - a.source[c]) <= Times(tol, a.source[c])
      {
        forall k: real | k > 0.0
          ensures Passes(Times(k, a.source[c]), Times(k, implied[c]), tol)
        {
          var src := Scale(k, Unit(w.nSrc, c));
          OneCellIsNonNegative(w.nSrc, k, c);
          Adjoint(w.links, a.dest, src);
          OneCellIntegral(a.source, k, c);
          OneCellIntegral(implied, k, c);
        }
        OneCellCheck(implied, a.source, c, tol);
      }
    }
  }
}
