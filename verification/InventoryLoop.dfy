/** The cached remapping loop of a regular-grid inventory. */
module InventoryLoop {
  import opened Outcome
  import opened Reals
  import opened Vectors
  import opened SparseWeights
  import opened LruCache
  import opened Permutations
  import opened BracketLoop
  import T = TimeAxis

  // ---- Ordered dictionary used as a cache ----

  lemma {:induction false} RemovedIsGone<K>(keys: seq<K>, key: K)
    requires key in keys && NoRepeats(keys)
    ensures NoRepeats(Removed(keys, key)) && key !in Removed(keys, key)
    ensures forall k :: k in keys && k != key ==> k in Removed(keys, key)
  {
    if keys[0] != key {
      RemovedIsGone(keys[1..], key);
      assert keys == [keys[0]] + keys[1..];
      assert keys[0] !in keys[1..];
      assert keys[0] !in Removed(keys[1..], key);
    }
  }

  class OrderedCache<K(==), V> {
    const capacity: nat
    var keys: seq<K>
    var values: map<K, V>

    ghost predicate Valid() reads this {
      && NoRepeats(keys)
      && (forall k :: k in keys ==> k in values)
      && (forall k :: k in values ==> k in keys)
    }

    constructor (capacity: nat)
      ensures Valid() && this.capacity == capacity && keys == [] && values == map[]
    {
      this.capacity := capacity;
      keys, values := [], map[];
    }

    /** Takes the entry out and puts it back as the most recent one. */
    method Reuse(key: K) returns (v: V)
      requires Valid() && key in keys
      modifies this
      ensures Valid() && keys == Touch(old(keys), key, capacity)
      ensures values == old(values) && v == values[key]
    {
      RemovedIsGone(keys, key);
      v := values[key];
      values := values - {key};
      keys := Removed(keys, key);
      values := values[key := v];
      keys := keys + [key];
    }

    /** Adds a new entry, then drops the oldest entries while there are too many. */
    method Store(key: K, v: V)
      requires Valid() && key !in keys
      modifies this
      ensures Valid() && keys == Touch(old(keys), key, capacity)
      ensures forall k :: k in keys ==> values[k] == if k == key then v else old(values)[k]
    {
      ghost var all := keys + [key];
      values := values[key := v];
      keys := keys + [key];
      ghost var dropped := 0;
      while |keys| > capacity
        invariant 0 <= dropped <= |all| && keys == all[dropped..]
        invariant dropped > 0 ==> |keys| >= capacity
        invariant Valid()
        invariant forall k :: k in keys ==> values[k] == if k == key then v else old(values)[k]
      {
        values := values - {keys[0]};
        keys := keys[1..];
        dropped := dropped + 1;
      }
    }
  }

  // ---- One remapped record ----

  const TINY: real := 1.0e-300

  type Key = (T.SourceRecord, string)

  datatype Fault = WrongShape(key: Key) | ChunkNotPositive | NotConserved(key: Key)

  datatype Areas = Areas(source: Vector, dest: Vector)

  /** What one product's loop works with; `read` gives a record's scaled source field. */
  datatype Setup = Setup(weights: Weights, areas: Option<Areas>, tolerance: real, chunkLinks: int,
                         fields: seq<string>, read: (T.SourceRecord, string) -> Vector)

  ghost predicate Ready(s: Setup) {
    && SparseWeights.Valid(s.weights)
    && (s.areas.Some? ==> |s.areas.value.source| == s.weights.nSrc && |s.areas.value.dest| == s.weights.nDest)
  }

  function RelativeError(source: real, dest: real): real {
    Abs(dest - source) / Max(Abs(source), TINY)
  }

  function Source(s: Setup, key: Key): Vector { (s.read)(key.0, key.1) }

  function Image(s: Setup, key: Key): Vector
    requires Ready(s) && |Source(s, key)| == s.weights.nSrc
  {
    Product(s.weights.links, s.weights.nDest, Source(s, key))
  }

  predicate PassesCheck(s: Setup, src: Vector, dst: Vector)
    requires Ready(s) && |src| == s.weights.nSrc && |dst| == s.weights.nDest
  {
    s.areas.Some? ==> RelativeError(Dot(s.areas.value.source, src), Dot(s.areas.value.dest, dst)) <= s.tolerance
  }

  /** A remapped field, computed afresh. */
  function Remap(s: Setup, key: Key): (r: Result<Vector, Fault>)
    requires Ready(s)
    ensures r.Ok? ==> |r.value| == s.weights.nDest
  {
    if |Source(s, key)| != s.weights.nSrc then Err(WrongShape(key))
    else if s.chunkLinks <= 0 then Err(ChunkNotPositive)
    else if !PassesCheck(s, Source(s, key), Image(s, key)) then Err(NotConserved(key))
    else Ok(Image(s, key))
  }

  // ---- What the loop should write ----

  datatype Written = Written(target: int, values: seq<Vector>)

  function Value(s: Setup, b: T.TimeBracket, field: string): Result<Vector, Fault>
    requires Ready(s)
  {
    var before := Remap(s, (b.before, field));
    if before.Err? || b.before == b.after then before
    else
      var after := Remap(s, (b.after, field));
      if after.Err? then after else Ok(Mix(b.alpha, before.value, after.value))
  }

  function Values(s: Setup, b: T.TimeBracket, fields: seq<string>): (r: Result<seq<Vector>, Fault>)
    requires Ready(s)
    ensures r.Ok? ==> |r.value| == |fields|
  {
    if fields == [] then Ok([])
    else
      var n := |fields| - 1;
      var done := Values(s, b, fields[..n]);
      if done.Err? then done
      else
        var last := Value(s, b, fields[n]);
        if last.Err? then Err(last.error) else Ok(done.value + [last.value])
  }

  /** The loop without a cache and without chunks. */
  function Naive(s: Setup, brackets: seq<T.TimeBracket>): (r: Result<seq<Written>, Fault>)
    requires Ready(s)
    ensures r.Ok? ==> |r.value| == |brackets|
  {
    if brackets == [] then Ok([])
    else
      var n := |brackets| - 1;
      var done := Naive(s, brackets[..n]);
      if done.Err? then done
      else
        var last := Values(s, brackets[n], s.fields);
        if last.Err? then Err(last.error) else Ok(done.value + [Written(brackets[n].target, last.value)])
  }

  function Pairs(brackets: seq<T.TimeBracket>): (ps: seq<Pair<T.SourceRecord>>)
    ensures |ps| == |brackets|
    ensures forall i :: 0 <= i < |ps| ==> ps[i] == Pair(brackets[i].before, brackets[i].after)
  {
    seq(|brackets|, i requires 0 <= i < |brackets| => Pair(brackets[i].before, brackets[i].after))
  }

  function Capacity(fields: seq<string>): nat { if 2 * |fields| > 4 then 2 * |fields| else 4 }

  // ---- The loop ----

  class Remapper {
    const setup: Setup
    const cache: OrderedCache<Key, Vector>
    var fetched: seq<Key>
    ghost var history: seq<Key>

    /** Everything cached is the image of its own key, and the source reads so far are the
        misses of the accesses so far. */
    ghost predicate Valid() reads this, cache {
      && Ready(setup) && cache.Valid() && cache.capacity == Capacity(setup.fields)
      && cache.keys == Cached(history, cache.capacity)
      && fetched == Misses(history, cache.capacity)
      && forall k :: k in cache.keys ==> Remap(setup, k) == Ok(cache.values[k])
    }

    constructor (setup: Setup)
      requires Ready(setup)
      ensures Valid() && fresh(cache) && this.setup == setup && history == []
    {
      this.setup := setup;
      cache := new OrderedCache(Capacity(setup.fields));
      fetched, history := [], [];
    }

    /** The image of a key, whatever the cache holds. */
    method Remapped(key: Key) returns (r: Result<Vector, Fault>)
      requires Valid()
      modifies this, cache
      ensures r == Remap(setup, key)
      ensures r.Ok? ==> Valid() && history == old(history) + [key]
    {
      hide Dot, Product, Cached, Misses, Touch, RelativeError;
      OneMoreAccess(history, key, cache.capacity);
      history := history + [key];
      if key in cache.keys {
        var v := cache.Reuse(key);
        return Ok(v);
      }
      var src := Source(setup, key);
      fetched := fetched + [key];
      if |src| != setup.weights.nSrc {
        return Err(WrongShape(key));
      }
      var dst := Apply(setup.weights, src, setup.chunkLinks);
      if dst.Err? {
        return Err(ChunkNotPositive);
      }
      if setup.areas.Some? {
        var si, di := Dot(setup.areas.value.source, src), Dot(setup.areas.value.dest, dst.value);
        if RelativeError(si, di) > setup.tolerance {
          return Err(NotConserved(key));
        }
      }
      cache.Store(key, dst.value);
      return Ok(dst.value);
    }

    /** One field at one target: the earlier record, blended with the later one if they differ. */
    method FieldAt(b: T.TimeBracket, field: string) returns (r: Result<Vector, Fault>)
      requires Valid()
      modifies this, cache
      ensures r == Value(setup, b, field)
      ensures r.Ok? ==> Valid() && history == old(history) + Chunk(Pair(b.before, b.after), [field])
    {
      ChunkNext(Pair(b.before, b.after), [field], 0);
      var a := Remapped((b.before, field));
      if a.Err? || b.before == b.after {
        return a;
      }
      var c := Remapped((b.after, field));
      if c.Err? {
        return c;
      }
      return Ok(Mix(b.alpha, a.value, c.value));
    }

    /** All fields at one target. */
    method FieldsAt(b: T.TimeBracket) returns (r: Result<seq<Vector>, Fault>)
      requires Valid()
      modifies this, cache
      ensures r == Values(setup, b, setup.fields)
      ensures r.Ok? ==> Valid() && history == old(history) + Chunk(Pair(b.before, b.after), setup.fields)
    {
      hide Value, Values, Chunk;
      ghost var p := Pair(b.before, b.after);
      EmptyStart(setup, b);
      var vals := [];
      var f := 0;
      while f < |setup.fields|
        invariant 0 <= f <= |setup.fields| && Valid()
        invariant Values(setup, b, setup.fields[..f]) == Ok(vals)
        invariant history == old(history) + Chunk(p, setup.fields[..f])
      {
        NextField(setup, b, f);
        ChunkNext(p, setup.fields, f);
        var v := FieldAt(b, setup.fields[f]);
        if v.Err? {
          FirstFieldFault(setup, b, setup.fields, f + 1);
          return Err(v.error);
        }
        vals := vals + [v.value];
        f := f + 1;
      }
      assert setup.fields[..f] == setup.fields;
      return Ok(vals);
    }
  }

  lemma EmptyStart(s: Setup, b: T.TimeBracket)
    requires Ready(s)
    ensures Values(s, b, s.fields[..0]) == Ok([])
    ensures Chunk(Pair(b.before, b.after), s.fields[..0]) == []
  {
  }

  /** The cached, chunked loop writes what the naive loop writes, fails where it fails, and reads
      the source exactly on cache misses. */
  method Process(s: Setup, brackets: seq<T.TimeBracket>)
    returns (r: Result<seq<Written>, Fault>, fetched: seq<Key>, stats: Stats)
    requires Ready(s)
    ensures r == Naive(s, brackets)
    ensures r.Ok? ==> fetched == Misses(Accesses(Pairs(brackets), s.fields), Capacity(s.fields))
    ensures r.Ok? ==> stats == Filled(brackets)
  {
    hide Values, Chunk, Capacity, GapHours, Naive, Filled, Misses, Accesses, Pairs;
    NoBrackets(s, brackets);
    var remapper := new Remapper(s);
    var out := [];
    stats := Stats(0, 0, 0, 0.0);
    var i := 0;
    while i < |brackets|
      invariant 0 <= i <= |brackets| && fresh(remapper) && fresh(remapper.cache)
      invariant remapper.Valid() && remapper.setup == s
      invariant Naive(s, brackets[..i]) == Ok(out)
      invariant remapper.history == Accesses(Pairs(brackets[..i]), s.fields)
      invariant stats == Filled(brackets[..i])
    {
      var b := brackets[i];
      NextBracket(s, brackets, i);
      NextFilled(brackets, i);
      if b.before == b.after {
        stats := stats.(exact := stats.exact + 1);
      } else if b.before == b.after {
        assert false;  // the held-or-nearest counter repeats the test above
      } else {
        stats := stats.(interpolated := stats.interpolated + 1,
                        largestGapHours := Max(stats.largestGapHours, GapHours(b)));
      }
      var vals := remapper.FieldsAt(b);
      if vals.Err? {
        FirstFault(s, brackets, i + 1);
        return Err(vals.error), remapper.fetched, stats;
      }
      out := out + [Written(b.target, vals.value)];
      i := i + 1;
    }
    assert brackets[..i] == brackets;
    return Ok(out), remapper.fetched, stats;
  }

  /** How the times of a product were filled. */
  datatype Stats = Stats(exact: nat, heldOrNearest: nat, interpolated: nat, largestGapHours: real)

  const MICROSECONDS_PER_HOUR: real := 3.6e9

  function GapHours(b: T.TimeBracket): real {
    (b.after.validTime - b.before.validTime) as real / MICROSECONDS_PER_HOUR
  }

  function Counted(s: Stats, b: T.TimeBracket): Stats {
    if b.before == b.after then s.(exact := s.exact + 1)
    else s.(interpolated := s.interpolated + 1, largestGapHours := Max(s.largestGapHours, GapHours(b)))
  }

  function Filled(brackets: seq<T.TimeBracket>): Stats {
    if brackets == [] then Stats(0, 0, 0, 0.0)
    else Counted(Filled(brackets[..|brackets| - 1]), brackets[|brackets| - 1])
  }

  lemma NextFilled(brackets: seq<T.TimeBracket>, i: nat)
    requires i < |brackets|
    ensures Filled(brackets[..i + 1]) == Counted(Filled(brackets[..i]), brackets[i])
  {
    hide Counted;
    assert brackets[..i + 1][..i] == brackets[..i];
  }

  lemma NoBrackets(s: Setup, brackets: seq<T.TimeBracket>)
    requires Ready(s)
    ensures Naive(s, brackets[..0]) == Ok([]) && Accesses(Pairs(brackets[..0]), s.fields) == []
    ensures Filled(brackets[..0]) == Stats(0, 0, 0, 0.0)
  {
  }

  /** A bracket counts as exact whenever one record serves it, so held and nearest records count
      as exact and the third counter never moves. */
  lemma {:induction false} HeldIsNeverCounted(brackets: seq<T.TimeBracket>)
    ensures
      var s := Filled(brackets);
      && s.heldOrNearest == 0 && s.exact + s.interpolated == |brackets|
      && (forall i :: 0 <= i < |brackets| && brackets[i].before != brackets[i].after ==>
            GapHours(brackets[i]) <= s.largestGapHours)
  {
    if brackets != [] {
      HeldIsNeverCounted(brackets[..|brackets| - 1]);
      assert forall i :: 0 <= i < |brackets| - 1 ==> brackets[..|brackets| - 1][i] == brackets[i];
    }
  }

  /** The first n brackets that one record serves alone. */
  ghost function Single(brackets: seq<T.TimeBracket>, n: nat): set<int>
    requires n <= |brackets|
  {
    set i | 0 <= i < n && brackets[i].before == brackets[i].after
  }

  /** The exact counter is the number of brackets that one record serves alone. */
  lemma {:induction false} ExactCountsSingles(brackets: seq<T.TimeBracket>, n: nat)
    requires n <= |brackets|
    ensures Filled(brackets[..n]).exact == |Single(brackets, n)|
  {
    hide Filled, GapHours;
    NoneFilled(brackets);
    if n > 0 {
      ExactCountsSingles(brackets, n - 1);
      NextFilled(brackets, n - 1);
      var before := Single(brackets, n - 1);
      assert Single(brackets, n) ==
             if brackets[n - 1].before == brackets[n - 1].after then before + {n - 1} else before;
    }
  }

  lemma NoneFilled(brackets: seq<T.TimeBracket>)
    ensures Filled(brackets[..0]) == Stats(0, 0, 0, 0.0) && Single(brackets, 0) == {}
  {
  }

  /** The largest gap is that of some interpolated bracket, unless none is larger than zero. */
  lemma {:induction false} LargestGapIsAGap(brackets: seq<T.TimeBracket>) returns (i: nat)
    ensures Filled(brackets).largestGapHours == 0.0 ||
            (i < |brackets| && brackets[i].before != brackets[i].after &&
             Filled(brackets).largestGapHours == GapHours(brackets[i]))
    ensures i < |brackets| ==>
      Times(GapHours(brackets[i]), MICROSECONDS_PER_HOUR) ==
      (brackets[i].after.validTime - brackets[i].before.validTime) as real
  {
    i := 0;
    if brackets != [] {
      i := LargestGapAmong(brackets);
      Quotient((brackets[i].after.validTime - brackets[i].before.validTime) as real, MICROSECONDS_PER_HOUR, 0.0);
    }
  }

  lemma {:induction false} LargestGapAmong(brackets: seq<T.TimeBracket>) returns (i: nat)
    requires brackets != []
    ensures i < |brackets|
    ensures Filled(brackets).largestGapHours == 0.0 ||
            (brackets[i].before != brackets[i].after && Filled(brackets).largestGapHours == GapHours(brackets[i]))
  {
    hide GapHours;
    i := 0;
    var n := |brackets| - 1;
    if n > 0 {
      i := LargestGapAmong(brackets[..n]);
    }
    if brackets[n].before != brackets[n].after && Filled(brackets[..n]).largestGapHours < GapHours(brackets[n]) {
      i := n;
    }
  }

  lemma {:induction false} FirstFault(s: Setup, brackets: seq<T.TimeBracket>, n: nat)
    requires Ready(s) && n <= |brackets| && Naive(s, brackets[..n]).Err?
    ensures Naive(s, brackets) == Naive(s, brackets[..n])
    decreases |brackets|
  {
    hide Values;
    if n < |brackets| {
      assert brackets[..|brackets| - 1][..n] == brackets[..n];
      FirstFault(s, brackets[..|brackets| - 1], n);
    } else {
      assert brackets[..n] == brackets;
    }
  }

  lemma {:induction false} FirstFieldFault(s: Setup, b: T.TimeBracket, fields: seq<string>, f: nat)
    requires Ready(s) && f <= |fields| && Values(s, b, fields[..f]).Err?
    ensures Values(s, b, fields) == Values(s, b, fields[..f])
    decreases |fields|
  {
    hide Value;
    if f < |fields| {
      assert fields[..|fields| - 1][..f] == fields[..f];
      FirstFieldFault(s, b, fields[..|fields| - 1], f);
    } else {
      assert fields[..f] == fields;
    }
  }

  lemma NextBracket(s: Setup, brackets: seq<T.TimeBracket>, i: nat)
    requires Ready(s) && i < |brackets|
    ensures
      var done, last := Naive(s, brackets[..i]), Values(s, brackets[i], s.fields);
      Naive(s, brackets[..i + 1]) ==
        if done.Err? then done
        else if last.Err? then Err(last.error)
        else Ok(done.value + [Written(brackets[i].target, last.value)])
    ensures Accesses(Pairs(brackets[..i + 1]), s.fields) ==
            Accesses(Pairs(brackets[..i]), s.fields) + Chunk(Pairs(brackets)[i], s.fields)
  {
    hide Values, Chunk;
    assert brackets[..i + 1][..i] == brackets[..i];
    assert Pairs(brackets[..i + 1])[..i] == Pairs(brackets[..i]);
  }

  lemma NextField(s: Setup, b: T.TimeBracket, f: nat)
    requires Ready(s) && f < |s.fields|
    ensures
      var done, last := Values(s, b, s.fields[..f]), Value(s, b, s.fields[f]);
      Values(s, b, s.fields[..f + 1]) ==
        if done.Err? then done else if last.Err? then Err(last.error) else Ok(done.value + [last.value])
  {
    hide Value;
    assert s.fields[..f + 1][..f] == s.fields[..f];
  }
}
