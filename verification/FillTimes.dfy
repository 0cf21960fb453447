/** Filling missing times of a file that is already on the mesh: the second cached loop. */
module FillTimes {
  import opened Outcome
  import opened Reals
  import opened Vectors
  import opened LruCache
  import opened BracketLoop
  import L = InventoryLoop
  import I = InventoryTheorems
  import T = TimeAxis
  import B = TimeBrackets

  type Key = (nat, string)

  /** A file as its record times and its fields by record index and name. */
  datatype File = File(path: string, times: seq<int>, names: seq<string>, cells: nat, field: (nat, string) -> Vector)

  ghost predicate Sized(f: File) {
    forall i: nat, name :: |f.field(i, name)| == f.cells
  }

  function Records(f: File): (rs: seq<T.SourceRecord>)
    ensures |rs| == |f.times|
    ensures forall i :: 0 <= i < |rs| ==> rs[i] == T.SourceRecord(f.times[i], f.path, i)
  {
    seq(|f.times|, i requires 0 <= i < |f.times| => T.SourceRecord(f.times[i], f.path, i))
  }

  /** The accesses use record indices; records of one file differ exactly by their index. */
  function IndexPairs(brackets: seq<T.TimeBracket>): (ps: seq<Pair<nat>>)
    ensures |ps| == |brackets|
    ensures forall i :: 0 <= i < |ps| ==> ps[i] == Pair(brackets[i].before.timeIndex, brackets[i].after.timeIndex)
  {
    seq(|brackets|, i requires 0 <= i < |brackets| => Pair(brackets[i].before.timeIndex, brackets[i].after.timeIndex))
  }

  function FieldAt(f: File, b: T.TimeBracket, name: string): Vector
    requires Sized(f)
  {
    var x := f.field(b.before.timeIndex, name);
    if b.before == b.after then x else Mix(b.alpha, x, f.field(b.after.timeIndex, name))
  }

  function FieldsAt(f: File, b: T.TimeBracket, names: seq<string>): (vs: seq<Vector>)
    requires Sized(f)
    ensures |vs| == |names| && forall k :: 0 <= k < |names| ==> vs[k] == FieldAt(f, b, names[k])
  {
    seq(|names|, k requires 0 <= k < |names| => FieldAt(f, b, names[k]))
  }

  class Reader {
    const file: File
    const cache: L.OrderedCache<Key, Vector>
    var fetched: seq<Key>
    ghost var history: seq<Key>

    ghost predicate Valid() reads this, cache {
      && Sized(file) && cache.Valid() && cache.capacity == L.Capacity(file.names)
      && cache.keys == Cached(history, cache.capacity)
      && fetched == Misses(history, cache.capacity)
      && forall k :: k in cache.keys ==> cache.values[k] == file.field(k.0, k.1)
    }

    constructor (file: File)
      requires Sized(file)
      ensures Valid() && fresh(cache) && this.file == file && history == []
    {
      this.file := file;
      cache := new L.OrderedCache(L.Capacity(file.names));
      fetched, history := [], [];
    }

    method Get(key: Key) returns (x: Vector)
      requires Valid()
      modifies this, cache
      ensures Valid() && x == file.field(key.0, key.1) && history == old(history) + [key]
    {
      hide Cached, Misses, Touch;
      OneMoreAccess(history, key, cache.capacity);
      history := history + [key];
      if key in cache.keys {
        x := cache.Reuse(key);
      } else {
        x := file.field(key.0, key.1);
        fetched := fetched + [key];
        cache.Store(key, x);
      }
    }

    method Fields(b: T.TimeBracket) returns (vals: seq<Vector>)
      requires Valid() && (b.before == b.after <==> b.before.timeIndex == b.after.timeIndex)
      modifies this, cache
      ensures Valid() && vals == FieldsAt(file, b, file.names)
      ensures history == old(history) + Chunk(Pair(b.before.timeIndex, b.after.timeIndex), file.names)
    {
      hide Chunk, FieldAt, FieldsAt;
      ghost var p := Pair(b.before.timeIndex, b.after.timeIndex);
      NoFields(file, b);
      vals := [];
      var k := 0;
      while k < |file.names|
        invariant 0 <= k <= |file.names| && Valid()
        invariant vals == FieldsAt(file, b, file.names[..k])
        invariant history == old(history) + Chunk(p, file.names[..k])
      {
        ChunkNext(p, file.names, k);
        NextField(file, b, k);
        var v := OneField(b, file.names[k]);
        vals := vals + [v];
        k := k + 1;
      }
      assert file.names[..k] == file.names;
    }

    method OneField(b: T.TimeBracket, name: string) returns (v: Vector)
      requires Valid() && (b.before == b.after <==> b.before.timeIndex == b.after.timeIndex)
      modifies this, cache
      ensures Valid() && v == FieldAt(file, b, name)
      ensures history == old(history) + Chunk(Pair(b.before.timeIndex, b.after.timeIndex), [name])
    {
      ChunkNext(Pair(b.before.timeIndex, b.after.timeIndex), [name], 0);
      v := Get((b.before.timeIndex, name));
      if b.before != b.after {
        var y := Get((b.after.timeIndex, name));
        v := Mix(b.alpha, v, y);
      }
    }
  }

  lemma NoFields(f: File, b: T.TimeBracket)
    requires Sized(f)
    ensures FieldsAt(f, b, f.names[..0]) == []
    ensures Chunk(Pair(b.before.timeIndex, b.after.timeIndex), f.names[..0]) == []
  {
  }

  lemma NextField(f: File, b: T.TimeBracket, k: nat)
    requires Sized(f) && k < |f.names|
    ensures FieldsAt(f, b, f.names[..k + 1]) == FieldsAt(f, b, f.names[..k]) + [FieldAt(f, b, f.names[k])]
  {
    hide FieldAt;
  }

  // ---- The whole program ----

  function Filled(f: File, brackets: seq<T.TimeBracket>): (out: seq<L.Written>)
    requires Sized(f)
    ensures |out| == |brackets|
    ensures forall i :: 0 <= i < |out| ==>
      out[i] == L.Written(brackets[i].target, FieldsAt(f, brackets[i], f.names))
  {
    seq(|brackets|, i requires 0 <= i < |brackets| =>
      L.Written(brackets[i].target, FieldsAt(f, brackets[i], f.names)))
  }

  /** Equal records have equal indices, and the other way round. */
  lemma RecordsDifferByIndex(f: File, targets: seq<int>, p: T.Policy, i: nat)
    requires T.Resolve(Records(f), targets, false, p).Ok? && i < |targets|
    ensures
      var b := T.Resolve(Records(f), targets, false, p).value[i];
      && b.before in Records(f) && b.after in Records(f)
      && (b.before == b.after <==> b.before.timeIndex == b.after.timeIndex)
  {
    hide T.Locate, T.ServeAll, T.ByKey;
    B.ServedEach(T.ByKey(Records(f), false), T.SortedKeys(Records(f), false), targets, false, p, i);
  }

  /** Reads each needed (record, field) pair of the file once, and fills every target. */
  method Fill(f: File, targets: seq<int>, p: T.Policy)
    returns (r: Result<seq<L.Written>, T.Fault>, fetched: seq<Key>)
    requires Sized(f)
    ensures
      var brackets := T.Resolve(Records(f), targets, false, p);
      && (brackets.Err? ==> r == Err(brackets.error))
      && (brackets.Ok? ==> r == Ok(Filled(f, brackets.value)))
      && (brackets.Ok? && B.Ordered(targets) ==>
            fetched == Firsts(Accesses(IndexPairs(brackets.value), f.names)))
  {
    hide FieldsAt, Chunk, T.Resolve, L.Capacity;
    var brackets := T.ResolveBrackets(Records(f), targets, p);
    if brackets.Err? {
      return Err(brackets.error), [];
    }
    var reader := new Reader(f);
    var out := [];
    var i := 0;
    while i < |targets|
      invariant 0 <= i <= |targets| && fresh(reader) && fresh(reader.cache)
      invariant reader.Valid() && reader.file == f
      invariant out == Filled(f, brackets.value[..i])
      invariant reader.history == Accesses(IndexPairs(brackets.value[..i]), f.names)
    {
      var b := brackets.value[i];
      RecordsDifferByIndex(f, targets, p, i);
      NextChunk(brackets.value, f.names, i);
      var vals := reader.Fields(b);
      out := out + [L.Written(b.target, vals)];
      i := i + 1;
    }
    assert brackets.value[..i] == brackets.value;
    if B.Ordered(targets) {
      EachPairReadOnce(f, targets, p);
    }
    return Ok(out), reader.fetched;
  }

  lemma NextChunk(brackets: seq<T.TimeBracket>, names: seq<string>, i: nat)
    requires i < |brackets|
    ensures Accesses(IndexPairs(brackets[..i + 1]), names) ==
            Accesses(IndexPairs(brackets[..i]), names) +
            Chunk(Pair(brackets[i].before.timeIndex, brackets[i].after.timeIndex), names)
  {
    hide Chunk;
    assert IndexPairs(brackets[..i + 1])[..i] == IndexPairs(brackets[..i]);
  }

  /** The indices of the records in time order. */
  ghost function Indices(rs: seq<T.SourceRecord>): (ids: seq<nat>)
    ensures |ids| == |rs| && forall i :: 0 <= i < |rs| ==> ids[i] == rs[i].timeIndex
  {
    seq(|rs|, i requires 0 <= i < |rs| => rs[i].timeIndex)
  }

  lemma EachPairReadOnce(f: File, targets: seq<int>, p: T.Policy)
    requires B.Ordered(targets) && T.Resolve(Records(f), targets, false, p).Ok?
    ensures
      var history := Accesses(IndexPairs(T.Resolve(Records(f), targets, false, p).value), f.names);
      Misses(history, L.Capacity(f.names)) == Firsts(history)
  {
    hide T.ServeAll, T.KeyTime, T.Locate;
    var brackets := T.Resolve(Records(f), targets, false, p).value;
    var index, ts := T.ByKey(Records(f), false), T.SortedKeys(Records(f), false);
    T.SortedIndex(Records(f), false);
    I.ServedAdvance(index, ts, targets, false, p);
    var records := I.InOrder(index, ts, false);
    var before, after := I.Located(ts, targets, false, p, false), I.Located(ts, targets, false, p, true);
    OnIndices(f, brackets, records, before, after);
    EachRemappedOnce(IndexPairs(brackets), Indices(records), before, after, f.names, L.Capacity(f.names));
  }

  lemma OnIndices(f: File, brackets: seq<T.TimeBracket>, records: seq<T.SourceRecord>, before: seq<nat>,
                  after: seq<nat>)
    requires Advances(L.Pairs(brackets), records, before, after)
    requires forall i :: 0 <= i < |records| ==> records[i] in Records(f)
    ensures Advances(IndexPairs(brackets), Indices(records), before, after)
  {
    forall i, j | 0 <= i < j < |records|
      ensures Indices(records)[i] != Indices(records)[j]
    {
      assert records[i] in Records(f) && records[j] in Records(f);
    }
  }

  // ---- What is filled in ----

  /** A target that is a time of the file gets that record's own fields. */
  lemma KnownTimesAreCopied(f: File, targets: seq<int>, p: T.Policy, i: nat, n: nat, k: nat)
    requires Sized(f) && T.Resolve(Records(f), targets, false, p).Ok? && i < |targets| && n < |f.names|
    requires k < |f.times| && f.times[k] == targets[i]
    ensures
      var w := Filled(f, T.Resolve(Records(f), targets, false, p).value)[i];
      w.target == targets[i] && |w.values| == |f.names| && w.values[n] == f.field(k, f.names[n])
  {
    hide T.Resolve, B.AllLater, B.AllEarlier, Mix;
    var b := T.Resolve(Records(f), targets, false, p).value[i];
    B.EveryBracketAnswers(Records(f), targets, false, p, i);
    B.ResolvesIff(Records(f), targets, false, p);
    assert Records(f)[k] in Records(f) && B.TimeOf(Records(f)[k], false) == targets[i];
    B.KeyedRecordIsUnique(Records(f), false, b.before, Records(f)[k]);
  }

  /** A field that changes linearly in time is filled in with its value at the target time. */
  lemma LinearFieldIsReproduced(f: File, targets: seq<int>, p: T.Policy, i: nat, n: nat, x: Vector, y: Vector)
    requires Sized(f) && T.Resolve(Records(f), targets, false, p).Ok? && i < |targets| && n < |f.names|
    requires p.missing.Linear? && |x| == |y| == f.cells
    requires forall k: nat :: k < |f.times| ==> f.field(k, f.names[n]) == Add(x, Scale(f.times[k] as real, y))
    requires (exists k :: 0 <= k < |f.times| && f.times[k] <= targets[i])
    requires (exists k :: 0 <= k < |f.times| && targets[i] <= f.times[k])
    ensures
      var w := Filled(f, T.Resolve(Records(f), targets, false, p).value)[i];
      w.target == targets[i] && |w.values| == |f.names| && w.values[n] == Add(x, Scale(targets[i] as real, y))
  {
    hide T.Resolve, Mix, Scale, Add, Blend;
    var b := T.Resolve(Records(f), targets, false, p).value[i];
    B.EveryBracketAnswers(Records(f), targets, false, p, i);
    forall k | 0 <= k < |f.times|
      ensures Records(f)[k] in Records(f) && B.TimeOf(Records(f)[k], false) == f.times[k]
    {
    }
    if b.before != b.after {
      MixOfLinear(b.alpha, x, y, b.before.validTime as real, b.after.validTime as real);
    }
  }
}
