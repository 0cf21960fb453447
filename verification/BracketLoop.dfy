/** The accesses of a loop over time brackets and fields, and how soon they recur. */
module BracketLoop {
  import opened LruCache
  import opened Permutations

  datatype Pair<R> = Pair(before: R, after: R)

  /** Accesses of one bracket: per field the earlier record, then the later one if it differs. */
  function Chunk<R(==), N>(p: Pair<R>, names: seq<N>): (c: seq<(R, N)>)
    ensures |c| == if p.before == p.after then |names| else 2 * |names|
  {
    if p.before == p.after then
      seq(|names|, q requires 0 <= q < |names| => (p.before, names[q]))
    else
      seq(2 * |names|, q requires 0 <= q < 2 * |names| => (if q % 2 == 0 then p.before else p.after, names[q / 2]))
  }

  lemma ChunkNext<R, N>(p: Pair<R>, names: seq<N>, f: nat)
    requires f < |names|
    ensures Chunk(p, names[..f + 1]) == Chunk(p, names[..f]) + Chunk(p, [names[f]])
    ensures Chunk(p, [names[f]]) ==
            [(p.before, names[f])] + if p.before == p.after then [] else [(p.after, names[f])]
  {
  }

  function Accesses<R(==), N>(pairs: seq<Pair<R>>, names: seq<N>): seq<(R, N)> {
    if pairs == [] then []
    else Accesses(pairs[..|pairs| - 1], names) + Chunk(pairs[|pairs| - 1], names)
  }

  predicate Uses<R(==)>(p: Pair<R>, r: R) { r == p.before || r == p.after }

  /** Every bracket is one record or two neighbours of a time-ordered list without repeats, and
      neither side moves back. */
  ghost predicate Advances<R>(pairs: seq<Pair<R>>, records: seq<R>, before: seq<nat>, after: seq<nat>) {
    && |before| == |after| == |pairs|
    && NoRepeats(records)
    && (forall i :: 0 <= i < |pairs| ==> before[i] <= after[i] <= before[i] + 1 && after[i] < |records|)
    && (forall i :: 0 <= i < |pairs| ==> pairs[i] == Pair(records[before[i]], records[after[i]]))
    && (forall i, j :: 0 <= i < j < |pairs| ==> before[i] <= before[j] && after[i] <= after[j])
  }

  lemma AdvancesBefore<R>(pairs: seq<Pair<R>>, records: seq<R>, before: seq<nat>, after: seq<nat>)
    requires pairs != [] && Advances(pairs, records, before, after)
    ensures
      var n := |pairs| - 1;
      |before| == |after| == |pairs| && Advances(pairs[..n], records, before[..n], after[..n])
  {
  }

  lemma {:induction false} AccessedUses<R, N>(pairs: seq<Pair<R>>, names: seq<N>, key: (R, N)) returns (i: nat)
    requires key in Accesses(pairs, names)
    ensures i < |pairs| && Uses(pairs[i], key.0)
  {
    hide Chunk;
    var n := |pairs| - 1;
    if q :| 0 <= q < |Chunk(pairs[n], names)| && Chunk(pairs[n], names)[q] == key {
      PlaceIs(pairs[n], names, q);
      i := n;
    } else {
      i := AccessedUses(pairs[..n], names, key);
    }
  }

  /** A record used now and in some earlier bracket was used in the bracket just before. */
  lemma UsedJustBefore<R>(pairs: seq<Pair<R>>, records: seq<R>, before: seq<nat>, after: seq<nat>, i: nat, r: R)
    requires Advances(pairs, records, before, after)
    requires i < |pairs| - 1 && Uses(pairs[i], r) && Uses(pairs[|pairs| - 1], r)
    ensures Uses(pairs[|pairs| - 2], r)
  {
    var m, n := |pairs| - 2, |pairs| - 1;
    var k := if r == pairs[i].before then before[i] else after[i];
    var l := if r == pairs[n].before then before[n] else after[n];
    assert records[k] == r == records[l];
    assert k == l;
    if i < m {
      assert after[i] <= after[m];
    }
    assert before[m] <= k <= after[m];
  }

  /** Where field f of record r stands in the accesses of one bracket. */
  function Place<R(==)>(p: Pair<R>, r: R, f: nat): nat {
    if p.before == p.after then f else if r == p.before then 2 * f else 2 * f + 1
  }

  lemma PlaceIs<R, N>(p: Pair<R>, names: seq<N>, q: nat)
    requires q < |Chunk(p, names)|
    ensures
      var f := if p.before == p.after then q else q / 2;
      f < |names| && Chunk(p, names)[q].1 == names[f] && Uses(p, Chunk(p, names)[q].0)
      && q == Place(p, Chunk(p, names)[q].0, f)
  {
  }

  lemma ChunkAt<R, N>(p: Pair<R>, names: seq<N>, r: R, f: nat)
    requires Uses(p, r) && f < |names|
    ensures Place(p, r, f) < |Chunk(p, names)| && Chunk(p, names)[Place(p, r, f)] == (r, names[f])
  {
  }

  /** From one bracket to the next, the same key recurs within two accesses per field. */
  lemma StepDistance<R>(pairs: seq<Pair<R>>, records: seq<R>, before: seq<nat>, after: seq<nat>, r: R, f: nat,
                        fields: nat)
    requires Advances(pairs, records, before, after) && |pairs| >= 2 && f < fields
    requires Uses(pairs[|pairs| - 2], r) && Uses(pairs[|pairs| - 1], r)
    ensures
      var p, q := pairs[|pairs| - 2], pairs[|pairs| - 1];
      (if p.before == p.after then fields else 2 * fields) - Place(p, r, f) + Place(q, r, f) <= 2 * fields
  {
    var m, n := |pairs| - 2, |pairs| - 1;
    assert before[m] <= before[n];
    if pairs[m].before == r && pairs[n].before != r {
      assert records[after[n]] == r == records[before[m]];
      assert after[n] == before[m];
    }
  }

  lemma LastChunk<R, N>(pairs: seq<Pair<R>>, names: seq<N>, at: nat)
    requires pairs != [] && at < |Chunk(pairs[|pairs| - 1], names)|
    ensures
      var history, chunk := Accesses(pairs, names), Chunk(pairs[|pairs| - 1], names);
      && |history| == |Accesses(pairs[..|pairs| - 1], names)| + |chunk|
      && history[|history| - |chunk| + at] == chunk[at]
  {
    hide Chunk;
  }

  /** A key of the last bracket that was accessed in an earlier one: where to find it again. */
  lemma FoundAgain<R, N>(pairs: seq<Pair<R>>, records: seq<R>, before: seq<nat>, after: seq<nat>, names: seq<N>, q: nat)
    returns (at: nat)
    requires pairs != [] && Advances(pairs, records, before, after)
    requires q < |Chunk(pairs[|pairs| - 1], names)|
    requires Chunk(pairs[|pairs| - 1], names)[q] in Accesses(pairs[..|pairs| - 1], names)
    ensures
      var past := Accesses(pairs[..|pairs| - 1], names);
      at < |past| <= at + 2 * |names| - q && past[at] == Chunk(pairs[|pairs| - 1], names)[q]
  {
    hide Chunk, Accesses, Place;
    var last, rest := pairs[|pairs| - 1], pairs[..|pairs| - 1];
    var key := Chunk(last, names)[q];
    PlaceIs(last, names, q);
    var f := if last.before == last.after then q else q / 2;
    var b := AccessedUses(rest, names, key);
    UsedJustBefore(pairs, records, before, after, b, key.0);
    StepDistance(pairs, records, before, after, key.0, f, |names|);
    var prev := pairs[|pairs| - 2];
    assert rest[|rest| - 1] == prev;
    ChunkAt(prev, names, key.0, f);
    LastChunk(rest, names, Place(prev, key.0, f));
    at := |Accesses(rest, names)| - |Chunk(prev, names)| + Place(prev, key.0, f);
  }

  /** One more bracket keeps every recurrence within two accesses per field. */
  lemma ChunkRecurs<R, N>(pairs: seq<Pair<R>>, records: seq<R>, before: seq<nat>, after: seq<nat>, names: seq<N>,
                          q: nat)
    requires pairs != [] && Advances(pairs, records, before, after)
    requires q < |Chunk(pairs[|pairs| - 1], names)|
    ensures
      var history := Accesses(pairs, names);
      var n := |Accesses(pairs[..|pairs| - 1], names)| + q;
      n < |history| && RecursAt(history, n, 2 * |names|)
  {
    hide Chunk, Advances;
    var chunk := Chunk(pairs[|pairs| - 1], names);
    var past, history := Accesses(pairs[..|pairs| - 1], names), Accesses(pairs, names);
    assert history == past + chunk;
    hide Accesses;
    var n, key := |past| + q, chunk[q];
    if key in past {
      var at := FoundAgain(pairs, records, before, after, names, q);
      assert history[at] == key;
    } else if key in history[..n] {
      assert history[..n] == past + chunk[..q];
      var i :| 0 <= i < q && chunk[..q][i] == key;
      assert history[|past| + i] == key;
    }
  }

  lemma AccessesEnd<R, N>(pairs: seq<Pair<R>>, names: seq<N>)
    requires pairs != []
    ensures Accesses(pairs[..|pairs| - 1], names) <= Accesses(pairs, names)
    ensures |Accesses(pairs, names)| ==
            |Accesses(pairs[..|pairs| - 1], names)| + |Chunk(pairs[|pairs| - 1], names)|
  {
  }

  lemma RecursInPrefix<K>(past: seq<K>, history: seq<K>, n: nat, window: nat)
    requires past <= history && n < |past| && Recurs(past, window)
    ensures RecursAt(history, n, window)
  {
    assert history[..n] == past[..n];
    assert RecursAt(past, n, window);
    if past[n] in past[..n] {
      var i :| 0 <= i < n <= i + window && past[i] == past[n];
      assert history[i] == history[n];
    }
  }

  lemma RecursExtends<K>(past: seq<K>, history: seq<K>, window: nat)
    requires past <= history && Recurs(past, window)
    requires forall n: nat :: |past| <= n < |history| ==> RecursAt(history, n, window)
    ensures Recurs(history, window)
  {
    forall n: nat | n < |history|
      ensures RecursAt(history, n, window)
    {
      if n < |past| {
        RecursInPrefix(past, history, n, window);
      }
    }
  }

  lemma NoAccesses<R, N>(names: seq<N>)
    ensures Recurs(Accesses<R, N>([], names), 2 * |names|)
  {
  }

  lemma {:induction false} BracketsRecur<R, N>(pairs: seq<Pair<R>>, records: seq<R>, before: seq<nat>,
                                               after: seq<nat>, names: seq<N>)
    requires Advances(pairs, records, before, after)
    ensures Recurs(Accesses(pairs, names), 2 * |names|)
  {
    hide Chunk, Advances, RecursAt, Recurs, Accesses;
    if pairs == [] {
      NoAccesses<R, N>(names);
    } else {
      var m := |pairs| - 1;
      var past, history := Accesses(pairs[..m], names), Accesses(pairs, names);
      AccessesEnd(pairs, names);
      AdvancesBefore(pairs, records, before, after);
      BracketsRecur(pairs[..m], records, before[..m], after[..m], names);
      forall n: nat | |past| <= n < |history|
        ensures RecursAt(history, n, 2 * |names|)
      {
        ChunkRecurs(pairs, records, before, after, names, n - |past|);
      }
      RecursExtends(past, history, 2 * |names|);
    }
  }

  /** For time-ordered targets a cache of two entries per field never remaps anything twice. */
  lemma EachRemappedOnce<R, N>(pairs: seq<Pair<R>>, records: seq<R>, before: seq<nat>, after: seq<nat>,
                               names: seq<N>, capacity: nat)
    requires Advances(pairs, records, before, after) && 2 * |names| <= capacity
    ensures Misses(Accesses(pairs, names), capacity) == Firsts(Accesses(pairs, names))
  {
    BracketsRecur(pairs, records, before, after, names);
    NothingMissedTwice(Accesses(pairs, names), 2 * |names|, capacity);
  }

  /** One entry less and two equal brackets already remap everything twice. */
  lemma OneLessThrashes<R, N>(b: R, a: R, names: seq<N>)
    requires b != a && names != [] && NoRepeats(names)
    ensures
      var history := Accesses([Pair(b, a), Pair(b, a)], names);
      |history| == 4 * |names| && Misses(history, 2 * |names| - 1) == history
  {
    hide Chunk, Accesses, Misses;
    var p := Pair(b, a);
    var chunk := Chunk(p, names);
    TwoChunks(p, names);
    forall i, j | 0 <= i < j < |chunk|
      ensures chunk[i] != chunk[j]
    {
      DistinctInChunk(p, names, i, j);
    }
    Doubled(chunk);
    Thrashes(chunk + chunk, |chunk| - 1);
  }

  lemma TwoChunks<R, N>(p: Pair<R>, names: seq<N>)
    ensures Accesses([p, p], names) == Chunk(p, names) + Chunk(p, names)
  {
    hide Chunk;
    assert [p, p][..1] == [p] && [p][..0] == [];
    assert Accesses([p], names) == Accesses<R, N>([], names) + Chunk(p, names);
  }

  lemma Doubled<K>(c: seq<K>)
    requires NoRepeats(c)
    ensures NeverRecurs(c + c, |c|)
  {
    forall i, j | 0 <= i < j < |c + c| && j < i + |c|
      ensures (c + c)[i] != (c + c)[j]
    {
      var x, y := if i < |c| then i else i - |c|, if j < |c| then j else j - |c|;
      assert (c + c)[i] == c[x] && (c + c)[j] == c[y] && x != y;
    }
  }

  lemma DistinctInChunk<R, N>(p: Pair<R>, names: seq<N>, i: nat, j: nat)
    requires p.before != p.after && NoRepeats(names)
    requires i < 2 * |names| && j < 2 * |names| && i != j
    ensures Chunk(p, names)[i] != Chunk(p, names)[j]
  {
  }
}
