/** A least-recently-used cache, and when it behaves as an unbounded one. */
module LruCache {
  import opened Permutations

  /** Keys from least to most recently used, after one more access. */
  function Touch<K(==)>(keys: seq<K>, key: K, capacity: nat): (after: seq<K>)
    ensures forall k :: k in after ==> k in keys || k == key
  {
    if key in keys then
      Removed(keys, key) + [key]
    else if |keys| + 1 > capacity then (keys + [key])[|keys| + 1 - capacity..]
    else keys + [key]
  }

  function Removed<K(==)>(keys: seq<K>, key: K): (rest: seq<K>)
    requires key in keys
    ensures |rest| == |keys| - 1
    ensures forall k :: k in rest ==> k in keys
  {
    if keys[0] == key then keys[1..] else [keys[0]] + Removed(keys[1..], key)
  }

  /** The cache after a history of accesses that starts empty. */
  function Cached<K(==)>(history: seq<K>, capacity: nat): (keys: seq<K>)
    ensures forall k :: k in keys ==> k in history
  {
    if history == [] then []
    else Touch(Cached(history[..|history| - 1], capacity), history[|history| - 1], capacity)
  }

  /** The accesses that were not served from the cache. */
  function Misses<K(==)>(history: seq<K>, capacity: nat): seq<K> {
    if history == [] then []
    else
      var before, key := history[..|history| - 1], history[|history| - 1];
      Misses(before, capacity) + if key in Cached(before, capacity) then [] else [key]
  }

  /** The first access of every key: all that an unbounded cache would miss. */
  function Firsts<K(==)>(history: seq<K>): (f: seq<K>)
    ensures (forall k :: k in f ==> k in history) && (forall k :: k in history ==> k in f)
    ensures NoRepeats(f)
  {
    if history == [] then []
    else
      var before, key := history[..|history| - 1], history[|history| - 1];
      assert history == before + [key];
      Firsts(before) + if key in before then [] else [key]
  }

  /** Every access to a key seen before repeats one of the last `window` accesses. */
  ghost predicate Recurs<K>(history: seq<K>, window: nat) {
    forall n: nat :: n < |history| ==> RecursAt(history, n, window)
  }

  ghost predicate RecursAt<K>(history: seq<K>, n: nat, window: nat)
    requires n < |history|
  {
    history[n] in history[..n] ==> Repeated(history, n, window)
  }

  ghost predicate Repeated<K>(history: seq<K>, n: nat, window: nat)
    requires n < |history|
  {
    exists i :: 0 <= i < n <= i + window && history[i] == history[n]
  }

  /** Position of a key counted from the most recently used end. */
  ghost predicate WithinLast<K>(keys: seq<K>, key: K, d: nat) {
    exists p :: 0 <= p < |keys| && keys[p] == key && |keys| - p <= d
  }

  lemma {:induction false} RemovedKeeps<K>(keys: seq<K>, key: K, k: K, d: nat)
    requires key in keys && k != key && WithinLast(keys, k, d)
    ensures WithinLast(Removed(keys, key), k, d)
  {
    var p :| 0 <= p < |keys| && keys[p] == k && |keys| - p <= d;
    var rest := Removed(keys, key);
    if keys[0] == key {
      assert rest[p - 1] == k;
    } else if p > 0 {
      assert keys[1..][p - 1] == k;
      RemovedKeeps(keys[1..], key, k, d);
      var q :| 0 <= q < |rest| - 1 && Removed(keys[1..], key)[q] == k && |rest| - 1 - q <= d;
      assert rest[q + 1] == k;
    } else {
      assert rest[0] == k;
    }
  }

  lemma TouchKeeps<K>(keys: seq<K>, key: K, k: K, d: nat, capacity: nat)
    requires WithinLast(keys, k, d) && d < capacity
    ensures WithinLast(Touch(keys, key, capacity), k, d + 1)
  {
    var after := Touch(keys, key, capacity);
    if k == key {
      assert after[|after| - 1] == k;
    } else if key in keys {
      RemovedKeeps(keys, key, k, d);
      var rest := Removed(keys, key);
      var q :| 0 <= q < |rest| && rest[q] == k && |rest| - q <= d;
      assert after[q] == k;
    } else {
      var p :| 0 <= p < |keys| && keys[p] == k && |keys| - p <= d;
      var dropped := if |keys| + 1 > capacity then |keys| + 1 - capacity else 0;
      assert after[p - dropped] == k;
    }
  }

  /** The last `capacity` accesses are all still cached. */
  lemma {:induction false} RecentIsCached<K>(history: seq<K>, i: nat, capacity: nat)
    requires i < |history| <= i + capacity
    ensures WithinLast(Cached(history, capacity), history[i], |history| - i)
  {
    var n := |history| - 1;
    var before := Cached(history[..n], capacity);
    if i < n {
      RecentIsCached(history[..n], i, capacity);
      TouchKeeps(before, history[n], history[i], n - i, capacity);
    } else {
      var after := Touch(before, history[n], capacity);
      assert after[|after| - 1] == history[n];
    }
  }

  lemma LastAccess<K>(history: seq<K>, capacity: nat)
    requires history != []
    ensures
      var before, key := history[..|history| - 1], history[|history| - 1];
      && Cached(history, capacity) == Touch(Cached(before, capacity), key, capacity)
      && Misses(history, capacity) == Misses(before, capacity) + (if key in Cached(before, capacity) then [] else [key])
      && Firsts(history) == Firsts(before) + (if key in before then [] else [key])
      && history == before + [key]
  {
  }

  lemma OneMoreAccess<K>(history: seq<K>, key: K, capacity: nat)
    ensures Cached(history + [key], capacity) == Touch(Cached(history, capacity), key, capacity)
    ensures Misses(history + [key], capacity) ==
            Misses(history, capacity) + if key in Cached(history, capacity) then [] else [key]
  {
    assert (history + [key])[..|history|] == history;
    LastAccess(history + [key], capacity);
  }

  lemma RecursBefore<K>(history: seq<K>, window: nat)
    requires history != [] && Recurs(history, window)
    ensures Recurs(history[..|history| - 1], window)
  {
    var before := history[..|history| - 1];
    forall m: nat | m < |before|
      ensures RecursAt(before, m, window)
    {
      assert before[..m] == history[..m];
      assert RecursAt(history, m, window);
      if before[m] in before[..m] {
        var i :| 0 <= i < m <= i + window && history[i] == history[m];
        assert before[i] == before[m];
      }
    }
  }

  lemma RecurrenceIsCached<K>(history: seq<K>, window: nat, capacity: nat)
    requires history != [] && Recurs(history, window) && window <= capacity
    requires history[|history| - 1] in history[..|history| - 1]
    ensures history[|history| - 1] in Cached(history[..|history| - 1], capacity)
  {
    var n := |history| - 1;
    assert RecursAt(history, n, window);
    var i :| 0 <= i < n <= i + window && history[i] == history[n];
    RecentIsCached(history[..n], i, capacity);
  }

  /** When every reuse falls within the capacity, nothing is ever missed twice. */
  lemma {:induction false} NothingMissedTwice<K>(history: seq<K>, window: nat, capacity: nat)
    requires Recurs(history, window) && window <= capacity
    ensures Misses(history, capacity) == Firsts(history)
  {
    if history != [] {
      hide Recurs, Misses, Firsts, Cached, Touch;
      LastAccess(history, capacity);
      RecursBefore(history, window);
      NothingMissedTwice(history[..|history| - 1], window, capacity);
      if history[|history| - 1] in history[..|history| - 1] {
        RecurrenceIsCached(history, window, capacity);
      }
    }
  }

  /** No key repeats within any `window` consecutive accesses. */
  ghost predicate NeverRecurs<K>(history: seq<K>, window: nat) {
    forall i, j :: 0 <= i < j < |history| && j < i + window ==> history[i] != history[j]
  }

  function Tail<K>(s: seq<K>, n: nat): seq<K> { if |s| <= n then s else s[|s| - n..] }

  lemma TailStep<K>(before: seq<K>, key: K, capacity: nat)
    requires key !in Tail(before, capacity)
    ensures Touch(Tail(before, capacity), key, capacity) == Tail(before + [key], capacity)
  {
  }

  lemma NewestIsNotInTail<K>(history: seq<K>, capacity: nat)
    requires history != [] && NeverRecurs(history, capacity + 1)
    ensures history[|history| - 1] !in Tail(history[..|history| - 1], capacity)
  {
    var n := |history| - 1;
    var kept := Tail(history[..n], capacity);
    forall p | 0 <= p < |kept|
      ensures kept[p] != history[n]
    {
      assert kept[p] == history[n - |kept| + p];
    }
  }

  /** When every reuse is just outside the capacity, every access misses. */
  lemma {:induction false} Thrashes<K>(history: seq<K>, capacity: nat)
    requires NeverRecurs(history, capacity + 1)
    ensures Cached(history, capacity) == Tail(history, capacity)
    ensures Misses(history, capacity) == history
  {
    if history != [] {
      hide Misses, Firsts, Cached, Touch, Tail;
      LastAccess(history, capacity);
      var n := |history| - 1;
      Thrashes(history[..n], capacity);
      NewestIsNotInTail(history, capacity);
      TailStep(history[..n], history[n], capacity);
    }
  }
}
