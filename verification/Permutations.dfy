/** Sequences without repeats, sequences with the same elements in another order, and unused numbers. */
module Permutations {
  predicate NoRepeats<T(==)>(s: seq<T>) {
    forall i, j :: 0 <= i < j < |s| ==> s[i] != s[j]
  }

  function Without<T>(s: seq<T>, k: nat): seq<T>
    requires k < |s|
  {
    s[..k] + s[k + 1..]
  }

  /** The last element of a, found in b; what remains is again a permutation. */
  lemma Match<T>(a: seq<T>, b: seq<T>) returns (k: nat)
    requires a != [] && multiset(a) == multiset(b)
    ensures |a| == |b| && k < |b| && b[k] == a[|a| - 1]
    ensures multiset(a[..|a| - 1]) == multiset(Without(b, k))
  {
    var n := |a| - 1;
    assert |multiset(a)| == |a| && |multiset(b)| == |b|;
    assert a[n] in multiset(b);
    k :| 0 <= k < |b| && b[k] == a[n];
    TakenOut(a, n);
    TakenOut(b, k);
    assert Without(a, n) == a[..n];
  }

  lemma TakenOut<T>(s: seq<T>, k: nat)
    requires k < |s|
    ensures multiset(Without(s, k)) == multiset(s) - multiset{s[k]}
  {
    assert s == s[..k] + [s[k]] + s[k + 1..];
  }

  /** There is always a number beyond a finite set of numbers. */
  lemma {:induction false} LargerThanAll(used: set<nat>) returns (t: nat)
    ensures forall u :: u in used ==> u < t
  {
    t := 0;
    if used != {} {
      var u :| u in used;
      var rest := used - {u};
      var k := LargerThanAll(rest);
      assert used == rest + {u};
      t := if k > u then k else u + 1;
    }
  }
}
