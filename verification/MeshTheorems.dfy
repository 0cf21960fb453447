/** Consistency of the neighbour table. */
module MeshTheorems {
  import opened MeshTopology

  lemma {:induction false} MaskedHas(s: seq<nat>, mask: seq<bool>, j: nat)
    requires forall k :: 0 <= k < |s| ==> s[k] < |mask|
    ensures j in Masked(s, mask) <==> j in s && mask[j]
  {
    hide Masked;
    MaskedLast(s, mask);
    if s != [] {
      var before := s[..|s| - 1];
      MaskedHas(before, mask, j);
      assert s == before + [s[|s| - 1]];
    }
  }

  ghost predicate Increasing(at: seq<nat>) {
    forall a, b :: 0 <= a < b < |at| ==> at[a] < at[b]
  }

  /** Masking keeps the order: where each kept entry stood. */
  lemma {:induction false} MaskedKeepsOrder(s: seq<nat>, mask: seq<bool>) returns (at: seq<nat>)
    requires forall k :: 0 <= k < |s| ==> s[k] < |mask|
    ensures |at| == |Masked(s, mask)| && Increasing(at)
    ensures forall k :: 0 <= k < |at| ==> at[k] < |s| && s[at[k]] == Masked(s, mask)[k]
  {
    hide Masked;
    MaskedLast(s, mask);
    at := [];
    if s != [] {
      at := MaskedKeepsOrder(s[..|s| - 1], mask);
      if mask[s[|s| - 1]] {
        at := at + [|s| - 1];
      }
    }
  }

  /** What a row lists: the kept cells among the mesh's own entries, and nothing for a dropped cell. */
  lemma ListedAreKept(m: Mesh, kept: seq<bool>, i: nat, j: nat)
    requires WellFormed(m) && |kept| == |m.cellsOnCell| && i < |kept|
    ensures j in Listed(m, kept, i) <==> kept[i] && j in Raw(m, i) && kept[j]
  {
    MaskedHas(Raw(m, i), kept, j);
  }

  /** The entry names a cell that exists and is in the mask. */
  predicate Present(entry: int, mask: seq<bool>) { 0 < entry <= |mask| && mask[entry - 1] }

  lemma InRangeNext(row: seq<int>, cells: nat)
    requires row != []
    ensures
      var n := |row| - 1;
      InRange(row, cells) ==
      if 0 < row[n] <= cells then InRange(row[..n], cells) + [row[n] - 1] else InRange(row[..n], cells)
  {
  }

  lemma MaskedAppend(s: seq<nat>, j: nat, mask: seq<bool>)
    requires j < |mask| && forall k :: 0 <= k < |s| ==> s[k] < |mask|
    ensures |Masked(s + [j], mask)| == |Masked(s, mask)| + if mask[j] then 1 else 0
  {
    hide Masked;
    MaskedLast(s + [j], mask);
    assert (s + [j])[..|s|] == s;
  }

  lemma Entered(row: seq<int>, mask: seq<bool>)
    requires row != [] && 0 < row[|row| - 1] <= |mask|
    ensures |Masked(InRange(row, |mask|), mask)| ==
            |Masked(InRange(row[..|row| - 1], |mask|), mask)| + if mask[row[|row| - 1] - 1] then 1 else 0
  {
    hide Masked, InRange;
    InRangeNext(row, |mask|);
    MaskedAppend(InRange(row[..|row| - 1], |mask|), row[|row| - 1] - 1, mask);
  }

  lemma {:induction false} MaskedCount(row: seq<int>, mask: seq<bool>)
    ensures |Masked(InRange(row, |mask|), mask)| <= |row|
    ensures |Masked(InRange(row, |mask|), mask)| == |row| <==> forall k :: 0 <= k < |row| ==> Present(row[k], mask)
  {
    hide Masked, InRange;
    if row != [] {
      var n := |row| - 1;
      if 0 < row[n] <= |mask| {
        Entered(row, mask);
      } else {
        InRangeNext(row, |mask|);
      }
      MaskedCount(row[..n], mask);
      assert forall k :: 0 <= k < n ==> row[..n][k] == row[k];
    }
  }

  /** With full neighbourhoods required, a participating cell starts out kept exactly when each of
      its edges has a neighbour that exists and takes part. */
  lemma FullNeighbourhood(m: Mesh, interiorOnly: bool, i: nat)
    requires WellFormed(m) && i < |m.cellsOnCell| && 0 <= m.nEdges[i] <= m.maxEdges
    ensures
      var base := Base(m, interiorOnly);
      Start(m, interiorOnly, true)[i] <==>
        base[i] && forall k :: 0 <= k < m.nEdges[i] ==> Present(m.cellsOnCell[i][k], base)
  {
    hide Masked, InRange, Present;
    var row := m.cellsOnCell[i][..m.nEdges[i]];
    assert Raw(m, i) == InRange(row, |m.cellsOnCell|);
    assert forall k :: 0 <= k < |row| ==> row[k] == m.cellsOnCell[i][k];
    MaskedCount(row, Base(m, interiorOnly));
  }

  // ---- Symmetric meshes ----

  predicate Neighbours(m: Mesh, i: nat, j: nat)
    requires WellFormed(m) && i < |m.cellsOnCell|
  {
    j in Raw(m, i)
  }

  ghost predicate Symmetric(m: Mesh)
    requires WellFormed(m)
  {
    forall i: nat, j: nat :: i < |m.cellsOnCell| && j < |m.cellsOnCell| && Neighbours(m, i, j) ==> Neighbours(m, j, i)
  }

  /** Some neighbour of the cell takes part from the start. */
  ghost predicate HasPeer(m: Mesh, start: seq<bool>, i: nat)
    requires WellFormed(m) && |start| == |m.cellsOnCell| && i < |start|
  {
    exists j: nat :: j < |start| && start[j] && Neighbours(m, i, j)
  }

  lemma EmptyIffNoPeer(m: Mesh, mask: seq<bool>, i: nat)
    requires WellFormed(m) && |mask| == |m.cellsOnCell| && i < |mask|
    ensures Masked(Raw(m, i), mask) != [] <==> HasPeer(m, mask, i)
  {
    hide Masked, Raw;
    var v := Masked(Raw(m, i), mask);
    if v != [] {
      MaskedHas(Raw(m, i), mask, v[0]);
      assert Neighbours(m, i, v[0]);
    }
    if j: nat :| j < |mask| && mask[j] && Neighbours(m, i, j) {
      MaskedHas(Raw(m, i), mask, j);
    }
  }

  /** On a symmetric mesh the second pass drops a visited cell exactly when no neighbour of it
      takes part at all. */
  lemma {:induction false} ThinnedIff(m: Mesh, start: seq<bool>, order: seq<nat>, i: nat)
    requires WellFormed(m) && Symmetric(m) && |start| == |m.cellsOnCell| && i < |start|
    requires forall k :: 0 <= k < |order| ==> order[k] < |start|
    ensures Thinned(m, start, order)[i] <==> start[i] && (i in order ==> HasPeer(m, start, i))
  {
    hide Masked, Raw;
    if order != [] {
      var before, c := order[..|order| - 1], order[|order| - 1];
      var mask := Thinned(m, start, before);
      ThinnedIff(m, start, before, i);
      assert order == before + [c];
      if i == c {
        EmptyIffNoPeer(m, mask, i);
        if mask[i] && HasPeer(m, start, i) {
          var j: nat :| j < |start| && start[j] && Neighbours(m, i, j);
          assert Neighbours(m, j, i) && HasPeer(m, start, j);
          ThinnedIff(m, start, before, j);
          assert HasPeer(m, mask, i);
        }
        if HasPeer(m, mask, i) {
          var j: nat :| j < |mask| && mask[j] && Neighbours(m, i, j);
          assert HasPeer(m, start, i);
        }
      }
    }
  }

  lemma KeptIff(m: Mesh, interiorOnly: bool, requireFull: bool, i: nat)
    requires WellFormed(m) && Symmetric(m) && i < |m.cellsOnCell|
    ensures
      var start := Start(m, interiorOnly, requireFull);
      Kept(m, interiorOnly, requireFull)[i] <==> start[i] && HasPeer(m, start, i)
  {
    var order := Ascending(|m.cellsOnCell|);
    assert order[i] == i;
    ThinnedIff(m, Start(m, interiorOnly, requireFull), order, i);
  }

  /** The kept set does not depend on the order in which cells are visited. */
  lemma VisitingOrderIsIrrelevant(m: Mesh, start: seq<bool>, a: seq<nat>, b: seq<nat>)
    requires WellFormed(m) && Symmetric(m) && |start| == |m.cellsOnCell|
    requires forall k :: 0 <= k < |a| ==> a[k] < |start|
    requires forall k :: 0 <= k < |b| ==> b[k] < |start|
    requires forall i: nat :: i < |start| ==> (i in a <==> i in b)
    ensures Thinned(m, start, a) == Thinned(m, start, b)
  {
    hide Thinned;
    forall i | 0 <= i < |start|
      ensures Thinned(m, start, a)[i] == Thinned(m, start, b)[i]
    {
      ThinnedIff(m, start, a, i);
      ThinnedIff(m, start, b, i);
    }
  }

  /** On a symmetric mesh the table is symmetric and every kept cell has a neighbour. */
  lemma TableIsSymmetric(m: Mesh, interiorOnly: bool, requireFull: bool, i: nat, j: nat)
    requires WellFormed(m) && Symmetric(m) && i < |m.cellsOnCell| && j < |m.cellsOnCell|
    ensures
      var kept := Kept(m, interiorOnly, requireFull);
      && (j in Listed(m, kept, i) <==> i in Listed(m, kept, j))
      && (kept[i] ==> Listed(m, kept, i) != [])
  {
    hide Raw, Masked, Kept, Start;
    var kept, start := Kept(m, interiorOnly, requireFull), Start(m, interiorOnly, requireFull);
    ListedAreKept(m, kept, i, j);
    ListedAreKept(m, kept, j, i);
    assert Neighbours(m, i, j) <==> Neighbours(m, j, i);
    if kept[i] {
      KeptIff(m, interiorOnly, requireFull, i);
      var p: nat :| p < |start| && start[p] && Neighbours(m, i, p);
      assert Neighbours(m, p, i) && HasPeer(m, start, p);
      KeptIff(m, interiorOnly, requireFull, p);
      ListedAreKept(m, kept, i, p);
    }
  }

  lemma {:induction false} MaskedAgrees(s: seq<nat>, a: seq<bool>, b: seq<bool>)
    requires |a| == |b| && forall k :: 0 <= k < |s| ==> s[k] < |a| && a[s[k]] == b[s[k]]
    ensures Masked(s, a) == Masked(s, b)
  {
    if s != [] {
      MaskedAgrees(s[..|s| - 1], a, b);
    }
  }

  /** On a symmetric mesh the third pass has nothing to remove. */
  lemma ThirdPassChangesNothing(m: Mesh, interiorOnly: bool, requireFull: bool, i: nat)
    requires WellFormed(m) && Symmetric(m) && i < |m.cellsOnCell|
    ensures
      var kept := Kept(m, interiorOnly, requireFull);
      Recorded(m, Start(m, interiorOnly, requireFull), kept, i) == Listed(m, kept, i)
  {
    hide Raw, Masked, Start, Thinned;
    var start := Start(m, interiorOnly, requireFull);
    var kept, early := Kept(m, interiorOnly, requireFull), Thinned(m, start, Ascending(i));
    var raw := Raw(m, i);
    if kept[i] {
      KeptIff(m, interiorOnly, requireFull, i);
      forall k | 0 <= k < |raw|
        ensures early[raw[k]] == kept[raw[k]]
      {
        var j := raw[k];
        assert Neighbours(m, i, j) && Neighbours(m, j, i);
        if start[j] {
          assert HasPeer(m, start, j);
        }
        ThinnedIff(m, start, Ascending(i), j);
        KeptIff(m, interiorOnly, requireFull, j);
      }
      MaskedAgrees(raw, early, kept);
    }
  }

  // ---- Asymmetric meshes ----

  /** A kept cell lists nobody. */
  ghost predicate Stranded(m: Mesh, kept: seq<bool>, i: nat)
    requires WellFormed(m) && |kept| == |m.cellsOnCell| && i < |kept|
  {
    kept[i] && Listed(m, kept, i) == []
  }

  /** A link from i to a later cell j is returned, or one of its ends lists itself. */
  ghost predicate Settled(m: Mesh, i: nat, j: nat)
    requires WellFormed(m) && i < |m.cellsOnCell| && j < |m.cellsOnCell|
  {
    Neighbours(m, i, j) ==> Neighbours(m, j, i) || Neighbours(m, i, i) || Neighbours(m, j, j)
  }

  ghost predicate ForwardLinksSettled(m: Mesh)
    requires WellFormed(m)
  {
    forall i: nat, j: nat :: i < j < |m.cellsOnCell| ==> Settled(m, i, j)
  }

  lemma StrandedIff(m: Mesh, kept: seq<bool>, i: nat)
    requires WellFormed(m) && |kept| == |m.cellsOnCell| && i < |kept|
    ensures Stranded(m, kept, i) <==> kept[i] && !HasPeer(m, kept, i)
  {
    EmptyIffNoPeer(m, kept, i);
  }

  /** Before its visit a cell is as it started, after it as it ends; the visit drops it exactly when
      no neighbour is left. */
  lemma {:induction false} VisitedOnce(m: Mesh, start: seq<bool>, i: nat, n: nat)
    requires WellFormed(m) && |start| == |m.cellsOnCell| && i < |start| && n <= |start|
    ensures
      var mask := Thinned(m, start, Ascending(n));
      && (n <= i ==> mask[i] == start[i])
      && (n > i ==> mask[i] == (start[i] && HasPeer(m, Thinned(m, start, Ascending(i)), i)))
    decreases n
  {
    hide Thinned, Masked, Raw, HasPeer;
    if n == 0 {
      NoVisits(m, start);
    } else {
      NextVisit(m, start, n - 1);
      VisitedOnce(m, start, i, n - 1);
      EmptyIffNoPeer(m, Thinned(m, start, Ascending(n - 1)), n - 1);
    }
  }

  /** When every forward link is settled, no start strands a cell. */
  lemma SettledStrandsNone(m: Mesh, start: seq<bool>, i: nat)
    requires WellFormed(m) && ForwardLinksSettled(m) && |start| == |m.cellsOnCell| && i < |start|
    ensures !Stranded(m, Thinned(m, start, Ascending(|start|)), i)
  {
    hide Thinned, Raw;
    var n := |start|;
    var kept, seen := Thinned(m, start, Ascending(n)), Thinned(m, start, Ascending(i));
    StrandedIff(m, kept, i);
    VisitedOnce(m, start, i, n);
    if kept[i] && !Neighbours(m, i, i) {
      var j: nat :| j < n && seen[j] && Neighbours(m, i, j);
      VisitedOnce(m, start, j, i);
      VisitedOnce(m, start, j, n);
      if i < j {
        assert Settled(m, i, j);
        VisitedOnce(m, start, i, j);
        assert HasPeer(m, Thinned(m, start, Ascending(j)), j) by {
          assert start[j];
          VisitedOnce(m, start, j, j);
        }
      }
      assert kept[j];
    } else if kept[i] {
      assert HasPeer(m, kept, i);
    }
  }

  /** An unsettled link strands its first end when its two cells are the only ones to take part. */
  lemma UnsettledStrands(m: Mesh, start: seq<bool>, i: nat, j: nat)
    requires WellFormed(m) && |start| == |m.cellsOnCell| && i < j < |start| && !Settled(m, i, j)
    requires forall k :: 0 <= k < |start| ==> start[k] == (k == i || k == j)
    ensures Stranded(m, Thinned(m, start, Ascending(|start|)), i)
  {
    hide Thinned, Raw;
    var n := |start|;
    var kept := Thinned(m, start, Ascending(n));
    StrandedIff(m, kept, i);
    VisitedOnce(m, start, i, n);
    VisitedOnce(m, start, j, i);
    VisitedOnce(m, start, j, n);
    assert HasPeer(m, Thinned(m, start, Ascending(i)), i);
    var seen := Thinned(m, start, Ascending(j));
    assert !HasPeer(m, seen, j);
  }

  /** Does no boundary mask and no choice of the two options strand a cell? */
  ghost predicate NeverStrands(m: Mesh)
    requires WellFormed(m)
  {
    forall boundary: seq<int>, interiorOnly: bool, requireFull: bool, i: nat ::
      |boundary| == |m.cellsOnCell| && i < |boundary| ==> KeepsPeer(m, boundary, interiorOnly, requireFull, i)
  }

  ghost predicate KeepsPeer(m: Mesh, boundary: seq<int>, interiorOnly: bool, requireFull: bool, i: nat)
    requires WellFormed(m) && |boundary| == |m.cellsOnCell| && i < |boundary|
  {
    var marked := m.(boundary := boundary);
    !Stranded(marked, Kept(marked, interiorOnly, requireFull), i)
  }

  lemma SettledByRows(m: Mesh, boundary: seq<int>, i: nat, j: nat)
    requires WellFormed(m) && |boundary| == |m.cellsOnCell| && i < j < |boundary|
    ensures Settled(m.(boundary := boundary), i, j) == Settled(m, i, j)
  {
  }

  /** Every kept cell has a neighbour, whatever cells take part, exactly when every forward link is
      returned or has an end that lists itself. */
  lemma NeverStrandsIff(m: Mesh)
    requires WellFormed(m)
    ensures NeverStrands(m) <==> ForwardLinksSettled(m)
  {
    hide Thinned, Raw, Masked, Stranded;
    if ForwardLinksSettled(m) {
      forall boundary: seq<int>, interiorOnly: bool, requireFull: bool, i: nat |
        |boundary| == |m.cellsOnCell| && i < |boundary|
        ensures KeepsPeer(m, boundary, interiorOnly, requireFull, i)
      {
        var marked := m.(boundary := boundary);
        forall i: nat, j: nat | i < j < |m.cellsOnCell|
          ensures Settled(marked, i, j)
        {
          SettledByRows(m, boundary, i, j);
        }
        SettledStrandsNone(marked, Start(marked, interiorOnly, requireFull), i);
      }
    } else {
      var i: nat, j: nat :| i < j < |m.cellsOnCell| && !Settled(m, i, j);
      var boundary := seq(|m.cellsOnCell|, k => if k == i || k == j then 0 else 1);
      var marked := m.(boundary := boundary);
      SettledByRows(m, boundary, i, j);
      UnsettledStrands(marked, Start(marked, true, false), i, j);
      assert !KeepsPeer(m, boundary, true, false, i);
    }
  }

  // ---- An asymmetric mesh ----

  /** Cell 0 lists cell 1, which lists nobody. */
  function OneWay(): (m: Mesh)
    ensures WellFormed(m)
  {
    Mesh([[2], [0]], [1, 1], [0, 0], 1)
  }

  lemma OneWayRows()
    ensures |OneWay().cellsOnCell| == 2 && Raw(OneWay(), 0) == [1] && Raw(OneWay(), 1) == []
    ensures Start(OneWay(), true, false) == [true, true]
  {
    var m := OneWay();
    assert m.cellsOnCell[0][..1] == [2] && m.cellsOnCell[1][..1] == [0];
    assert [2][..0] == [] && [0][..0] == [];
  }

  lemma MaskedOne(j: nat, mask: seq<bool>)
    requires j < |mask|
    ensures Masked([j], mask) == if mask[j] then [j] else []
  {
    assert [j][..0] == [];
  }

  /** Without symmetry a cell can be kept although every neighbour it lists was dropped. */
  lemma AsymmetricCellIsStranded()
    ensures !Symmetric(OneWay())
    ensures Kept(OneWay(), true, false) == [true, false]
    ensures |OneWay().cellsOnCell| == 2 && Listed(OneWay(), Kept(OneWay(), true, false), 0) == []
  {
    hide Raw, Masked, Start, Thinned, OneWay;
    var m := OneWay();
    OneWayRows();
    assert Neighbours(m, 0, 1) && !Neighbours(m, 1, 0);
    var start := Start(m, true, false);
    NoVisits(m, start);
    NextVisit(m, start, 0);
    NextVisit(m, start, 1);
    MaskedOne(1, start);
    MaskedLast([], start);
    assert Thinned(m, start, Ascending(1)) == start;
    MaskedOne(1, [true, false]);
    assert start[1 := false] == [true, false];
  }
}
