/** The cell-neighbour table of an MPAS mesh. */
module MeshTopology {

  /** Rows of 1-based neighbours; a cell uses as many entries of its row as it has edges. */
  datatype Mesh = Mesh(cellsOnCell: seq<seq<int>>, nEdges: seq<int>, boundary: seq<int>, maxEdges: nat)

  ghost predicate WellFormed(m: Mesh) {
    && |m.nEdges| == |m.boundary| == |m.cellsOnCell|
    && forall i :: 0 <= i < |m.cellsOnCell| ==> |m.cellsOnCell[i]| == m.maxEdges
  }

  /** Length of an array slice [:n] of a row of m entries; a negative n drops entries at the end. */
  function Cut(n: int, m: nat): (k: nat)
    ensures k <= m
  {
    if n >= m then m else if n >= 0 then n else if m + n >= 0 then m + n else 0
  }

  /** The entries that name a cell, as 0-based indices. */
  function InRange(row: seq<int>, cells: nat): (v: seq<nat>)
    ensures |v| <= |row| && forall k :: 0 <= k < |v| ==> v[k] < cells
  {
    if row == [] then []
    else
      var last := row[|row| - 1];
      InRange(row[..|row| - 1], cells) + if 0 < last <= cells then [last - 1] else []
  }

  function Raw(m: Mesh, i: nat): (v: seq<nat>)
    requires WellFormed(m) && i < |m.cellsOnCell|
    ensures |v| <= m.maxEdges && forall k :: 0 <= k < |v| ==> v[k] < |m.cellsOnCell|
  {
    InRange(m.cellsOnCell[i][..Cut(m.nEdges[i], m.maxEdges)], |m.cellsOnCell|)
  }

  /** The entries whose cell is in the mask, in their order. */
  function Masked(s: seq<nat>, mask: seq<bool>): (v: seq<nat>)
    requires forall k :: 0 <= k < |s| ==> s[k] < |mask|
    ensures |v| <= |s| && forall k :: 0 <= k < |v| ==> v[k] < |mask|
  {
    if s == [] then []
    else
      var last := s[|s| - 1];
      Masked(s[..|s| - 1], mask) + if mask[last] then [last] else []
  }

  // ---- The passes ----

  function Base(m: Mesh, interiorOnly: bool): (mask: seq<bool>)
    requires WellFormed(m)
    ensures |mask| == |m.cellsOnCell|
    ensures forall i :: 0 <= i < |mask| ==> mask[i] == (!interiorOnly || m.boundary[i] == 0)
  {
    seq(|m.cellsOnCell|, i requires 0 <= i < |m.cellsOnCell| => !interiorOnly || m.boundary[i] == 0)
  }

  /** First pass: drop a cell that does not have all its expected neighbours. */
  function Complete(m: Mesh, base: seq<bool>, requireFull: bool): (mask: seq<bool>)
    requires WellFormed(m) && |base| == |m.cellsOnCell|
    ensures |mask| == |base|
    ensures forall i :: 0 <= i < |mask| ==>
      mask[i] == (base[i] && (requireFull ==> |Masked(Raw(m, i), base)| == m.nEdges[i]))
  {
    seq(|base|, i requires 0 <= i < |base| =>
      base[i] && (requireFull ==> |Masked(Raw(m, i), base)| == m.nEdges[i]))
  }

  function Visit(m: Mesh, mask: seq<bool>, i: nat): (after: seq<bool>)
    requires WellFormed(m) && |mask| == |m.cellsOnCell| && i < |mask|
    ensures |after| == |mask|
  {
    if mask[i] && Masked(Raw(m, i), mask) == [] then mask[i := false] else mask
  }

  /** Second pass: visit cells in an order and drop each one that has no neighbour left. */
  function Thinned(m: Mesh, mask: seq<bool>, order: seq<nat>): (after: seq<bool>)
    requires WellFormed(m) && |mask| == |m.cellsOnCell|
    requires forall k :: 0 <= k < |order| ==> order[k] < |mask|
    ensures |after| == |mask| && forall i :: 0 <= i < |mask| && after[i] ==> mask[i]
  {
    if order == [] then mask
    else Visit(m, Thinned(m, mask, order[..|order| - 1]), order[|order| - 1])
  }

  function Ascending(n: nat): (order: seq<nat>)
    ensures |order| == n && forall k :: 0 <= k < n ==> order[k] == k
  {
    seq(n, k requires 0 <= k < n => k)
  }

  function Start(m: Mesh, interiorOnly: bool, requireFull: bool): (mask: seq<bool>)
    requires WellFormed(m)
    ensures |mask| == |m.cellsOnCell|
  {
    Complete(m, Base(m, interiorOnly), requireFull)
  }

  function Kept(m: Mesh, interiorOnly: bool, requireFull: bool): (mask: seq<bool>)
    requires WellFormed(m)
    ensures |mask| == |m.cellsOnCell|
  {
    Thinned(m, Start(m, interiorOnly, requireFull), Ascending(|m.cellsOnCell|))
  }

  /** The neighbours the finished table lists for a cell. */
  function Listed(m: Mesh, kept: seq<bool>, i: nat): (v: seq<nat>)
    requires WellFormed(m) && |kept| == |m.cellsOnCell| && i < |kept|
    ensures |v| <= m.maxEdges
  {
    if kept[i] then Masked(Raw(m, i), kept) else []
  }

  ghost predicate RowHolds(rows: array2<int>, i: nat, v: seq<nat>)
    requires i < rows.Length0 && |v| <= rows.Length1
    reads rows
  {
    forall k :: 0 <= k < rows.Length1 ==> rows[i, k] == if k < |v| then v[k] else -1
  }

  // ---- The table, built in place ----

  class NeighborTable {
    const keep: array<bool>
    const count: array<int>
    const rows: array2<int>

    ghost predicate Holds(i: nat, v: seq<nat>)
      requires i < rows.Length0 == count.Length && |v| <= rows.Length1
      reads rows, count
    {
      RowHolds(rows, i, v) && count[i] == |v|
    }

    constructor (cells: nat, maxEdges: nat)
      ensures fresh(keep) && fresh(count) && fresh(rows)
      ensures keep.Length == count.Length == rows.Length0 == cells && rows.Length1 == maxEdges
      ensures forall i :: 0 <= i < cells ==> Holds(i, [])
    {
      keep := new bool[cells];
      count := new int[cells](_ => 0);
      rows := new int[cells, maxEdges]((_, _) => -1);
    }

    ghost predicate Shaped(m: Mesh) {
      keep.Length == count.Length == rows.Length0 == |m.cellsOnCell| && rows.Length1 == m.maxEdges
    }

    method WriteRow(i: nat, v: seq<nat>)
      requires i < rows.Length0 == count.Length && |v| <= rows.Length1
      modifies rows, count
      ensures Holds(i, v)
      ensures forall r: nat, w: seq<nat> :: r < rows.Length0 && |w| <= rows.Length1 && r != i && old(Holds(r, w)) ==>
        Holds(r, w)
    {
      var k := 0;
      while k < rows.Length1
        invariant 0 <= k <= rows.Length1
        invariant forall c :: 0 <= c < k ==> rows[i, c] == if c < |v| then v[c] else -1
        invariant forall r, c :: 0 <= r < rows.Length0 && 0 <= c < rows.Length1 && r != i ==>
          rows[r, c] == old(rows[r, c])
        modifies rows
      {
        rows[i, k] := if k < |v| then v[k] else -1;
        k := k + 1;
      }
      count[i] := |v|;
    }

    /** The listed entries of a row that are still kept. */
    method StillKept(i: nat, ghost v: seq<nat>) returns (w: seq<nat>)
      requires i < rows.Length0 && |v| <= rows.Length1 && RowHolds(rows, i, v)
      requires forall k :: 0 <= k < |v| ==> v[k] < keep.Length
      ensures w == Masked(v, keep[..])
    {
      w := [];
      var k := 0;
      while k < rows.Length1
        invariant 0 <= k <= rows.Length1
        invariant w == Masked(v[..if k < |v| then k else |v|], keep[..])
      {
        var j := rows[i, k];
        if j >= 0 {
          assert v[..k + 1][..k] == v[..k];
          if keep[j] {
            w := w + [j];
          }
        }
        k := k + 1;
      }
      assert v[..|v|] == v;
    }

    /** First pass. */
    method DropIncomplete(m: Mesh, interiorOnly: bool, requireFull: bool)
      requires WellFormed(m) && Shaped(m)
      modifies keep
      ensures keep[..] == Start(m, interiorOnly, requireFull)
    {
      hide Masked, Raw;
      var base := Base(m, interiorOnly);
      var i := 0;
      while i < keep.Length
        invariant 0 <= i <= keep.Length
        invariant forall r :: 0 <= r < i ==> keep[r] == Start(m, interiorOnly, requireFull)[r]
      {
        keep[i] := base[i];
        if requireFull && base[i] {
          var valid := Masked(Raw(m, i), base);
          if |valid| != m.nEdges[i] {
            keep[i] := false;
          }
        }
        i := i + 1;
      }
    }

    /** Second pass: record the neighbours of each cell, dropping cells that have none. */
    method Record(m: Mesh, ghost start: seq<bool>)
      requires WellFormed(m) && Shaped(m) && keep[..] == start
      requires forall r :: 0 <= r < |m.cellsOnCell| ==> Holds(r, [])
      modifies keep, count, rows
      ensures keep[..] == Thinned(m, start, Ascending(keep.Length))
      ensures forall r :: 0 <= r < |m.cellsOnCell| ==> Holds(r, Recorded(m, start, keep[..], r))
    {
      hide Thinned, Masked, Raw, RowHolds;
      NoVisits(m, start);
      var i := 0;
      while i < keep.Length
        invariant 0 <= i <= keep.Length
        invariant keep[..] == Thinned(m, start, Ascending(i))
        invariant forall r :: 0 <= r < i ==> Holds(r, Recorded(m, start, keep[..], r))
        invariant forall r :: i <= r < keep.Length ==> Holds(r, [])
      {
        NextVisit(m, start, i);
        ghost var mask := keep[..];
        var valid := Masked(Raw(m, i), keep[..]);
        if keep[i] {
          if valid == [] {
            keep[i] := false;
            assert keep[..] == mask[i := false];
          } else {
            WriteRow(i, valid);
            assert keep[..] == mask;
          }
        }
        assert forall r :: 0 <= r < i ==> Recorded(m, start, keep[..], r) == Recorded(m, start, mask, r);
        i := i + 1;
      }
    }

    /** Third pass: remove entries whose cell was dropped after they were recorded. */
    method RemoveDropped(m: Mesh, ghost start: seq<bool>)
      requires WellFormed(m) && Shaped(m) && |start| == keep.Length
      requires keep[..] == Thinned(m, start, Ascending(keep.Length))
      requires forall r :: 0 <= r < keep.Length ==> Holds(r, Recorded(m, start, keep[..], r))
      modifies count, rows
      ensures forall r :: 0 <= r < keep.Length ==> Holds(r, Listed(m, keep[..], r))
    {
      hide Thinned, Masked, Raw, RowHolds;
      ghost var kept := keep[..];
      var i := 0;
      while i < keep.Length
        invariant 0 <= i <= keep.Length
        invariant forall r :: 0 <= r < i ==> Holds(r, Listed(m, kept, r))
        invariant forall r :: i <= r < keep.Length ==> Holds(r, Recorded(m, start, kept, r))
      {
        if keep[i] {
          ThinnedShrinks(m, start, i, keep.Length);
          MaskedTwice(Raw(m, i), Thinned(m, start, Ascending(i)), kept);
          var valid := StillKept(i, Recorded(m, start, kept, i));
          WriteRow(i, valid);
        }
        i := i + 1;
      }
    }
  }

  lemma NoVisits(m: Mesh, start: seq<bool>)
    requires WellFormed(m) && |start| == |m.cellsOnCell|
    ensures Thinned(m, start, Ascending(0)) == start
  {
  }

  /** What the second pass writes: the neighbours not dropped when the cell was visited. */
  function Recorded(m: Mesh, start: seq<bool>, mask: seq<bool>, i: nat): (v: seq<nat>)
    requires WellFormed(m) && |start| == |mask| == |m.cellsOnCell| && i < |mask|
    ensures |v| <= m.maxEdges
  {
    if mask[i] then Masked(Raw(m, i), Thinned(m, start, Ascending(i))) else []
  }

  lemma NextVisit(m: Mesh, start: seq<bool>, i: nat)
    requires WellFormed(m) && |start| == |m.cellsOnCell| && i < |start|
    ensures Thinned(m, start, Ascending(i + 1)) == Visit(m, Thinned(m, start, Ascending(i)), i)
  {
    assert Ascending(i + 1)[..i] == Ascending(i);
  }

  lemma MaskedLast(s: seq<nat>, mask: seq<bool>)
    requires forall k :: 0 <= k < |s| ==> s[k] < |mask|
    ensures s == [] ==> Masked(s, mask) == []
    ensures s != [] ==>
      Masked(s, mask) == Masked(s[..|s| - 1], mask) + if mask[s[|s| - 1]] then [s[|s| - 1]] else []
  {
  }

  lemma {:induction false} MaskedTwice(s: seq<nat>, wide: seq<bool>, narrow: seq<bool>)
    requires |wide| == |narrow| && forall k :: 0 <= k < |s| ==> s[k] < |wide|
    requires forall i :: 0 <= i < |wide| && narrow[i] ==> wide[i]
    ensures Masked(Masked(s, wide), narrow) == Masked(s, narrow)
  {
    hide Masked;
    MaskedLast(s, wide);
    MaskedLast(s, narrow);
    MaskedLast(Masked(s, wide), narrow);
    if s != [] {
      var before := s[..|s| - 1];
      MaskedTwice(before, wide, narrow);
      if wide[s[|s| - 1]] {
        var w := Masked(s, wide);
        assert w == Masked(before, wide) + [s[|s| - 1]];
        assert w[..|w| - 1] == Masked(before, wide) && w[|w| - 1] == s[|s| - 1];
      } else {
        assert Masked(s, wide) == Masked(before, wide);
      }
    }
  }

  lemma {:induction false} ThinnedShrinks(m: Mesh, start: seq<bool>, i: nat, n: nat)
    requires WellFormed(m) && |start| == |m.cellsOnCell| && i <= n <= |start|
    ensures forall r :: 0 <= r < |start| && Thinned(m, start, Ascending(n))[r] ==> Thinned(m, start, Ascending(i))[r]
    decreases n
  {
    if i < n {
      NextVisit(m, start, n - 1);
      ThinnedShrinks(m, start, i, n - 1);
    }
  }

  method Build(m: Mesh, interiorOnly: bool, requireFull: bool) returns (t: NeighborTable)
    requires WellFormed(m)
    ensures fresh(t) && t.Shaped(m)
    ensures t.keep[..] == Kept(m, interiorOnly, requireFull)
    ensures forall i :: 0 <= i < |m.cellsOnCell| ==> t.Holds(i, Listed(m, t.keep[..], i))
  {
    t := new NeighborTable(|m.cellsOnCell|, m.maxEdges);
    t.DropIncomplete(m, interiorOnly, requireFull);
    t.Record(m, Start(m, interiorOnly, requireFull));
    t.RemoveDropped(m, Start(m, interiorOnly, requireFull));
  }
}
