/** Which points lie inside the spherical polygon of an MPAS cell. */
module Containment {
  import opened Outcome
  import opened Reals

  datatype Point = Point(x: real, y: real, z: real)

  function Dot3(a: Point, b: Point): real {
    Times(a.x, b.x) + Times(a.y, b.y) + Times(a.z, b.z)
  }

  function Cross(a: Point, b: Point): Point {
    Point(Times(a.y, b.z) - Times(a.z, b.y), Times(a.z, b.x) - Times(a.x, b.z), Times(a.x, b.y) - Times(a.y, b.x))
  }

  /** a*p + b*q. */
  function Combine(a: real, p: Point, b: real, q: Point): Point {
    Point(Times(a, p.x) + Times(b, q.x), Times(a, p.y) + Times(b, q.y), Times(a, p.z) + Times(b, q.z))
  }

  /** Normal of the great circle through vertex k and its successor. */
  function Normal(vs: seq<Point>, k: nat): Point
    requires k < |vs|
  {
    Cross(vs[k], vs[if k + 1 == |vs| then 0 else k + 1])
  }

  /** Which side of the edge plane the reference point is on; on the plane counts as positive. */
  function Orient(reference: real): real { if reference >= 0.0 then 1.0 else -1.0 }

  function Signed(vs: seq<Point>, center: Point, p: Point, k: nat): real
    requires k < |vs|
  {
    Times(Dot3(p, Normal(vs, k)), Orient(Dot3(Normal(vs, k), center)))
  }

  predicate Inside(vs: seq<Point>, center: Point, p: Point, tolerance: real) {
    |vs| >= 3 && forall k :: 0 <= k < |vs| ==> Signed(vs, center, p, k) >= -tolerance
  }

  // ---- The search over cells ----

  /** Cell centres, vertices, and each cell's 1-based vertex numbers. */
  datatype Geometry = Geometry(centers: seq<Point>, vertices: seq<Point>, verticesOnCell: seq<seq<int>>,
    nEdges: seq<int>)

  ghost predicate Sized(g: Geometry) {
    |g.verticesOnCell| == |g.nEdges| == |g.centers|
  }

  /** The vertices a row names, out-of-range numbers left out. */
  function Named(row: seq<int>, vertices: seq<Point>): seq<Point> {
    if row == [] then []
    else
      var last := row[|row| - 1];
      Named(row[..|row| - 1], vertices) + if 0 < last <= |vertices| then [vertices[last - 1]] else []
  }

  /** A row cut as the array slice [:n]. */
  function Head(row: seq<int>, n: int): seq<int> {
    if n >= |row| then row else if n >= 0 then row[..n] else if |row| + n >= 0 then row[..|row| + n] else []
  }

  function Polygon(g: Geometry, cell: nat): seq<Point>
    requires Sized(g) && cell < |g.centers|
  {
    Named(Head(g.verticesOnCell[cell], g.nEdges[cell]), g.vertices)
  }

  predicate Verdict(g: Geometry, cell: int, p: Point, tolerance: real)
    requires Sized(g)
  {
    0 <= cell < |g.centers| && Inside(Polygon(g, cell), g.centers[cell], p, tolerance)
  }

  /** Cell by cell in increasing order; every point's verdict is that of its own cell alone. */
  method PointsInsideCells(g: Geometry, ids: seq<int>, points: seq<Point>, tolerance: real)
    returns (r: Result<seq<bool>, string>)
    requires Sized(g)
    ensures |ids| != |points| ==> r.Err?
    ensures |ids| == |points| ==> r.Ok? && |r.value| == |ids|
    ensures r.Ok? ==> forall k :: 0 <= k < |ids| ==> r.value[k] == Verdict(g, ids[k], points[k], tolerance)
  {
    if |ids| != |points| {
      return Err("cell_ids, lat_deg and lon_deg must have identical shapes");
    }
    var inside := new bool[|ids|](_ => false);
    var cell := 0;
    while cell < |g.centers|
      invariant 0 <= cell <= |g.centers|
      invariant forall k :: 0 <= k < |ids| ==>
        inside[k] == (0 <= ids[k] < cell && Verdict(g, ids[k], points[k], tolerance))
    {
      if cell in ids {
        var vs := Polygon(g, cell);
        if |vs| >= 3 {
          var k := 0;
          while k < |ids|
            invariant 0 <= k <= |ids|
            invariant forall i :: 0 <= i < |ids| ==>
              inside[i] == (0 <= ids[i] < cell + (if i < k then 1 else 0) && Verdict(g, ids[i], points[i], tolerance))
          {
            if ids[k] == cell {
              inside[k] := Inside(vs, g.centers[cell], points[k], tolerance);
            }
            k := k + 1;
          }
        }
      }
      cell := cell + 1;
    }
    return Ok(inside[..]);
  }

  // ---- The polygon of a cell ----

  predicate NamesVertex(entry: int, vertices: seq<Point>) { 0 < entry <= |vertices| }

  lemma NamedNext(row: seq<int>, vertices: seq<Point>)
    requires row != []
    ensures
      var n := |row| - 1;
      Named(row, vertices) ==
      if NamesVertex(row[n], vertices) then Named(row[..n], vertices) + [vertices[row[n] - 1]]
      else Named(row[..n], vertices)
  {
  }

  /** The vertices named by two stretches of a row are those of the first and then those of the second; a
      single entry names its vertex or none. */
  lemma {:induction false} NamedInOrder(a: seq<int>, b: seq<int>, vertices: seq<Point>)
    ensures Named(a + b, vertices) == Named(a, vertices) + Named(b, vertices)
    ensures |b| == 1 ==> Named(b, vertices) == if NamesVertex(b[0], vertices) then [vertices[b[0] - 1]] else []
    decreases |b|
  {
    hide Named, NamesVertex;
    NoneNamed(vertices);
    if b == [] {
      assert a + b == a;
    } else {
      var n := |b| - 1;
      NamedInOrder(a, b[..n], vertices);
      NamedNext(a + b, vertices);
      NamedNext(b, vertices);
      assert (a + b)[..|a| + n] == a + b[..n];
    }
  }

  lemma NoneNamed(vertices: seq<Point>)
    ensures Named([], vertices) == []
  {
  }

  /** When every entry names a vertex, the polygon has them all. */
  lemma {:induction false} NamedInFull(row: seq<int>, vertices: seq<Point>)
    requires forall i :: 0 <= i < |row| ==> NamesVertex(row[i], vertices)
    ensures |Named(row, vertices)| == |row|
    ensures forall i :: 0 <= i < |row| ==>
      NamesVertex(row[i], vertices) && Named(row, vertices)[i] == vertices[row[i] - 1]
  {
    hide Named;
    NoneNamed(vertices);
    if row != [] {
      var n := |row| - 1;
      NamedInFull(row[..n], vertices);
      NamedNext(row, vertices);
      forall i | 0 <= i < n
        ensures Named(row, vertices)[i] == vertices[row[i] - 1]
      {
        assert row[..n][i] == row[i];
      }
    }
  }

  /** The polygon of a cell whose vertex numbers are all valid. */
  lemma PolygonOfCell(g: Geometry, cell: nat)
    requires Sized(g) && cell < |g.centers| && 0 <= g.nEdges[cell] <= |g.verticesOnCell[cell]|
    requires forall i :: 0 <= i < g.nEdges[cell] ==> NamesVertex(g.verticesOnCell[cell][i], g.vertices)
    ensures |Polygon(g, cell)| == g.nEdges[cell]
    ensures forall i :: 0 <= i < g.nEdges[cell] ==>
      NamesVertex(g.verticesOnCell[cell][i], g.vertices) &&
      Polygon(g, cell)[i] == g.vertices[g.verticesOnCell[cell][i] - 1]
  {
    assert Head(g.verticesOnCell[cell], g.nEdges[cell]) == g.verticesOnCell[cell][..g.nEdges[cell]];
    NamedInFull(g.verticesOnCell[cell][..g.nEdges[cell]], g.vertices);
  }

  // ---- What the verdict means ----

  /** Volume spanned by two vertices and a point: its sign tells the side of their great circle. */
  function Det(a: Point, b: Point, p: Point): real {
    Times(p.x, Times(a.y, b.z) - Times(a.z, b.y)) + Times(p.y, Times(a.z, b.x) - Times(a.x, b.z))
    + Times(p.z, Times(a.x, b.y) - Times(a.y, b.x))
  }

  function Next(n: nat, k: nat): (j: nat)
    requires k < n
    ensures j < n
  {
    (k + 1) % n
  }

  /** A point is accepted exactly when, for every edge, it lies on the centre's side of the edge plane or
      no further beyond it than the tolerance; a centre on the plane counts as on the positive side. */
  lemma InsideIffOnCentersSide(vs: seq<Point>, center: Point, p: Point, tolerance: real)
    ensures Inside(vs, center, p, tolerance) <==>
            |vs| >= 3 && forall k :: 0 <= k < |vs| ==> OnCentersSide(vs[k], vs[Next(|vs|, k)], center, p, tolerance)
  {
    hide Times, Det, Signed, OnCentersSide;
    if |vs| >= 3 {
      forall k | 0 <= k < |vs|
        ensures Signed(vs, center, p, k) >= -tolerance <==>
                OnCentersSide(vs[k], vs[Next(|vs|, k)], center, p, tolerance)
      {
        SignedIsSide(vs, center, p, k, tolerance);
      }
    }
  }

  predicate OnCentersSide(a: Point, b: Point, center: Point, p: Point, tolerance: real) {
    if Det(a, b, center) >= 0.0 then Det(a, b, p) >= -tolerance else Det(a, b, p) <= tolerance
  }

  lemma DotCrossIsDet(a: Point, b: Point, p: Point)
    ensures Dot3(p, Cross(a, b)) == Det(a, b, p)
  {
    hide Times;
  }

  lemma SignedIsSide(vs: seq<Point>, center: Point, p: Point, k: nat, tolerance: real)
    requires |vs| >= 3 && k < |vs|
    ensures Signed(vs, center, p, k) >= -tolerance <==>
            OnCentersSide(vs[k], vs[Next(|vs|, k)], center, p, tolerance)
  {
    hide Times, Det, Cross;
    var a, b := vs[k], vs[Next(|vs|, k)];
    assert Normal(vs, k) == Cross(a, b);
    DotCrossIsDet(a, b, p);
    DotCrossIsDet(a, b, center);
    Dot3Commutes(center, Cross(a, b));
    TimesUnits(Det(a, b, p));
    TimesNegates(Det(a, b, p), 1.0);
  }

  lemma Dot3Commutes(a: Point, b: Point)
    ensures Dot3(a, b) == Dot3(b, a)
  {
    hide Times;
    TimesCommutes(a.x, b.x);
    TimesCommutes(a.y, b.y);
    TimesCommutes(a.z, b.z);
  }

  lemma OrientMeansAbs(x: real)
    ensures Times(x, Orient(x)) == Abs(x)
  {
  }

  /** The cell centre is inside its own cell. */
  lemma CenterIsInside(vs: seq<Point>, center: Point, tolerance: real)
    requires |vs| >= 3 && tolerance >= 0.0
    ensures Inside(vs, center, center, tolerance)
  {
    hide Times, Dot3, Normal, Orient;
    forall k | 0 <= k < |vs|
      ensures Signed(vs, center, center, k) >= -tolerance
    {
      Dot3Commutes(center, Normal(vs, k));
      OrientMeansAbs(Dot3(center, Normal(vs, k)));
    }
  }

  lemma Times3(a: real, x: real, b: real, y: real, n: real)
    ensures Times(Times(a, x) + Times(b, y), n) == Times(a, Times(x, n)) + Times(b, Times(y, n))
  {
  }

  lemma Dot3Combines(a: real, p: Point, b: real, q: Point, n: Point)
    ensures Dot3(Combine(a, p, b, q), n) == Times(a, Dot3(p, n)) + Times(b, Dot3(q, n))
  {
    hide Times;
    Times3(a, p.x, b, q.x, n.x);
    Times3(a, p.y, b, q.y, n.y);
    Times3(a, p.z, b, q.z, n.z);
    TimesDistributes(a, Times(p.x, n.x), Times(p.y, n.y));
    TimesDistributes(a, Times(p.x, n.x) + Times(p.y, n.y), Times(p.z, n.z));
    TimesDistributes(b, Times(q.x, n.x), Times(q.y, n.y));
    TimesDistributes(b, Times(q.x, n.x) + Times(q.y, n.y), Times(q.z, n.z));
  }

  /** At zero tolerance the accepted directions form a convex cone. */
  lemma AcceptedFormACone(vs: seq<Point>, center: Point, p: Point, q: Point, a: real, b: real)
    requires Inside(vs, center, p, 0.0) && Inside(vs, center, q, 0.0) && a >= 0.0 && b >= 0.0
    ensures Inside(vs, center, Combine(a, p, b, q), 0.0)
  {
    hide Times, Dot3, Normal, Orient, Combine;
    forall k | 0 <= k < |vs|
      ensures Signed(vs, center, Combine(a, p, b, q), k) >= 0.0
    {
      var n := Normal(vs, k);
      var o := Orient(Dot3(n, center));
      Dot3Combines(a, p, b, q, n);
      Times3(a, Dot3(p, n), b, Dot3(q, n), o);
      assert Signed(vs, center, p, k) >= 0.0 && Signed(vs, center, q, k) >= 0.0;
      TimesMonotone(a, 0.0, Signed(vs, center, p, k));
      TimesMonotone(b, 0.0, Signed(vs, center, q, k));
      TimesUnits(a);
      TimesUnits(b);
    }
  }

  // ---- Order of the vertices ----

  function Rotated(vs: seq<Point>): (r: seq<Point>)
    requires vs != []
    ensures |r| == |vs|
  {
    vs[1..] + [vs[0]]
  }

  /** Starting from another vertex never changes the verdict. */
  lemma RotationIsIrrelevant(vs: seq<Point>, center: Point, p: Point, tolerance: real)
    requires vs != []
    ensures Inside(Rotated(vs), center, p, tolerance) <==> Inside(vs, center, p, tolerance)
  {
    hide Times, Dot3, Orient, Cross;
    var n := |vs|;
    forall k | 0 <= k < n
      ensures Signed(Rotated(vs), center, p, k) == Signed(vs, center, p, if k + 1 == n then 0 else k + 1)
    {
      assert Normal(Rotated(vs), k) == Normal(vs, if k + 1 == n then 0 else k + 1);
    }
    if Inside(Rotated(vs), center, p, tolerance) {
      forall k | 0 <= k < n
        ensures Signed(vs, center, p, k) >= -tolerance
      {
        assert Signed(Rotated(vs), center, p, if k == 0 then n - 1 else k - 1) >= -tolerance;
      }
    }
  }

  function Reversed(vs: seq<Point>): (r: seq<Point>)
    ensures |r| == |vs| && forall k :: 0 <= k < |vs| ==> r[k] == vs[|vs| - 1 - k]
  {
    seq(|vs|, k requires 0 <= k < |vs| => vs[|vs| - 1 - k])
  }

  function Negated(p: Point): Point { Point(-p.x, -p.y, -p.z) }

  lemma CrossReverses(a: Point, b: Point)
    ensures Cross(b, a) == Negated(Cross(a, b))
  {
    hide Times;
    TimesCommutes(a.y, b.z); TimesCommutes(a.z, b.y);
    TimesCommutes(a.z, b.x); TimesCommutes(a.x, b.z);
    TimesCommutes(a.x, b.y); TimesCommutes(a.y, b.x);
  }

  lemma Dot3Negates(p: Point, n: Point)
    ensures Dot3(p, Negated(n)) == -Dot3(p, n) && Dot3(Negated(n), p) == -Dot3(n, p)
  {
    hide Times;
    TimesNegates(p.x, n.x); TimesNegates(p.y, n.y); TimesNegates(p.z, n.z);
    TimesNegates(n.x, p.x); TimesNegates(n.y, p.y); TimesNegates(n.z, p.z);
  }

  /** The edge that position k of the reversed polygon stands for. */
  function Opposite(n: nat, k: nat): (j: nat)
    requires k < n
    ensures j < n
  {
    if k + 1 == n then n - 1 else n - 2 - k
  }

  lemma ReversedNormal(vs: seq<Point>, k: nat)
    requires k < |vs|
    ensures Normal(Reversed(vs), k) == Negated(Normal(vs, Opposite(|vs|, k)))
  {
    hide Cross, Negated;
    var j := Opposite(|vs|, k);
    CrossReverses(vs[j], vs[if j + 1 == |vs| then 0 else j + 1]);
  }

  /** Reversing the vertices flips the sign only of edges whose plane holds the centre. */
  lemma ReversedSigned(vs: seq<Point>, center: Point, p: Point, k: nat)
    requires k < |vs|
    ensures
      var j := Opposite(|vs|, k);
      Signed(Reversed(vs), center, p, k) ==
        if Dot3(Normal(vs, j), center) == 0.0 then -Signed(vs, center, p, j) else Signed(vs, center, p, j)
  {
    hide Times, Dot3, Normal, Negated;
    var n := Normal(vs, Opposite(|vs|, k));
    ReversedNormal(vs, k);
    Dot3Negates(p, n);
    Dot3Negates(center, n);
    TimesNegates(Dot3(p, n), Orient(Dot3(n, center)));
    TimesNegates(-Dot3(p, n), Orient(Dot3(n, center)));
  }

  /** Edges whose plane holds the centre: their orientation is a guess. */
  predicate OnPlane(vs: seq<Point>, center: Point, k: nat)
    requires k < |vs|
  {
    Dot3(Normal(vs, k), center) == 0.0
  }

  /** The verdict of the reversed polygon, in terms of the original edges. */
  lemma ReversedVerdict(vs: seq<Point>, center: Point, p: Point, tolerance: real)
    ensures Inside(Reversed(vs), center, p, tolerance) <==>
      |vs| >= 3 && forall k :: 0 <= k < |vs| ==>
        if OnPlane(vs, center, k) then Signed(vs, center, p, k) <= tolerance
        else Signed(vs, center, p, k) >= -tolerance
  {
    hide Times, Dot3, Normal, Signed, OnPlane;
    var n := |vs|;
    forall k | 0 <= k < n
      ensures Signed(Reversed(vs), center, p, k) ==
        if OnPlane(vs, center, Opposite(n, k)) then -Signed(vs, center, p, Opposite(n, k))
        else Signed(vs, center, p, Opposite(n, k))
    {
      ReversedSigned(vs, center, p, k);
      OnPlaneIs(vs, center, Opposite(n, k));
    }
    if Inside(Reversed(vs), center, p, tolerance) {
      forall k | 0 <= k < n
        ensures if OnPlane(vs, center, k) then Signed(vs, center, p, k) <= tolerance
                else Signed(vs, center, p, k) >= -tolerance
      {
        assert Opposite(n, Opposite(n, k)) == k;
        assert Signed(Reversed(vs), center, p, Opposite(n, k)) >= -tolerance;
      }
    }
  }

  lemma OnPlaneIs(vs: seq<Point>, center: Point, k: nat)
    requires k < |vs|
    ensures OnPlane(vs, center, k) <==> Dot3(Normal(vs, k), center) == 0.0
  {
  }

  const Origin: Point := Point(0.0, 0.0, 0.0)

  /** Clockwise and counter-clockwise polygons agree when the only edges whose plane holds the centre
      have no length. */
  lemma ReversalIsIrrelevant(vs: seq<Point>, center: Point, p: Point, tolerance: real)
    requires forall k :: 0 <= k < |vs| && OnPlane(vs, center, k) ==> Normal(vs, k) == Origin
    ensures Inside(Reversed(vs), center, p, tolerance) <==> Inside(vs, center, p, tolerance)
  {
    hide OnPlane, Signed, Normal;
    ReversedVerdict(vs, center, p, tolerance);
    forall k | 0 <= k < |vs| && OnPlane(vs, center, k)
      ensures Signed(vs, center, p, k) == 0.0
    {
      SignedOnPlane(vs, center, p, k);
      Dot3Origin(p);
    }
  }

  lemma Dot3Origin(p: Point)
    ensures Dot3(p, Origin) == 0.0
  {
    hide Times;
    TimesUnits(p.x);
    TimesUnits(p.y);
    TimesUnits(p.z);
  }

  /** An edge plane through the centre counts points on its positive side as inside. */
  lemma SignedOnPlane(vs: seq<Point>, center: Point, p: Point, k: nat)
    requires k < |vs| && OnPlane(vs, center, k)
    ensures Signed(vs, center, p, k) == Dot3(p, Normal(vs, k))
  {
    hide Times, Dot3, Normal;
    TimesUnits(Dot3(p, Normal(vs, k)));
  }

  lemma SignedAtCenter(vs: seq<Point>, center: Point, k: nat)
    requires k < |vs|
    ensures Signed(vs, center, center, k) == Abs(Dot3(Normal(vs, k), center))
  {
    hide Times, Dot3, Normal, Orient;
    Dot3Commutes(center, Normal(vs, k));
    OrientMeansAbs(Dot3(center, Normal(vs, k)));
  }

  lemma SignedCombines(vs: seq<Point>, center: Point, a: real, q: Point, k: nat)
    requires k < |vs|
    ensures Signed(vs, center, Combine(a, center, 1.0, q), k) ==
            Times(a, Signed(vs, center, center, k)) + Signed(vs, center, q, k)
  {
    hide Times, Dot3, Normal, Orient, Combine;
    var n := Normal(vs, k);
    Dot3Combines(a, center, 1.0, q, n);
    Times3(a, Dot3(center, n), 1.0, Dot3(q, n), Orient(Dot3(n, center)));
    TimesUnits(Signed(vs, center, q, k));
  }

  /** Moving far enough towards the centre satisfies every edge whose plane does not hold it. */
  lemma {:induction false} NearCenter(vs: seq<Point>, center: Point, q: Point, n: nat) returns (a: real)
    requires n <= |vs|
    ensures a >= 0.0
    ensures forall k :: 0 <= k < n && !OnPlane(vs, center, k) ==>
      Times(a, Signed(vs, center, center, k)) + Signed(vs, center, q, k) >= 0.0
  {
    hide Times, Dot3, Normal, Signed, OnPlane;
    a := 0.0;
    if n > 0 {
      var b := NearCenter(vs, center, q, n - 1);
      a := b;
      var d, x := Signed(vs, center, center, n - 1), Signed(vs, center, q, n - 1);
      if !OnPlane(vs, center, n - 1) && Times(b, d) + x < 0.0 {
        SignedAtCenter(vs, center, n - 1);
        OnPlaneIs(vs, center, n - 1);
        a := b + Abs(x) / d;
        Quotient(Abs(x), d, 0.0);
        TimesCommutes(a, d);
        TimesCommutes(b, d);
        TimesCommutes(Abs(x) / d, d);
        TimesDistributes(d, b, Abs(x) / d);
        assert Abs(x) / d >= 0.0;
        TimesMonotone(d, 0.0, b);
        TimesUnits(d);
        forall k | 0 <= k < n - 1 && !OnPlane(vs, center, k)
          ensures Times(a, Signed(vs, center, center, k)) + Signed(vs, center, q, k) >= 0.0
        {
          SignedAtCenter(vs, center, k);
          var e := Signed(vs, center, center, k);
          TimesCommutes(a, e);
          TimesCommutes(b, e);
          TimesMonotone(e, b, a);
        }
      }
    }
  }

  /** A direction on the positive side of all edge planes through the centre, and not in all of them. */
  ghost predicate Splits(vs: seq<Point>, center: Point, q: Point) {
    && (forall k :: 0 <= k < |vs| && OnPlane(vs, center, k) ==> Dot3(q, Normal(vs, k)) >= 0.0)
    && (exists k :: 0 <= k < |vs| && OnPlane(vs, center, k) && Dot3(q, Normal(vs, k)) > 0.0)
  }

  ghost predicate OrderMatters(vs: seq<Point>, center: Point) {
    exists p :: Inside(vs, center, p, 0.0) != Inside(Reversed(vs), center, p, 0.0)
  }

  /** Such a direction gives a point that one order accepts and the other rejects. */
  lemma SplitIsSeen(vs: seq<Point>, center: Point, q: Point) returns (p: Point)
    requires |vs| >= 3 && Splits(vs, center, q)
    ensures Inside(vs, center, p, 0.0) && !Inside(Reversed(vs), center, p, 0.0)
  {
    hide Times, Dot3, Normal, Signed, OnPlane, Combine;
    var a := NearCenter(vs, center, q, |vs|);
    p := Combine(a, center, 1.0, q);
    ReversedVerdict(vs, center, p, 0.0);
    forall k | 0 <= k < |vs|
      ensures Signed(vs, center, p, k) >= 0.0
      ensures OnPlane(vs, center, k) ==> Signed(vs, center, p, k) == Dot3(q, Normal(vs, k))
    {
      SignedCombines(vs, center, a, q, k);
      if OnPlane(vs, center, k) {
        SignedOnPlane(vs, center, q, k);
        SignedAtCenter(vs, center, k);
        OnPlaneIs(vs, center, k);
        TimesUnits(a);
      }
    }
  }

  /** The two orders accept different points at zero tolerance exactly when the edge planes through
      the centre leave room for a direction on one side of them all. */
  lemma OrderMattersIff(vs: seq<Point>, center: Point)
    requires |vs| >= 3
    ensures OrderMatters(vs, center) <==> exists q :: Splits(vs, center, q)
  {
    hide Times, Dot3, Normal, Signed, OnPlane, Inside, Negated;
    if OrderMatters(vs, center) {
      var p :| Inside(vs, center, p, 0.0) != Inside(Reversed(vs), center, p, 0.0);
      DisagreementSplits(vs, center, p);
    }
    if q :| Splits(vs, center, q) {
      var p := SplitIsSeen(vs, center, q);
    }
  }

  lemma DisagreementSplits(vs: seq<Point>, center: Point, p: Point)
    requires |vs| >= 3 && Inside(vs, center, p, 0.0) != Inside(Reversed(vs), center, p, 0.0)
    ensures Splits(vs, center, p) || Splits(vs, center, Negated(p))
  {
    hide Times, Dot3, Normal, Signed, OnPlane, Negated;
    ReversedVerdict(vs, center, p, 0.0);
    forall k | 0 <= k < |vs| && OnPlane(vs, center, k)
      ensures Signed(vs, center, p, k) == Dot3(p, Normal(vs, k)) == -Dot3(Negated(p), Normal(vs, k))
    {
      SignedOnPlane(vs, center, p, k);
      Dot3Negates(Normal(vs, k), p);
    }
  }

  lemma SquarePositive(x: real)
    ensures Times(x, x) >= 0.0 && (x != 0.0 ==> Times(x, x) > 0.0)
  {
    hide Times;
    TimesUnits(x);
    TimesNegates(x, x);
    TimesNegates(x, -x);
    if x > 0.0 {
      TimesPositive(x, x);
    } else if x < 0.0 {
      TimesPositive(-x, -x);
    }
  }

  lemma LengthPositive(p: Point)
    requires p != Origin
    ensures Dot3(p, p) > 0.0
  {
    hide Times;
    SquarePositive(p.x);
    SquarePositive(p.y);
    SquarePositive(p.z);
  }

  /** A single edge of some length whose plane holds the centre always makes the order matter. */
  lemma LoneEdgePlaneMatters(vs: seq<Point>, center: Point, j: nat)
    requires |vs| >= 3 && j < |vs| && OnPlane(vs, center, j) && Normal(vs, j) != Origin
    requires forall k :: 0 <= k < |vs| && k != j && OnPlane(vs, center, k) ==> Normal(vs, k) == Origin
    ensures OrderMatters(vs, center)
  {
    hide Dot3, Normal, Inside, OnPlane;
    var q := Normal(vs, j);
    LengthPositive(q);
    Dot3Origin(q);
    assert Splits(vs, center, q);
    OrderMattersIff(vs, center);
  }

  function Axis(x: bool, y: bool, z: bool): Point {
    Point(if x then 1.0 else 0.0, if y then 1.0 else 0.0, if z then 1.0 else 0.0)
  }

  /** A triangle on the axes; the centre below lies on the plane of its first edge. */
  function Axes(): seq<Point> { [Axis(true, false, false), Axis(false, true, false), Axis(false, false, true)] }

  lemma UnitTable()
    ensures Times(0.0, 0.0) == 0.0 && Times(0.0, 1.0) == 0.0 && Times(1.0, 0.0) == 0.0 && Times(1.0, 1.0) == 1.0
  {
    hide Times;
    TimesUnits(0.0);
    TimesUnits(1.0);
  }

  lemma CrossXY(a: Point, b: Point)
    requires a == Axis(true, false, false) && b == Axis(false, true, false)
    ensures Cross(a, b) == Axis(false, false, true)
  {
    hide Times;
    UnitTable();
  }

  lemma CrossYZ(a: Point, b: Point)
    requires a == Axis(false, true, false) && b == Axis(false, false, true)
    ensures Cross(a, b) == Axis(true, false, false)
  {
    hide Times;
    UnitTable();
  }

  lemma CrossZX(a: Point, b: Point)
    requires a == Axis(false, false, true) && b == Axis(true, false, false)
    ensures Cross(a, b) == Axis(false, true, false)
  {
    hide Times;
    UnitTable();
  }

  lemma AxisNormals()
    ensures |Axes()| == 3 && Normal(Axes(), 0) == Axis(false, false, true)
    ensures Normal(Axes(), 1) == Axis(true, false, false) && Normal(Axes(), 2) == Axis(false, true, false)
  {
    hide Times, Cross, Axis;
    CrossXY(Axes()[0], Axes()[1]);
    CrossYZ(Axes()[1], Axes()[2]);
    CrossZX(Axes()[2], Axes()[0]);
  }

  lemma AxisDots(p: Point)
    ensures Dot3(p, Axis(true, false, false)) == p.x == Dot3(Axis(true, false, false), p)
    ensures Dot3(p, Axis(false, true, false)) == p.y == Dot3(Axis(false, true, false), p)
    ensures Dot3(p, Axis(false, false, true)) == p.z == Dot3(Axis(false, false, true), p)
  {
    hide Times;
    TimesUnits(p.x);
    TimesUnits(p.y);
    TimesUnits(p.z);
  }

  /** They can disagree when the centre lies on the plane of an edge. */
  lemma CenterOnPlaneBreaksReversal()
    ensures
      var center, p := Point(0.6, 0.8, 0.0), Point(2.0 / 3.0, 2.0 / 3.0, 1.0 / 3.0);
      Inside(Axes(), center, p, 0.0) && !Inside(Reversed(Axes()), center, p, 0.0)
  {
    hide Axes, Axis, Normal, Dot3, Times;
    var center, p := Point(0.6, 0.8, 0.0), Point(2.0 / 3.0, 2.0 / 3.0, 1.0 / 3.0);
    AxisNormals();
    AxisDots(p);
    AxisDots(center);
    TimesUnits(p.x);
    TimesUnits(p.y);
    TimesUnits(p.z);
    assert Signed(Axes(), center, p, 0) == p.z > 0.0;
    assert Signed(Axes(), center, p, 1) == p.x && Signed(Axes(), center, p, 2) == p.y;
    ReversedVerdict(Axes(), center, p, 0.0);
  }
}
