/** What a validated mapping conserves: constants, global area, and field integrals. */
module Conservation {
  import opened Outcome
  import opened Reals
  import opened Vectors
  import opened SparseWeights

  /** Every destination row sums to one within the tolerance. */
  ghost predicate RowsNearOne(w: Weights, tol: real)
    requires Valid(w)
  {
    var sums := RowSums(w.links, w.nDest, w.nSrc);
    forall d :: 0 <= d < w.nDest ==> Abs(sums[d] - 1.0) <= tol
  }

  lemma OpenedRowsNearOne(t: Triplets, nDest: Option<int>, nSrc: Option<int>, fullSrc: bool, tol: real)
    ensures
      var r := Open(t, nDest, nSrc, true, fullSrc, tol);
      r.Ok? ==> Valid(r.value) && RowsNearOne(r.value, tol)
  {
    var r := Open(t, nDest, nSrc, true, fullSrc, tol);
    if r.Ok? {
      OpensIffUsable(t, nDest, nSrc, true, fullSrc, tol);
      assert UnitRows(t, r.value.nDest, r.value.nSrc, tol) && Covers(t.row, r.value.nDest);
    }
  }

  lemma ScaledNearOne(c: real, s: real, tol: real)
    requires Abs(s - 1.0) <= tol
    ensures Abs(Times(c, s) - c) <= Times(tol, Abs(c))
  {
    hide Times;
    TimesDistributes(c, s, 1.0);
    TimesUnits(c);
    TimesAbs(c, s - 1.0);
    TimesMonotone(Abs(c), Abs(s - 1.0), tol);
    TimesCommutes(tol, Abs(c));
  }

  /** A field that is c everywhere arrives as c everywhere, up to the row tolerance. */
  lemma ConstantsSurvive(w: Weights, c: real, tol: real, d: nat)
    requires Valid(w) && RowsNearOne(w, tol) && d < w.nDest
    ensures Abs(Product(w.links, w.nDest, Constant(w.nSrc, c))[d] - c) <= Times(tol, Abs(c))
  {
    hide Product, Abs, Times;
    var ones := Constant(w.nSrc, 1.0);
    TimesUnits(c);
    assert Scale(c, ones) == Constant(w.nSrc, c);
    ProductScales(w.links, w.nDest, c, ones);
    var sums, image := RowSums(w.links, w.nDest, w.nSrc), Product(w.links, w.nDest, Constant(w.nSrc, c));
    assert image == Scale(c, sums);
    ScaledNearOne(c, sums[d], tol);
  }

  /** The area report of a weight file: destination total, implied source total, difference. */
  datatype AreaReport = AreaReport(destination: real, implied: real, difference: real)

  function Summarize(w: Weights, destArea: Vector): AreaReport
    requires Valid(w) && |destArea| == w.nDest
  {
    var implied := Sum(ImpliedArea(w.links, w.nSrc, destArea));
    AreaReport(Sum(destArea), implied, implied - Sum(destArea))
  }

  lemma ImpliedTotal(w: Weights, destArea: Vector)
    requires Valid(w) && |destArea| == w.nDest
    ensures Sum(ImpliedArea(w.links, w.nSrc, destArea)) == Dot(destArea, RowSums(w.links, w.nDest, w.nSrc))
  {
    hide Product, Dot, Sum, Times;
    TimesUnits(Sum(ImpliedArea(w.links, w.nSrc, destArea)));
    Adjoint(w.links, destArea, Constant(w.nSrc, 1.0));
    DotConstant(ImpliedArea(w.links, w.nSrc, destArea), 1.0);
  }

  /** The reported global area difference is bounded by the row tolerance times the total area. */
  lemma AreaDifferenceIsBounded(w: Weights, destArea: Vector, tol: real)
    requires Valid(w) && RowsNearOne(w, tol)
    requires |destArea| == w.nDest && NonNegative(destArea)
    ensures Abs(Summarize(w, destArea).difference) <= Times(tol, Summarize(w, destArea).destination)
  {
    hide Product, Dot, Sum, Times;
    TimesUnits(Sum(destArea));
    var sums := RowSums(w.links, w.nDest, w.nSrc);
    var errors := Add(sums, Constant(w.nDest, -1.0));
    ImpliedTotal(w, destArea);
    DotAdd(destArea, sums, Constant(w.nDest, -1.0));
    DotConstant(destArea, -1.0);
    DotBound(destArea, errors, tol);
  }

  ghost predicate Conserves(w: Weights, destArea: Vector, srcArea: Vector)
    requires Valid(w) && |destArea| == w.nDest && |srcArea| == w.nSrc
  {
    forall src: Vector :: |src| == w.nSrc ==>
      Dot(destArea, Product(w.links, w.nDest, src)) == Dot(srcArea, src)
  }

  /** A mapping conserves the integral of every field exactly when its column areas are the
      source areas. */
  lemma ConservesIffColumnsMatch(w: Weights, destArea: Vector, srcArea: Vector)
    requires Valid(w) && |destArea| == w.nDest && |srcArea| == w.nSrc
    ensures Conserves(w, destArea, srcArea) <==> ImpliedArea(w.links, w.nSrc, destArea) == srcArea
  {
    var implied := ImpliedArea(w.links, w.nSrc, destArea);
    forall src: Vector | |src| == w.nSrc
      ensures Dot(destArea, Product(w.links, w.nDest, src)) == Dot(implied, src)
    {
      Adjoint(w.links, destArea, src);
    }
    if Conserves(w, destArea, srcArea) {
      forall c | 0 <= c < w.nSrc
        ensures implied[c] == srcArea[c]
      {
        assert Dot(implied, Unit(w.nSrc, c)) == Dot(srcArea, Unit(w.nSrc, c));
        DotUnit(implied, c);
        DotUnit(srcArea, c);
      }
    }
  }
}
