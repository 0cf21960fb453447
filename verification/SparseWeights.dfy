/** Sparse conservative remapping: validated triplets, chunked application, and conservation. */
module SparseWeights {
  import opened Outcome
  import opened Permutations
  import opened Reals
  import opened Vectors

  /** One link of the mapping, with 0-based row (destination) and column (source). */
  datatype Link = Link(weight: real, row: nat, col: nat)

  /** The three arrays of a weight file, rows and columns still 1-based. */
  datatype Triplets = Triplets(s: seq<real>, row: seq<int>, col: seq<int>)

  datatype Weights = Weights(links: seq<Link>, nDest: nat, nSrc: nat)

  datatype OpenError =
    | BadShape
    | BadIndex
    | DimensionsExceeded(rows: nat, cols: nat)
    | MissesDestination(cells: nat)
    | MissesSource(cells: nat)
    | NotNormalized

  datatype ApplyError = WrongSourceSize(given: nat, expected: nat) | BadChunk

  ghost predicate InRange(links: seq<Link>, nDest: nat, nSrc: nat) {
    forall k :: 0 <= k < |links| ==> links[k].row < nDest && links[k].col < nSrc
  }

  ghost predicate Valid(w: Weights) {
    InRange(w.links, w.nDest, w.nSrc)
  }

  /** What the links stand for: entry (d, c) of the mapping matrix, and its row d. */
  function Entry(links: seq<Link>, d: nat, c: nat): real {
    if links == [] then 0.0
    else
      var l := links[|links| - 1];
      Entry(links[..|links| - 1], d, c) + if l.row == d && l.col == c then l.weight else 0.0
  }

  function Row(links: seq<Link>, d: nat, nSrc: nat): (v: Vector)
    ensures |v| == nSrc && forall c :: 0 <= c < nSrc ==> v[c] == Entry(links, d, c)
  {
    seq(nSrc, c requires 0 <= c < nSrc => Entry(links, d, c))
  }

  /** What one link adds to its row. */
  function Flow(l: Link, src: Vector): real
    requires l.col < |src|
  {
    Times(l.weight, src[l.col])
  }

  /** Scatter-add of weight * src[col] into rows: the bincount of one run of links. */
  function Product(links: seq<Link>, n: nat, src: Vector): (v: Vector)
    requires InRange(links, n, |src|)
    ensures |v| == n
  {
    if links == [] then Constant(n, 0.0)
    else
      var l := links[|links| - 1];
      var v := Product(links[..|links| - 1], n, src);
      Bump(v, l.row, Flow(l, src))
  }

  lemma ProductLast(links: seq<Link>, n: nat, src: Vector)
    requires InRange(links, n, |src|)
    ensures links == [] ==> Product(links, n, src) == Constant(n, 0.0)
    ensures links != [] ==>
      var m := |links| - 1;
      Product(links, n, src) ==
      Bump(Product(links[..m], n, src), links[m].row, Flow(links[m], src))
  {
  }

  function Transposed(links: seq<Link>): (t: seq<Link>)
    ensures |t| == |links|
    ensures forall k :: 0 <= k < |t| ==> t[k] == Link(links[k].weight, links[k].col, links[k].row)
  {
    seq(|links|, k requires 0 <= k < |links| => Link(links[k].weight, links[k].col, links[k].row))
  }

  function RowSums(links: seq<Link>, nDest: nat, nSrc: nat): Vector
    requires InRange(links, nDest, nSrc)
  {
    Product(links, nDest, Constant(nSrc, 1.0))
  }

  /** Source areas implied by destination areas: column sums of weight * destination area. */
  function ImpliedArea(links: seq<Link>, nSrc: nat, destArea: Vector): Vector
    requires InRange(links, |destArea|, nSrc)
  {
    Product(Transposed(links), nSrc, destArea)
  }

  // ---- Opening a weight file ----

  function LinkCount(links: seq<Link>, d: nat): nat {
    if links == [] then 0
    else LinkCount(links[..|links| - 1], d) + if links[|links| - 1].row == d then 1 else 0
  }

  /** How many of the cells 0..n have no link. */
  function Missing(links: seq<Link>, n: nat): nat {
    if n == 0 then 0 else Missing(links, n - 1) + if LinkCount(links, n - 1) == 0 then 1 else 0
  }

  function Largest(s: seq<int>): (m: int)
    requires s != []
    ensures m in s && forall k :: 0 <= k < |s| ==> s[k] <= m
  {
    if |s| == 1 then s[0]
    else
      var m := Largest(s[..|s| - 1]);
      if m < s[|s| - 1] then s[|s| - 1] else m
  }

  predicate Shaped(t: Triplets) {
    |t.s| == |t.row| == |t.col| && t.s != []
  }

  predicate OneBased(t: Triplets) {
    (forall k :: 0 <= k < |t.row| ==> 1 <= t.row[k]) && (forall k :: 0 <= k < |t.col| ==> 1 <= t.col[k])
  }

  function ZeroBased(t: Triplets): (links: seq<Link>)
    requires Shaped(t) && OneBased(t)
    ensures |links| == |t.s|
    ensures forall k :: 0 <= k < |links| ==> links[k] == Link(t.s[k], t.row[k] - 1, t.col[k] - 1)
  {
    seq(|t.s|, k requires 0 <= k < |t.s| => Link(t.s[k], t.row[k] - 1, t.col[k] - 1))
  }

  predicate Normalized(links: seq<Link>, nDest: nat, nSrc: nat, tol: real)
    requires InRange(links, nDest, nSrc)
  {
    var sums := RowSums(links, nDest, nSrc);
    forall d :: 0 <= d < nDest && LinkCount(links, d) > 0 ==> Abs(sums[d] - 1.0) <= tol
  }

  function Open(t: Triplets, nDest: Option<int>, nSrc: Option<int>,
                fullDest: bool, fullSrc: bool, tol: real): (r: Result<Weights, OpenError>)
  {
    if !Shaped(t) then Err(BadShape)
    else if !OneBased(t) then Err(BadIndex)
    else
      var rows, cols := Largest(t.row), Largest(t.col);
      var nd := if nDest.Some? then nDest.value else rows;
      var ns := if nSrc.Some? then nSrc.value else cols;
      if rows > nd || cols > ns then Err(DimensionsExceeded(rows, cols))
      else
        var links := ZeroBased(t);
        var noDest, noSrc := Missing(links, nd), Missing(Transposed(links), ns);
        if fullDest && noDest > 0 then Err(MissesDestination(noDest))
        else if fullSrc && noSrc > 0 then Err(MissesSource(noSrc))
        else if !Normalized(links, nd, ns, tol) then Err(NotNormalized)
        else Ok(Weights(links, nd, ns))
  }

  lemma {:induction false} CountedIffLinked(links: seq<Link>, d: nat)
    ensures LinkCount(links, d) > 0 <==> exists k :: 0 <= k < |links| && links[k].row == d
  {
    if links != [] {
      var n := |links| - 1;
      CountedIffLinked(links[..n], d);
      if LinkCount(links, d) > 0 && links[n].row != d {
        var k :| 0 <= k < n && links[..n][k].row == d;
        assert links[k].row == d;
      }
      if k :| 0 <= k < n && links[k].row == d {
        assert links[..n][k].row == d;
      }
    }
  }

  ghost predicate AllLinked(links: seq<Link>, n: nat) {
    forall d: nat :: d < n ==> LinkCount(links, d) > 0
  }

  lemma {:induction false} NoneMissing(links: seq<Link>, n: nat)
    ensures Missing(links, n) == 0 <==> AllLinked(links, n)
  {
    if n > 0 {
      NoneMissing(links, n - 1);
      if AllLinked(links, n) {
        assert AllLinked(links, n - 1) && LinkCount(links, n - 1) > 0;
      } else if AllLinked(links, n - 1) {
        var d: nat :| d < n && !(LinkCount(links, d) > 0);
        assert d == n - 1;
      }
    }
  }

  lemma {:induction false} UnlinkedRowIsZero(links: seq<Link>, n: nat, src: Vector, d: nat)
    requires InRange(links, n, |src|) && d < n && LinkCount(links, d) == 0
    ensures Product(links, n, src)[d] == 0.0
  {
    if links != [] {
      UnlinkedRowIsZero(links[..|links| - 1], n, src, d);
    }
  }

  /** Does a 1-based index array mention cell d? */
  ghost predicate Mentions(index: seq<int>, d: nat) {
    exists k :: 0 <= k < |index| && index[k] == d + 1
  }

  ghost predicate Covers(index: seq<int>, n: nat) {
    forall d: nat :: d < n ==> Mentions(index, d)
  }

  ghost predicate Within(index: seq<int>, n: int) {
    forall k :: 0 <= k < |index| ==> 1 <= index[k] <= n
  }

  lemma MentionedRows(t: Triplets, n: nat)
    requires Shaped(t) && OneBased(t)
    ensures forall d: nat :: LinkCount(ZeroBased(t), d) > 0 <==> Mentions(t.row, d)
    ensures Missing(ZeroBased(t), n) == 0 <==> Covers(t.row, n)
  {
    var links := ZeroBased(t);
    forall d: nat
      ensures LinkCount(links, d) > 0 <==> Mentions(t.row, d)
    {
      CountedIffLinked(links, d);
      if k :| 0 <= k < |t.row| && t.row[k] == d + 1 {
        assert links[k].row == d;
      }
    }
    NoneMissing(links, n);
  }

  lemma CoveredColumns(t: Triplets, n: nat)
    requires Shaped(t) && OneBased(t)
    ensures Missing(Transposed(ZeroBased(t)), n) == 0 <==> Covers(t.col, n)
  {
    var flipped := Triplets(t.s, t.col, t.row);
    assert Transposed(ZeroBased(t)) == ZeroBased(flipped);
    MentionedRows(flipped, n);
  }

  /** The requested (or inferred) size of one side. */
  function Extent(index: seq<int>, requested: Option<int>): int
    requires index != []
  {
    if requested.Some? then requested.value else Largest(index)
  }

  ghost predicate UnitRows(t: Triplets, nDest: nat, nSrc: nat, tol: real)
    requires Shaped(t) && OneBased(t) && InRange(ZeroBased(t), nDest, nSrc)
  {
    forall d: nat :: d < nDest && Mentions(t.row, d) ==> Abs(RowSums(ZeroBased(t), nDest, nSrc)[d] - 1.0) <= tol
  }

  ghost predicate Usable(t: Triplets, nd: int, ns: int, fullDest: bool, fullSrc: bool, tol: real) {
    && Shaped(t)
    && Within(t.row, nd) && Within(t.col, ns) && 0 < nd && 0 < ns
    && (fullDest ==> Covers(t.row, nd))
    && (fullSrc ==> Covers(t.col, ns))
    && UnitRows(t, nd, ns, tol)
  }

  lemma InRangeIffWithin(t: Triplets, nd: int, ns: int)
    requires Shaped(t) && OneBased(t)
    ensures Largest(t.row) <= nd <==> Within(t.row, nd)
    ensures Largest(t.col) <= ns <==> Within(t.col, ns)
  {
    assert Largest(t.row) in t.row && Largest(t.col) in t.col;
  }

  lemma NormalizedIffUnitRows(t: Triplets, nd: nat, ns: nat, tol: real)
    requires Shaped(t) && OneBased(t) && Within(t.row, nd) && Within(t.col, ns)
    ensures InRange(ZeroBased(t), nd, ns)
    ensures Normalized(ZeroBased(t), nd, ns, tol) <==> UnitRows(t, nd, ns, tol)
  {
    MentionedRows(t, nd);
  }

  /** A file opens exactly when its indices fit, the cells that must be covered are covered and
      every covered row sums to one; and what is opened is the file's own matrix. */
  lemma OpensIffUsable(t: Triplets, nDest: Option<int>, nSrc: Option<int>,
                       fullDest: bool, fullSrc: bool, tol: real)
    requires Shaped(t)
    ensures
      var r := Open(t, nDest, nSrc, fullDest, fullSrc, tol);
      var nd, ns := Extent(t.row, nDest), Extent(t.col, nSrc);
      && (r.Ok? <==> Usable(t, nd, ns, fullDest, fullSrc, tol))
      && (r.Ok? ==> r.value == Weights(ZeroBased(t), nd, ns) && Valid(r.value))
  {
    hide Normalized, UnitRows, Missing, Covers, Product, RowSums;
    var nd, ns := Extent(t.row, nDest), Extent(t.col, nSrc);
    if OneBased(t) {
      InRangeIffWithin(t, nd, ns);
      if Within(t.row, nd) && Within(t.col, ns) {
        MentionedRows(t, nd);
        CoveredColumns(t, ns);
        NormalizedIffUnitRows(t, nd, ns, tol);
      }
    }
  }

  // ---- Applying a mapping ----

  lemma RowLast(links: seq<Link>, d: nat, nSrc: nat)
    requires links != [] && links[|links| - 1].col < nSrc
    ensures
      var l, before := links[|links| - 1], Row(links[..|links| - 1], d, nSrc);
      Row(links, d, nSrc) == if l.row == d then Bump(before, l.col, l.weight) else before
  {
  }

  lemma RowEmpty(d: nat, nSrc: nat)
    ensures Row([], d, nSrc) == Constant(nSrc, 0.0)
  {
  }

  lemma DotZeros(src: Vector)
    ensures Dot(Constant(|src|, 0.0), src) == 0.0
  {
    hide Dot, Times, Sum;
    DotCommutes(src, Constant(|src|, 0.0));
    DotConstant(src, 0.0);
    TimesUnits(Sum(src));
  }

  lemma DotBumped(row: Vector, l: Link, src: Vector)
    requires |row| == |src| && l.col < |src|
    ensures Dot(Bump(row, l.col, l.weight), src) == Dot(row, src) + Flow(l, src)
  {
    hide Dot, Times, Bump;
    DotCommutes(row, src);
    DotUpdate(src, row, l.col, l.weight);
    DotCommutes(Bump(row, l.col, l.weight), src);
    TimesCommutes(l.weight, src[l.col]);
  }

  /** Scatter-add computes the matrix-vector product. */
  lemma {:induction false} ProductIsScatter(links: seq<Link>, n: nat, src: Vector, d: nat)
    requires InRange(links, n, |src|) && d < n
    ensures Product(links, n, src)[d] == Dot(Row(links, d, |src|), src)
  {
    hide Dot, Flow, Product, Entry, Row;
    ProductLast(links, n, src);
    if links == [] {
      RowEmpty(d, |src|);
      DotZeros(src);
    } else {
      ProductIsScatter(links[..|links| - 1], n, src, d);
      RowLast(links, d, |src|);
      DotBumped(Row(links[..|links| - 1], d, |src|), links[|links| - 1], src);
    }
  }

  lemma {:induction false} ProductConcat(a: seq<Link>, b: seq<Link>, n: nat, src: Vector)
    requires InRange(a, n, |src|) && InRange(b, n, |src|)
    ensures InRange(a + b, n, |src|)
    ensures Product(a + b, n, src) == Add(Product(a, n, src), Product(b, n, src))
  {
    hide Flow, Product, Times;
    ProductLast(b, n, src);
    ProductLast(a + b, n, src);
    if b == [] {
      assert a + b == a;
    } else {
      var m := |b| - 1;
      var l := b[m];
      ProductConcat(a, b[..m], n, src);
      assert (a + b)[..|a + b| - 1] == a + b[..m];
      BumpAdd(Product(a, n, src), Product(b[..m], n, src), l.row, 0.0, Flow(l, src));
    }
  }

  /** The mapping applied in any run of positive chunks is the matrix times the field. */
  method Apply(w: Weights, src: Vector, chunkLinks: int) returns (r: Result<Vector, ApplyError>)
    requires Valid(w)
    ensures |src| != w.nSrc ==> r == Err(WrongSourceSize(|src|, w.nSrc))
    ensures |src| == w.nSrc && chunkLinks <= 0 ==> r == Err(BadChunk)
    ensures |src| == w.nSrc && chunkLinks > 0 ==> r == Ok(Product(w.links, w.nDest, src))
  {
    if |src| != w.nSrc {
      return Err(WrongSourceSize(|src|, w.nSrc));
    }
    var dst := new real[w.nDest](_ => 0.0);
    if chunkLinks <= 0 {
      return Err(BadChunk);
    }
    var start := 0;
    while start < |w.links|
      invariant 0 <= start <= |w.links|
      invariant dst[..] == Product(w.links[..start], w.nDest, src)
    {
      var stop := if start + chunkLinks < |w.links| then start + chunkLinks else |w.links|;
      var bins := Bincount(w.links[start..stop], w.nDest, src);
      ghost var done := dst[..];
      AddInto(dst, bins);
      ProductConcat(w.links[..start], w.links[start..stop], w.nDest, src);
      assert w.links[..stop] == w.links[..start] + w.links[start..stop];
      start := stop;
    }
    assert w.links[..start] == w.links;
    return Ok(dst[..]);
  }

  method AddInto(dst: array<real>, bins: array<real>)
    requires dst != bins && dst.Length == bins.Length
    modifies dst
    ensures dst[..] == Add(old(dst[..]), bins[..])
  {
    var d := 0;
    while d < dst.Length
      invariant 0 <= d <= dst.Length
      invariant forall i :: 0 <= i < d ==> dst[i] == old(dst[i]) + bins[i]
      invariant forall i :: d <= i < dst.Length ==> dst[i] == old(dst[i])
    {
      dst[d] := dst[d] + bins[d];
      d := d + 1;
    }
  }

  method Bincount(links: seq<Link>, n: nat, src: Vector) returns (bins: array<real>)
    requires InRange(links, n, |src|)
    ensures fresh(bins) && bins[..] == Product(links, n, src)
  {
    bins := new real[n](_ => 0.0);
    var k := 0;
    while k < |links|
      invariant 0 <= k <= |links|
      invariant bins[..] == Product(links[..k], n, src)
    {
      var l := links[k];
      assert links[..k + 1][..k] == links[..k];
      ghost var before := bins[..];
      bins[l.row] := bins[l.row] + Flow(l, src);
      assert bins[..] == Bump(before, l.row, Flow(l, src));
      ProductLast(links[..k + 1], n, src);
      k := k + 1;
    }
    assert links[..k] == links;
  }

  // ---- Order of the links ----

  function Share(l: Link, d: nat, c: nat): real {
    if l.row == d && l.col == c then l.weight else 0.0
  }

  lemma {:induction false} EntryWithout(links: seq<Link>, k: nat, d: nat, c: nat)
    requires k < |links|
    ensures Entry(links, d, c) == Entry(Without(links, k), d, c) + Share(links[k], d, c)
  {
    var n := |links| - 1;
    if k < n {
      EntryWithout(links[..n], k, d, c);
      var rest := Without(links, k);
      assert rest[..|rest| - 1] == Without(links[..n], k);
    } else {
      assert Without(links, k) == links[..n];
    }
  }

  lemma {:induction false} EntryIgnoresOrder(a: seq<Link>, b: seq<Link>, d: nat, c: nat)
    requires multiset(a) == multiset(b)
    ensures Entry(a, d, c) == Entry(b, d, c)
    decreases |a|
  {
    if a == [] {
      assert |multiset(b)| == 0;
    } else {
      var k := Match(a, b);
      EntryIgnoresOrder(a[..|a| - 1], Without(b, k), d, c);
      EntryWithout(b, k, d, c);
    }
  }

  /** Links may come in any order: production files hold several row-sorted blocks. */
  lemma ApplyIgnoresLinkOrder(a: seq<Link>, b: seq<Link>, n: nat, src: Vector)
    requires multiset(a) == multiset(b) && InRange(a, n, |src|) && InRange(b, n, |src|)
    ensures Product(a, n, src) == Product(b, n, src)
  {
    forall d | 0 <= d < n
      ensures Product(a, n, src)[d] == Product(b, n, src)[d]
    {
      ProductIsScatter(a, n, src, d);
      ProductIsScatter(b, n, src, d);
      forall c | 0 <= c < |src|
        ensures Row(a, d, |src|)[c] == Row(b, d, |src|)[c]
      {
        EntryIgnoresOrder(a, b, d, c);
      }
      assert Row(a, d, |src|) == Row(b, d, |src|);
    }
  }

  // ---- Linearity ----

  lemma FlowIsLinear(l: Link, k: real, x: Vector, y: Vector)
    requires |x| == |y| && l.col < |x|
    ensures Flow(l, Add(x, y)) == Flow(l, x) + Flow(l, y)
    ensures Flow(l, Scale(k, x)) == Times(k, Flow(l, x))
  {
    hide Times;
    TimesDistributes(l.weight, x[l.col], y[l.col]);
    TimesSwap(l.weight, k, x[l.col]);
  }

  lemma {:induction false} ProductAdds(links: seq<Link>, n: nat, x: Vector, y: Vector)
    requires |x| == |y| && InRange(links, n, |x|)
    ensures Product(links, n, Add(x, y)) == Add(Product(links, n, x), Product(links, n, y))
  {
    hide Flow, Product, Times;
    ProductLast(links, n, x);
    ProductLast(links, n, y);
    ProductLast(links, n, Add(x, y));
    if links != [] {
      var l, rest := links[|links| - 1], links[..|links| - 1];
      ProductAdds(rest, n, x, y);
      FlowIsLinear(l, 1.0, x, y);
      BumpAdd(Product(rest, n, x), Product(rest, n, y), l.row, Flow(l, x), Flow(l, y));
    }
  }

  lemma ScaledZero(n: nat, k: real)
    ensures Scale(k, Constant(n, 0.0)) == Constant(n, 0.0)
  {
    hide Times;
    TimesUnits(k);
  }

  lemma {:induction false} ProductScales(links: seq<Link>, n: nat, k: real, x: Vector)
    requires InRange(links, n, |x|)
    ensures Product(links, n, Scale(k, x)) == Scale(k, Product(links, n, x))
  {
    hide Flow, Product, Times;
    ProductLast(links, n, x);
    ProductLast(links, n, Scale(k, x));
    ScaledZero(n, k);
    if links != [] {
      var l, rest := links[|links| - 1], links[..|links| - 1];
      ProductScales(rest, n, k, x);
      FlowIsLinear(l, k, x, x);
      BumpScale(k, Product(rest, n, x), l.row, Flow(l, x));
    }
  }

  // ---- Conservation ----

  /** One more link adds weight * destArea[row] * src[col] to both sides. */
  lemma BumpBoth(destArea: Vector, dst: Vector, implied: Vector, src: Vector, l: Link)
    requires |destArea| == |dst| && |implied| == |src| && l.row < |dst| && l.col < |src|
    requires Dot(destArea, dst) == Dot(implied, src)
    ensures Dot(destArea, Bump(dst, l.row, Flow(l, src))) ==
            Dot(Bump(implied, l.col, Flow(Link(l.weight, l.col, l.row), destArea)), src)
  {
    var x, y := Flow(l, src), Flow(Link(l.weight, l.col, l.row), destArea);
    hide Dot, Bump, Times;
    DotUpdate(destArea, dst, l.row, x);
    DotUpdate(src, implied, l.col, y);
    DotCommutes(src, implied);
    DotCommutes(src, Bump(implied, l.col, y));
    SameFlow(destArea[l.row], l.weight, src[l.col]);
  }

  lemma SameFlow(a: real, w: real, f: real)
    ensures Times(a, Times(w, f)) == Times(f, Times(w, a))
  {
  }

  lemma {:induction false} Adjoint(links: seq<Link>, destArea: Vector, src: Vector)
    requires InRange(links, |destArea|, |src|)
    ensures Dot(destArea, Product(links, |destArea|, src)) == Dot(ImpliedArea(links, |src|, destArea), src)
  {
    hide Flow, Product, Dot, Times, Sum;
    var n := |links| - 1;
    ProductLast(links, |destArea|, src);
    ProductLast(Transposed(links), |src|, destArea);
    if links == [] {
      DotConstant(destArea, 0.0);
      TimesUnits(Sum(destArea));
      DotZeros(src);
    } else {
      var l, rest := links[n], links[..n];
      var dst, implied := Product(rest, |destArea|, src), ImpliedArea(rest, |src|, destArea);
      Adjoint(rest, destArea, src);
      assert Transposed(links)[..n] == Transposed(rest);
      BumpBoth(destArea, dst, implied, src, l);
    }
  }
}
