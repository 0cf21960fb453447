/** A cache of regridding products whose file names may collide and whose identity is a stamp. */
module WeightCache {
  import opened Outcome

  /** What a file holds: a source grid, a mesh, or the mapping generated from one of each. */
  datatype Content = Gridspec(grid: string) | Scrip(mesh: string) | Mapping(grid: string, mesh: string) | Foreign

  datatype File = File(content: Content, attrs: map<string, string>)

  type Files = map<string, File>

  /** One call: fingerprints in hand, the labels that name files, a supplied weight file, and
      whether an attribute-writing backend is installed. */
  datatype Call = Call(grid: string, mesh: string, dims: string, gridName: Option<string>, nCells: nat,
                       supplied: Option<string>, backend: bool)

  function Digits(n: nat): string {
    if n < 10 then [('0' as int + n) as char] else Digits(n / 10) + Digits(n % 10)
  }

  /** The number a decimal spelling stands for. */
  function Number(s: string): int {
    if s == "" then 0 else 10 * Number(s[..|s| - 1]) + (s[|s| - 1] as int - '0' as int)
  }

  lemma {:induction false} DigitsSpellTheNumber(n: nat)
    ensures Number(Digits(n)) == n
  {
    if n >= 10 {
      DigitsSpellTheNumber(n / 10);
      assert Digits(n % 10) == [('0' as int + n % 10) as char];
      var s := Digits(n);
      assert s[..|s| - 1] == Digits(n / 10);
    }
  }

  /** Meshes that are not named explicitly share a file name only if they have as many cells. */
  lemma DefaultMeshNamesDiffer(c: Call, d: Call)
    requires (c.gridName.None? || c.gridName.value == "") && (d.gridName.None? || d.gridName.value == "")
    requires ScripFile(c) == ScripFile(d)
    ensures c.nCells == d.nCells
  {
    hide Digits, Number;
    DigitsSpellTheNumber(c.nCells);
    DigitsSpellTheNumber(d.nCells);
    var x, y := Digits(c.nCells), Digits(d.nCells);
    Around("mpas_scrip_", "x1." + x, "x1." + y, ".nc");
    Around("x1.", x, y, "");
    assert "x1." + x + "" == "x1." + x && "x1." + y + "" == "x1." + y;
  }

  lemma Around(a: string, x: string, y: string, b: string)
    ensures a + x + b == a + y + b ==> x == y
  {
    if a + x + b == a + y + b {
      assert |x| == |y|;
      assert (a + x + b)[|a|..|a| + |x|] == x && (a + y + b)[|a|..|a| + |y|] == y;
    }
  }

  /** The mesh label; an absent or empty one falls back to the uniform-mesh spelling. */
  function GridName(c: Call): string {
    if c.gridName.Some? && c.gridName.value != "" then c.gridName.value else "x1." + Digits(c.nCells)
  }

  function GridspecFile(c: Call): string { "gridspec_" + c.dims + ".nc" }

  function ScripFile(c: Call): string { "mpas_scrip_" + GridName(c) + ".nc" }

  function WeightsFile(c: Call): string { "weights_" + c.dims + "_to_" + GridName(c) + ".nc" }

  function GridStamp(c: Call): map<string, string> { map["grid_fingerprint" := c.grid] }

  function MeshStamp(c: Call): map<string, string> { map["mesh_fingerprint" := c.mesh] }

  function Identity(c: Call): map<string, string> {
    map["grid_fingerprint" := c.grid, "mesh_fingerprint" := c.mesh]
  }

  /** No expected attribute is present with another value; absent attributes do not count. */
  predicate Consistent(f: File, expected: map<string, string>) {
    forall k :: k in expected && k in f.attrs ==> f.attrs[k] == expected[k]
  }

  predicate Usable(files: Files, path: string, expected: map<string, string>) {
    path in files && Consistent(files[path], expected)
  }

  /** The tools that write grids and meshes stamp what they write. */
  function Prepared(files: Files, path: string, content: Content, stamp: map<string, string>): (after: Files)
    ensures path in after && forall p :: p in files ==> p in after
  {
    if Usable(files, path, stamp) then files else files[path := File(content, stamp)]
  }

  function WithInputs(files: Files, c: Call): (after: Files)
    ensures GridspecFile(c) in after && ScripFile(c) in after
  {
    Prepared(Prepared(files, GridspecFile(c), Gridspec(c.grid), GridStamp(c)), ScripFile(c), Scrip(c.mesh),
      MeshStamp(c))
  }

  /** Weights come from whatever the two input files hold. */
  function Generated(grid: Content, mesh: Content): Content {
    if grid.Gridspec? && mesh.Scrip? then Mapping(grid.grid, mesh.mesh) else Foreign
  }

  predicate UsesSupplied(files: Files, c: Call) { c.supplied.Some? && c.supplied.value in WithInputs(files, c) }

  /** The files after a call. */
  function FilesAfter(files: Files, c: Call): (after: Files)
    ensures !UsesSupplied(files, c) ==> WeightsFile(c) in after
  {
    var ready := WithInputs(files, c);
    if UsesSupplied(files, c) || Usable(ready, WeightsFile(c), Identity(c)) then ready
    else
      ready[WeightsFile(c) := File(Generated(ready[GridspecFile(c)].content, ready[ScripFile(c)].content),
                                   if c.backend then Identity(c) else map[])]
  }

  /** What a call works with, or the refusal of a supplied file. */
  function Answer(files: Files, c: Call): Result<Content, string> {
    if UsesSupplied(files, c) then
      var use := WithInputs(files, c)[c.supplied.value];
      if Consistent(use, Identity(c)) then Ok(use.content)
      else Err("supplied weight file does not match the current geometry")
    else Ok(FilesAfter(files, c)[WeightsFile(c)].content)
  }

  class Cache {
    var files: Files

    constructor (files: Files)
      ensures this.files == files
    {
      this.files := files;
    }

    /** Writes a grid or mesh product unless the cached one may be reused. */
    method Prepare(path: string, content: Content, stamp: map<string, string>)
      modifies this
      ensures files == Prepared(old(files), path, content, stamp)
    {
      if !Usable(files, path, stamp) {
        files := files[path := File(content, stamp)];
      }
    }

    /** The steps of one call, in the order they touch the directory. */
    method Weights(c: Call) returns (r: Result<Content, string>)
      modifies this
      ensures files == FilesAfter(old(files), c) && r == Answer(old(files), c)
    {
      hide GridspecFile, ScripFile, WeightsFile, GridStamp, MeshStamp, Identity, Consistent, Generated, Prepared;
      var srcGrid, dstGrid, wf := GridspecFile(c), ScripFile(c), WeightsFile(c);
      Prepare(srcGrid, Gridspec(c.grid), GridStamp(c));
      Prepare(dstGrid, Scrip(c.mesh), MeshStamp(c));
      if c.supplied.Some? && c.supplied.value in files {
        var use := files[c.supplied.value];
        if !Consistent(use, Identity(c)) {
          return Err("supplied weight file does not match the current geometry");
        }
        return Ok(use.content);
      }
      if !Usable(files, wf, Identity(c)) {
        var weights := File(Generated(files[srcGrid].content, files[dstGrid].content), map[]);
        files := files[wf := weights];
        if c.backend {
          files := files[wf := weights.(attrs := Identity(c))];
        }
      }
      return Ok(files[wf].content);
    }
  }

  // ---- Histories ----

  function FilesOf(start: Files, calls: seq<Call>): Files {
    if calls == [] then start
    else FilesAfter(FilesOf(start, calls[..|calls| - 1]), calls[|calls| - 1])
  }

  predicate CacheName(path: string) { path != "" && path[0] in {'g', 'm', 'w'} }

  /** No cache product exists yet; other files may. */
  ghost predicate Empty(start: Files) { forall p :: p in start ==> !CacheName(p) }

  ghost predicate Sound(path: string, f: File) {
    && (path != "" && path[0] == 'g' ==> f.content.Gridspec? && f.attrs == map["grid_fingerprint" := f.content.grid])
    && (path != "" && path[0] == 'm' ==> f.content.Scrip? && f.attrs == map["mesh_fingerprint" := f.content.mesh])
    && (path != "" && path[0] == 'w' ==>
          && f.content.Mapping?
          && (f.attrs == map[] ||
              f.attrs == map["grid_fingerprint" := f.content.grid, "mesh_fingerprint" := f.content.mesh]))
  }

  ghost predicate AllSound(files: Files) { forall p :: p in files ==> Sound(p, files[p]) }

  lemma NamesByKind(c: Call)
    ensures |GridspecFile(c)| > 0 && GridspecFile(c)[0] == 'g'
    ensures |ScripFile(c)| > 0 && ScripFile(c)[0] == 'm'
    ensures |WeightsFile(c)| > 0 && WeightsFile(c)[0] == 'w'
  {
  }

  lemma GridspecStamp(path: string, f: File, c: Call)
    requires path != "" && path[0] == 'g' && Sound(path, f)
    ensures Consistent(f, GridStamp(c)) <==> f.content == Gridspec(c.grid)
  {
    assert "grid_fingerprint" in f.attrs;
  }

  lemma ScripStamp(path: string, f: File, c: Call)
    requires path != "" && path[0] == 'm' && Sound(path, f)
    ensures Consistent(f, MeshStamp(c)) <==> f.content == Scrip(c.mesh)
  {
    assert "mesh_fingerprint" in f.attrs;
  }

  lemma WeightsStamp(path: string, f: File, c: Call)
    requires path != "" && path[0] == 'w' && Sound(path, f)
    ensures Consistent(f, Identity(c)) <==> f.attrs == map[] || f.content == Mapping(c.grid, c.mesh)
  {
    if f.attrs != map[] {
      assert "grid_fingerprint" in f.attrs && "mesh_fingerprint" in f.attrs;
    }
  }

  lemma InputsAreCurrent(files: Files, c: Call)
    requires AllSound(files)
    ensures
      var ready := WithInputs(files, c);
      && AllSound(ready) && GridspecFile(c) in ready && ScripFile(c) in ready
      && ready[GridspecFile(c)].content == Gridspec(c.grid) && ready[ScripFile(c)].content == Scrip(c.mesh)
      && (forall p :: p in files && p != "" && p[0] == 'w' ==> p in ready && ready[p] == files[p])
      && (forall p :: p in ready && p != "" && p[0] == 'w' ==> p in files)
  {
    hide GridspecFile, ScripFile, WeightsFile, Consistent;
    NamesByKind(c);
    var g, m := GridspecFile(c), ScripFile(c);
    var first := Prepared(files, g, Gridspec(c.grid), GridStamp(c));
    if g in files {
      GridspecStamp(g, files[g], c);
    }
    assert AllSound(first);
    if m in first {
      ScripStamp(m, first[m], c);
    }
  }

  lemma CallKeepsSound(files: Files, c: Call)
    requires AllSound(files)
    ensures AllSound(FilesAfter(files, c))
  {
    hide GridspecFile, ScripFile, WeightsFile, WithInputs;
    NamesByKind(c);
    InputsAreCurrent(files, c);
  }

  lemma {:induction false} HistoriesAreSound(start: Files, calls: seq<Call>)
    requires Empty(start)
    ensures AllSound(FilesOf(start, calls))
  {
    hide FilesAfter;
    if calls != [] {
      HistoriesAreSound(start, calls[..|calls| - 1]);
      CallKeepsSound(FilesOf(start, calls[..|calls| - 1]), calls[|calls| - 1]);
    }
  }

  /** A call without a supplied file gets the right weights exactly when its cached file is absent,
      stamped, or unstamped but happens to be its own. */
  lemma RightIff(files: Files, c: Call)
    requires AllSound(files) && !UsesSupplied(files, c)
    ensures Answer(files, c) == Ok(Mapping(c.grid, c.mesh)) <==>
      var wf := WeightsFile(c);
      || wf !in files
      || files[wf].attrs != map[]
      || files[wf].content == Mapping(c.grid, c.mesh)
  {
    hide GridspecFile, ScripFile, WeightsFile, WithInputs, Consistent;
    NamesByKind(c);
    InputsAreCurrent(files, c);
    var wf := WeightsFile(c);
    if wf in files {
      WeightsStamp(wf, files[wf], c);
    }
  }

  predicate SameIdentity(b: Call, c: Call) { b.grid == c.grid && b.mesh == c.mesh }

  /** The call whose generation a weight file still holds. */
  function Builder(start: Files, calls: seq<Call>, name: string): Option<Call> {
    if calls == [] then None
    else
      var n := |calls| - 1;
      var b, c := Builder(start, calls[..n], name), calls[n];
      if WeightsFile(c) != name || UsesSupplied(FilesOf(start, calls[..n]), c) then b
      else if b.None? || (b.value.backend && !SameIdentity(b.value, c)) then Some(c)
      else b
  }

  ghost predicate BuiltBy(files: Files, name: string, b: Option<Call>) {
    && (name in files <==> b.Some?)
    && (b.Some? ==>
          && files[name].content == Mapping(b.value.grid, b.value.mesh)
          && files[name].attrs == if b.value.backend then Identity(b.value) else map[])
  }

  lemma CallBuilds(files: Files, c: Call, name: string, b: Option<Call>)
    requires AllSound(files) && name != "" && name[0] == 'w' && BuiltBy(files, name, b)
    ensures BuiltBy(FilesAfter(files, c), name,
                    if WeightsFile(c) != name || UsesSupplied(files, c) then b
                    else if b.None? || (b.value.backend && !SameIdentity(b.value, c)) then Some(c)
                    else b)
  {
    hide GridspecFile, ScripFile, WeightsFile, WithInputs, Consistent;
    NamesByKind(c);
    InputsAreCurrent(files, c);
    if name in files {
      assert Sound(name, files[name]);
      WeightsStamp(name, files[name], c);
      assert "grid_fingerprint" in Identity(b.value);
    }
  }

  lemma {:induction false} BuilderBuilds(start: Files, calls: seq<Call>, name: string)
    requires Empty(start) && name != "" && name[0] == 'w'
    ensures BuiltBy(FilesOf(start, calls), name, Builder(start, calls, name))
  {
    hide FilesAfter, BuiltBy, UsesSupplied, SameIdentity, AllSound, WeightsFile;
    if calls == [] {
      NotBuiltYet(start, name);
    } else {
      var n := |calls| - 1;
      BuilderBuilds(start, calls[..n], name);
      HistoriesAreSound(start, calls[..n]);
      CallBuilds(FilesOf(start, calls[..n]), calls[n], name, Builder(start, calls[..n], name));
    }
  }

  lemma NotBuiltYet(start: Files, name: string)
    requires Empty(start) && name != "" && name[0] == 'w'
    ensures BuiltBy(start, name, None)
  {
  }

  /** After any history, with any grids, meshes and colliding names, a call gets the weights of its
      own fingerprints exactly when the file of that name was never built, was built with a stamp,
      or was built for the same fingerprints. */
  lemma RightAfterAnyHistory(start: Files, calls: seq<Call>, c: Call)
    requires Empty(start) && !UsesSupplied(FilesOf(start, calls), c)
    ensures
      var b := Builder(start, calls, WeightsFile(c));
      Answer(FilesOf(start, calls), c) == Ok(Mapping(c.grid, c.mesh)) <==>
      (b.None? || b.value.backend || SameIdentity(b.value, c))
  {
    hide WeightsFile, FilesAfter, UsesSupplied, Builder;
    NamesByKind(c);
    BuilderBuilds(start, calls, WeightsFile(c));
    HistoriesAreSound(start, calls);
    RightIff(FilesOf(start, calls), c);
    var b := Builder(start, calls, WeightsFile(c));
    if b.Some? && b.value.backend {
      assert "grid_fingerprint" in Identity(b.value);
    }
  }

  lemma {:induction false} BuilderWasCalled(start: Files, calls: seq<Call>, name: string)
    ensures Builder(start, calls, name).Some? ==>
      exists i :: 0 <= i < |calls| && calls[i] == Builder(start, calls, name).value && WeightsFile(calls[i]) == name
  {
    hide UsesSupplied, SameIdentity, WeightsFile;
    if calls != [] {
      var n := |calls| - 1;
      BuilderWasCalled(start, calls[..n], name);
      if Builder(start, calls, name).Some? && Builder(start, calls, name) == Builder(start, calls[..n], name) {
        var i :| 0 <= i < n && calls[..n][i] == Builder(start, calls, name).value && WeightsFile(calls[..n][i]) == name;
        assert calls[i] == Builder(start, calls, name).value;
      }
    }
  }

  /** When every call can stamp, every call gets its own weights. */
  lemma StampedCacheIsAlwaysRight(start: Files, calls: seq<Call>, c: Call)
    requires Empty(start) && !UsesSupplied(FilesOf(start, calls), c)
    requires forall i :: 0 <= i < |calls| ==> calls[i].backend
    ensures Answer(FilesOf(start, calls), c) == Ok(Mapping(c.grid, c.mesh))
  {
    hide WeightsFile, UsesSupplied, SameIdentity, Builder, Answer, FilesOf;
    RightAfterAnyHistory(start, calls, c);
    BuilderWasCalled(start, calls, WeightsFile(c));
  }

  /** Without a stamping backend two calls whose names collide share the first one's weights. */
  lemma UnstampedCollisionIsWrong(b: Call, c: Call)
    requires b.supplied.None? && c.supplied.None? && !b.backend && !SameIdentity(b, c)
    requires WeightsFile(b) == WeightsFile(c)
    ensures Answer(FilesOf(map[], [b]), c) != Ok(Mapping(c.grid, c.mesh))
  {
    hide WeightsFile, FilesAfter;
    assert [b][..0] == [];
    RightAfterAnyHistory(map[], [b], c);
  }

  /** A supplied file is refused exactly when one of its stamps names another grid or mesh. */
  lemma SuppliedIffConsistent(files: Files, c: Call)
    requires UsesSupplied(files, c)
    ensures
      var use := WithInputs(files, c)[c.supplied.value];
      && (Answer(files, c).Err? <==>
            || ("grid_fingerprint" in use.attrs && use.attrs["grid_fingerprint"] != c.grid)
            || ("mesh_fingerprint" in use.attrs && use.attrs["mesh_fingerprint"] != c.mesh))
      && (Answer(files, c).Ok? ==> Answer(files, c).value == use.content)
  {
    hide GridspecFile, ScripFile, WithInputs;
    assert "grid_fingerprint" in Identity(c) && "mesh_fingerprint" in Identity(c);
  }
}
