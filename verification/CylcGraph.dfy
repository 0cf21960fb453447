/** Graph text of a suite: task names, dependency edges grouped under recurrences, and the
    task family that emits the phase chain pre => init => execute => post => finished. */
module CylcGraph {
  import opened Outcome
  import opened Permutations

  datatype Family = DA | RTPP | Forecast | FirstBackground | EnsembleForecast | ExtendedForecast

  datatype Phase = Pre | Init | Exec | Post | Finished

  /** A runnable task. Pre, post and finished phases are markers; init and execute phases are
      families, each holding one placeholder besides the tasks that inherit it. */
  datatype Task =
    | Marker(fam: Family, phase: Phase)
    | Holder(fam: Family, phase: Phase)
    | PrepareObservations
    | PrepareExternalAnalysis
    | PrepareEmissions
    | InitVariationals
    | Variational(member: nat)
    | RelaxToPrior
    | ForecastMember(member: nat)
    | MeanBackground
    | ColdForecast(member: nat)
    | LinkWarmStartBackgrounds
    | LinkEnsembleForecasts
    | RecenterEnsemble
    | EnsembleMember(member: nat)
    | MeanAnalysis
    | ExtendedMeanFC
    | ExtendedMember(member: nat)

  /** A name as it appears in the graph: one task, or a family that stands for its members. */
  datatype Name = One(task: Task) | Group(fam: Family, phase: Phase) | ColdForecasts

  /** `src[-back windows] => dst`; a family on the left is read as `:succeed-all`. */
  datatype Edge = Edge(src: Name, back: nat, dst: Name)

  datatype Trigger = Trigger(src: Name, back: nat)

  /** Cycle points are counted in cycling windows from the initial point, which is 0.
      `Daily` is a UTC-hours recurrence such as T00,T12 with an optional `!` exclusion list. */
  datatype Recurrence = R1 | Every(first: nat) | Daily(slots: set<nat>, excluded: set<nat>)

  const WINDOWS_PER_DAY: nat := 4

  /** Does the recurrence contain cycle c, when the initial point falls in window `slot0` of its day? */
  predicate On(rec: Recurrence, slot0: nat, c: nat) {
    match rec
    case R1 => c == 0
    case Every(first) => first <= c
    case Daily(slots, excluded) => (slot0 + c) % WINDOWS_PER_DAY in slots && c !in excluded
  }

  /** The graph section of the suite file is a list of lines. */
  datatype Line = Open(rec: Recurrence) | Dep(edge: Edge) | Close

  datatype Block = Block(rec: Recurrence, edges: seq<Edge>)

  function Deps(edges: seq<Edge>): (lines: seq<Line>)
    ensures |lines| == |edges| && forall i :: 0 <= i < |edges| ==> lines[i] == Dep(edges[i])
  {
    seq(|edges|, i requires 0 <= i < |edges| => Dep(edges[i]))
  }

  function Render(blocks: seq<Block>): seq<Line> {
    if blocks == [] then []
    else [Open(blocks[0].rec)] + Deps(blocks[0].edges) + [Close] + Render(blocks[1..])
  }

  /** Reads graph lines back into sections; `cur` is the section still open. */
  function Parse(lines: seq<Line>, cur: Option<Block> := None): seq<Block> {
    if lines == [] then []
    else
      match (lines[0], cur)
      case (Open(rec), _) => Parse(lines[1..], Some(Block(rec, [])))
      case (Dep(e), Some(b)) => Parse(lines[1..], Some(Block(b.rec, b.edges + [e])))
      case (Close, Some(b)) => [b] + Parse(lines[1..], None)
      case (_, None) => Parse(lines[1..], None)
  }

  lemma {:induction false} ParseDeps(edges: seq<Edge>, rest: seq<Line>, b: Block)
    ensures Parse(Deps(edges) + [Close] + rest, Some(b)) == [Block(b.rec, b.edges + edges)] + Parse(rest, None)
    decreases |edges|
  {
    var lines := Deps(edges) + [Close] + rest;
    if edges == [] {
      assert lines == [Close] + rest;
      assert lines[1..] == rest;
      assert b.edges + edges == b.edges;
    } else {
      assert lines[0] == Dep(edges[0]);
      assert lines[1..] == Deps(edges[1..]) + [Close] + rest;
      ParseDeps(edges[1..], rest, Block(b.rec, b.edges + [edges[0]]));
      assert b.edges + [edges[0]] + edges[1..] == b.edges + edges;
    }
  }

  /** What a suite writes is exactly what the scheduler reads. */
  lemma {:induction false} ParseRender(blocks: seq<Block>)
    ensures Parse(Render(blocks)) == blocks
  {
    if blocks != [] {
      var b := blocks[0];
      var lines := Render(blocks);
      assert lines[0] == Open(b.rec);
      assert lines[1..] == Deps(b.edges) + [Close] + Render(blocks[1..]);
      ParseDeps(b.edges, Render(blocks[1..]), Block(b.rec, []));
      assert [] + b.edges == b.edges;
      ParseRender(blocks[1..]);
      assert [b] + blocks[1..] == blocks;
    }
  }

  lemma {:induction false} RenderConcat(a: seq<Block>, b: seq<Block>)
    ensures Render(a + b) == Render(a) + Render(b)
  {
    if a == [] {
      assert a + b == b;
    } else {
      assert (a + b)[1..] == a[1..] + b;
      RenderConcat(a[1..], b);
    }
  }

  function PhaseName(f: Family, p: Phase): Name {
    if p == Init || p == Exec then Group(f, p) else One(Marker(f, p))
  }

  /** Consecutive phases joined by edges. */
  function Chain(f: Family, phases: seq<Phase>): seq<Edge> {
    if |phases| < 2 then []
    else [Edge(PhaseName(f, phases[0]), 0, PhaseName(f, phases[1]))] + Chain(f, phases[1..])
  }

  lemma {:induction false} ChainSnoc(f: Family, phases: seq<Phase>, k: nat)
    requires k + 1 < |phases|
    ensures Chain(f, phases[..k + 2]) ==
      Chain(f, phases[..k + 1]) + [Edge(PhaseName(f, phases[k]), 0, PhaseName(f, phases[k + 1]))]
    decreases k
  {
    var longer, shorter := phases[..k + 2], phases[..k + 1];
    if k == 0 {
      assert |longer[1..]| == 1;
    } else {
      ChainSnoc(f, phases[1..], k - 1);
      assert longer[1..] == phases[1..][..k + 1];
      assert shorter[1..] == phases[1..][..k];
    }
  }

  /** The edges that the lines do not already hold, in order. */
  function Missing(edges: seq<Edge>, lines: seq<Line>): seq<Edge> {
    if edges == [] then []
    else
      var rest := Missing(edges[..|edges| - 1], lines);
      var e := edges[|edges| - 1];
      if Dep(e) in lines then rest else rest + [e]
  }

  lemma {:induction false} NoneMissing(edges: seq<Edge>, lines: seq<Line>)
    requires forall e :: e in edges ==> Dep(e) !in lines
    ensures Missing(edges, lines) == edges
  {
    if edges != [] {
      var k := |edges| - 1;
      NoneMissing(edges[..k], lines);
      assert edges[..k] + [edges[k]] == edges;
    }
  }

  /** Adds each new edge that is not there yet. */
  function Extended(have: seq<Edge>, more: seq<Edge>): seq<Edge>
    decreases |more|
  {
    if more == [] then have
    else Extended(if more[0] in have then have else have + [more[0]], more[1..])
  }

  /** Adding dependencies keeps the earlier ones in place, adds exactly the named ones,
      never duplicates an edge, and adding the same ones again changes nothing. */
  lemma {:induction false} ExtendedIsSetUnion(have: seq<Edge>, more: seq<Edge>)
    ensures have <= Extended(have, more)
    ensures forall e :: e in Extended(have, more) <==> e in have || e in more
    ensures NoRepeats(have) ==> NoRepeats(Extended(have, more))
    ensures (forall e :: e in more ==> e in have) ==> Extended(have, more) == have
    decreases |more|
  {
    if more != [] {
      var next := if more[0] in have then have else have + [more[0]];
      ExtendedIsSetUnion(next, more[1..]);
      assert more == [more[0]] + more[1..];
    }
  }

  lemma ExtendedIdempotent(have: seq<Edge>, more: seq<Edge>)
    ensures Extended(Extended(have, more), more) == Extended(have, more)
  {
    ExtendedIsSetUnion(have, more);
    ExtendedIsSetUnion(Extended(have, more), more);
  }

  lemma {:induction false} ExtendedSnoc(have: seq<Edge>, more: seq<Edge>, e: Edge)
    ensures Extended(have, more + [e])
         == (if e in Extended(have, more) then Extended(have, more) else Extended(have, more) + [e])
    decreases |more|
  {
    if more == [] {
      assert more + [e] == [e];
      assert [e][1..] == [];
    } else {
      assert (more + [e])[1..] == more[1..] + [e];
      ExtendedSnoc(if more[0] in have then have else have + [more[0]], more[1..], e);
    }
  }

  function TriggerEdges(f: Family, ts: seq<Trigger>): (es: seq<Edge>)
    ensures |es| == |ts| && forall i :: 0 <= i < |ts| ==> es[i] == Edge(ts[i].src, ts[i].back, One(Marker(f, Pre)))
  {
    seq(|ts|, i requires 0 <= i < |ts| => Edge(ts[i].src, ts[i].back, One(Marker(f, Pre))))
  }

  function FollowonEdges(f: Family, fs: seq<Name>): (es: seq<Edge>)
    ensures |es| == |fs| && forall i :: 0 <= i < |fs| ==> es[i] == Edge(One(Marker(f, Finished)), 0, fs[i])
  {
    seq(|fs|, i requires 0 <= i < |fs| => Edge(One(Marker(f, Finished)), 0, fs[i]))
  }

  function DependencyPhases(initialize: bool, execute: bool): seq<Phase> {
    [Pre] + (if initialize then [Init] else []) + (if execute then [Exec] else []) + [Post, Finished]
  }

  /** One application's phases and the extra edges into its first and out of its last phase. */
  class TaskFamily {
    const fam: Family
    const phases: seq<Phase>
    var deps: seq<Edge>

    constructor (fam: Family, initialize: bool, execute: bool)
      ensures this.fam == fam && phases == DependencyPhases(initialize, execute) && deps == []
    {
      var ph := [Pre, Init, Exec, Post, Finished];
      if !initialize { ph := [ph[0]] + ph[2..]; }
      if !execute {
        ph := if initialize then ph[..2] + ph[3..] else ph[..1] + ph[2..];
      }
      this.fam, phases, deps := fam, ph, [];
    }

    /** As constructed for family f with both phases on, and without extra edges yet. */
    predicate Intact(f: Family)
      reads this`deps
    {
      fam == f && phases == DependencyPhases(true, true) && deps == []
    }

    function FinishedMarker(): Name { One(Marker(fam, Finished)) }

    method AddDependencies(ts: seq<Trigger>)
      modifies this`deps
      ensures deps == Extended(old(deps), TriggerEdges(fam, ts))
    {
      ghost var all := TriggerEdges(fam, ts);
      for i := 0 to |ts|
        invariant deps == Extended(old(deps), all[..i])
      {
        var e := Edge(ts[i].src, ts[i].back, One(Marker(fam, Pre)));
        ExtendedSnoc(old(deps), all[..i], e);
        assert all[..i + 1] == all[..i] + [e];
        if e !in deps { deps := deps + [e]; }
      }
      assert all[..|ts|] == all;
    }

    method AddFollowons(fs: seq<Name>)
      modifies this`deps
      ensures deps == Extended(old(deps), FollowonEdges(fam, fs))
    {
      ghost var all := FollowonEdges(fam, fs);
      for i := 0 to |fs|
        invariant deps == Extended(old(deps), all[..i])
      {
        var e := Edge(One(Marker(fam, Finished)), 0, fs[i]);
        ExtendedSnoc(old(deps), all[..i], e);
        assert all[..i + 1] == all[..i] + [e];
        if e !in deps { deps := deps + [e]; }
      }
      assert all[..|fs|] == all;
    }

    /** The parent's lines, then this family's own edges, then the phase edges the parent lacks. */
    method UpdateDependencies(parent: seq<Line>) returns (lines: seq<Line>)
      requires |phases| >= 1
      ensures lines == parent + Deps(deps + Missing(Chain(fam, phases), parent))
    {
      var d: seq<Edge> := [];
      for i := 0 to |phases| - 1
        invariant d == Missing(Chain(fam, phases[..i + 1]), parent)
      {
        var e := Edge(PhaseName(fam, phases[i]), 0, PhaseName(fam, phases[i + 1]));
        ChainSnoc(fam, phases, i);
        ghost var sofar := Chain(fam, phases[..i + 2]);
        assert sofar[..|sofar| - 1] == Chain(fam, phases[..i + 1]);
        if Dep(e) !in parent { d := d + [e]; }
      }
      assert phases[..|phases|] == phases;
      lines := parent + Deps(deps + d);
    }
  }
}
