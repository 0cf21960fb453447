/** The suites Cycle and ForecastOnlyCycle: the applications that write their sections of the
    graph, and the graph each suite ends up with. */
module CycleSuites {
  import opened CylcGraph
  import opened CylcRun
  import opened Outcome

  datatype Suite = Cycle | ForecastOnly

  /** A comma-separated list of UTC times with an optional exclusion list after `!`. */
  datatype Times = Times(slots: set<nat>, excluded: set<nat>)

  datatype Extension = NoExtension | MeanTimes(times: Times) | EnsembleTimes(times: Times)

  /** `newRun` says that the restart point equals the first cycle point; `n` is members.n; `relax`
      that the RTPP factor is positive; `ensemble` the size of the cycled ensemble; `cold` that
      the first background comes from ColdForecast rather than from linked warm-start files, and
      `maxMembers` how many members its resource is declared to serve. */
  datatype Config = Config(
    suite: Suite, newRun: bool, n: nat, relax: bool, ensemble: nat, ensembleSea: bool,
    emissions: bool, cold: bool, maxMembers: nat, extension: Extension, extendedSea: bool,
    slot0: nat, last: nat, maxActive: nat, holders: nat)

  const DA2FC_BACK: nat := 0
  const FC2DA_BACK: nat := 1

  /** What the constructors of the suites check: at least one member and no more than the first
      background serves, and in a forecast-only suite a mean extended forecast only for a single
      member. */
  predicate Valid(cfg: Config) {
    && 1 <= cfg.n <= cfg.maxMembers && cfg.maxActive >= 1 && cfg.holders >= 1
    && (cfg.suite == ForecastOnly ==> cfg.n == 1 || !cfg.extension.MeanTimes?)
  }

  predicate Relaxes(cfg: Config) { cfg.suite == Cycle && cfg.relax && cfg.n > 1 }

  predicate Ensembles(cfg: Config) { cfg.suite == Cycle && cfg.ensemble > 1 }

  /** First cycle of the analysis and forecast recurrences. */
  function First(cfg: Config): nat { if cfg.newRun then 1 else 0 }

  function AnalysisTimes(cfg: Config): Recurrence { Every(First(cfg)) }

  function ForecastTimes(cfg: Config): Recurrence { Every(First(cfg) + DA2FC_BACK) }

  /** ForecastOnlyCycle excludes the initial point of a fresh run, unless the times carry an
      exclusion of their own. */
  function Bounded(cfg: Config, times: Times): Times {
    if cfg.suite == ForecastOnly && cfg.newRun && times.excluded == {} then times.(excluded := {0}) else times
  }

  function FinishedName(f: Family): Name { One(Marker(f, Finished)) }

  function PreName(f: Family): Name { One(Marker(f, Pre)) }

  function FullChain(f: Family): seq<Edge> {
    [ Edge(PreName(f), 0, Group(f, Init)),
      Edge(Group(f, Init), 0, Group(f, Exec)),
      Edge(Group(f, Exec), 0, One(Marker(f, Post))),
      Edge(One(Marker(f, Post)), 0, FinishedName(f)) ]
  }

  lemma FullChainIs(f: Family, parent: seq<Line>)
    requires forall e :: e in FullChain(f) ==> Dep(e) !in parent
    ensures Missing(Chain(f, DependencyPhases(true, true)), parent) == FullChain(f)
  {
    var ph := DependencyPhases(true, true);
    assert ph == [Pre, Init, Exec, Post, Finished];
    assert ph[1..] == [Init, Exec, Post, Finished];
    assert ph[1..][1..] == [Exec, Post, Finished];
    assert ph[1..][1..][1..] == [Post, Finished];
    assert ph[1..][1..][1..][1..] == [Finished];
    assert Chain(f, [Post, Finished]) == [Edge(One(Marker(f, Post)), 0, FinishedName(f))];
    assert Chain(f, [Exec, Post, Finished]) ==
      [Edge(Group(f, Exec), 0, One(Marker(f, Post)))] + Chain(f, [Post, Finished]);
    assert Chain(f, [Init, Exec, Post, Finished]) ==
      [Edge(Group(f, Init), 0, Group(f, Exec))] + Chain(f, [Exec, Post, Finished]);
    assert Chain(f, ph) == FullChain(f);
    NoneMissing(FullChain(f), parent);
  }

  // ---- the sections each application writes ----

  function PreviousForecast(): Trigger { Trigger(FinishedName(Forecast), FC2DA_BACK) }

  /** RTPP inserted between two names. */
  function InsertedEdges(dependency: Name, followon: Name): seq<Edge> {
    [Edge(dependency, 0, PreName(RTPP)), Edge(FinishedName(RTPP), 0, followon)] + FullChain(RTPP)
  }

  function RelaxEdges(cfg: Config): seq<Edge> {
    if Relaxes(cfg) then InsertedEdges(One(Marker(DA, Post)), FinishedName(DA)) else []
  }

  function DAEdgesAfter(cfg: Config, previous: Trigger): seq<Edge> {
    [Edge(One(PrepareObservations), 0, PreName(DA))] + RelaxEdges(cfg)
    + [Edge(previous.src, previous.back, PreName(DA))] + FullChain(DA)
  }

  function DAEdges(cfg: Config): seq<Edge> { DAEdgesAfter(cfg, PreviousForecast()) }

  function DABlocks(cfg: Config): seq<Block> { [Block(AnalysisTimes(cfg), DAEdges(cfg))] }

  /** What the forecast waits for: this cycle's analysis, or without DA the previous forecast. */
  function StateTrigger(cfg: Config): Trigger {
    if cfg.suite == Cycle then Trigger(FinishedName(DA), DA2FC_BACK)
    else PreviousForecast()
  }

  function ForecastEdgesAfter(cfg: Config, state: Trigger): seq<Edge> {
    [Edge(One(PrepareExternalAnalysis), 0, PreName(Forecast))]
    + (if cfg.emissions then [Edge(One(PrepareEmissions), 0, PreName(Forecast))] else [])
    + [Edge(state.src, state.back, PreName(Forecast))] + FullChain(Forecast)
  }

  function ForecastEdges(cfg: Config): seq<Edge> { ForecastEdgesAfter(cfg, StateTrigger(cfg)) }

  function ForecastBlocks(cfg: Config): seq<Block> { ForecastBlocksAfter(cfg, StateTrigger(cfg)) }

  function ForecastBlocksAfter(cfg: Config, state: Trigger): seq<Block> {
    [Block(ForecastTimes(cfg), ForecastEdgesAfter(cfg, state))]
    + (if cfg.n > 1
       then [Block(AnalysisTimes(cfg), [Edge(FinishedName(Forecast), FC2DA_BACK, One(MeanBackground))])]
       else [])
  }

  /** The mini-workflow that seeds the first background, up to the forecast's finished marker. */
  function SeedName(cfg: Config): Name { if cfg.cold then ColdForecasts else One(LinkWarmStartBackgrounds) }

  function FirstBackgroundEdges(cfg: Config): seq<Edge> {
    [Edge(One(PrepareExternalAnalysis), 0, SeedName(cfg)), Edge(SeedName(cfg), 0, FinishedName(Forecast))]
    + (if cfg.emissions && cfg.cold
       then [Edge(One(PrepareEmissions), 0, SeedName(cfg)), Edge(SeedName(cfg), 0, FinishedName(Forecast))]
       else [])
    + FullChain(FirstBackground)
  }

  function FirstBackgroundBlocks(cfg: Config): seq<Block> {
    if cfg.newRun then [Block(R1, FirstBackgroundEdges(cfg))] else []
  }

  function EnsembleEdges(cfg: Config): seq<Edge> {
    [ Edge(FinishedName(DA), 0, PreName(EnsembleForecast)),
      Edge(FinishedName(EnsembleForecast), 1, PreName(EnsembleForecast)) ]
    + (if cfg.ensembleSea then [Edge(One(PrepareExternalAnalysis), 0, PreName(EnsembleForecast))] else [])
    + FullChain(EnsembleForecast)
  }

  function EnsembleBlocks(cfg: Config): seq<Block> {
    if !Ensembles(cfg) then []
    else
      [Block(AnalysisTimes(cfg), EnsembleEdges(cfg))]
      + (if cfg.newRun
         then [Block(R1, [Edge(One(LinkEnsembleForecasts), 0, FinishedName(EnsembleForecast))])] else [])
      + [Block(AnalysisTimes(cfg), [Edge(FinishedName(EnsembleForecast), 1, PreName(DA))])]
  }

  function ExtendedDependency(cfg: Config): Name {
    if cfg.suite == Cycle then FinishedName(DA) else FinishedName(Forecast)
  }

  function ExtendedEdgesAfter(cfg: Config, dependency: Name): seq<Edge> {
    (if cfg.extendedSea && cfg.extension.MeanTimes?
     then [Edge(One(PrepareExternalAnalysis), 0, PreName(ExtendedForecast))] else [])
    + [Edge(dependency, 0, PreName(ExtendedForecast))] + FullChain(ExtendedForecast)
  }

  function ExtendedEdges(cfg: Config): seq<Edge> { ExtendedEdgesAfter(cfg, ExtendedDependency(cfg)) }

  /** Ensemble extended forecasts are only scheduled for more than one member. */
  predicate Extends(cfg: Config) {
    cfg.extension.MeanTimes? || (cfg.extension.EnsembleTimes? && cfg.n > 1)
  }

  function ExtendedBlocks(cfg: Config): seq<Block> {
    if !Extends(cfg) then []
    else
      var times := Bounded(cfg, cfg.extension.times);
      [Block(Daily(times.slots, times.excluded), ExtendedEdges(cfg))]
  }

  function SuiteBlocks(cfg: Config): seq<Block> {
    if cfg.suite == Cycle
    then DABlocks(cfg) + ForecastBlocks(cfg) + FirstBackgroundBlocks(cfg) + ExtendedBlocks(cfg) + EnsembleBlocks(cfg)
    else FirstBackgroundBlocks(cfg) + ForecastBlocks(cfg) + ExtendedBlocks(cfg)
  }

  // ---- the tasks that inherit each family ----

  function Numbered(f: nat -> Task, n: nat): (ts: seq<Task>)
    ensures forall t :: t in ts <==> exists k: nat :: 1 <= k <= n && t == f(k)
  {
    var ts := seq(n, k requires 0 <= k < n => f(k + 1));
    assert forall k: nat :: 1 <= k <= n ==> ts[k - 1] == f(k);
    ts
  }

  /** ColdForecast stands for one task only: the loop over the members leaves the task definition
      after its last round, so the last member alone is written. */
  function Inheritors(cfg: Config, f: Family, p: Phase): seq<Task> {
    match (f, p)
    case (DA, Init) => [InitVariationals]
    case (DA, Exec) => Numbered((k: nat) => Variational(k), cfg.n)
    case (RTPP, Exec) => [RelaxToPrior]
    case (Forecast, Exec) => Numbered((k: nat) => ForecastMember(k), cfg.n)
    case (FirstBackground, Exec) => if cfg.cold then [ColdForecast(cfg.n)] else [LinkWarmStartBackgrounds]
    case (EnsembleForecast, Init) => [RecenterEnsemble]
    case (EnsembleForecast, Exec) => Numbered((k: nat) => EnsembleMember(k), cfg.ensemble)
    case (ExtendedForecast, Init) =>
      if cfg.suite == Cycle && cfg.extension.MeanTimes? then [MeanAnalysis] else []
    case (ExtendedForecast, Exec) =>
      if cfg.extension.MeanTimes? then [ExtendedMeanFC] else Numbered((k: nat) => ExtendedMember(k), cfg.n)
    case _ => []
  }

  function Members(cfg: Config, name: Name): seq<Task> {
    match name
    case One(t) => [t]
    case Group(f, p) => [Holder(f, p)] + Inheritors(cfg, f, p)
    case ColdForecasts => [ColdForecast(cfg.n)]
  }

  /** The suite as the scheduler runs it. */
  function WorkflowOf(cfg: Config): Workflow
    requires cfg.maxActive >= 1
  {
    Workflow(SuiteBlocks(cfg), name => Members(cfg, name), cfg.slot0, cfg.last, cfg.maxActive - 1, cfg.holders)
  }

  // ---- the applications, as they grow their list of graph lines ----

  /** A section that is still open. */
  function Section(rec: Recurrence, es: seq<Edge>): seq<Line> { [Open(rec)] + Deps(es) }

  lemma SectionGrows(rec: Recurrence, es: seq<Edge>, more: seq<Edge>)
    ensures Section(rec, es) + Deps(more) == Section(rec, es + more)
  {
    assert Deps(es + more) == Deps(es) + Deps(more);
  }

  lemma SectionCloses(rec: Recurrence, es: seq<Edge>)
    ensures Section(rec, es) + [Close] == Render([Block(rec, es)])
  {
    assert [Block(rec, es)][1..] == [];
  }

  /** A family whose phases are not in the section yet adds its own edges and the whole chain. */
  lemma SectionUpdates(f: Family, rec: Recurrence, es: seq<Edge>, deps: seq<Edge>)
    requires forall e :: e in FullChain(f) ==> e !in es
    ensures Section(rec, es) + Deps(deps + Missing(Chain(f, DependencyPhases(true, true)), Section(rec, es)))
         == Section(rec, es + (deps + FullChain(f)))
  {
    FullChainIs(f, Section(rec, es));
    SectionGrows(rec, es, deps + FullChain(f));
  }

  lemma SingleTrigger(have: seq<Edge>, f: Family, t: Trigger)
    requires Edge(t.src, t.back, PreName(f)) !in have
    ensures Extended(have, TriggerEdges(f, [t])) == have + [Edge(t.src, t.back, PreName(f))]
  {
    var es := TriggerEdges(f, [t]);
    assert es == [Edge(t.src, t.back, PreName(f))];
    assert es[1..] == [];
  }

  /** Opens a section, writes its own edges, lets the family add its edges and phases, closes it. */
  method WriteSection(rec: Recurrence, own: seq<Edge>, tf: TaskFamily) returns (lines: seq<Line>)
    requires tf.phases == DependencyPhases(true, true)
    requires forall e :: e in FullChain(tf.fam) ==> e !in own
    ensures lines == Render([Block(rec, own + (tf.deps + FullChain(tf.fam)))])
  {
    lines := [Open(rec)];
    lines := lines + Deps(own);
    SectionUpdates(tf.fam, rec, own, tf.deps);
    lines := tf.UpdateDependencies(lines);
    SectionCloses(rec, own + (tf.deps + FullChain(tf.fam)));
    lines := lines + [Close];
  }

  lemma RenderTwo(b: Block, c: Block)
    ensures Render([b]) + Render([c]) == Render([b, c])
  {
    RenderConcat([b], [c]);
    assert [b] + [c] == [b, c];
  }

  /** Sections without a family. */
  method WriteEdges(rec: Recurrence, own: seq<Edge>) returns (lines: seq<Line>)
    ensures lines == Render([Block(rec, own)])
  {
    SectionCloses(rec, own);
    lines := [Open(rec)];
    lines := lines + Deps(own);
    lines := lines + [Close];
  }

  class RTPPComponent {
    const active: bool
    const tf: TaskFamily
    var lines: seq<Line>

    constructor (cfg: Config)
      ensures fresh(tf) && tf.Intact(RTPP)
      ensures lines == [] && active == (cfg.relax && cfg.n > 1)
    {
      active, lines := cfg.relax && cfg.n > 1, [];
      tf := new TaskFamily(RTPP, true, true);
    }

    method Export(dependency: Name, followon: Name)
      requires tf.Intact(RTPP) && lines == []
      modifies this`lines
      ensures lines == if active then Deps(InsertedEdges(dependency, followon)) else []
    {
      if active {
        var two := [Edge(dependency, 0, PreName(RTPP)), Edge(FinishedName(RTPP), 0, followon)];
        lines := Deps(two);
        InsertedChain(dependency, followon);
        lines := tf.UpdateDependencies(lines);
        assert [] + FullChain(RTPP) == FullChain(RTPP);
      }
    }
  }

  lemma InsertedChain(dependency: Name, followon: Name)
    ensures var two := [Edge(dependency, 0, PreName(RTPP)), Edge(FinishedName(RTPP), 0, followon)];
            && Missing(Chain(RTPP, DependencyPhases(true, true)), Deps(two)) == FullChain(RTPP)
            && Deps(two) + Deps(FullChain(RTPP)) == Deps(InsertedEdges(dependency, followon))
  {
    var two := [Edge(dependency, 0, PreName(RTPP)), Edge(FinishedName(RTPP), 0, followon)];
    forall e | e in FullChain(RTPP) ensures Dep(e) !in Deps(two) {
      assert e != two[0] && e != two[1];
    }
    FullChainIs(RTPP, Deps(two));
  }

  class DAComponent {
    const cfg: Config
    const tf: TaskFamily
    const rtpp: RTPPComponent
    var lines: seq<Line>

    constructor (cfg: Config)
      ensures this.cfg == cfg && lines == []
      ensures fresh(tf) && tf.Intact(DA)
      ensures fresh(rtpp) && rtpp.lines == [] && rtpp.active == (cfg.relax && cfg.n > 1)
      ensures rtpp.tf.Intact(RTPP) && rtpp.tf != tf
    {
      this.cfg, lines := cfg, [];
      var r := new RTPPComponent(cfg);
      rtpp := r;
      tf := new TaskFamily(DA, true, true);
    }

    method Export(previousForecast: Trigger)
      requires cfg.suite == Cycle && lines == []
      requires tf.Intact(DA)
      requires rtpp.lines == [] && rtpp.active == (cfg.relax && cfg.n > 1)
      requires rtpp.tf.Intact(RTPP) && rtpp.tf != tf
      modifies this`lines, tf`deps, rtpp`lines
      ensures lines == Render([Block(AnalysisTimes(cfg), DAEdgesAfter(cfg, previousForecast))])
    {
      rtpp.Export(One(Marker(DA, Post)), FinishedName(DA));
      assert rtpp.lines == Deps(RelaxEdges(cfg));
      var times := AnalysisTimes(cfg);
      ghost var own := [Edge(One(PrepareObservations), 0, PreName(DA))];
      lines := [Open(times)];
      lines := lines + Deps([Edge(One(PrepareObservations), 0, PreName(DA))]);
      SectionGrows(times, own, RelaxEdges(cfg));
      lines := lines + rtpp.lines;
      own := own + RelaxEdges(cfg);
      SingleTrigger([], DA, previousForecast);
      tf.AddDependencies([previousForecast]);
      SectionUpdates(DA, times, own, tf.deps);
      lines := tf.UpdateDependencies(lines);
      assert own + (tf.deps + FullChain(DA)) == DAEdgesAfter(cfg, previousForecast);
      SectionCloses(times, DAEdgesAfter(cfg, previousForecast));
      lines := lines + [Close];
    }
  }

  class ForecastComponent {
    const cfg: Config
    const tf: TaskFamily
    var lines: seq<Line>

    constructor (cfg: Config)
      ensures this.cfg == cfg && lines == []
      ensures fresh(tf) && tf.Intact(Forecast)
    {
      this.cfg, lines := cfg, [];
      tf := new TaskFamily(Forecast, true, true);
    }

    /** `override` is the state a suite without DA nominates instead of this cycle's analysis. */
    method Export(daFinished: Name, override: Option<Trigger>)
      requires lines == [] && tf.Intact(Forecast)
      modifies this`lines, tf`deps
      ensures lines == Render(ForecastBlocksAfter(cfg,
        if override.Some? then override.value else Trigger(daFinished, DA2FC_BACK)))
    {
      var state := if override.Some? then override.value else Trigger(daFinished, DA2FC_BACK);
      var own := [Edge(One(PrepareExternalAnalysis), 0, PreName(Forecast))];
      SingleTrigger([], Forecast, state);
      tf.AddDependencies([state]);
      if cfg.emissions {
        own := own + [Edge(One(PrepareEmissions), 0, PreName(Forecast))];
      }
      lines := WriteSection(ForecastTimes(cfg), own, tf);
      assert own + (tf.deps + FullChain(Forecast)) == ForecastEdgesAfter(cfg, state);
      if cfg.n > 1 {
        var mean := WriteEdges(AnalysisTimes(cfg), [Edge(FinishedName(Forecast), FC2DA_BACK, One(MeanBackground))]);
        lines := lines + mean;
        RenderTwo(ForecastBlocksAfter(cfg, state)[0], ForecastBlocksAfter(cfg, state)[1]);
      }
    }
  }

  class FirstBackgroundComponent {
    const cfg: Config
    const tf: TaskFamily
    var lines: seq<Line>

    /** All of its graph is written by the constructor, and only in a fresh run. */
    constructor (cfg: Config)
      ensures this.cfg == cfg && lines == Render(FirstBackgroundBlocks(cfg))
    {
      this.cfg, lines := cfg, [];
      tf := new TaskFamily(FirstBackground, true, true);
      new;
      if cfg.newRun {
        var own := [Edge(One(PrepareExternalAnalysis), 0, SeedName(cfg)),
          Edge(SeedName(cfg), 0, FinishedName(Forecast))];
        if cfg.emissions && cfg.cold {
          own := own + [Edge(One(PrepareEmissions), 0, SeedName(cfg)), Edge(SeedName(cfg), 0, FinishedName(Forecast))];
        }
        lines := WriteSection(R1, own, tf);
        assert own + (tf.deps + FullChain(FirstBackground)) == FirstBackgroundEdges(cfg);
      }
    }
  }

  class EnsembleForecastComponent {
    const cfg: Config
    const active: bool
    const tf: TaskFamily
    var lines: seq<Line>

    constructor (cfg: Config)
      ensures this.cfg == cfg && lines == [] && active == (cfg.ensemble > 1)
      ensures fresh(tf) && tf.Intact(EnsembleForecast)
    {
      this.cfg, active, lines := cfg, cfg.ensemble > 1, [];
      tf := new TaskFamily(EnsembleForecast, true, true);
    }

    method Export(daFinished: Name, daPre: Name)
      requires cfg.suite == Cycle && lines == [] && active == (cfg.ensemble > 1)
      requires tf.Intact(EnsembleForecast)
      requires daFinished == FinishedName(DA) && daPre == PreName(DA)
      modifies this`lines, tf`deps
      ensures lines == Render(EnsembleBlocks(cfg))
    {
      if active {
        var times := AnalysisTimes(cfg);
        SingleTrigger([], EnsembleForecast, Trigger(daFinished, 0));
        tf.AddDependencies([Trigger(daFinished, 0)]);
        SingleTrigger(tf.deps, EnsembleForecast, Trigger(FinishedName(EnsembleForecast), 1));
        tf.AddDependencies([Trigger(FinishedName(EnsembleForecast), 1)]);
        if cfg.ensembleSea {
          SingleTrigger(tf.deps, EnsembleForecast, Trigger(One(PrepareExternalAnalysis), 0));
          tf.AddDependencies([Trigger(One(PrepareExternalAnalysis), 0)]);
        }
        lines := WriteSection(times, [], tf);
        assert [] + (tf.deps + FullChain(EnsembleForecast)) == EnsembleEdges(cfg);
        if cfg.newRun {
          var link := WriteEdges(R1, [Edge(One(LinkEnsembleForecasts), 0, FinishedName(EnsembleForecast))]);
          lines := lines + link;
        }
        var gate := WriteEdges(times, [Edge(FinishedName(EnsembleForecast), 1, daPre)]);
        lines := lines + gate;
        EnsembleLines(cfg);
      }
    }
  }

  lemma EnsembleLines(cfg: Config)
    requires Ensembles(cfg)
    ensures var times := AnalysisTimes(cfg);
            Render([Block(times, EnsembleEdges(cfg))])
            + (if cfg.newRun
               then Render([Block(R1, [Edge(One(LinkEnsembleForecasts), 0, FinishedName(EnsembleForecast))])])
               else [])
            + Render([Block(times, [Edge(FinishedName(EnsembleForecast), 1, PreName(DA))])])
            == Render(EnsembleBlocks(cfg))
  {
    var times := AnalysisTimes(cfg);
    var main := Block(times, EnsembleEdges(cfg));
    var gate := Block(times, [Edge(FinishedName(EnsembleForecast), 1, PreName(DA))]);
    var link := Block(R1, [Edge(One(LinkEnsembleForecasts), 0, FinishedName(EnsembleForecast))]);
    if cfg.newRun {
      RenderTwo(main, link);
      RenderConcat([main, link], [gate]);
      assert [main, link] + [gate] == EnsembleBlocks(cfg);
    } else {
      RenderTwo(main, gate);
      assert [main, gate] == EnsembleBlocks(cfg);
    }
  }

  class ExtendedForecastComponent {
    const cfg: Config
    const tf: TaskFamily
    var extension: Extension
    var lines: seq<Line>

    constructor (cfg: Config)
      ensures this.cfg == cfg && lines == [] && extension == cfg.extension
      ensures fresh(tf) && tf.Intact(ExtendedForecast)
    {
      this.cfg, extension, lines := cfg, cfg.extension, [];
      tf := new TaskFamily(ExtendedForecast, true, true);
    }

    /** `extension` may have been bounded by the suite since construction. */
    function Exported(dependency: Name): seq<Block>
      reads this`extension
    {
      if extension.MeanTimes? || (extension.EnsembleTimes? && cfg.n > 1)
      then [Block(Daily(extension.times.slots, extension.times.excluded), ExtendedEdgesAfter(cfg, dependency))]
      else []
    }

    method Export(dependency: Name)
      requires lines == [] && tf.Intact(ExtendedForecast)
      requires dependency != One(PrepareExternalAnalysis)
      requires extension.MeanTimes? <==> cfg.extension.MeanTimes?
      modifies this`lines, tf`deps
      ensures lines == Render(Exported(dependency))
    {
      var sea, dep := Trigger(One(PrepareExternalAnalysis), 0), Trigger(dependency, 0);
      if extension.MeanTimes? {
        if cfg.extendedSea {
          SingleTrigger([], ExtendedForecast, sea);
          tf.AddDependencies([sea]);
        }
        SingleTrigger(tf.deps, ExtendedForecast, dep);
        tf.AddDependencies([dep]);
        Emit(extension.times, dependency);
      }
      if extension.EnsembleTimes? && cfg.n > 1 {
        SingleTrigger([], ExtendedForecast, dep);
        tf.AddDependencies([dep]);
        Emit(extension.times, dependency);
      }
    }

    method Emit(times: Times, ghost dependency: Name)
      requires lines == [] && tf.fam == ExtendedForecast && tf.phases == DependencyPhases(true, true)
      requires tf.deps + FullChain(ExtendedForecast) == ExtendedEdgesAfter(cfg, dependency)
      modifies this`lines
      ensures lines == Render([Block(Daily(times.slots, times.excluded), ExtendedEdgesAfter(cfg, dependency))])
    {
      lines := WriteSection(Daily(times.slots, times.excluded), [], tf);
      assert [] + (tf.deps + FullChain(ExtendedForecast)) == ExtendedEdgesAfter(cfg, dependency);
    }
  }

  lemma RenderThree(a: seq<Block>, b: seq<Block>, c: seq<Block>)
    ensures Render(a + b + c) == Render(a) + Render(b) + Render(c)
  {
    RenderConcat(a, b);
    RenderConcat(a + b, c);
  }

  lemma CycleLines(cfg: Config)
    requires cfg.suite == Cycle
    ensures Render(DABlocks(cfg)) + Render(ForecastBlocks(cfg)) + Render(FirstBackgroundBlocks(cfg))
            + Render(ExtendedBlocks(cfg)) + Render(EnsembleBlocks(cfg)) == Render(SuiteBlocks(cfg))
  {
    RenderThree(DABlocks(cfg), ForecastBlocks(cfg), FirstBackgroundBlocks(cfg));
    var first := DABlocks(cfg) + ForecastBlocks(cfg) + FirstBackgroundBlocks(cfg);
    RenderThree(first, ExtendedBlocks(cfg), EnsembleBlocks(cfg));
  }

  /** The lines of the critical path: analysis and forecast. */
  method CentralLines(cfg: Config) returns (lines: seq<Line>)
    requires cfg.suite == Cycle
    ensures lines == Render(DABlocks(cfg)) + Render(ForecastBlocks(cfg))
  {
    var da := new DAComponent(cfg);
    var forecast := new ForecastComponent(cfg);
    da.Export(PreviousForecast());
    forecast.Export(da.tf.FinishedMarker(), None);
    lines := da.lines + forecast.lines;
  }

  /** The lines of the streams beside it: extended forecasts and the cycled ensemble. */
  method StreamLines(cfg: Config) returns (lines: seq<Line>)
    requires cfg.suite == Cycle
    ensures lines == Render(ExtendedBlocks(cfg)) + Render(EnsembleBlocks(cfg))
  {
    var extended := new ExtendedForecastComponent(cfg);
    var ensemble := new EnsembleForecastComponent(cfg);
    extended.Export(FinishedName(DA));
    ensemble.Export(FinishedName(DA), PreName(DA));
    lines := extended.lines + ensemble.lines;
  }

  /** The suite with DA: builds every application, exports them in order, concatenates their lines. */
  method BuildCycle(cfg: Config) returns (graph: seq<Line>)
    requires Valid(cfg) && cfg.suite == Cycle
    ensures graph == Render(SuiteBlocks(cfg))
  {
    var central := CentralLines(cfg);
    var first := new FirstBackgroundComponent(cfg);
    var streams := StreamLines(cfg);
    graph := central + first.lines + streams;
    CycleLines(cfg);
  }

  /** The suite without DA: the same applications less the analysis, with the initial point of a
      fresh run excluded from the extended forecast times. */
  method BuildForecastOnly(cfg: Config) returns (graph: seq<Line>)
    requires Valid(cfg) && cfg.suite == ForecastOnly
    ensures graph == Render(SuiteBlocks(cfg))
  {
    var forecast := new ForecastComponent(cfg);
    var first := new FirstBackgroundComponent(cfg);
    var extended := new ExtendedForecastComponent(cfg);
    if cfg.newRun {
      if extended.extension.MeanTimes? && extended.extension.times.excluded == {} {
        extended.extension := MeanTimes(extended.extension.times.(excluded := {0}));
      }
      if extended.extension.EnsembleTimes? && extended.extension.times.excluded == {} {
        extended.extension := EnsembleTimes(extended.extension.times.(excluded := {0}));
      }
    }
    forecast.Export(FinishedName(DA), Some(PreviousForecast()));
    extended.Export(forecast.tf.FinishedMarker());
    assert extended.lines == Render(ExtendedBlocks(cfg));
    graph := first.lines + forecast.lines + extended.lines;
    RenderThree(FirstBackgroundBlocks(cfg), ForecastBlocks(cfg), ExtendedBlocks(cfg));
  }
}
