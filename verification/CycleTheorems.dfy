/** What the suites' graphs guarantee: which instances exist, no stall, and reading only what a
    finished instance wrote completely. */
module CycleTheorems {
  import opened CylcGraph
  import opened CylcRun
  import opened CycleSuites

  // ---- the graph as a relation ----

  predicate OnExtended(cfg: Config, c: nat) {
    Extends(cfg) &&
    (var times := Bounded(cfg, cfg.extension.times); On(Daily(times.slots, times.excluded), cfg.slot0, c))
  }

  /** Edges of every cycle from the first analysis on. */
  predicate CycledArrow(cfg: Config, e: Edge) {
    || (cfg.suite == Cycle && e in DAEdges(cfg))
    || e in ForecastEdges(cfg)
    || (cfg.n > 1 && e == Edge(FinishedName(Forecast), 1, One(MeanBackground)))
    || (Ensembles(cfg) && e in EnsembleEdges(cfg))
    || (Ensembles(cfg) && e == Edge(FinishedName(EnsembleForecast), 1, PreName(DA)))
  }

  /** Edges of the R1 sections. */
  predicate SeedArrow(cfg: Config, e: Edge) {
    || e in FirstBackgroundEdges(cfg)
    || (Ensembles(cfg) && e == Edge(One(LinkEnsembleForecasts), 0, FinishedName(EnsembleForecast)))
  }

  /** All edges in force at cycle c. */
  predicate Arrow(cfg: Config, c: nat, e: Edge) {
    || (First(cfg) <= c && CycledArrow(cfg, e))
    || (cfg.newRun && c == 0 && SeedArrow(cfg, e))
    || (OnExtended(cfg, c) && e in ExtendedEdges(cfg))
  }

  lemma EdgeInConcat(a: seq<Block>, b: seq<Block>, slot0: nat, c: nat, e: Edge)
    ensures EdgeIn(a + b, slot0, c, e) <==> EdgeIn(a, slot0, c, e) || EdgeIn(b, slot0, c, e)
  {
    if EdgeIn(a, slot0, c, e) {
      var k :| k in a && On(k.rec, slot0, c) && e in k.edges;
      assert k in a + b;
    }
    if EdgeIn(b, slot0, c, e) {
      var k :| k in b && On(k.rec, slot0, c) && e in k.edges;
      assert k in a + b;
    }
  }

  lemma EdgeInOne(b: Block, slot0: nat, c: nat, e: Edge)
    ensures EdgeIn([b], slot0, c, e) <==> On(b.rec, slot0, c) && e in b.edges
  {
    assert b in [b];
  }

  lemma ForecastArrows(cfg: Config, c: nat, e: Edge)
    ensures EdgeIn(ForecastBlocks(cfg), cfg.slot0, c, e) <==>
            First(cfg) <= c && (e in ForecastEdges(cfg)
                                || (cfg.n > 1 && e == Edge(FinishedName(Forecast), 1, One(MeanBackground))))
  {
    var main := Block(ForecastTimes(cfg), ForecastEdges(cfg));
    EdgeInOne(main, cfg.slot0, c, e);
    if cfg.n > 1 {
      var mean := Block(AnalysisTimes(cfg), [Edge(FinishedName(Forecast), FC2DA_BACK, One(MeanBackground))]);
      EdgeInOne(mean, cfg.slot0, c, e);
      EdgeInConcat([main], [mean], cfg.slot0, c, e);
    } else {
      assert ForecastBlocks(cfg) == [main];
    }
  }

  lemma EnsembleArrows(cfg: Config, c: nat, e: Edge)
    ensures EdgeIn(EnsembleBlocks(cfg), cfg.slot0, c, e) <==>
            Ensembles(cfg) &&
            ((First(cfg) <= c && (e in EnsembleEdges(cfg) || e == Edge(FinishedName(EnsembleForecast), 1, PreName(DA))))
             || (cfg.newRun && c == 0 && e == Edge(One(LinkEnsembleForecasts), 0, FinishedName(EnsembleForecast))))
  {
    if Ensembles(cfg) {
      var main := Block(AnalysisTimes(cfg), EnsembleEdges(cfg));
      var link := Block(R1, [Edge(One(LinkEnsembleForecasts), 0, FinishedName(EnsembleForecast))]);
      var gate := Block(AnalysisTimes(cfg), [Edge(FinishedName(EnsembleForecast), 1, PreName(DA))]);
      var seed := if cfg.newRun then [link] else [];
      EdgeInOne(main, cfg.slot0, c, e);
      EdgeInOne(link, cfg.slot0, c, e);
      EdgeInOne(gate, cfg.slot0, c, e);
      EdgeInConcat([main], seed, cfg.slot0, c, e);
      EdgeInConcat([main] + seed, [gate], cfg.slot0, c, e);
      assert EnsembleBlocks(cfg) == [main] + seed + [gate];
    }
  }

  lemma OtherArrows(cfg: Config, c: nat, e: Edge)
    ensures EdgeIn(DABlocks(cfg), cfg.slot0, c, e) <==> First(cfg) <= c && e in DAEdges(cfg)
    ensures EdgeIn(FirstBackgroundBlocks(cfg), cfg.slot0, c, e) <==>
      cfg.newRun && c == 0 && e in FirstBackgroundEdges(cfg)
    ensures EdgeIn(ExtendedBlocks(cfg), cfg.slot0, c, e) <==> OnExtended(cfg, c) && e in ExtendedEdges(cfg)
  {
    EdgeInOne(Block(AnalysisTimes(cfg), DAEdges(cfg)), cfg.slot0, c, e);
    EdgeInOne(Block(R1, FirstBackgroundEdges(cfg)), cfg.slot0, c, e);
    if Extends(cfg) {
      var times := Bounded(cfg, cfg.extension.times);
      EdgeInOne(Block(Daily(times.slots, times.excluded), ExtendedEdges(cfg)), cfg.slot0, c, e);
    }
  }

  /** The sections a suite writes put exactly these edges in force. */
  lemma ArrowsAreTheGraph(cfg: Config, c: nat, e: Edge)
    requires Valid(cfg)
    ensures HasEdge(WorkflowOf(cfg), c, e) <==> Arrow(cfg, c, e)
  {
    ForecastArrows(cfg, c, e);
    EnsembleArrows(cfg, c, e);
    OtherArrows(cfg, c, e);
    var da, fc, fb, ex, en := DABlocks(cfg), ForecastBlocks(cfg), FirstBackgroundBlocks(cfg), ExtendedBlocks(cfg),
      EnsembleBlocks(cfg);
    EdgeInConcat(da, fc, cfg.slot0, c, e);
    EdgeInConcat(da + fc, fb, cfg.slot0, c, e);
    EdgeInConcat(da + fc + fb, ex, cfg.slot0, c, e);
    EdgeInConcat(da + fc + fb + ex, en, cfg.slot0, c, e);
    EdgeInConcat(fb, fc, cfg.slot0, c, e);
    EdgeInConcat(fb + fc, ex, cfg.slot0, c, e);
  }

  // ---- ranks: no stall ----

  function FamilyRank(f: Family, p: Phase): nat {
    (match f
     case FirstBackground => 10
     case DA => if p == Finished then 30 else 20
     case RTPP => 25
     case Forecast => 40
     case EnsembleForecast => 40
     case ExtendedForecast => 60)
    + (match p case Pre => 0 case Init => 1 case Exec => 2 case Post => 3 case Finished => 4)
  }

  function Rank(t: Task): nat {
    match t
    case Marker(f, p) => FamilyRank(f, p)
    case Holder(f, p) => FamilyRank(f, p)
    case PrepareObservations => 0
    case PrepareExternalAnalysis => 0
    case PrepareEmissions => 0
    case InitVariationals => FamilyRank(DA, Init)
    case Variational(_) => FamilyRank(DA, Exec)
    case RelaxToPrior => FamilyRank(RTPP, Exec)
    case ForecastMember(_) => FamilyRank(Forecast, Exec)
    case MeanBackground => 0
    case ColdForecast(_) => FamilyRank(FirstBackground, Exec)
    case LinkWarmStartBackgrounds => FamilyRank(FirstBackground, Exec)
    case LinkEnsembleForecasts => 0
    case RecenterEnsemble => FamilyRank(EnsembleForecast, Init)
    case EnsembleMember(_) => FamilyRank(EnsembleForecast, Exec)
    case MeanAnalysis => FamilyRank(ExtendedForecast, Init)
    case ExtendedMeanFC => FamilyRank(ExtendedForecast, Exec)
    case ExtendedMember(_) => FamilyRank(ExtendedForecast, Exec)
  }

  function NameRank(name: Name): nat {
    match name
    case One(t) => Rank(t)
    case Group(f, p) => FamilyRank(f, p)
    case ColdForecasts => FamilyRank(FirstBackground, Exec)
  }

  lemma MembersShareTheRank(cfg: Config, name: Name, t: Task)
    requires t in Members(cfg, name)
    ensures Rank(t) == NameRank(name)
  {
  }

  lemma ChainDescends(f: Family, e: Edge)
    requires e in FullChain(f)
    ensures e.back == 0 && NameRank(e.src) < NameRank(e.dst)
  {
  }

  /** Every edge either stays in the cycle and goes up in rank, or goes back one window to a
      forecast or ensemble finished marker. */
  lemma EdgesDescend(cfg: Config, c: nat, e: Edge)
    requires Arrow(cfg, c, e)
    ensures (e.back == 0 && NameRank(e.src) < NameRank(e.dst))
         || (e.back == 1 && First(cfg) <= c
             && (e.src == FinishedName(Forecast) || (Ensembles(cfg) && e.src == FinishedName(EnsembleForecast))))
  {
    forall f | e in FullChain(f) { ChainDescends(f, e); }
  }

  /** The finished marker that an edge into the previous cycle needs is always there: the R1
      sections supply it for the first cycle of a fresh run. */
  lemma FinishedSignalExists(cfg: Config, c: nat, f: Family)
    requires Valid(cfg) && c < cfg.last
    requires First(cfg) <= c + 1
    requires f == Forecast || (f == EnsembleForecast && Ensembles(cfg))
    ensures Defined(WorkflowOf(cfg), At(Marker(f, Finished), c))
  {
    var w := WorkflowOf(cfg);
    var e := if First(cfg) <= c then FullChain(f)[3]
             else if f == Forecast then Edge(SeedName(cfg), 0, FinishedName(Forecast))
             else Edge(One(LinkEnsembleForecasts), 0, FinishedName(EnsembleForecast));
    assert Arrow(cfg, c, e);
    ArrowsAreTheGraph(cfg, c, e);
    assert Marker(f, Finished) in w.members(e.dst);
  }

  lemma SuitesAreWellRanked(cfg: Config)
    requires Valid(cfg)
    ensures WellRanked(WorkflowOf(cfg), Rank)
  {
    var w := WorkflowOf(cfg);
    forall i, j | Defined(w, i) && Waits(w, i, j)
      ensures Defined(w, j) && (j.cycle < i.cycle || (j.cycle == i.cycle && Rank(j.task) < Rank(i.task)))
    {
      var e :| HasEdge(w, i.cycle, e) && i.task in w.members(e.dst)
               && e.back <= i.cycle && j.cycle == i.cycle - e.back && j.task in w.members(e.src);
      ArrowsAreTheGraph(cfg, i.cycle, e);
      EdgesDescend(cfg, i.cycle, e);
      if e.back == 0 {
        MembersShareTheRank(cfg, e.src, j.task);
        MembersShareTheRank(cfg, e.dst, i.task);
      } else {
        var f := if e.src == FinishedName(Forecast) then Forecast else EnsembleForecast;
        assert j.task == Marker(f, Finished);
        FinishedSignalExists(cfg, j.cycle, f);
      }
    }
  }

  /** No stall: any unfinished run of either suite without a failed instance can go on, for any
      number of cycles, members, optional streams and any window of at least one cycle. */
  lemma SuitesNeverStall(cfg: Config, steps: seq<Step>) returns (step: Step)
    requires Valid(cfg) && IsRun(WorkflowOf(cfg), steps)
    requires After(steps).failed == {} && !Complete(WorkflowOf(cfg), After(steps))
    ensures Forward(step) && Enabled(WorkflowOf(cfg), After(steps), step)
  {
    SuitesAreWellRanked(cfg);
    RunsAreOrdered(WorkflowOf(cfg), steps);
    step := NoStall(WorkflowOf(cfg), Rank, After(steps));
  }

  /** At any time the cycle points at which something has started reach less than the active limit beyond
      the first that is unfinished, and no more placeholders run than the queue holds. */
  lemma SuitesStayInWindow(cfg: Config, steps: seq<Step>)
    requires Valid(cfg) && IsRun(WorkflowOf(cfg), steps)
    ensures forall i, u :: i in Started(After(steps)) && u in Instances(WorkflowOf(cfg)) - After(steps).succeeded ==>
      i.cycle < u.cycle + cfg.maxActive
    ensures |set i | i in After(steps).running && (i.task.Marker? || i.task.Holder?)| <= cfg.holders
  {
    hide Instances, IsRun, SuiteBlocks, Members;
    var w, s := WorkflowOf(cfg), After(steps);
    RunsStayWithinLimits(w, steps);
    forall i, u | i in Started(s) && u in Instances(w) && u !in s.succeeded
      ensures i.cycle < u.cycle + cfg.maxActive
    {
      assert InWindow(w, s, i);
    }
    assert (set i | i in s.running && (i.task.Marker? || i.task.Holder?)) == RunningHolders(s);
  }

  /** Every failure-free run of either suite extends to one in which all instances succeeded. */
  lemma SuitesComplete(cfg: Config, steps: seq<Step>) returns (whole: seq<Step>)
    requires Valid(cfg) && FailureFree(WorkflowOf(cfg), steps)
    ensures steps <= whole && FailureFree(WorkflowOf(cfg), whole) && Complete(WorkflowOf(cfg), After(whole))
    ensures |whole| == 2 * |Instances(WorkflowOf(cfg))|
  {
    SuitesAreWellRanked(cfg);
    whole := RunsComplete(WorkflowOf(cfg), Rank, steps);
  }

  /** The suite with DA as it would be without its R1 section for the first background. */
  function Unseeded(cfg: Config): Workflow
    requires Valid(cfg)
  {
    WorkflowOf(cfg).(blocks := DABlocks(cfg) + ForecastBlocks(cfg) + ExtendedBlocks(cfg))
  }

  lemma ExtendedNames(cfg: Config, e: Edge)
    requires cfg.suite == Cycle && e in ExtendedEdges(cfg)
    ensures Marker(Forecast, Finished) !in Members(cfg, e.dst) && Marker(Forecast, Finished) !in Members(cfg, e.src)
  {
    var head := ExtendedEdges(cfg)[..|ExtendedEdges(cfg)| - 4];
    assert ExtendedEdges(cfg) == head + FullChain(ExtendedForecast);
    if e in head {
      assert e.dst == PreName(ExtendedForecast);
      assert e.src == One(PrepareExternalAnalysis) || e.src == FinishedName(DA);
    } else {
      assert e in FullChain(ExtendedForecast);
    }
  }

  lemma UnseededSignalIsUndefined(cfg: Config)
    requires Valid(cfg) && cfg.suite == Cycle && cfg.newRun
    ensures !Defined(Unseeded(cfg), At(Marker(Forecast, Finished), 0))
  {
    var w := Unseeded(cfg);
    var da, fc, ex := DABlocks(cfg), ForecastBlocks(cfg), ExtendedBlocks(cfg);
    forall e | HasEdge(w, 0, e)
      ensures Marker(Forecast, Finished) !in w.members(e.dst) && Marker(Forecast, Finished) !in w.members(e.src)
    {
      EdgeInConcat(da, fc, cfg.slot0, 0, e);
      EdgeInConcat(da + fc, ex, cfg.slot0, 0, e);
      ForecastArrows(cfg, 0, e);
      OtherArrows(cfg, 0, e);
      ExtendedNames(cfg, e);
    }
  }

  /** The seed is needed: the edge into the initial point is not pruned there, so without the R1
      signal the first analysis never starts in any run. */
  lemma WithoutSeedTheFirstAnalysisNeverStarts(cfg: Config, steps: seq<Step>)
    requires Valid(cfg) && cfg.suite == Cycle && cfg.newRun && IsRun(Unseeded(cfg), steps)
    ensures At(Marker(DA, Pre), 1) !in Started(After(steps))
  {
    var w, i, j := Unseeded(cfg), At(Marker(DA, Pre), 1), At(Marker(Forecast, Finished), 0);
    var da, fc, ex := DABlocks(cfg), ForecastBlocks(cfg), ExtendedBlocks(cfg);
    var e := Edge(FinishedName(Forecast), FC2DA_BACK, PreName(DA));
    OtherArrows(cfg, 1, e);
    EdgeInConcat(da, fc, cfg.slot0, 1, e);
    EdgeInConcat(da + fc, ex, cfg.slot0, 1, e);
    assert HasEdge(w, 1, e) && i.task in w.members(e.dst) && j.task in w.members(e.src);
    assert Waits(w, i, j);
    RunsAreOrdered(w, steps);
    UnseededSignalIsUndefined(cfg);
    InstancesAreTheDefinedOnes(w, j);
  }
}
