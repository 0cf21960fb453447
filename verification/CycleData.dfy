/** Directories that the cycling tasks read and write, and when reading them is safe. */
module CycleData {
  import opened Outcome
  import opened CylcGraph
  import opened CylcRun
  import opened CycleSuites
  import opened CycleTheorems

  /** A state directory of one cycle. Cycle -1 is the cycle before the initial point. */
  datatype Dir =
    | FC(cycle: int, member: nat)       // CyclingFC/<cycle>/mem
    | AN(cycle: int, member: nat)       // CyclingDA/<cycle>/an/mem
    | ANMean(cycle: int)                // CyclingDA/<cycle>/an/mean
    | BGMean(cycle: int)                // CyclingDA/<cycle>/bg/mean
    | EnsFC(cycle: int, member: nat)    // CyclingEnsFC/<cycle>/mem
    | EnsIC(cycle: int, member: nat)    // CyclingEnsFC/<cycle>/ic/mem
    | Observed(cycle: int)              // observations prepared for <cycle>
    | External(cycle: int)              // external analysis prepared for <cycle>
    | Emitted(cycle: int)               // emissions prepared for <cycle>

  predicate Writes(cfg: Config, i: Instance, d: Dir) {
    var c := i.cycle;
    match i.task
    case ForecastMember(m) => d == FC(c, m)
    case ColdForecast(m) => d == FC(c, m)
    case LinkWarmStartBackgrounds => d.FC? && d.cycle == c && 1 <= d.member <= cfg.n
    case Variational(m) => d == AN(c, m)
    case RelaxToPrior => d.AN? && d.cycle == c && 1 <= d.member <= cfg.n
    case LinkEnsembleForecasts => d.EnsFC? && d.cycle == c && 1 <= d.member <= cfg.ensemble
    case RecenterEnsemble => d.EnsIC? && d.cycle == c && 1 <= d.member <= cfg.ensemble
    case EnsembleMember(k) => d == EnsFC(c, k)
    case MeanAnalysis => d == ANMean(c)
    case MeanBackground => d == BGMean(c)
    case PrepareObservations => d == Observed(c)
    case PrepareExternalAnalysis => d == External(c)
    case PrepareEmissions => d == Emitted(c)
    case _ => false
  }

  /** The member forecasts of the previous cycle, which are this cycle's backgrounds. */
  predicate IsBackground(cfg: Config, c: nat, d: Dir) { d.FC? && d.cycle == c - 1 && 1 <= d.member <= cfg.n }

  /** The ensemble members of the previous cycle, valid now: the hybrid B and the recentering input. */
  predicate IsPreviousEnsemble(cfg: Config, c: nat, d: Dir) {
    Ensembles(cfg) && d.EnsFC? && d.cycle == c - 1 && 1 <= d.member <= cfg.ensemble
  }

  predicate IsAnalysis(cfg: Config, c: nat, d: Dir) { d.AN? && d.cycle == c && 1 <= d.member <= cfg.n }

  /** What a forecast of the cycle starts from besides a state: sea surface and emissions. */
  predicate IsForcing(cfg: Config, c: nat, d: Dir) { d == External(c) || (cfg.emissions && d == Emitted(c)) }

  /** An extended forecast updates its sea surface from the external analysis of its own cycle whatever
      the option that makes it wait for that analysis. */
  predicate Reads(cfg: Config, i: Instance, d: Dir) {
    var c := i.cycle;
    match i.task
    case InitVariationals => d == Observed(c) || IsBackground(cfg, c, d) || IsPreviousEnsemble(cfg, c, d)
    case Variational(_) => d == Observed(c) || IsBackground(cfg, c, d) || IsPreviousEnsemble(cfg, c, d)
    case RelaxToPrior => IsBackground(cfg, c, d) || IsAnalysis(cfg, c, d)
    case MeanBackground => IsBackground(cfg, c, d)
    case ForecastMember(m) => IsForcing(cfg, c, d) || d == if cfg.suite == Cycle then AN(c, m) else FC(c - 1, m)
    case ColdForecast(_) => IsForcing(cfg, c, d)
    case RecenterEnsemble => d == AN(c, 1) || IsPreviousEnsemble(cfg, c, d)
    case EnsembleMember(k) => d == EnsIC(c, k) || (cfg.ensembleSea && d == External(c))
    case MeanAnalysis => IsAnalysis(cfg, c, d)
    case ExtendedMeanFC => d == External(c) || d == if cfg.suite == Cycle then ANMean(c) else FC(c - 1, 1)
    case ExtendedMember(m) => d == External(c) || d == if cfg.suite == Cycle then AN(c, m) else FC(c - 1, m)
    case _ => false
  }

  /** Instance i may use d: someone writes it, and all its writers other than i itself have
      succeeded. Before the initial point only a restart has anything, and there it is assumed.
      `all` are the instances of the run. */
  ghost predicate SafeFor(cfg: Config, all: set<Instance>, s: State, i: Instance, d: Dir) {
    if d.cycle < 0 then !cfg.newRun
    else
      && (exists v :: v in all && v != i && Writes(cfg, v, d))
      && (forall v :: v in all && v != i && Writes(cfg, v, d) ==> v in s.succeeded)
  }

  ghost predicate ReadsComplete(cfg: Config, all: set<Instance>, s: State) {
    forall i, d :: i in Started(s) && Reads(cfg, i, d) ==> SafeFor(cfg, all, s, i, d)
  }

  // ---- which working instances exist ----

  /** Where a family takes part. */
  predicate FamilyOn(cfg: Config, f: Family, c: nat) {
    match f
    case DA => cfg.suite == Cycle && First(cfg) <= c
    case RTPP => Relaxes(cfg) && First(cfg) <= c
    case Forecast => First(cfg) <= c
    case FirstBackground => cfg.newRun && c == 0
    case EnsembleForecast => Ensembles(cfg) && First(cfg) <= c
    case ExtendedForecast => OnExtended(cfg, c)
  }

  /** A finished marker outside its family: the R1 sections signal those that the first cycle of a fresh
      run looks back to, and an extended forecast names the analysis it follows even where there is none. */
  predicate Signalled(cfg: Config, f: Family, c: nat) {
    || (cfg.newRun && c == 0 && (f == Forecast || (f == EnsembleForecast && Ensembles(cfg))))
    || (f == DA && cfg.suite == Cycle && OnExtended(cfg, c))
  }

  /** Where a graph name is used at all. */
  predicate NamePlaced(cfg: Config, name: Name, c: nat) {
    match name
    case Group(f, p) => (p == Init || p == Exec) && FamilyOn(cfg, f, c)
    case ColdForecasts => cfg.newRun && c == 0 && cfg.cold
    case One(t) =>
      match t
      case LinkWarmStartBackgrounds => cfg.newRun && c == 0 && !cfg.cold
      case LinkEnsembleForecasts => cfg.newRun && c == 0 && Ensembles(cfg)
      case MeanBackground => cfg.n > 1 && First(cfg) <= c
      case Marker(f, p) =>
        p != Init && p != Exec && (FamilyOn(cfg, f, c) || (p == Finished && Signalled(cfg, f, c)))
      case PrepareObservations => FamilyOn(cfg, DA, c)
      case PrepareExternalAnalysis => true
      case PrepareEmissions => cfg.emissions && (First(cfg) <= c || cfg.cold)
      case _ => false
  }

  /** Where a task has an instance. */
  predicate Placed(cfg: Config, t: Task, c: nat) {
    match t
    case Marker(f, p) => NamePlaced(cfg, One(t), c)
    case Holder(f, p) => NamePlaced(cfg, Group(f, p), c)
    case InitVariationals => cfg.suite == Cycle && First(cfg) <= c
    case Variational(m) => cfg.suite == Cycle && First(cfg) <= c && 1 <= m <= cfg.n
    case RelaxToPrior => Relaxes(cfg) && First(cfg) <= c
    case ForecastMember(m) => First(cfg) <= c && 1 <= m <= cfg.n
    case ColdForecast(m) => cfg.newRun && c == 0 && cfg.cold && m == cfg.n
    case RecenterEnsemble => Ensembles(cfg) && First(cfg) <= c
    case EnsembleMember(k) => Ensembles(cfg) && First(cfg) <= c && 1 <= k <= cfg.ensemble
    case MeanAnalysis => OnExtended(cfg, c) && cfg.suite == Cycle && cfg.extension.MeanTimes?
    case ExtendedMeanFC => OnExtended(cfg, c) && cfg.extension.MeanTimes?
    case ExtendedMember(m) => OnExtended(cfg, c) && cfg.extension.EnsembleTimes? && 1 <= m <= cfg.n
    case _ => NamePlaced(cfg, One(t), c)
  }

  predicate EdgePlaced(cfg: Config, c: nat, e: Edge) {
    NamePlaced(cfg, e.dst, c) && (e.back == 0 ==> NamePlaced(cfg, e.src, c))
  }

  lemma ChainPlaced(cfg: Config, f: Family, c: nat, e: Edge)
    requires e in FullChain(f) && NamePlaced(cfg, Group(f, Init), c)
    ensures EdgePlaced(cfg, c, e)
  {
  }

  lemma AnalysisPlaced(cfg: Config, c: nat, e: Edge)
    requires cfg.suite == Cycle && First(cfg) <= c && e in DAEdges(cfg)
    ensures EdgePlaced(cfg, c, e)
  {
    if e in FullChain(DA) { ChainPlaced(cfg, DA, c, e); }
    if Relaxes(cfg) && e in FullChain(RTPP) { ChainPlaced(cfg, RTPP, c, e); }
  }

  lemma EnsemblePlaced(cfg: Config, c: nat, e: Edge)
    requires Ensembles(cfg) && First(cfg) <= c && e in EnsembleEdges(cfg)
    ensures EdgePlaced(cfg, c, e)
  {
    if e in FullChain(EnsembleForecast) { ChainPlaced(cfg, EnsembleForecast, c, e); }
  }

  lemma CycledPlaced(cfg: Config, c: nat, e: Edge)
    requires First(cfg) <= c && CycledArrow(cfg, e)
    ensures EdgePlaced(cfg, c, e)
  {
    if cfg.suite == Cycle && e in DAEdges(cfg) {
      AnalysisPlaced(cfg, c, e);
    } else if e in ForecastEdges(cfg) {
      if e in FullChain(Forecast) { ChainPlaced(cfg, Forecast, c, e); }
    } else if Ensembles(cfg) && e in EnsembleEdges(cfg) {
      EnsemblePlaced(cfg, c, e);
    }
  }

  lemma ArrowsArePlaced(cfg: Config, c: nat, e: Edge)
    requires Arrow(cfg, c, e)
    ensures EdgePlaced(cfg, c, e)
  {
    if First(cfg) <= c && CycledArrow(cfg, e) {
      CycledPlaced(cfg, c, e);
    } else if cfg.newRun && c == 0 && SeedArrow(cfg, e) {
      if e in FullChain(FirstBackground) { ChainPlaced(cfg, FirstBackground, c, e); }
    } else if e in FullChain(ExtendedForecast) {
      ChainPlaced(cfg, ExtendedForecast, c, e);
    }
  }

  lemma MembersArePlaced(cfg: Config, name: Name, t: Task, c: nat)
    requires NamePlaced(cfg, name, c) && t in Members(cfg, name)
    ensures Placed(cfg, t, c)
  {
    hide OnExtended;
    if name.Group? {
      assert PhaseName(name.fam, name.phase) == name;
      InFamilyIsMembership(cfg, name.fam, name.phase, t);
      FamilyIsPlaced(cfg, name.fam, name.phase, t, c);
    }
  }

  lemma FamilyIsPlaced(cfg: Config, f: Family, p: Phase, t: Task, c: nat)
    requires (p == Init || p == Exec) && FamilyOn(cfg, f, c) && InFamily(cfg, f, p, t)
    ensures Placed(cfg, t, c)
  {
  }

  lemma DefinedArePlaced(cfg: Config, i: Instance)
    requires Valid(cfg) && i in Instances(WorkflowOf(cfg))
    ensures Placed(cfg, i.task, i.cycle) && i.cycle <= cfg.last
  {
    var w := WorkflowOf(cfg);
    InstancesAreTheDefinedOnes(w, i);
    var e :| HasEdge(w, i.cycle, e)
             && (i.task in w.members(e.dst) || (e.back == 0 && i.task in w.members(e.src)));
    ArrowsAreTheGraph(cfg, i.cycle, e);
    ArrowsArePlaced(cfg, i.cycle, e);
    if i.task in w.members(e.dst) {
      MembersArePlaced(cfg, e.dst, i.task, i.cycle);
    } else {
      MembersArePlaced(cfg, e.src, i.task, i.cycle);
    }
  }

  /** Instance t at c exists because edge e is in force there. */
  lemma DefinedBy(cfg: Config, e: Edge, t: Task, c: nat)
    requires Valid(cfg) && c <= cfg.last && Arrow(cfg, c, e)
    requires t in Members(cfg, e.dst) || (e.back == 0 && t in Members(cfg, e.src))
    ensures At(t, c) in Instances(WorkflowOf(cfg))
  {
    var w := WorkflowOf(cfg);
    ArrowsAreTheGraph(cfg, c, e);
    assert t in w.members(e.dst) || (e.back == 0 && t in w.members(e.src));
    InstancesAreTheDefinedOnes(w, At(t, c));
  }

  // ---- what each task needs, read off the graph ----

  predicate InFamily(cfg: Config, f: Family, p: Phase, t: Task) {
    match t
    case Marker(g, q) => g == f && q == p && p != Init && p != Exec
    case Holder(g, q) => g == f && q == p && (p == Init || p == Exec)
    case InitVariationals => f == DA && p == Init
    case Variational(m) => f == DA && p == Exec && 1 <= m <= cfg.n
    case RelaxToPrior => f == RTPP && p == Exec
    case ForecastMember(m) => f == Forecast && p == Exec && 1 <= m <= cfg.n
    case ColdForecast(m) => f == FirstBackground && p == Exec && cfg.cold && m == cfg.n
    case LinkWarmStartBackgrounds => f == FirstBackground && p == Exec && !cfg.cold
    case RecenterEnsemble => f == EnsembleForecast && p == Init
    case EnsembleMember(k) => f == EnsembleForecast && p == Exec && 1 <= k <= cfg.ensemble
    case MeanAnalysis => f == ExtendedForecast && p == Init && cfg.suite == Cycle && cfg.extension.MeanTimes?
    case ExtendedMeanFC => f == ExtendedForecast && p == Exec && cfg.extension.MeanTimes?
    case ExtendedMember(m) => f == ExtendedForecast && p == Exec && !cfg.extension.MeanTimes? && 1 <= m <= cfg.n
    case _ => false
  }

  lemma InFamilyIsMembership(cfg: Config, f: Family, p: Phase, t: Task)
    ensures InFamily(cfg, f, p, t) <==> t in Members(cfg, PhaseName(f, p))
  {
    assert PhaseName(f, p) == (if p == Init || p == Exec then Group(f, p) else One(Marker(f, p)));
    if p == Init || p == Exec {
      assert t in Members(cfg, PhaseName(f, p)) <==> t == Holder(f, p) || t in Inheritors(cfg, f, p);
      InheritorsByNumber(cfg, f, p, t);
    }
  }

  lemma InheritorsByNumber(cfg: Config, f: Family, p: Phase, t: Task)
    requires p == Init || p == Exec
    ensures t in Inheritors(cfg, f, p) <==> !t.Holder? && InFamily(cfg, f, p, t)
  {
    var variational, forecast := (k: nat) => Variational(k), (k: nat) => ForecastMember(k);
    var ensemble, extended := (k: nat) => EnsembleMember(k), (k: nat) => ExtendedMember(k);
    if p == Exec {
      match t
      case Variational(m) => assert variational(m) == t;
      case ForecastMember(m) => assert forecast(m) == t;
      case EnsembleMember(m) => assert ensemble(m) == t;
      case ExtendedMember(m) => assert extended(m) == t;
      case _ =>
    }
  }

  function Earlier(p: Phase): Phase
    requires p != Pre
  {
    match p case Init => Pre case Exec => Init case Post => Exec case Finished => Post
  }

  /** Within a family, each phase needs all of the phase before it. */
  ghost predicate ChainNeeds(cfg: Config, i: Instance, j: Instance) {
    exists f, p :: p != Pre && FamilyOn(cfg, f, i.cycle) && InFamily(cfg, f, p, i.task)
                   && j.cycle == i.cycle && InFamily(cfg, f, Earlier(p), j.task)
  }

  /** Across families and cycles, and on what is prepared for a cycle. */
  predicate CrossNeeds(cfg: Config, i: Instance, j: Instance) {
    var c := i.cycle;
    var previousForecast := c >= 1 && j == At(Marker(Forecast, Finished), c - 1);
    var previousEnsemble := c >= 1 && Ensembles(cfg) && j == At(Marker(EnsembleForecast, Finished), c - 1);
    var analysis := j == At(Marker(DA, Finished), c);
    var external := j == At(PrepareExternalAnalysis, c);
    var forcing := external || (cfg.emissions && j == At(PrepareEmissions, c));
    match i.task
    case MeanBackground => First(cfg) <= c && cfg.n > 1 && previousForecast
    case Marker(DA, Pre) =>
      First(cfg) <= c && cfg.suite == Cycle &&
      (j == At(PrepareObservations, c) || previousForecast || previousEnsemble)
    case Marker(DA, Finished) => First(cfg) <= c && Relaxes(cfg) && j == At(Marker(RTPP, Finished), c)
    case Marker(RTPP, Pre) => First(cfg) <= c && Relaxes(cfg) && j == At(Marker(DA, Post), c)
    case Marker(Forecast, Pre) =>
      First(cfg) <= c && (forcing || if cfg.suite == Cycle then analysis else previousForecast)
    case Marker(Forecast, Finished) =>
      c < First(cfg) && j == At(if cfg.cold then ColdForecast(cfg.n) else LinkWarmStartBackgrounds, c)
    case ColdForecast(m) => c < First(cfg) && cfg.cold && m == cfg.n && forcing
    case LinkWarmStartBackgrounds => c < First(cfg) && !cfg.cold && external
    case Marker(EnsembleForecast, Pre) =>
      First(cfg) <= c && Ensembles(cfg) && (analysis || previousEnsemble || (cfg.ensembleSea && external))
    case Marker(EnsembleForecast, Finished) =>
      c < First(cfg) && Ensembles(cfg) && j == At(LinkEnsembleForecasts, c)
    case Marker(ExtendedForecast, Pre) =>
      OnExtended(cfg, c) &&
      ((if cfg.suite == Cycle then analysis else j == At(Marker(Forecast, Finished), c))
       || (SeaIsAwaited(cfg) && external))
    case _ => false
  }

  /** Extended forecasts wait for the external analysis only when asked to, and only from a mean. */
  predicate SeaIsAwaited(cfg: Config) { cfg.extendedSea && cfg.extension.MeanTimes? }

  lemma ChainIsInForce(cfg: Config, f: Family, c: nat, e: Edge)
    requires FamilyOn(cfg, f, c) && e in FullChain(f)
    ensures Arrow(cfg, c, e)
  {
    match f
    case DA => assert e in DAEdges(cfg);
    case RTPP => assert e in RelaxEdges(cfg); assert e in DAEdges(cfg);
    case Forecast => assert e in ForecastEdges(cfg);
    case FirstBackground => assert e in FirstBackgroundEdges(cfg);
    case EnsembleForecast => assert e in EnsembleEdges(cfg);
    case ExtendedForecast => assert e in ExtendedEdges(cfg);
  }

  lemma ArrowWaits(cfg: Config, i: Instance, j: Instance, e: Edge)
    requires Valid(cfg) && Arrow(cfg, i.cycle, e)
    requires i.task in Members(cfg, e.dst) && j.task in Members(cfg, e.src)
    requires e.back <= i.cycle && j.cycle == i.cycle - e.back
    ensures Waits(WorkflowOf(cfg), i, j)
  {
    var w := WorkflowOf(cfg);
    ArrowsAreTheGraph(cfg, i.cycle, e);
    assert i.task in w.members(e.dst) && j.task in w.members(e.src);
  }

  lemma ChainNeedsAreWaits(cfg: Config, i: Instance, j: Instance)
    requires Valid(cfg) && ChainNeeds(cfg, i, j)
    ensures Waits(WorkflowOf(cfg), i, j)
  {
    var f, p :| p != Pre && FamilyOn(cfg, f, i.cycle) && InFamily(cfg, f, p, i.task)
                && j.cycle == i.cycle && InFamily(cfg, f, Earlier(p), j.task);
    InFamilyIsMembership(cfg, f, p, i.task);
    InFamilyIsMembership(cfg, f, Earlier(p), j.task);
    var e := Edge(PhaseName(f, Earlier(p)), 0, PhaseName(f, p));
    assert e in FullChain(f);
    ChainIsInForce(cfg, f, i.cycle, e);
    ArrowWaits(cfg, i, j, e);
  }

  /** The name a needed task is waited for under. */
  function NeededName(cfg: Config, i: Instance, j: Instance): Name {
    if i.task == Marker(Forecast, Finished) then SeedName(cfg) else One(j.task)
  }

  /** The edge behind a need across families. */
  function CrossEdge(cfg: Config, i: Instance, j: Instance): Edge
    requires j.cycle <= i.cycle
  {
    Edge(NeededName(cfg, i, j), i.cycle - j.cycle, if i.task.ColdForecast? then ColdForecasts else One(i.task))
  }

  lemma CrossNeedsAreWaits(cfg: Config, i: Instance, j: Instance)
    requires Valid(cfg) && CrossNeeds(cfg, i, j)
    ensures Waits(WorkflowOf(cfg), i, j)
  {
    var e := CrossEdge(cfg, i, j);
    match i.task {
      case Marker(DA, Pre) =>
        assert j.task == PrepareObservations || j.task == Marker(Forecast, Finished) ==> e in DAEdges(cfg);
      case Marker(DA, Finished) => assert e in RelaxEdges(cfg); assert e in DAEdges(cfg);
      case Marker(RTPP, Pre) => assert e in RelaxEdges(cfg); assert e in DAEdges(cfg);
      case Marker(Forecast, Pre) => assert e in ForecastEdges(cfg);
      case Marker(Forecast, Finished) => assert e in FirstBackgroundEdges(cfg);
      case ColdForecast(_) => assert e in FirstBackgroundEdges(cfg);
      case LinkWarmStartBackgrounds => assert e in FirstBackgroundEdges(cfg);
      case Marker(EnsembleForecast, Pre) => assert e in EnsembleEdges(cfg);
      case Marker(ExtendedForecast, Pre) => assert e in ExtendedEdges(cfg);
      case _ =>
    }
    ArrowWaits(cfg, i, j, e);
  }

  /** An edge of a family's chain joins two neighbouring phases. */
  lemma ChainJoinsPhases(cfg: Config, f: Family, i: Instance, j: Instance, e: Edge)
    requires e in FullChain(f) && FamilyOn(cfg, f, i.cycle) && WaitsBy(cfg, i, j, e)
    ensures ChainNeeds(cfg, i, j)
  {
    var p := if e.dst == Group(f, Init) then Init else if e.dst == Group(f, Exec) then Exec
             else if e.dst == One(Marker(f, Post)) then Post else Finished;
    assert e == Edge(PhaseName(f, Earlier(p)), 0, PhaseName(f, p));
    InFamilyIsMembership(cfg, f, p, i.task);
    InFamilyIsMembership(cfg, f, Earlier(p), j.task);
  }

  /** i waits for j by edge e. */
  predicate WaitsBy(cfg: Config, i: Instance, j: Instance, e: Edge) {
    && i.task in Members(cfg, e.dst) && j.task in Members(cfg, e.src)
    && e.back <= i.cycle && j.cycle == i.cycle - e.back
  }

  predicate OfNoChain(e: Edge) {
    && e !in FullChain(DA) && e !in FullChain(RTPP) && e !in FullChain(Forecast)
    && e !in FullChain(FirstBackground) && e !in FullChain(EnsembleForecast) && e !in FullChain(ExtendedForecast)
  }

  lemma AnalysisCross(cfg: Config, i: Instance, j: Instance, e: Edge)
    requires WaitsBy(cfg, i, j, e) && OfNoChain(e) && First(cfg) <= i.cycle && cfg.suite == Cycle && e in DAEdges(cfg)
    ensures CrossNeeds(cfg, i, j)
  {
    hide FullChain;
  }

  lemma ForecastCross(cfg: Config, i: Instance, j: Instance, e: Edge)
    requires WaitsBy(cfg, i, j, e) && OfNoChain(e) && First(cfg) <= i.cycle && e in ForecastEdges(cfg)
    ensures CrossNeeds(cfg, i, j)
  {
    hide FullChain;
  }

  lemma EnsembleCross(cfg: Config, i: Instance, j: Instance, e: Edge)
    requires WaitsBy(cfg, i, j, e) && OfNoChain(e) && First(cfg) <= i.cycle && Ensembles(cfg) && e in EnsembleEdges(cfg)
    ensures CrossNeeds(cfg, i, j)
  {
    hide FullChain;
  }

  lemma ExtendedCross(cfg: Config, i: Instance, j: Instance, e: Edge)
    requires WaitsBy(cfg, i, j, e) && OfNoChain(e) && OnExtended(cfg, i.cycle) && e in ExtendedEdges(cfg)
    ensures CrossNeeds(cfg, i, j)
  {
    hide FullChain, OnExtended;
  }

  lemma SeedCross(cfg: Config, i: Instance, j: Instance, e: Edge)
    requires WaitsBy(cfg, i, j, e) && OfNoChain(e) && cfg.newRun && i.cycle == 0 && SeedArrow(cfg, e)
    ensures CrossNeeds(cfg, i, j)
  {
    hide FullChain;
  }

  /** Any edge in force that joins no two phases is a need across families. */
  lemma OtherEdgesCross(cfg: Config, i: Instance, j: Instance, e: Edge)
    requires WaitsBy(cfg, i, j, e) && OfNoChain(e) && Arrow(cfg, i.cycle, e)
    ensures CrossNeeds(cfg, i, j)
  {
    hide FullChain, DAEdges, ForecastEdges, EnsembleEdges, ExtendedEdges, SeedArrow, OnExtended;
    if OnExtended(cfg, i.cycle) && e in ExtendedEdges(cfg) {
      ExtendedCross(cfg, i, j, e);
    } else if cfg.newRun && i.cycle == 0 && SeedArrow(cfg, e) {
      SeedCross(cfg, i, j, e);
    } else if e in ForecastEdges(cfg) {
      ForecastCross(cfg, i, j, e);
    } else if cfg.suite == Cycle && e in DAEdges(cfg) {
      AnalysisCross(cfg, i, j, e);
    } else if Ensembles(cfg) && e in EnsembleEdges(cfg) {
      EnsembleCross(cfg, i, j, e);
    }
  }

  /** A family's chain is in force exactly where the family is on. */
  lemma ChainOnlyWhereOn(cfg: Config, f: Family, c: nat, e: Edge)
    requires Arrow(cfg, c, e) && e in FullChain(f)
    ensures FamilyOn(cfg, f, c)
  {
    ArrowsArePlaced(cfg, c, e);
  }

  /** Exactly these waits are in the graph, no fewer and no more. */
  lemma WaitsAreNeeds(cfg: Config, i: Instance, j: Instance)
    requires Valid(cfg)
    ensures Waits(WorkflowOf(cfg), i, j) <==> ChainNeeds(cfg, i, j) || CrossNeeds(cfg, i, j)
  {
    hide WorkflowOf, Arrow, ChainNeeds, CrossNeeds, FullChain, OfNoChain, FamilyOn;
    if ChainNeeds(cfg, i, j) {
      ChainNeedsAreWaits(cfg, i, j);
    }
    if CrossNeeds(cfg, i, j) {
      CrossNeedsAreWaits(cfg, i, j);
    }
    if Waits(WorkflowOf(cfg), i, j) {
      var e := EdgeOfWait(cfg, i, j);
      if OfNoChain(e) {
        OtherEdgesCross(cfg, i, j, e);
      } else {
        var f := ChainOf(e);
        ChainOnlyWhereOn(cfg, f, i.cycle, e);
        ChainJoinsPhases(cfg, f, i, j, e);
      }
    }
  }

  lemma EdgeOfWait(cfg: Config, i: Instance, j: Instance) returns (e: Edge)
    requires Valid(cfg) && Waits(WorkflowOf(cfg), i, j)
    ensures Arrow(cfg, i.cycle, e) && WaitsBy(cfg, i, j, e)
  {
    hide Arrow;
    var w := WorkflowOf(cfg);
    e :| HasEdge(w, i.cycle, e) && i.task in w.members(e.dst)
         && e.back <= i.cycle && j.cycle == i.cycle - e.back && j.task in w.members(e.src);
    ArrowsAreTheGraph(cfg, i.cycle, e);
  }

  lemma ChainOf(e: Edge) returns (f: Family)
    requires !OfNoChain(e)
    ensures e in FullChain(f)
  {
    f :| e in FullChain(f);
  }

  // ---- the schedule, told by the configuration alone ----

  /** Forecasts and analyses start one window after the initial point of a fresh run, at the restart point
      otherwise. */
  predicate Cycled(cfg: Config, c: nat) { cfg.newRun ==> c >= 1 }

  predicate Analysed(cfg: Config, c: nat) { cfg.suite == Cycle && Cycled(cfg, c) }

  /** The times of extended forecasts: without DA the initial point of a fresh run is left out unless the
      times carry an exclusion of their own; ensembles are for more than one member. */
  predicate ExtendedAt(cfg: Config, c: nat) {
    && (cfg.extension.MeanTimes? || (cfg.extension.EnsembleTimes? && cfg.n > 1))
    && (cfg.slot0 + c) % WINDOWS_PER_DAY in cfg.extension.times.slots && c !in cfg.extension.times.excluded
    && !(cfg.suite == ForecastOnly && cfg.newRun && cfg.extension.times.excluded == {} && c == 0)
  }

  predicate FamilyRuns(cfg: Config, f: Family, c: nat) {
    match f
    case DA => Analysed(cfg, c)
    case RTPP => Analysed(cfg, c) && cfg.relax && cfg.n > 1
    case Forecast => Cycled(cfg, c)
    case FirstBackground => cfg.newRun && c == 0
    case EnsembleForecast => Analysed(cfg, c) && cfg.ensemble > 1
    case ExtendedForecast => ExtendedAt(cfg, c)
  }

  predicate Scheduled(cfg: Config, t: Task, c: nat) {
    match t
    case Marker(f, p) =>
      p != Init && p != Exec &&
      (FamilyRuns(cfg, f, c)
       || (p == Finished && cfg.newRun && c == 0 &&
           (f == Forecast || (f == EnsembleForecast && cfg.suite == Cycle && cfg.ensemble > 1)))
       || (p == Finished && f == DA && cfg.suite == Cycle && ExtendedAt(cfg, c)))
    case Holder(f, p) => (p == Init || p == Exec) && FamilyRuns(cfg, f, c)
    case PrepareObservations => Analysed(cfg, c)
    case PrepareExternalAnalysis => true
    case PrepareEmissions => cfg.emissions && (Cycled(cfg, c) || cfg.cold)
    case InitVariationals => Analysed(cfg, c)
    case Variational(m) => Analysed(cfg, c) && 1 <= m <= cfg.n
    case RelaxToPrior => FamilyRuns(cfg, RTPP, c)
    case ForecastMember(m) => Cycled(cfg, c) && 1 <= m <= cfg.n
    case MeanBackground => Cycled(cfg, c) && cfg.n > 1
    case ColdForecast(m) => cfg.newRun && c == 0 && cfg.cold && m == cfg.n
    case LinkWarmStartBackgrounds => cfg.newRun && c == 0 && !cfg.cold
    case LinkEnsembleForecasts => cfg.newRun && c == 0 && cfg.suite == Cycle && cfg.ensemble > 1
    case RecenterEnsemble => FamilyRuns(cfg, EnsembleForecast, c)
    case EnsembleMember(k) => FamilyRuns(cfg, EnsembleForecast, c) && 1 <= k <= cfg.ensemble
    case MeanAnalysis => ExtendedAt(cfg, c) && cfg.suite == Cycle && cfg.extension.MeanTimes?
    case ExtendedMeanFC => ExtendedAt(cfg, c) && cfg.extension.MeanTimes?
    case ExtendedMember(m) => ExtendedAt(cfg, c) && cfg.extension.EnsembleTimes? && 1 <= m <= cfg.n
  }

  lemma ExtendedIsOn(cfg: Config, c: nat)
    ensures OnExtended(cfg, c) <==> ExtendedAt(cfg, c)
  {
  }

  lemma FamilyRunsIsOn(cfg: Config, f: Family, c: nat)
    ensures FamilyOn(cfg, f, c) <==> FamilyRuns(cfg, f, c)
  {
    hide OnExtended, ExtendedAt;
    ExtendedIsOn(cfg, c);
  }

  lemma ScheduledIsPlaced(cfg: Config, t: Task, c: nat)
    ensures Placed(cfg, t, c) <==> Scheduled(cfg, t, c)
  {
    hide OnExtended, ExtendedAt;
    ExtendedIsOn(cfg, c);
    match t
    case Marker(f, _) => FamilyRunsIsOn(cfg, f, c);
    case Holder(f, _) => FamilyRunsIsOn(cfg, f, c);
    case _ =>
  }

  /** A family that is on has all the tasks of its phases. */
  lemma FamilyIsDefined(cfg: Config, f: Family, p: Phase, t: Task, c: nat)
    requires Valid(cfg) && c <= cfg.last && FamilyOn(cfg, f, c) && InFamily(cfg, f, p, t)
    ensures At(t, c) in Instances(WorkflowOf(cfg))
  {
    hide Instances, WorkflowOf;
    InFamilyIsMembership(cfg, f, p, t);
    var e := FullChain(f)[if p == Pre then 0 else if p == Init then 0 else if p == Exec then 1 else if p ==
      Post then 2 else 3];
    assert t in Members(cfg, e.dst) || t in Members(cfg, e.src);
    ChainIsInForce(cfg, f, c, e);
    DefinedBy(cfg, e, t, c);
  }

  /** The family and phase a task belongs to, if any. */
  function HomeOf(t: Task): Option<(Family, Phase)> {
    match t
    case Marker(f, p) => Some((f, p))
    case Holder(f, p) => Some((f, p))
    case InitVariationals => Some((DA, Init))
    case Variational(_) => Some((DA, Exec))
    case RelaxToPrior => Some((RTPP, Exec))
    case ForecastMember(_) => Some((Forecast, Exec))
    case ColdForecast(_) => Some((FirstBackground, Exec))
    case LinkWarmStartBackgrounds => Some((FirstBackground, Exec))
    case RecenterEnsemble => Some((EnsembleForecast, Init))
    case EnsembleMember(_) => Some((EnsembleForecast, Exec))
    case MeanAnalysis => Some((ExtendedForecast, Init))
    case ExtendedMeanFC => Some((ExtendedForecast, Exec))
    case ExtendedMember(_) => Some((ExtendedForecast, Exec))
    case _ => None
  }

  /** The edge that defines a placed task with no family of its own there. */
  function DefiningEdge(cfg: Config, t: Task, c: nat): Edge {
    match t
    case PrepareObservations => Edge(One(PrepareObservations), 0, PreName(DA))
    case PrepareExternalAnalysis =>
      Edge(One(PrepareExternalAnalysis), 0, if First(cfg) <= c then PreName(Forecast) else SeedName(cfg))
    case PrepareEmissions => Edge(One(PrepareEmissions), 0,
      if First(cfg) <= c then PreName(Forecast) else SeedName(cfg))
    case MeanBackground => Edge(FinishedName(Forecast), 1, One(MeanBackground))
    case Marker(DA, _) => Edge(FinishedName(DA), 0, PreName(ExtendedForecast))
    case Marker(Forecast, _) => Edge(SeedName(cfg), 0, FinishedName(Forecast))
    case _ => Edge(One(LinkEnsembleForecasts), 0, FinishedName(EnsembleForecast))
  }

  lemma OutsideFamilies(cfg: Config, t: Task, c: nat)
    requires Valid(cfg) && c <= cfg.last && Placed(cfg, t, c)
    requires HomeOf(t).None? || !FamilyOn(cfg, HomeOf(t).value.0, c)
    ensures At(t, c) in Instances(WorkflowOf(cfg))
  {
    hide Instances, WorkflowOf, OnExtended;
    var e := DefiningEdge(cfg, t, c);
    match t {
      case PrepareObservations => assert e in DAEdges(cfg);
      case PrepareExternalAnalysis => assert e in ForecastEdges(cfg) || e in FirstBackgroundEdges(cfg);
      case PrepareEmissions => assert e in ForecastEdges(cfg) || e in FirstBackgroundEdges(cfg);
      case Marker(DA, _) => assert e in ExtendedEdges(cfg);
      case Marker(Forecast, _) => assert e in FirstBackgroundEdges(cfg);
      case _ =>
    }
    DefinedBy(cfg, e, t, c);
  }

  lemma InsideFamilies(cfg: Config, t: Task, c: nat)
    requires Placed(cfg, t, c) && HomeOf(t).Some? && FamilyOn(cfg, HomeOf(t).value.0, c)
    ensures InFamily(cfg, HomeOf(t).value.0, HomeOf(t).value.1, t)
  {
    hide OnExtended;
  }

  /** A suite has exactly these tasks at these points, for any configuration. */
  lemma InstancesAreScheduled(cfg: Config, i: Instance)
    requires Valid(cfg)
    ensures i in Instances(WorkflowOf(cfg)) <==> i.cycle <= cfg.last && Scheduled(cfg, i.task, i.cycle)
  {
    hide Instances, WorkflowOf, Scheduled, Placed, FamilyOn;
    ScheduledIsPlaced(cfg, i.task, i.cycle);
    if i in Instances(WorkflowOf(cfg)) {
      DefinedArePlaced(cfg, i);
    } else if i.cycle <= cfg.last && Placed(cfg, i.task, i.cycle) {
      var home := HomeOf(i.task);
      if home.Some? && FamilyOn(cfg, home.value.0, i.cycle) {
        InsideFamilies(cfg, i.task, i.cycle);
        FamilyIsDefined(cfg, home.value.0, home.value.1, i.task, i.cycle);
      } else {
        OutsideFamilies(cfg, i.task, i.cycle);
      }
    }
  }

  /** What holds in every reached state, told without the graph: only placed instances exist, and
      whatever started had its needs met. */
  ghost predicate Caused(cfg: Config, all: set<Instance>, s: State) {
    && Started(s) <= all
    && (forall v :: v in all ==> Placed(cfg, v.task, v.cycle))
    && (forall i, j :: i in Started(s) && ChainNeeds(cfg, i, j) ==> j in s.succeeded)
    && (forall i, j :: i in Started(s) && CrossNeeds(cfg, i, j) ==> j in s.succeeded)
  }

  lemma RunsAreCaused(cfg: Config, steps: seq<Step>)
    requires Valid(cfg) && IsRun(WorkflowOf(cfg), steps)
    ensures Caused(cfg, Instances(WorkflowOf(cfg)), After(steps))
  {
    var w, s := WorkflowOf(cfg), After(steps);
    RunsAreOrdered(w, steps);
    forall v | v in Instances(w) ensures Placed(cfg, v.task, v.cycle) { DefinedArePlaced(cfg, v); }
    forall i, j | i in Started(s) && ChainNeeds(cfg, i, j) ensures j in s.succeeded { ChainNeedsAreWaits(cfg, i, j); }
    forall i, j | i in Started(s) && CrossNeeds(cfg, i, j) ensures j in s.succeeded { CrossNeedsAreWaits(cfg, i, j); }
  }
}
