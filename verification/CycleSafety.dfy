/** Read-after-write over whole runs, and the exact condition under which the suites keep it. */
module CycleSafety {
  import opened CylcGraph
  import opened CylcRun
  import opened CycleSuites
  import opened CycleTheorems
  import opened CycleData

  /** Every writer of d has succeeded, and there is one. */
  ghost predicate DirDone(cfg: Config, all: set<Instance>, s: State, d: Dir) {
    && (exists v :: v in all && Writes(cfg, v, d))
    && (forall v :: v in all && Writes(cfg, v, d) ==> v in s.succeeded)
  }

  lemma PhaseBefore(cfg: Config, all: set<Instance>, s: State, f: Family, p: Phase, t: Task, u: Task, c: nat)
    requires Caused(cfg, all, s) && FamilyOn(cfg, f, c) && p != Pre
    requires InFamily(cfg, f, p, t) && At(t, c) in Started(s)
    requires InFamily(cfg, f, Earlier(p), u)
    ensures At(u, c) in s.succeeded
  {
    assert ChainNeeds(cfg, At(t, c), At(u, c));
  }

  lemma Before(cfg: Config, all: set<Instance>, s: State, i: Instance, j: Instance)
    requires Caused(cfg, all, s) && i in Started(s) && CrossNeeds(cfg, i, j)
    ensures j in s.succeeded
  {
  }

  /** A started execute task has its init tasks and its pre marker behind it. */
  lemma ExecBehind(cfg: Config, all: set<Instance>, s: State, f: Family, t: Task, c: nat)
    requires Caused(cfg, all, s) && FamilyOn(cfg, f, c)
    requires InFamily(cfg, f, Exec, t) && At(t, c) in Started(s)
    ensures forall u :: InFamily(cfg, f, Init, u) ==> At(u, c) in s.succeeded
    ensures At(Marker(f, Pre), c) in s.succeeded
  {
    forall u | InFamily(cfg, f, Init, u) ensures At(u, c) in s.succeeded {
      PhaseBefore(cfg, all, s, f, Exec, t, u, c);
    }
    assert InFamily(cfg, f, Init, Holder(f, Init));
    PhaseBefore(cfg, all, s, f, Init, Holder(f, Init), Marker(f, Pre), c);
  }

  /** A started finished marker has its whole family behind it. */
  lemma FinishedBehind(cfg: Config, all: set<Instance>, s: State, f: Family, c: nat)
    requires Caused(cfg, all, s) && FamilyOn(cfg, f, c)
    requires At(Marker(f, Finished), c) in Started(s)
    ensures forall u :: InFamily(cfg, f, Exec, u) ==> At(u, c) in s.succeeded
    ensures At(Marker(f, Post), c) in s.succeeded
    ensures At(Marker(f, Pre), c) in s.succeeded
  {
    PhaseBefore(cfg, all, s, f, Finished, Marker(f, Finished), Marker(f, Post), c);
    forall u | InFamily(cfg, f, Exec, u) ensures At(u, c) in s.succeeded {
      PhaseBefore(cfg, all, s, f, Post, Marker(f, Post), u, c);
    }
    assert InFamily(cfg, f, Exec, Holder(f, Exec));
    ExecBehind(cfg, all, s, f, Holder(f, Exec), c);
  }

  /** The R1 seed covers every member: links do, a cold forecast only for a single member. */
  predicate SeedsAllMembers(cfg: Config) { cfg.newRun && cfg.cold ==> cfg.n == 1 }

  /** Once a forecast finished marker has started, its cycle's forecast directories are complete. */
  lemma ForecastDone(cfg: Config, all: set<Instance>, s: State, c: nat, m: nat)
    requires Caused(cfg, all, s) && SeedsAllMembers(cfg) && 1 <= m <= cfg.n
    requires At(Marker(Forecast, Finished), c) in Started(s)
    ensures DirDone(cfg, all, s, FC(c, m))
  {
    var writer := if First(cfg) <= c then ForecastMember(m)
                  else if cfg.cold then ColdForecast(cfg.n) else LinkWarmStartBackgrounds;
    if First(cfg) <= c {
      FinishedBehind(cfg, all, s, Forecast, c);
      assert InFamily(cfg, Forecast, Exec, writer);
    } else {
      Before(cfg, all, s, At(Marker(Forecast, Finished), c), At(writer, c));
    }
    assert Writes(cfg, At(writer, c), FC(c, m));
    forall v | v in all && Writes(cfg, v, FC(c, m)) ensures v in s.succeeded {
      assert Placed(cfg, v.task, v.cycle);
      assert v == At(writer, c);
    }
  }

  lemma EnsembleDone(cfg: Config, all: set<Instance>, s: State, c: nat, k: nat)
    requires Caused(cfg, all, s) && Ensembles(cfg) && 1 <= k <= cfg.ensemble
    requires At(Marker(EnsembleForecast, Finished), c) in Started(s)
    ensures DirDone(cfg, all, s, EnsFC(c, k))
  {
    var writer := if First(cfg) <= c then EnsembleMember(k) else LinkEnsembleForecasts;
    if First(cfg) <= c {
      FinishedBehind(cfg, all, s, EnsembleForecast, c);
      assert InFamily(cfg, EnsembleForecast, Exec, writer);
    } else {
      Before(cfg, all, s, At(Marker(EnsembleForecast, Finished), c), At(writer, c));
    }
    assert Writes(cfg, At(writer, c), EnsFC(c, k));
    forall v | v in all && Writes(cfg, v, EnsFC(c, k)) ensures v in s.succeeded {
      assert Placed(cfg, v.task, v.cycle);
      assert v == At(writer, c);
    }
  }

  /** Once DA has finished, its analyses are complete, relaxed ones included. */
  lemma AnalysisDone(cfg: Config, all: set<Instance>, s: State, c: nat, m: nat)
    requires Caused(cfg, all, s) && cfg.suite == Cycle && 1 <= m <= cfg.n && First(cfg) <= c
    requires At(Marker(DA, Finished), c) in Started(s)
    ensures DirDone(cfg, all, s, AN(c, m))
  {
    FinishedBehind(cfg, all, s, DA, c);
    assert InFamily(cfg, DA, Exec, Variational(m));
    if Relaxes(cfg) {
      Before(cfg, all, s, At(Marker(DA, Finished), c), At(Marker(RTPP, Finished), c));
      FinishedBehind(cfg, all, s, RTPP, c);
      assert InFamily(cfg, RTPP, Exec, RelaxToPrior);
    }
    assert Writes(cfg, At(Variational(m), c), AN(c, m));
    forall v | v in all && Writes(cfg, v, AN(c, m)) ensures v in s.succeeded {
      assert Placed(cfg, v.task, v.cycle);
      assert v == At(Variational(m), c) || (Relaxes(cfg) && v == At(RelaxToPrior, c));
    }
  }

  /** What a started task waits for and nobody else writes is there. */
  lemma PreparedIsSafe(cfg: Config, all: set<Instance>, s: State, i: Instance, needs: Instance, d: Dir)
    requires Caused(cfg, all, s) && needs.cycle == d.cycle && needs in s.succeeded && i.task != needs.task
    requires (needs.task.PrepareObservations? && d.Observed?) || (needs.task.PrepareExternalAnalysis? && d.External?)
             || (needs.task.PrepareEmissions? && d.Emitted?)
    ensures SafeFor(cfg, all, s, i, d)
  {
    assert Writes(cfg, needs, d) && needs in all;
    assert forall v :: v in all && Writes(cfg, v, d) ==> v == needs;
  }

  /** A started task that needs the cycle's forcing finds it. */
  lemma ForcingSafe(cfg: Config, all: set<Instance>, s: State, i: Instance, waits: Instance, d: Dir)
    requires Caused(cfg, all, s) && waits in Started(s) && waits.cycle == i.cycle && IsForcing(cfg, i.cycle, d)
    requires !i.task.PrepareExternalAnalysis? && !i.task.PrepareEmissions?
    requires CrossNeeds(cfg, waits, At(PrepareExternalAnalysis, i.cycle))
    requires cfg.emissions ==> CrossNeeds(cfg, waits, At(PrepareEmissions, i.cycle))
    ensures SafeFor(cfg, all, s, i, d)
  {
    var needs := At(if d.External? then PrepareExternalAnalysis else PrepareEmissions, i.cycle);
    Before(cfg, all, s, waits, needs);
    PreparedIsSafe(cfg, all, s, i, needs, d);
  }

  lemma DoneIsSafe(cfg: Config, all: set<Instance>, s: State, i: Instance, d: Dir)
    requires DirDone(cfg, all, s, d) && d.cycle >= 0 && !Writes(cfg, i, d)
    ensures SafeFor(cfg, all, s, i, d)
  {
    var v :| v in all && Writes(cfg, v, d);
    assert v != i;
  }

  /** Backgrounds are safe for whoever started after the previous forecast's finished marker. */
  lemma BackgroundSafe(cfg: Config, all: set<Instance>, s: State, i: Instance, c: nat, d: Dir)
    requires Caused(cfg, all, s) && SeedsAllMembers(cfg) && First(cfg) <= c
    requires c >= 1 ==> At(Marker(Forecast, Finished), c - 1) in Started(s)
    requires IsBackground(cfg, c, d) && !Writes(cfg, i, d)
    ensures SafeFor(cfg, all, s, i, d)
  {
    if c >= 1 {
      ForecastDone(cfg, all, s, c - 1, d.member);
      DoneIsSafe(cfg, all, s, i, d);
    }
  }

  lemma PreviousEnsembleSafe(cfg: Config, all: set<Instance>, s: State, i: Instance, c: nat, d: Dir)
    requires Caused(cfg, all, s) && First(cfg) <= c
    requires c >= 1 && Ensembles(cfg) ==> At(Marker(EnsembleForecast, Finished), c - 1) in Started(s)
    requires IsPreviousEnsemble(cfg, c, d) && !Writes(cfg, i, d)
    ensures SafeFor(cfg, all, s, i, d)
  {
    if c >= 1 {
      EnsembleDone(cfg, all, s, c - 1, d.member);
      DoneIsSafe(cfg, all, s, i, d);
    }
  }

  lemma AnalysisSafe(cfg: Config, all: set<Instance>, s: State, i: Instance, c: nat, d: Dir)
    requires Caused(cfg, all, s) && cfg.suite == Cycle && First(cfg) <= c
    requires At(Marker(DA, Finished), c) in Started(s)
    requires IsAnalysis(cfg, c, d) && !Writes(cfg, i, d)
    ensures SafeFor(cfg, all, s, i, d)
  {
    AnalysisDone(cfg, all, s, c, d.member);
    DoneIsSafe(cfg, all, s, i, d);
  }

  /** What has finished once the analysis application of cycle c may start. */
  lemma BeforeAnalysis(cfg: Config, all: set<Instance>, s: State, c: nat)
    requires Caused(cfg, all, s) && cfg.suite == Cycle && First(cfg) <= c
    requires At(Marker(DA, Pre), c) in Started(s)
    ensures c >= 1 ==> At(Marker(Forecast, Finished), c - 1) in Started(s)
    ensures c >= 1 && Ensembles(cfg) ==> At(Marker(EnsembleForecast, Finished), c - 1) in Started(s)
  {
    if c >= 1 {
      Before(cfg, all, s, At(Marker(DA, Pre), c), At(Marker(Forecast, Finished), c - 1));
      if Ensembles(cfg) {
        Before(cfg, all, s, At(Marker(DA, Pre), c), At(Marker(EnsembleForecast, Finished), c - 1));
      }
    }
  }

  lemma AnalysisReads(cfg: Config, all: set<Instance>, s: State, i: Instance, d: Dir)
    requires Caused(cfg, all, s) && SeedsAllMembers(cfg) && i in Started(s)
    requires i.task.InitVariationals? || i.task.Variational?
    requires Reads(cfg, i, d)
    ensures SafeFor(cfg, all, s, i, d)
  {
    var c := i.cycle;
    assert Placed(cfg, i.task, c);
    if i.task.InitVariationals? {
      PhaseBefore(cfg, all, s, DA, Init, i.task, Marker(DA, Pre), c);
    } else {
      ExecBehind(cfg, all, s, DA, i.task, c);
    }
    BeforeAnalysis(cfg, all, s, c);
    if d.Observed? {
      Before(cfg, all, s, At(Marker(DA, Pre), c), At(PrepareObservations, c));
      PreparedIsSafe(cfg, all, s, i, At(PrepareObservations, c), d);
    } else if IsBackground(cfg, c, d) {
      BackgroundSafe(cfg, all, s, i, c, d);
    } else {
      PreviousEnsembleSafe(cfg, all, s, i, c, d);
    }
  }

  lemma RelaxReads(cfg: Config, all: set<Instance>, s: State, i: Instance, d: Dir)
    requires Caused(cfg, all, s) && SeedsAllMembers(cfg) && i in Started(s)
    requires i.task.RelaxToPrior? && Reads(cfg, i, d)
    ensures SafeFor(cfg, all, s, i, d)
  {
    var c := i.cycle;
    assert Placed(cfg, i.task, c);
    ExecBehind(cfg, all, s, RTPP, i.task, c);
    Before(cfg, all, s, At(Marker(RTPP, Pre), c), At(Marker(DA, Post), c));
    if IsBackground(cfg, c, d) {
      PhaseBefore(cfg, all, s, DA, Post, Marker(DA, Post), Holder(DA, Exec), c);
      ExecBehind(cfg, all, s, DA, Holder(DA, Exec), c);
      BeforeAnalysis(cfg, all, s, c);
      BackgroundSafe(cfg, all, s, i, c, d);
    } else {
      var v := At(Variational(d.member), c);
      PhaseBefore(cfg, all, s, DA, Post, Marker(DA, Post), v.task, c);
      assert Writes(cfg, v, d) && v != i;
      forall u | u in all && u != i && Writes(cfg, u, d) ensures u in s.succeeded {
        assert Placed(cfg, u.task, u.cycle);
        assert u == v;
      }
    }
  }

  /** Before the forecast: this cycle's analysis, or without DA the previous forecast. */
  lemma BeforeForecast(cfg: Config, all: set<Instance>, s: State, c: nat)
    requires Caused(cfg, all, s) && First(cfg) <= c
    requires At(Marker(Forecast, Pre), c) in Started(s)
    ensures cfg.suite == Cycle ==> At(Marker(DA, Finished), c) in Started(s)
    ensures cfg.suite == ForecastOnly && c >= 1 ==> At(Marker(Forecast, Finished), c - 1) in Started(s)
  {
    if cfg.suite == Cycle {
      Before(cfg, all, s, At(Marker(Forecast, Pre), c), At(Marker(DA, Finished), c));
    } else if c >= 1 {
      Before(cfg, all, s, At(Marker(Forecast, Pre), c), At(Marker(Forecast, Finished), c - 1));
    }
  }

  lemma ForecastReads(cfg: Config, all: set<Instance>, s: State, i: Instance, d: Dir)
    requires Caused(cfg, all, s) && SeedsAllMembers(cfg) && i in Started(s)
    requires (i.task.ForecastMember? || i.task.MeanBackground?) && Reads(cfg, i, d)
    ensures SafeFor(cfg, all, s, i, d)
  {
    var c := i.cycle;
    assert Placed(cfg, i.task, c);
    if i.task.MeanBackground? {
      if c >= 1 {
        Before(cfg, all, s, i, At(Marker(Forecast, Finished), c - 1));
      }
      BackgroundSafe(cfg, all, s, i, c, d);
    } else {
      ExecBehind(cfg, all, s, Forecast, i.task, c);
      BeforeForecast(cfg, all, s, c);
      if IsForcing(cfg, c, d) {
        ForcingSafe(cfg, all, s, i, At(Marker(Forecast, Pre), c), d);
      } else if cfg.suite == Cycle {
        AnalysisSafe(cfg, all, s, i, c, d);
      } else {
        BackgroundSafe(cfg, all, s, i, c, d);
      }
    }
  }

  lemma EnsembleReads(cfg: Config, all: set<Instance>, s: State, i: Instance, d: Dir)
    requires Valid(cfg) && Caused(cfg, all, s) && i in Started(s)
    requires (i.task.RecenterEnsemble? || i.task.EnsembleMember?) && Reads(cfg, i, d)
    ensures SafeFor(cfg, all, s, i, d)
  {
    var c := i.cycle;
    assert Placed(cfg, i.task, c);
    if i.task.RecenterEnsemble? {
      var pre := At(Marker(EnsembleForecast, Pre), c);
      PhaseBefore(cfg, all, s, EnsembleForecast, Init, i.task, pre.task, c);
      Before(cfg, all, s, pre, At(Marker(DA, Finished), c));
      if d == AN(c, 1) {
        AnalysisSafe(cfg, all, s, i, c, d);
      } else {
        if c >= 1 {
          Before(cfg, all, s, pre, At(Marker(EnsembleForecast, Finished), c - 1));
        }
        PreviousEnsembleSafe(cfg, all, s, i, c, d);
      }
    } else {
      var v := At(RecenterEnsemble, c);
      ExecBehind(cfg, all, s, EnsembleForecast, i.task, c);
      if d == External(c) {
        Before(cfg, all, s, At(Marker(EnsembleForecast, Pre), c), At(PrepareExternalAnalysis, c));
        PreparedIsSafe(cfg, all, s, i, At(PrepareExternalAnalysis, c), d);
        return;
      }
      assert InFamily(cfg, EnsembleForecast, Init, RecenterEnsemble);
      assert Writes(cfg, v, d);
      forall u | u in all && u != i && Writes(cfg, u, d) ensures u in s.succeeded {
        assert Placed(cfg, u.task, u.cycle);
        assert u == v;
      }
    }
  }

  lemma ExtendedReads(cfg: Config, all: set<Instance>, s: State, i: Instance, d: Dir)
    requires Valid(cfg) && Caused(cfg, all, s) && SeedsAllMembers(cfg) && i in Started(s) && First(cfg) <= i.cycle
    requires (i.task.MeanAnalysis? || i.task.ExtendedMeanFC? || i.task.ExtendedMember?) && Reads(cfg, i, d)
    requires cfg.suite == Cycle ==> SeaIsAwaited(cfg)
    ensures SafeFor(cfg, all, s, i, d)
  {
    var c := i.cycle;
    assert Placed(cfg, i.task, c);
    var pre := At(Marker(ExtendedForecast, Pre), c);
    if i.task.MeanAnalysis? {
      PhaseBefore(cfg, all, s, ExtendedForecast, Init, i.task, pre.task, c);
    } else {
      ExecBehind(cfg, all, s, ExtendedForecast, i.task, c);
    }
    if cfg.suite == ForecastOnly {
      Before(cfg, all, s, pre, At(Marker(Forecast, Finished), c));
      FinishedBehind(cfg, all, s, Forecast, c);
      BeforeForecast(cfg, all, s, c);
      if d == External(c) {
        ForcingSafe(cfg, all, s, i, At(Marker(Forecast, Pre), c), d);
      } else {
        BackgroundSafe(cfg, all, s, i, c, d);
      }
    } else {
      Before(cfg, all, s, pre, At(Marker(DA, Finished), c));
      if d == External(c) {
        Before(cfg, all, s, pre, At(PrepareExternalAnalysis, c));
        PreparedIsSafe(cfg, all, s, i, At(PrepareExternalAnalysis, c), d);
      } else if d.AN? {
        AnalysisSafe(cfg, all, s, i, c, d);
      } else {
        var v := At(MeanAnalysis, c);
        assert InFamily(cfg, ExtendedForecast, Init, MeanAnalysis);
        assert Writes(cfg, v, d);
        forall u | u in all && u != i && Writes(cfg, u, d) ensures u in s.succeeded {
          assert Placed(cfg, u.task, u.cycle);
          assert u == v;
        }
      }
    }
  }

  /** Without DA the extended forecasts follow the forecast, which waits for the external analysis; with
      DA they must wait for it themselves, or not be scheduled. */
  predicate SeaIsThere(cfg: Config) {
    cfg.suite == Cycle && !SeaIsAwaited(cfg) ==> forall c :: 0 <= c <= cfg.last ==> !OnExtended(cfg, c)
  }

  /** The seed covers all members, and no extended forecast is scheduled at the first point of a fresh
      run. */
  predicate StatesAreThere(cfg: Config) { SeedsAllMembers(cfg) && !(cfg.newRun && OnExtended(cfg, 0)) }

  /** The condition: every state and every external analysis is there for who reads it. */
  predicate Sound(cfg: Config) { StatesAreThere(cfg) && SeaIsThere(cfg) }

  /** A cold forecast finds what it starts from. */
  lemma SeedReads(cfg: Config, all: set<Instance>, s: State, i: Instance, d: Dir)
    requires Caused(cfg, all, s) && i in Started(s) && i.task.ColdForecast? && Reads(cfg, i, d)
    ensures SafeFor(cfg, all, s, i, d)
  {
    assert Placed(cfg, i.task, i.cycle);
    ForcingSafe(cfg, all, s, i, i, d);
  }

  lemma CausedReadsAreComplete(cfg: Config, all: set<Instance>, s: State)
    requires Valid(cfg) && Sound(cfg) && Caused(cfg, all, s) && (forall i :: i in all ==> i.cycle <= cfg.last)
    ensures ReadsComplete(cfg, all, s)
  {
    forall i, d | i in Started(s) && Reads(cfg, i, d) ensures SafeFor(cfg, all, s, i, d) {
      assert Placed(cfg, i.task, i.cycle);
      match i.task
      case InitVariationals => AnalysisReads(cfg, all, s, i, d);
      case Variational(_) => AnalysisReads(cfg, all, s, i, d);
      case RelaxToPrior => RelaxReads(cfg, all, s, i, d);
      case MeanBackground => ForecastReads(cfg, all, s, i, d);
      case ForecastMember(_) => ForecastReads(cfg, all, s, i, d);
      case ColdForecast(_) => SeedReads(cfg, all, s, i, d);
      case RecenterEnsemble => EnsembleReads(cfg, all, s, i, d);
      case EnsembleMember(_) => EnsembleReads(cfg, all, s, i, d);
      case MeanAnalysis => ExtendedReads(cfg, all, s, i, d);
      case ExtendedMeanFC => ExtendedReads(cfg, all, s, i, d);
      case ExtendedMember(_) => ExtendedReads(cfg, all, s, i, d);
      case _ =>
    }
  }

  /** Read-after-write: in every state of every run, with any interleaving, failures and retries,
      whatever has started reads only directories that finished instances wrote completely. */
  lemma ReadAfterWrite(cfg: Config, steps: seq<Step>)
    requires Valid(cfg) && Sound(cfg) && IsRun(WorkflowOf(cfg), steps)
    ensures ReadsComplete(cfg, Instances(WorkflowOf(cfg)), After(steps))
  {
    RunsAreCaused(cfg, steps);
    CausedReadsAreComplete(cfg, Instances(WorkflowOf(cfg)), After(steps));
  }

  // ---- the other direction ----

  /** A reader that reads a directory nobody has written when the condition fails. */
  function BadReader(cfg: Config): Instance {
    if !SeedsAllMembers(cfg) then
      if cfg.suite == Cycle then At(InitVariationals, 1) else At(ForecastMember(1), 1)
    else if cfg.extension.EnsembleTimes? then At(ExtendedMember(1), 0)
    else if cfg.suite == Cycle then At(MeanAnalysis, 0)
    else At(ExtendedMeanFC, 0)
  }

  function BadDir(cfg: Config): Dir {
    if !SeedsAllMembers(cfg) then FC(0, 1)
    else if cfg.suite == Cycle then AN(0, 1)
    else FC(-1, 1)
  }

  lemma BadReaderExists(cfg: Config)
    requires Valid(cfg) && !StatesAreThere(cfg) && cfg.last >= 1
    ensures BadReader(cfg) in Instances(WorkflowOf(cfg))
  {
    var i := BadReader(cfg);
    var f := if SeedsAllMembers(cfg) then ExtendedForecast else if cfg.suite == Cycle then DA else Forecast;
    var p := if i.task.InitVariationals? || i.task.MeanAnalysis? then Init else Exec;
    assert InFamily(cfg, f, p, i.task);
    InFamilyIsMembership(cfg, f, p, i.task);
    var e := Edge(PhaseName(f, Earlier(p)), 0, PhaseName(f, p));
    ChainIsInForce(cfg, f, i.cycle, e);
    DefinedBy(cfg, e, i.task, i.cycle);
  }

  lemma BadReadIsUnsafe(cfg: Config, all: set<Instance>, s: State)
    requires Valid(cfg) && !StatesAreThere(cfg) && Caused(cfg, all, s)
    ensures Reads(cfg, BadReader(cfg), BadDir(cfg))
    ensures !SafeFor(cfg, all, s, BadReader(cfg), BadDir(cfg))
  {
    forall v | v in all && Writes(cfg, v, BadDir(cfg)) ensures BadDir(cfg).cycle < 0 {
      assert Placed(cfg, v.task, v.cycle);
    }
  }

  ghost predicate ReadsCompleteAfter(cfg: Config, steps: seq<Step>)
    requires Valid(cfg)
  {
    ReadsComplete(cfg, Instances(WorkflowOf(cfg)), After(steps))
  }

  // ---- an extended forecast ahead of its external analysis ----

  /** The tasks of a cycle that an extended forecast needs when it does not wait for the sea. */
  predicate AheadOfSea(t: Task) {
    match t
    case Marker(f, p) => f == DA || f == RTPP || (f == ExtendedForecast && p == Pre)
    case Holder(f, p) => f == DA || f == RTPP || (f == ExtendedForecast && p == Init)
    case _ => t.PrepareObservations? || t.InitVariationals? || t.Variational? || t.RelaxToPrior? || t.MeanAnalysis?
  }

  ghost function Ahead(cfg: Config, c: nat): set<Instance>
    requires Valid(cfg)
  {
    set u | u in Instances(WorkflowOf(cfg)) && (u.cycle < c || (u.cycle == c && AheadOfSea(u.task)))
  }

  lemma NeedsOfAhead(cfg: Config, c: nat, i: Instance, j: Instance)
    requires Valid(cfg) && cfg.suite == Cycle && !SeaIsAwaited(cfg)
    requires i.cycle == c && AheadOfSea(i.task) && (ChainNeeds(cfg, i, j) || CrossNeeds(cfg, i, j))
    ensures j.cycle < c || (j.cycle == c && AheadOfSea(j.task))
  {
  }

  lemma AheadIsClosed(cfg: Config, c: nat)
    requires Valid(cfg) && cfg.suite == Cycle && !SeaIsAwaited(cfg)
    ensures Closed(WorkflowOf(cfg), Ahead(cfg, c))
  {
    var w := WorkflowOf(cfg);
    SuitesAreWellRanked(cfg);
    forall i, j | i in Ahead(cfg, c) && Waits(w, i, j)
      ensures j in Ahead(cfg, c)
    {
      InstancesAreTheDefinedOnes(w, i);
      InstancesAreTheDefinedOnes(w, j);
      WaitsAreNeeds(cfg, i, j);
      if i.cycle == c {
        NeedsOfAhead(cfg, c, i, j);
      }
    }
  }

  function SeaReader(cfg: Config, c: nat): Instance {
    At(if cfg.extension.MeanTimes? then ExtendedMeanFC else ExtendedMember(1), c)
  }

  lemma SeaReaderExists(cfg: Config, c: nat)
    requires Valid(cfg) && cfg.suite == Cycle && OnExtended(cfg, c) && c <= cfg.last
    ensures SeaReader(cfg, c) in Instances(WorkflowOf(cfg))
  {
    var i := SeaReader(cfg, c);
    assert InFamily(cfg, ExtendedForecast, Exec, i.task);
    InFamilyIsMembership(cfg, ExtendedForecast, Exec, i.task);
    var e := Edge(PhaseName(ExtendedForecast, Init), 0, PhaseName(ExtendedForecast, Exec));
    ChainIsInForce(cfg, ExtendedForecast, c, e);
    DefinedBy(cfg, e, i.task, c);
  }

  lemma NeedsOfSeaReader(cfg: Config, c: nat, j: Instance)
    requires ChainNeeds(cfg, SeaReader(cfg, c), j) || CrossNeeds(cfg, SeaReader(cfg, c), j)
    ensures j.cycle == c && AheadOfSea(j.task)
  {
  }

  lemma SeaReaderIsReady(cfg: Config, c: nat, s: State)
    requires Valid(cfg) && cfg.suite == Cycle && OnExtended(cfg, c) && c <= cfg.last
    requires s.running == {} && s.failed == {} && s.succeeded == Ahead(cfg, c)
    ensures Ready(WorkflowOf(cfg), s, SeaReader(cfg, c))
  {
    hide Instances, Waits, Defined, WorkflowOf, OnExtended, ChainNeeds, CrossNeeds;
    var w, i := WorkflowOf(cfg), SeaReader(cfg, c);
    SeaReaderExists(cfg, c);
    InstancesAreTheDefinedOnes(w, i);
    SuitesAreWellRanked(cfg);
    forall j | Waits(w, i, j)
      ensures j in s.succeeded
    {
      InstancesAreTheDefinedOnes(w, j);
      WaitsAreNeeds(cfg, i, j);
      NeedsOfSeaReader(cfg, c, j);
    }
  }

  lemma UnpreparedIsUnsafe(cfg: Config, c: nat, s: State)
    requires Valid(cfg) && SeaReader(cfg, c) in Started(s) && At(PrepareExternalAnalysis, c) !in s.succeeded
    requires SeaReader(cfg, c).task.ExtendedMember? || SeaReader(cfg, c).task.ExtendedMeanFC?
    ensures !ReadsComplete(cfg, Instances(WorkflowOf(cfg)), s)
  {
    hide Instances, WorkflowOf;
    var i := SeaReader(cfg, c);
    assert Reads(cfg, i, External(c));
    forall v | Writes(cfg, v, External(c)) ensures v == At(PrepareExternalAnalysis, c) {}
    assert !SafeFor(cfg, Instances(WorkflowOf(cfg)), s, i, External(c));
  }

  /** Everything the extended forecast waits for can be completed while its external analysis is put off. */
  lemma RunsAhead(cfg: Config, c: nat) returns (steps: seq<Step>)
    requires Valid(cfg) && cfg.suite == Cycle && !SeaIsAwaited(cfg)
    ensures FailureFree(WorkflowOf(cfg), steps)
    ensures After(steps).running == {} && After(steps).failed == {} && After(steps).succeeded == Ahead(cfg, c)
  {
    hide Instances, SuiteBlocks, Members, FailureFree, OnExtended, WellRanked, Closed, Ahead;
    SuitesAreWellRanked(cfg);
    AheadIsClosed(cfg, c);
    FreshIsFailureFree(WorkflowOf(cfg));
    steps := CompletesFirst(WorkflowOf(cfg), Rank, Ahead(cfg, c), []);
    StepsAreBounded(WorkflowOf(cfg), steps);
  }

  /** In a suite with DA an extended forecast that is not made to wait can start before the external
      analysis of its cycle, which it reads, is prepared. */
  lemma SeaIsOvertaken(cfg: Config, c: nat) returns (steps: seq<Step>)
    requires Valid(cfg) && cfg.suite == Cycle && !SeaIsAwaited(cfg) && OnExtended(cfg, c) && c <= cfg.last
    ensures FailureFree(WorkflowOf(cfg), steps) && !ReadsCompleteAfter(cfg, steps)
    ensures SeaReader(cfg, c) in After(steps).running && At(PrepareExternalAnalysis, c) !in Started(After(steps))
  {
    hide Instances, SuiteBlocks, Members, FailureFree, IsRun, OnExtended, Ready, ReadsComplete;
    var before := RunsAhead(cfg, c);
    SeaReaderIsReady(cfg, c, After(before));
    var start := Start(SeaReader(cfg, c));
    NoHolders(After(before));
    ExtendFailureFree(WorkflowOf(cfg), before, start);
    steps := before + [start];
    assert steps[..|before|] == before;
    UnpreparedIsUnsafe(cfg, c, After(steps));
  }

  lemma NoHolders(s: State)
    requires s.running == {}
    ensures |RunningHolders(s)| == 0
  {
    assert RunningHolders(s) == {};
  }

  lemma FreshIsFailureFree(w: Workflow)
    ensures FailureFree(w, [])
  {
  }

  /** When the condition fails, even a run in which nothing fails breaks read-after-write. */
  lemma UnsoundSuitesBreak(cfg: Config) returns (steps: seq<Step>)
    requires Valid(cfg) && cfg.last >= 1 && !Sound(cfg)
    ensures FailureFree(WorkflowOf(cfg), steps) && !ReadsCompleteAfter(cfg, steps)
  {
    if StatesAreThere(cfg) {
      var c: nat :| c <= cfg.last && OnExtended(cfg, c);
      steps := SeaIsOvertaken(cfg, c);
    } else {
      steps := SuitesComplete(cfg, []);
      var all, s := Instances(WorkflowOf(cfg)), After(steps);
      BadReaderExists(cfg);
      RunsAreCaused(cfg, steps);
      BadReadIsUnsafe(cfg, all, s);
      assert BadReader(cfg) in Started(s);
      assert Reads(cfg, BadReader(cfg), BadDir(cfg));
    }
  }

  /** Whatever the configuration, analyses find their observations, and cycled and cold forecasts find
      the external analysis and, where they are prepared by the workflow, the emissions. */
  lemma PreparationsComeFirst(cfg: Config, steps: seq<Step>, i: Instance)
    requires Valid(cfg) && IsRun(WorkflowOf(cfg), steps) && i in Started(After(steps))
    ensures i.task.InitVariationals? || i.task.Variational? ==>
      At(PrepareObservations, i.cycle) in After(steps).succeeded
    ensures i.task.ForecastMember? || i.task.ColdForecast? ==>
              && At(PrepareExternalAnalysis, i.cycle) in After(steps).succeeded
              && (cfg.emissions ==> At(PrepareEmissions, i.cycle) in After(steps).succeeded)
  {
    hide Caused;
    RunsAreCaused(cfg, steps);
    if i.task.InitVariationals? || i.task.Variational? {
      ObservationsFirst(cfg, Instances(WorkflowOf(cfg)), After(steps), i);
    } else if i.task.ForecastMember? || i.task.ColdForecast? {
      ForcingFirst(cfg, Instances(WorkflowOf(cfg)), After(steps), i);
    }
  }

  lemma ObservationsFirst(cfg: Config, all: set<Instance>, s: State, i: Instance)
    requires Caused(cfg, all, s) && i in Started(s) && (i.task.InitVariationals? || i.task.Variational?)
    ensures At(PrepareObservations, i.cycle) in s.succeeded
  {
    var c := i.cycle;
    assert Placed(cfg, i.task, c);
    if i.task.InitVariationals? {
      PhaseBefore(cfg, all, s, DA, Init, i.task, Marker(DA, Pre), c);
    } else {
      ExecBehind(cfg, all, s, DA, i.task, c);
    }
    Before(cfg, all, s, At(Marker(DA, Pre), c), At(PrepareObservations, c));
  }

  lemma ForcingFirst(cfg: Config, all: set<Instance>, s: State, i: Instance)
    requires Caused(cfg, all, s) && i in Started(s) && (i.task.ForecastMember? || i.task.ColdForecast?)
    ensures At(PrepareExternalAnalysis, i.cycle) in s.succeeded
    ensures cfg.emissions ==> At(PrepareEmissions, i.cycle) in s.succeeded
  {
    var c := i.cycle;
    assert Placed(cfg, i.task, c);
    if i.task.ForecastMember? {
      ExecBehind(cfg, all, s, Forecast, i.task, c);
    }
    var waits := if i.task.ColdForecast? then i else At(Marker(Forecast, Pre), c);
    Before(cfg, all, s, waits, At(PrepareExternalAnalysis, c));
    if cfg.emissions {
      Before(cfg, all, s, waits, At(PrepareEmissions, c));
    }
  }

  /** The suites keep read-after-write in every state of every run if and only if the condition
      holds. */
  lemma ReadAfterWriteIff(cfg: Config)
    requires Valid(cfg) && cfg.last >= 1
    ensures (forall steps :: IsRun(WorkflowOf(cfg), steps) ==> ReadsCompleteAfter(cfg, steps)) <==> Sound(cfg)
  {
    if Sound(cfg) {
      forall steps | IsRun(WorkflowOf(cfg), steps) ensures ReadsCompleteAfter(cfg, steps) {
        ReadAfterWrite(cfg, steps);
      }
    } else {
      var steps := UnsoundSuitesBreak(cfg);
    }
  }

  /** ColdForecast as it is shipped serves one member, and then the seed is complete: only the
      extended forecast schedule decides. */
  lemma ShippedColdForecastCondition(cfg: Config)
    requires Valid(cfg) && cfg.last >= 1 && (cfg.cold ==> cfg.maxMembers == 1)
    ensures SeedsAllMembers(cfg)
    ensures (forall steps :: IsRun(WorkflowOf(cfg), steps) ==> ReadsCompleteAfter(cfg, steps)) <==>
            !(cfg.newRun && OnExtended(cfg, 0)) && SeaIsThere(cfg)
  {
    ReadAfterWriteIff(cfg);
  }

  /** For a fresh cold start without such a schedule, all member counts the constructors accept are
      safe exactly when the resource is not declared to serve more than one. */
  lemma ColdStartIsSafeIffOneMemberServed(cfg: Config)
    requires Valid(cfg) && cfg.last >= 1 && cfg.newRun && cfg.cold && cfg.extension.NoExtension?
    ensures (forall n :: Valid(cfg.(n := n)) ==> Sound(cfg.(n := n))) <==> cfg.maxMembers == 1
    ensures cfg.maxMembers > 1 ==>
              exists n :: Valid(cfg.(n := n)) &&
                exists steps :: FailureFree(WorkflowOf(cfg.(n := n)), steps) && !ReadsCompleteAfter(cfg.(n := n), steps)
  {
    if cfg.maxMembers > 1 {
      var two := cfg.(n := 2);
      assert Valid(two) && !Sound(two);
      var steps := UnsoundSuitesBreak(two);
    }
  }

  /** A user who lets ColdForecast serve more members, and uses two or more of them, gets a run without
      failures in which the first analysis, or without DA the first forecast, reads a background that
      nobody writes. */
  lemma TwoColdMembersBreak(cfg: Config) returns (steps: seq<Step>)
    requires Valid(cfg) && cfg.last >= 1 && cfg.newRun && cfg.cold && cfg.n >= 2
    ensures FailureFree(WorkflowOf(cfg), steps)
    ensures
      var reader := if cfg.suite == Cycle then At(InitVariationals, 1) else At(ForecastMember(1), 1);
      && reader in Started(After(steps)) && Reads(cfg, reader, FC(0, 1))
      && forall v :: v in Instances(WorkflowOf(cfg)) ==> !Writes(cfg, v, FC(0, 1))
  {
    steps := SuitesComplete(cfg, []);
    BadReaderExists(cfg);
    RunsAreCaused(cfg, steps);
    BadReadIsUnsafe(cfg, Instances(WorkflowOf(cfg)), After(steps));
    forall v | v in Instances(WorkflowOf(cfg))
      ensures !Writes(cfg, v, FC(0, 1))
    {
      assert Placed(cfg, v.task, v.cycle);
    }
  }

  /** In a forecast-only suite the initial point is left out by the suite itself, so the only
      schedules that break are fresh runs whose times carry an exclusion list of their own that
      does not name the initial point. A restart needs no exclusion and keeps its first sample. */
  lemma ForecastOnlyCondition(cfg: Config)
    requires Valid(cfg) && cfg.suite == ForecastOnly && SeedsAllMembers(cfg)
    ensures Sound(cfg) <==>
            !(cfg.newRun && Extends(cfg) && cfg.slot0 % WINDOWS_PER_DAY in cfg.extension.times.slots
              && cfg.extension.times.excluded != {} && 0 !in cfg.extension.times.excluded)
    ensures !cfg.newRun && Extends(cfg) && cfg.slot0 % WINDOWS_PER_DAY in cfg.extension.times.slots
            && 0 !in cfg.extension.times.excluded
            ==> Sound(cfg) && At(Marker(ExtendedForecast, Pre), 0) in Instances(WorkflowOf(cfg))
  {
    if !cfg.newRun && OnExtended(cfg, 0) {
      var e := FullChain(ExtendedForecast)[0];
      ChainIsInForce(cfg, ExtendedForecast, 0, e);
      DefinedBy(cfg, e, Marker(ExtendedForecast, Pre), 0);
    }
  }

  /** In a cycling suite with DA nothing leaves the initial point out, so a fresh run whose
      extended forecast times include it breaks unless the user excludes it; nor do extended forecasts
      wait for the external analysis unless they are mean forecasts with the surface update on. */
  lemma CycleCondition(cfg: Config)
    requires Valid(cfg) && cfg.suite == Cycle && SeedsAllMembers(cfg)
    ensures Sound(cfg) <==>
            !(cfg.newRun && Extends(cfg) && cfg.slot0 % WINDOWS_PER_DAY in cfg.extension.times.slots
              && 0 !in cfg.extension.times.excluded)
            && (SeaIsAwaited(cfg) || forall c :: 0 <= c <= cfg.last ==> !OnExtended(cfg, c))
  {
  }
}
