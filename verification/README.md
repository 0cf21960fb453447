# Verified model of MPAS-Workflow

Cylc runs the cycling suites of MPAS-Workflow with tasks of many cycles at once, and nothing but the
edges that `initialize/` writes into the graph keeps a task from stalling or from reading a directory
that is not finished. The forecasts in turn read emissions and bias coefficients that `tools/` and
`VarBC_offline_stats/` compute in streaming loops over caches and shared files. The modules here model
the graph and its runs, and the remapping, time bracketing, caching, regression and fire aggregation,
and prove their correctness for every configuration, every input and every run.

`dafny verify dfyconfig.toml` checks everything.

## The modules

| part | modules |
|---|---|
| cycling graph | `CylcGraph` (sections, edges, `TaskFamily`), `CylcRun` (scheduler as a state machine), `CycleSuites` (the exports of each application and the two suites), `CycleTheorems`, `CycleData`, `CycleSafety` |
| remapping | `SparseWeights`, `Conservation`, `CamsSectors` |
| time axis and inventory loop | `TimeAxis`, `TimeBrackets`, `LruCache`, `BracketLoop`, `InventoryLoop`, `InventoryTheorems`, `FillTimes` |
| mesh | `MeshTopology`, `MeshTheorems`, `Containment` |
| shared files | `Downloads`, `Packages`, `WeightCache` |
| bias correction | `ObsoutReader`, `LeastSquares`, `ChannelCost`, `BiasCorrection` |
| fire emissions | `FireProperties`, `FireDays`, `FireEmissions`, `FireRun` |
| common | `Outcome`, `Permutations`, `Reals`, `Vectors`, `Statistics` |

Each suite, class or loop of the source that changes state is a class or a loop here, proved
against a specification function; the theorems are about those functions. Quantities are reals and
times are integers, so rounding plays no part.

## Assumptions

- Cylc: the prerequisites of a task are all required; an offset before the initial point counts as
  satisfied; `:succeed-all` waits for every member of a family; an instance exists at a cycle point
  when an edge in force there names the task as a target or as a source without offset. The last
  rule is what makes both comments in the source true: an offset to an instance that has no
  definition stalls its waiter (initialize/applications/EnsembleForecast.py:226-228), and a task
  with no edge into it at a point runs there at once
  (initialize/suites/ForecastOnlyCycle.py:147-149).
- A graph line is an edge, and two lines are the same when they are equal; the source compares text.
- Preparation of observations, of external analyses and of emissions is one task each.
- A restart finds the cycle before its first point complete on disk.
- `curl` exits with success only after a complete transfer; a temporary name, once used, is not
  handed out again (what happens otherwise is `Downloads.RecurringNameLosesAFile`).
- `flock` is exclusive and is released when its holder ends; a directory rename is atomic; each
  process hashes its inputs in one step.
- Calls that share a weight cache follow one another, and none is cut short between generating and
  stamping a file.
- The pseudo-inverse of a diagonal of prior variances inverts the nonzero ones; that of the Hessian is
  a true inverse where a minimum is claimed. Observation errors are nonzero.
- A cached download that is not empty when the processes start is complete; an empty one may be there.
- Nearest-cell search, trigonometry and the generation of weights are inputs of the model.

## What the proofs found

- initialize/data/FirstBackground.py:123 appends the cold forecast task after its loop, so a fresh
  cold start with more than one member seeds only the last one, and the first analysis or forecast
  reads directories nobody wrote (`CycleSafety.ReadAfterWriteIff`). The one cold resource that is
  shipped keeps `maxMembers: 1`, which lines 59-61 of the same file enforce, and is safe
  (`CycleSafety.ShippedColdForecastCondition`); a user who raises it to two runs into the gap
  (`CycleSafety.TwoColdMembersBreak`, `CycleSafety.ColdStartIsSafeIffOneMemberServed`).
- Extended forecasts pass the surface update as on whatever their option says
  (initialize/applications/ExtendedForecast.py:245,265), so they read the external analysis of their own
  cycle, but wait for it only from a mean with the option on. After an analysis, nothing else orders the
  two, and the forecast can start first (`CycleSafety.SeaIsOvertaken`, `CycleSafety.CycleCondition`).
- The cycling suite with DA does not leave out the first cycle point of a fresh run, so extended
  forecast times that include it read an analysis that is not there (`CycleSafety.CycleCondition`).
  The forecast-only suite does, unless the user's times already contain an exclusion
  (initialize/suites/ForecastOnlyCycle.py:173; `CycleSafety.ForecastOnlyCondition`).
- The counter of held or nearest records never moves, because an earlier branch has the same
  condition (tools/mpas_emissions/regular_inventory.py:468-469; `InventoryLoop.HeldIsNeverCounted`).
- Without a backend that writes attributes, two grids or meshes whose cache file names collide share
  the first one's weights (`WeightCache.UnstampedCollisionIsWrong`); exactly when a call gets its own
  weights is `WeightCache.RightAfterAnyHistory`.
- A cell of an asymmetric `cellsOnCell` can be kept with no neighbours
  (`MeshTheorems.AsymmetricCellIsStranded`). No choice of participating cells does that exactly when
  every link to a later cell is returned or has an end that lists itself
  (`MeshTheorems.NeverStrandsIff`).
- A cell whose centre lies on the plane of exactly one edge of nonzero length accepts different points in
  the two vertex orders (`Containment.LoneEdgePlaneMatters`); edges without length do no harm
  (`Containment.ReversalIsIrrelevant`). `Containment.OrderMattersIff` says when in general.
- A CAMS sector key that matches only after normalisation scales its sector but not the sum; a factor or
  an exclusion under the key `sum` changes the sum but no sector
  (`CamsSectors.SumAsKeyBreaksTheSum`). `CamsSectors.ConsistentIffSpelledAsInFile` is the exact
  condition.
- A day forced to the fallback still serves as an end of its neighbours' interpolation
  (`FireDays.ForcedDayStillBrackets`).

## Model

| member | source | states |
|---|---|---|
| `CylcGraph.TaskFamily.UpdateDependencies` | initialize/config/TaskFamily.py:121-141 | the parent's lines stay, then come the family's own edges, then exactly the phase edges the parent lacks |
| `CylcGraph.TaskFamily.AddDependencies` | initialize/config/TaskFamily.py:71-76 | edges into the first phase are appended unless already there |
| `CylcGraph.TaskFamily.AddFollowons` | initialize/config/TaskFamily.py:78-83 | edges out of the last phase are appended unless already there |
| `CylcGraph.ExtendedIsSetUnion` | initialize/config/TaskFamily.py:71-83 | earlier edges keep their place, exactly the named ones are added, none is duplicated |
| `CylcGraph.ExtendedIdempotent` | initialize/config/TaskFamily.py:71-83 | adding the same dependencies twice changes nothing |
| `CylcGraph.ParseRender` | initialize/suites/SuiteBase.py:116-119 | sections joined line by line are read back as the same sections |
| `CycleSuites.RTPPComponent.Export` | initialize/applications/RTPP.py:103-114 | when active, RTPP's chain is inserted between the two given markers, else nothing is written |
| `CycleSuites.DAComponent.Export` | initialize/applications/DA.py:160-189 | the analysis section: previous forecast, observations, optional RTPP before the finished marker, phase chain |
| `CycleSuites.ForecastComponent.Export` | initialize/applications/Forecast.py:217-278 | the forecast section: waits for the analysis, or for the previous forecast when there is no DA |
| `CycleSuites.EnsembleForecastComponent.Export` | initialize/applications/EnsembleForecast.py:204-279 | recentring and member sections, the R1 seed signal and the extra edge into the analysis |
| `CycleSuites.ExtendedForecastComponent.Export` | initialize/applications/ExtendedForecast.py:364-431 | the extended forecast section for mean or for ensemble times |
| `CycleSuites.BuildCycle` | initialize/suites/Cycle.py:91-127 | the exports in their order write exactly the sections of the cycling suite |
| `CycleSuites.BuildForecastOnly` | initialize/suites/ForecastOnlyCycle.py:167-220 | the exports write exactly the sections of the forecast-only suite |
| `CycleTheorems.ArrowsAreTheGraph` | initialize/suites/SuiteBase.py:116-119 | the edges in force at a cycle point are exactly those each application means to have there |
| `CycleData.InstancesAreScheduled` | initialize/framework/Workflow.py:100-116 | exactly which tasks exist at which cycle points, in terms of the configuration alone |
| `CycleData.WaitsAreNeeds` | initialize/applications/DA.py:168-189 | an instance waits for exactly the phase before it in its family and for what its application needs across families, cycles and preparations: nothing is missing in the graph and nothing is too much |
| `CylcRun.RunsAreOrdered` | initialize/suites/SuiteBase.py:162-171 | in every reachable state, what has started has only succeeded prerequisites and each instance has one status |
| `CylcRun.NoStall` | initialize/suites/SuiteBase.py:162-171 | a workflow whose edges descend in (cycle, rank) always has a startable or running instance |
| `CylcRun.StepsAreBounded` | initialize/suites/SuiteBase.py:162-171 | each start and success uses up one unit of a measure, so failure-free runs are bounded |
| `CylcRun.RunsComplete` | initialize/suites/SuiteBase.py:162-171 | every failure-free run extends to one with all instances succeeded, in two steps each |
| `CycleTheorems.EdgesDescend` | initialize/applications/EnsembleForecast.py:217-279 | every edge rises in rank within its cycle or goes back one window to a finished marker |
| `CycleTheorems.FinishedSignalExists` | initialize/data/FirstBackground.py:87-172 | the finished marker an edge into the previous cycle needs is always defined, by the R1 seed if need be |
| `CycleTheorems.SuitesAreWellRanked` | initialize/applications/DA.py:168-189 | both suites satisfy the descent condition for any cycles, members and options |
| `CycleTheorems.SuitesNeverStall` | initialize/applications/EnsembleForecast.py:225-230 | no reachable unfinished state of either suite without failures is stuck, for any runahead window of at least one |
| `CycleTheorems.SuitesStayInWindow` | initialize/suites/SuiteBase.py:162-171 | in every run, what has started is less than the active limit ahead of anything unfinished, and no more placeholders run than their queue holds |
| `CycleTheorems.SuitesComplete` | initialize/suites/Cycle.py:91-127 | every failure-free run of either suite can be completed |
| `CycleTheorems.WithoutSeedTheFirstAnalysisNeverStarts` | initialize/data/FirstBackground.py:142-172 | without the R1 seed the first analysis starts in no run |
| `CycleData.RunsAreCaused` | initialize/config/TaskFamily.py:121-141 | in every run, whatever started had its phase and cross-application prerequisites finished |
| `CycleSafety.PreparationsComeFirst` | initialize/applications/DA.py:171-173 | in every run, a started analysis task has its observations, and a started cycled or cold forecast its external analysis and, where the workflow prepares them, its emissions |
| `CycleSafety.ReadAfterWrite` | initialize/applications/Forecast.py:165-194 | under the condition, every started task reads only directories that finished tasks wrote completely |
| `CycleSafety.UnsoundSuitesBreak` | initialize/data/FirstBackground.py:102-126 | outside the condition a run without failures reads a directory nobody wrote |
| `CycleSafety.ReadAfterWriteIff` | initialize/applications/EnsembleForecast.py:229-279 | read-after-write, preparations included, holds in all runs exactly when the seed covers all members, no extended forecast starts at the first point of a fresh run, and extended forecasts after an analysis wait for their external analysis |
| `CycleSafety.SeaIsOvertaken` | initialize/applications/ExtendedForecast.py:376-379 | the failing schedule: an extended forecast that is not made to wait starts before the external analysis it reads is prepared |
| `CycleSafety.ShippedColdForecastCondition` | initialize/data/FirstBackground.py:58-61 | where a cold forecast serves one member, the extended forecast schedule alone decides read-after-write |
| `CycleSafety.ColdStartIsSafeIffOneMemberServed` | initialize/data/FirstBackground.py:58-126 | all member counts the constructors accept are safe exactly when the cold resource serves one; else some count has a failure-free run that breaks |
| `CycleSafety.TwoColdMembersBreak` | initialize/data/FirstBackground.py:102-126 | with two or more members a fresh cold start reads, in a run without failures, a first background that no task writes |
| `CycleSafety.ForecastOnlyCondition` | initialize/suites/ForecastOnlyCycle.py:141-174 | the exclusion of the first point is what a fresh run needs and a restart does not |
| `CycleSafety.CycleCondition` | initialize/applications/ExtendedForecast.py:364-383 | with DA, in terms of the configuration: the first point of a fresh run is not scheduled, and the surface update is waited for or nothing is scheduled |
| `SparseWeights.OpensIffUsable` | tools/mpas_emissions/sparse_weights.py:65-118 | a weight file opens exactly when its indices fit, required cells are covered and covered rows sum to one; the result is the file's own matrix |
| `SparseWeights.Apply` | tools/mpas_emissions/sparse_weights.py:124-146 | any positive chunk length gives the mapping applied once; wrong sizes and nonpositive chunks are errors |
| `SparseWeights.ProductIsScatter` | tools/mpas_emissions/sparse_weights.py:141-145 | scatter-add computes the matrix-vector product |
| `SparseWeights.ApplyIgnoresLinkOrder` | tools/mpas_emissions/sparse_weights.py:1-11 | the result does not depend on the order of the links |
| `SparseWeights.ProductAdds` | tools/mpas_emissions/sparse_weights.py:130-146 | the mapping is additive |
| `SparseWeights.ProductScales` | tools/mpas_emissions/sparse_weights.py:130-146 | the mapping is homogeneous |
| `SparseWeights.Adjoint` | tools/mpas_emissions/validate_weights.py:118-131 | area times mapped field, summed over cells, equals implied source area times field |
| `Conservation.OpenedRowsNearOne` | tools/mpas_emissions/sparse_weights.py:96-109 | a file that opens has the unit rows the next two rely on |
| `Conservation.ConstantsSurvive` | tools/mpas_emissions/sparse_weights.py:105-109 | a constant arrives within the row tolerance times its size |
| `Conservation.AreaDifferenceIsBounded` | tools/mpas_emissions/validate_weights.py:118-131 | the reported area difference is at most the row tolerance times the total area |
| `Conservation.ConservesIffColumnsMatch` | tools/mpas_emissions/validate_weights.py:122-131 | every field's integral is conserved exactly when the column areas are the source areas |
| `TimeAxis.MakeSchedule` | tools/mpas_emissions/time_axis.py:39-49 | all multiples of the step from start up to end, and no more |
| `TimeAxis.BisectLeft` | tools/mpas_emissions/time_axis.py:95-95 | the first position whose time is not earlier |
| `TimeAxis.Index` | tools/mpas_emissions/time_axis.py:84-88 | one record per time or day, and an error exactly when one repeats |
| `TimeAxis.ResolveBrackets` | tools/mpas_emissions/time_axis.py:66-134 | the loop serves every target as specified and stops at the first that cannot be served |
| `TimeAxis.ResolveCalendarDayBrackets` | tools/mpas_emissions/time_axis.py:137-214 | the day loop, with its own lookup, serves every target as specified on the day axis |
| `TimeBrackets.ServedIff` | tools/mpas_emissions/time_axis.py:95-127 | a target is served exactly when it has a record, lies in a short enough gap, or extrapolation is on |
| `TimeBrackets.LinearReproducesTarget` | tools/mpas_emissions/time_axis.py:120-126 | positions: neighbours with none between, weight strictly inside, and the weighted times give the target |
| `TimeBrackets.EveryBracketAnswers` | tools/mpas_emissions/time_axis.py:66-134 | every bracket returned, instant or daily, told by the records alone: its own record; at the ends the outermost; linear weights that reproduce the target from its neighbours; the globally closest record; the latest earlier one |
| `TimeBrackets.ResolvesIff` | tools/mpas_emissions/time_axis.py:66-134 | a call succeeds exactly for a known method, distinct times and targets on a record, beyond them with extrapolation, or in a gap short enough |
| `TimeBrackets.CalendarResolvesIff` | tools/mpas_emissions/time_axis.py:137-214 | the same for days, with the limit in days and none or zero for no limit |
| `TimeBrackets.NearestIsClosest` | tools/mpas_emissions/time_axis.py:127-131 | no record is closer, and ties go to the earlier one |
| `TimeBrackets.HoldIsLatestEarlier` | tools/mpas_emissions/time_axis.py:132-133 | the latest record not after the target |
| `TimeBrackets.SucceedsIffAllServed` | tools/mpas_emissions/time_axis.py:94-134 | a call succeeds exactly when each target can be served |
| `TimeBrackets.RecordOrderIsIrrelevant` | tools/mpas_emissions/time_axis.py:84-93 | the order of the records never matters |
| `TimeBrackets.CalendarIsInstantOnDays` | tools/mpas_emissions/time_axis.py:146-156 | the day resolver is the instant resolver on day-floored records and targets |
| `TimeBrackets.HoursShareTheirDay` | tools/mpas_emissions/time_axis.py:147-150 | all hours of a day share one bracket |
| `LruCache.NothingMissedTwice` | tools/mpas_emissions/regular_inventory.py:435-451 | if every reuse is within the capacity the cache behaves as an unbounded one |
| `LruCache.Thrashes` | tools/mpas_emissions/regular_inventory.py:449-450 | if every reuse is one beyond the capacity every access misses |
| `BracketLoop.EachRemappedOnce` | tools/mpas_emissions/regular_inventory.py:466-479 | brackets that move forward need two entries per field, no more |
| `BracketLoop.OneLessThrashes` | tools/mpas_emissions/regular_inventory.py:450-450 | with one entry less, two equal brackets remap everything twice |
| `InventoryLoop.OrderedCache.Store` | tools/mpas_emissions/regular_inventory.py:449-450 | a new entry becomes the newest and the oldest are dropped down to the capacity |
| `InventoryLoop.OrderedCache.Reuse` | tools/mpas_emissions/regular_inventory.py:436-438 | a hit becomes the newest entry and keeps its value |
| `InventoryLoop.Remapper.Remapped` | tools/mpas_emissions/regular_inventory.py:435-451 | whatever is cached, the answer is the key's own image or its own error |
| `InventoryLoop.Process` | tools/mpas_emissions/regular_inventory.py:432-479 | the cached, chunked loop writes what the loop without cache and chunks writes, fails where it fails, and reads the source on cache misses only |
| `InventoryLoop.HeldIsNeverCounted` | tools/mpas_emissions/regular_inventory.py:468-472 | the held-or-nearest counter stays zero and the other two cover all targets |
| `InventoryLoop.ExactCountsSingles` | tools/mpas_emissions/regular_inventory.py:466-467 | the exact counter is the number of targets that one record serves alone |
| `InventoryLoop.LargestGapIsAGap` | tools/mpas_emissions/regular_inventory.py:470-472 | the largest gap reported is that of an interpolated target |
| `InventoryTheorems.ServedAdvance` | tools/mpas_emissions/regular_inventory.py:399-411 | time-ordered targets give brackets that are one record or two neighbours and never move back |
| `InventoryTheorems.EachPairReadOnce` | tools/mpas_emissions/regular_inventory.py:432-479 | a product reads and remaps each (record, field) pair exactly once |
| `InventoryTheorems.ValueIsMappedSource` | tools/mpas_emissions/regular_inventory.py:473-478 | remapping and time interpolation commute |
| `InventoryTheorems.EveryFieldIsMappedSource` | tools/mpas_emissions/regular_inventory.py:466-479 | every written field is the matrix times the source field at that time |
| `InventoryTheorems.LinearSourceIsReproduced` | tools/mpas_emissions/regular_inventory.py:399-479 | from records to output: a source linear in time is written as the mapped value at the target time |
| `InventoryTheorems.LoopSucceedsIff` | tools/mpas_emissions/regular_inventory.py:435-451 | the loop succeeds exactly when chunks are positive and every record it needs has the source size and arrives within the tolerance |
| `InventoryTheorems.CacheIsBounded` | tools/mpas_emissions/regular_inventory.py:449-450 | the cache never holds more than four fields or two for each field of the product |
| `InventoryTheorems.RecordCheckSufficesIffSameSign` | tools/mpas_emissions/regular_inventory.py:445-448 | checking each record covers every interpolated one exactly when the two integrals have the same sign |
| `InventoryTheorems.WrittenFieldIsConserved` | tools/mpas_emissions/regular_inventory.py:445-478 | every written field conserves its own source integral within the tolerance |
| `InventoryTheorems.CheckPassesIffColumnsNear` | tools/mpas_emissions/regular_inventory.py:445-448 | the check passes for all nonnegative fields exactly when every column area is within tolerance |
| `FillTimes.Fill` | tools/mpas_emissions/fill_times.py:27-53 | the second loop fills every target and, for ordered targets, reads each (record, field) pair once |
| `FillTimes.KnownTimesAreCopied` | tools/mpas_emissions/fill_times.py:45-49 | a target that is a time of the file gets that record |
| `FillTimes.LinearFieldIsReproduced` | tools/mpas_emissions/fill_times.py:45-50 | a field linear in time is filled in with its value at the target |
| `MeshTopology.Build` | tools/mpas_emissions/mesh.py:188-235 | after the three in-place passes each row is its own entries that are kept, padded with -1, with its count; dropped rows are empty |
| `MeshTheorems.MaskedKeepsOrder` | tools/mpas_emissions/mesh.py:227-233 | a row is a subsequence of the raw row |
| `MeshTheorems.ListedAreKept` | tools/mpas_emissions/mesh.py:194-199 | a kept cell lists exactly its kept in-range entries |
| `MeshTheorems.FullNeighbourhood` | tools/mpas_emissions/mesh.py:204-211 | with full neighbourhoods required a cell starts out kept exactly when every edge has an existing, participating neighbour |
| `MeshTheorems.TableIsSymmetric` | tools/mpas_emissions/mesh.py:216-233 | for a symmetric mesh the table is symmetric and every kept cell has a neighbour |
| `MeshTheorems.VisitingOrderIsIrrelevant` | tools/mpas_emissions/mesh.py:216-225 | for a symmetric mesh the kept set does not depend on the visiting order |
| `MeshTheorems.ThirdPassChangesNothing` | tools/mpas_emissions/mesh.py:227-233 | for a symmetric mesh the third pass removes nothing |
| `MeshTheorems.AsymmetricCellIsStranded` | tools/mpas_emissions/mesh.py:216-233 | an asymmetric mesh with a kept cell without neighbours |
| `MeshTheorems.NeverStrandsIff` | tools/mpas_emissions/mesh.py:194-233 | for any mesh: no boundary mask and no option leaves a kept cell without neighbours exactly when every link to a later cell is returned or has an end that lists itself |
| `Containment.PointsInsideCells` | tools/mpas_emissions/mesh.py:286-318 | each point's verdict depends on its own cell alone; bad ids and degenerate polygons give false |
| `Containment.NamedInOrder` | tools/mpas_emissions/mesh.py:303-306 | the polygon has the vertices its row names, in order, entries that name none left out |
| `Containment.PolygonOfCell` | tools/mpas_emissions/mesh.py:302-307 | a cell whose numbers are all valid has exactly those vertices |
| `Containment.InsideIffOnCentersSide` | tools/mpas_emissions/mesh.py:308-316 | a point is inside exactly when for every edge its determinant is on the side of the centre, or beyond by no more than the tolerance |
| `Containment.CenterIsInside` | tools/mpas_emissions/mesh.py:310-316 | a cell centre is inside its cell |
| `Containment.AcceptedFormACone` | tools/mpas_emissions/mesh.py:315-316 | at zero tolerance accepted directions are closed under nonnegative combination |
| `Containment.RotationIsIrrelevant` | tools/mpas_emissions/mesh.py:307-309 | starting from another vertex never changes the verdict |
| `Containment.ReversedVerdict` | tools/mpas_emissions/mesh.py:282-284 | the verdict for the reversed order in terms of the original edges |
| `Containment.ReversalIsIrrelevant` | tools/mpas_emissions/mesh.py:282-284 | both orders agree, at any tolerance, when only edges without length have the centre on their plane |
| `Containment.OrderMattersIff` | tools/mpas_emissions/mesh.py:313-316 | at zero tolerance the orders accept different points exactly when some direction is on one side of all edge planes through the centre |
| `Containment.LoneEdgePlaneMatters` | tools/mpas_emissions/mesh.py:313-314 | a single such edge of some length always makes them differ |
| `Containment.CenterOnPlaneBreaksReversal` | tools/mpas_emissions/mesh.py:313-314 | a triangle and a point for which they do |
| `Downloads.RunsAreSafe` | tools/mpas_inputs/resource.py:28-53 | in every reachable state temporary files have one owner and cached files are complete downloads of their own artifact, or empty as they were found |
| `Downloads.StepTouchesOnlyItsOwn` | tools/mpas_inputs/resource.py:37-41 | a step leaves other processes' temporary files and other artifacts alone |
| `Downloads.ReturnedPathsAreComplete` | tools/mpas_inputs/resource.py:30-48 | a path returned from the cache or a download is complete then and ever after |
| `Downloads.LookingPrefersWhatIsThere` | tools/mpas_inputs/resource.py:21-32 | the first local file is returned, else a cached file that is not empty, else the network is tried; looking changes no file |
| `Downloads.CandidatesInTurn` | tools/mpas_inputs/resource.py:33-53 | addresses are tried in order, none is passed over, and an error is raised only after all were skipped as unset or given up |
| `Downloads.NeverStuck` | tools/mpas_inputs/resource.py:21-53 | a process that has not ended can always go on without another one, and raises when no address is left |
| `Downloads.RecurringNameLosesAFile` | tools/mpas_inputs/resource.py:51-52 | a run in which cleanup removes another process's file because a freed name was handed out again |
| `Packages.OneInSection` | tools/prepare_prm_support.py:110-117 | at most one process is past the lock |
| `Packages.OnwardStep` | tools/prepare_prm_support.py:68-104 | where each process past the lock can go: sign when its inputs are there, publish when the place is free |
| `Packages.NeverDeadlocked` | tools/prepare_prm_support.py:110-117 | while some process has not ended, the holder of the lock, or with the lock free one that waits, can go on |
| `Packages.PublishedNeverChanges` | tools/prepare_prm_support.py:69-77 | once a package is published, every later state of a run without tampering has the very same one |
| `Packages.ReturnMeansAgreement` | tools/prepare_prm_support.py:70-105 | when a process returns, after reuse or after its own build, the package has a receipt of what it signed and of the files that are there |
| `Packages.SignedContents` | tools/prepare_prm_support.py:68-68 | a signature holds, for exactly the wanted inputs, the hashes of their contents at the moment of signing |
| `Packages.ReturnedPackageIsCurrent` | tools/prepare_prm_support.py:68-105 | at a return the receipt lists the files that are there and the inputs as signed; and as they are now if none was edited since |
| `Packages.StalePackageIsRejected` | tools/prepare_prm_support.py:70-74 | a package built from other contents, or whose files changed, is never reused: the process can only raise |
| `Packages.SuccessMeansAgreement` | tools/prepare_prm_support.py:103-105 | over whole runs, with inputs edited at any time, every successful process signed what the receipt lists |
| `Packages.SuccessesSignedTheSame` | tools/prepare_prm_support.py:71-75 | all successful processes of one package signed the same inputs |
| `WeightCache.Cache.Weights` | tools/mpas_emissions/regular_inventory.py:275-300 | the files after a call and what the call works with |
| `WeightCache.RightAfterAnyHistory` | tools/mpas_emissions/cache_paths.py:127-144 | after any calls, a call gets its own weights exactly when the file of that name is new, stamped, or built for the same fingerprints |
| `WeightCache.StampedCacheIsAlwaysRight` | tools/mpas_emissions/cache_paths.py:18-24 | with stamping, every call gets its own weights, whatever names collide |
| `WeightCache.UnstampedCollisionIsWrong` | tools/mpas_emissions/cache_paths.py:99-110 | without it, a colliding second call does not |
| `WeightCache.SuppliedIffConsistent` | tools/mpas_emissions/cache_paths.py:147-165 | a supplied file is refused exactly when one of its stamps names another grid or mesh |
| `WeightCache.DefaultMeshNamesDiffer` | tools/mpas_emissions/cache_paths.py:47-57 | meshes without a name of their own share a file name only with as many cells |
| `ObsoutReader.Reader.AddFile` | VarBC_offline_stats/mpas_jedi_satbias_estimator.py:112-118 | appends each group's quality-controlled column, group by group and channel by channel |
| `ObsoutReader.ListsAreEntries` | VarBC_offline_stats/mpas_jedi_satbias_estimator.py:53-69 | after any files each list is exactly the group's quality-controlled entries |
| `ObsoutReader.ListsAreAligned` | VarBC_offline_stats/mpas_jedi_satbias_estimator.py:53-69 | entry k of every group comes from the same file and location, which passed quality control |
| `ObsoutReader.SelectedIffPassed` | VarBC_offline_stats/mpas_jedi_satbias_estimator.py:57-63 | exactly the observations with flag zero are selected |
| `ObsoutReader.OriginsAscend` | VarBC_offline_stats/mpas_jedi_satbias_estimator.py:57-69 | each observation is selected once, by file and location in order |
| `ObsoutReader.Reader.UpdateLapseRateMean` | VarBC_offline_stats/mpas_jedi_satbias_estimator.py:71-110 | the lapse rate is recentred by its own mean, its square kept beside it, other lists untouched |
| `ObsoutReader.LastLineCounts` | VarBC_offline_stats/mpas_jedi_satbias_estimator.py:72-84 | the mean on file for a channel is that of the last line that names it, else zero |
| `Statistics.CentredIsCanonical` | VarBC_offline_stats/mpas_jedi_satbias_estimator.py:89-108 | recentred lists sum to zero and do not depend on the old mean |
| `LeastSquares.CostAround` | VarBC_offline_stats/mpas_jedi_satbias_estimator.py:251-252 | the cost around any point, by completing the square |
| `LeastSquares.SolutionIsMinimum` | VarBC_offline_stats/mpas_jedi_satbias_estimator.py:262-267 | solving with the inverse of the Hessian gives the minimum, and with weights of zero or more the only one |
| `ChannelCost.CostWrittenOut` | VarBC_offline_stats/mpas_jedi_satbias_estimator.py:129-148 | the cost is the sum of squared distances from the prior over their variances and of squared residuals, observation minus simulation plus bias minus fit, over their errors |
| `ChannelCost.NormalEquationsWrittenOut` | VarBC_offline_stats/mpas_jedi_satbias_estimator.py:251-266 | the matrix and right-hand side that are solved, entry by entry from the lists |
| `BiasCorrection.SolveBeta` | VarBC_offline_stats/mpas_jedi_satbias_estimator.py:249-276 | one channel gets the solution of its normal equations, the one minimum of its written-out cost, and the diagonal of their inverse; the others stay |
| `BiasCorrection.Update` | VarBC_offline_stats/mpas_jedi_satbias_estimator.py:299-301 | every channel is solved from the coefficients the run started with |
| `BiasCorrection.CoefficientsMinimiseTheCost` | VarBC_offline_stats/mpas_jedi_satbias_estimator.py:251-267 | the solution is the one minimum of the cost written out from the lists, prior variances of zero included |
| `BiasCorrection.AccumulatedListsAreAligned` | VarBC_offline_stats/mpas_jedi_satbias_estimator.py:126-148 | after any files every channel's lists have one common length, so each channel can be solved |
| `BiasCorrection.RecentredListsAreAligned` | VarBC_offline_stats/mpas_jedi_satbias_estimator.py:71-110 | and so after the lapse rate has been recentred, whether or not its square is a predictor |
| `BiasCorrection.Estimate` | VarBC_offline_stats/mpas_jedi_satbias_estimator.py:340-351 | the whole run: every channel ends with the one minimum of the written-out cost of its recentred lists and initial coefficients, and with the diagonal of the inverse |
| `BiasCorrection.ExactPriorIsKept` | VarBC_offline_stats/mpas_jedi_satbias_estimator.py:135-141 | departures that the prior coefficients explain exactly leave them unchanged |
| `FireProperties.Moments` | tools/mpas_emissions/finn_cli.py:298-313 | one pass over the records gives each cell's mean and variance |
| `FireProperties.ValuesInOrder` | tools/mpas_emissions/finn_cli.py:298-302 | a cell is described by the values that were accepted into it and are not negative, in record order |
| `Statistics.OnePassVariance` | tools/mpas_emissions/finn_cli.py:309-311 | mean of squares minus square of the mean is the population variance |
| `Statistics.VarianceIsNonNegative` | tools/mpas_emissions/finn_cli.py:311-311 | so the clamp at zero changes nothing |
| `FireProperties.MomentsIgnoreRecordOrder` | tools/mpas_emissions/finn_cli.py:298-313 | the moments do not depend on record order |
| `FireProperties.Aggregate` | tools/prm_source_vegetation.py:44-60 | every record is scattered into its cell and category; each of the three errors is raised exactly when due, in their order |
| `FireProperties.AreasAddUp` | tools/prm_source_vegetation.py:49-51 | each record adds its area to its own cell under the category of its vegetation code |
| `FireProperties.DominantShare` | tools/prm_source_vegetation.py:53-57 | the category holds the largest share, at least a quarter, ties to the lowest; zero exactly when no known area burned |
| `FireProperties.AggregatorsAgreeOnTheMean` | tools/prm_source_vegetation.py:58-59 | both programs report the same mean for the same records |
| `FireDays.ForcedByAnyInterval` | tools/mpas_emissions/finn_cli.py:682-683 | a day is forced by any interval that holds it, its ends included |
| `FireDays.PrmForcedByAnyInterval` | tools/mpas_emissions/finn_cli.py:682-683 | and so for fire properties |
| `FireDays.GapIsFilledAsOne` | tools/mpas_emissions/finn_cli.py:1057-1073 | a gap is interpolated on all its unforced days or none, by its length, with weights k/(gap+1) |
| `FireDays.FieldsAreDailyValues` | tools/mpas_emissions/finn_cli.py:1048-1069 | the fields a day resolves to, told by the files alone: a forced day the scaled fallback, a primary day its own, a day in a short gap the line between its ends, any other the scaled fallback |
| `FireDays.LineIsReproduced` | tools/mpas_emissions/finn_cli.py:1060-1064 | a field linear from day to day has its own value on a day that is filled in |
| `FireDays.FilledDayIsLinear` | tools/mpas_emissions/finn_cli.py:1061-1064 | emissions linear from day to day are filled in exactly |
| `FireDays.OpenGapIsNeverInterpolated` | tools/mpas_emissions/finn_cli.py:1008-1011 | days outside the primary range are never interpolated |
| `FireDays.ForcedDayStillBrackets` | tools/mpas_emissions/finn_cli.py:1007-1065 | a forced day's primary file still serves as an end of an interpolation |
| `FireDays.ResolvePrmDay` | tools/mpas_emissions/finn_cli.py:903-958 | the day's fields and their source: a forced fallback, the best file that counts, the line between the ends of the bracket an unbounded search would find, or the fallback; and an error exactly when there is none |
| `FireEmissions.TotalsConserve` | tools/mpas_emissions/finn_cli.py:362-364 | cell totals sum to the total of the accepted records |
| `FireEmissions.TotalsByCell` | tools/mpas_emissions/finn_cli.py:362-364 | each cell gets its own placed records and no others |
| `FireEmissions.Hourly` | tools/mpas_emissions/finn.py:145-166 | succeeds exactly for 24 nonnegative factors with positive total and matching sizes |
| `FireEmissions.HourlyFollowsTheProfile` | tools/mpas_emissions/finn.py:161-166 | a cell's hours sum to 24 times its daily value, and each follows the factor of its local hour |
| `FireEmissions.EasternCellRunsAhead` | tools/mpas_emissions/finn.py:162-165 | a cell one hour further east sees its profile one UTC hour earlier |
| `FireEmissions.DaySumsToTwentyFour` | tools/mpas_emissions/finn.py:161-166 | a cell's 24 hours sum to 24 times its daily value for any offset |
| `FireEmissions.FluxOverADay` | tools/mpas_emissions/finn_cli.py:372-376 | a day of a gas or aerosol flux amounts to the total it came from |
| `FireEmissions.DailyMassIsConserved` | tools/mpas_emissions/finn_cli.py:337-381 | hourly fluxes integrated over area and day equal the accepted record total |
| `FireRun.Run` | tools/mpas_emissions/finn_cli.py:1048-1098 | succeeds exactly when every date has a source, expandable daily values and fire properties; then 24 consecutive hours of those daily values a date and one fire-property record from its preferred source; else it stops at the first date that fails |
| `CamsSectors.Process` | tools/mpas_emissions/cams_regrid.py:260-300 | every variable of the file after exclusion and scaling, or the error of the first one that is refused |
| `CamsSectors.NothingConfiguredNothingChanged` | tools/mpas_emissions/cams_regrid.py:281-300 | without scaling and exclusions every variable is written as it is |
| `CamsSectors.SpeciesScalesEveryField` | tools/mpas_emissions/cams_regrid.py:294-300 | the species factor scales every variable that is written |
| `CamsSectors.LastReadingCounts` | tools/mpas_emissions/scaling.py:36-44 | of several keys that read the same the last counts, and without one the factor is one |
| `CamsSectors.ReadingsThatAgree` | tools/mpas_emissions/scaling.py:32-33 | keys are read without regard to case, outer blanks and the kind of dash |
| `CamsSectors.ConsistentSourceIsAccepted` | tools/mpas_emissions/cams_regrid.py:282-293 | a consistent nonnegative source is neither refused nor clamped when no factor is refused and no sector enters the sum negatively |
| `CamsSectors.ConsistentIffBalanced` | tools/mpas_emissions/cams_regrid.py:260-300 | for any configuration: the run succeeds with a sum that is the total of its sectors for every consistent source exactly when no factor is refused and each sector enters the sum with the factor it is written with |
| `CamsSectors.ConsistentIffSpelledAsInFile` | tools/mpas_emissions/cams_regrid.py:264-294 | in terms of the keys: the sum is left alone and scaled sectors are spelled as in the file, or the sum and all sectors are scaled alike |
| `CamsSectors.SumAsKeyBreaksTheSum` | tools/mpas_emissions/cams_regrid.py:264-273 | the failing inputs: a factor or an exclusion under the key of the sum |
| `CamsSectors.SumStaysConsistentOnTheMesh` | tools/mpas_emissions/cams_regrid.py:301-305 | and so it is after remapping |

## Left out

- Suites other than the cycling and the forecast-only one, and the single-analysis, bump-estimation, verification and post-processing tasks: their edges have the same shape.
- `CycleSuites.ExtendedForecastComponent.Export`: mean and ensemble times are modelled one at a time, because with both the phase chain is written in the first section only.
- DA with several instances per member group, observation feedback concatenation, InitIC edges of the forecast, IAU and 4D windows, and components with `execute: False`.
- Extended forecast times that do not fall on a cycle point.
- Emissions are one directory for all cycles; the model lets cycled and cold forecasts read what was prepared for their own cycle, and leaves out that ensemble and extended forecasts read the same directory.
- Job resources, csh scripts, PBS directives and the text of the runtime section.
- Rounding and float32 storage: all arithmetic is over reals; finiteness checks have no counterpart.
- Reading and writing NetCDF, HDF5, YAML and CSV; unit conversion; field scaling other than as a factor of the source field.
- `TimeAxis.ResolveBrackets`: the rounding of gap limits to microseconds is not modelled; limits are reals.
- `InventoryLoop.Process`: target schedules other than `make_schedule`, reuse of existing outputs, and names and attributes of the output file.
- `MeshTheorems.TableIsSymmetric`: symmetry of the table itself is proved for symmetric meshes only; for others the table is the one `MeshTopology.Build` states and `MeshTheorems.NeverStrandsIff` says when its rows are never empty.
- `Containment.OrderMattersIff`: at zero tolerance; points are directions of any length, not unit vectors.
- Regional-domain decisions by nearest-cell distance: the assignment of a record to a cell is an input.
- `Packages.SuccessMeansAgreement`: tampering with a published package is excluded there; a process that reuses a package finds agreement at its return regardless (`Packages.ReturnMeansAgreement`).
- `CylcGraph.ParseRender`: lines are tokens, and the reader stands for Cylc's; the text of a line is not modelled.
- `CycleSuites.BuildCycle`: the sections of InitIC and of post-processing are not written.
- `CycleSuites.BuildForecastOnly`: nor are they there.
- Which bytes a download delivers, and `link_or_copy`.
- Normalisation of fallback days by robust ratios, the eight-day source caches, and the discarding of products when no record was placed on the mesh.
- `FireEmissions.DailyMassIsConserved`: at unit scaling; a scaling factor multiplies both sides.
- `FireProperties.Moments`: the square root of the variance.
- `CamsSectors.Process`: factors per output field and configurations that select only some sectors; biogenic files.
