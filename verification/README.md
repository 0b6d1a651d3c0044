# Skale: a verified model

Skale recommends replica counts for Kubernetes workloads from a demand forecast, explains them,
and never scales anything itself. This project models its decision core and proves what that core
promises; `dafny verify dfyconfig.toml` checks all of it.

Instants and durations are integer nanoseconds (0 is Go's zero time), replica counts are int32 with
the code's own saturation, wrapping and truncation, and float64 values are reals. The code's loops
and mutable objects are methods and classes, each proved against a specification; messages are
reduced to reason codes. Time, stored objects, telemetry and every external answer are parameters,
so a theorem about a run holds for every history of answers.

## How it is organised

- `Core`, `Sorting`, `Points`, `Grid`: shared vocabulary, ordering, point selection, the step grid.
- `Bounds`, `Dashboard`: replica limits and the dashboard's own copy of them.
- `Headroom`, `HeadroomProvider`: the node headroom estimator, read as a packing claim, and the
  aggregation that feeds it.
- `Safety`, `Recommend`: the gates and the recommendation engine.
- `Timeline` (what a list of surfaced events means), `Queue`, `Accounting`, `RunProperties`, `Replay`
  (the simulator class and its invariant), `Engine` (whole runs), `StepTiming` (which timings keep the
  step limits), `SteadyRuns` (convergence under steady demand), `StepAnswers` (steps and totals on their inputs).
- `Forecasting`, `SeasonalNaive`, `HoltWinters`, `Smoothing`, `ExactDemand`, `Auto`, `LinearDemand`, `Seasonality`,
  `Periods`, `DetectedSeason`, `PointTimes`: the forecasters, what they do on exactly periodic and exactly
  linear demand, and how a detected season and the evaluation time reach the forecast.
- `Series`, `Gaps`, `Readiness`: the tiered merge and its lookup, capacity estimation, telemetry quality.
- `Status`, `Controller`: the policy status and repeated reconciles.

## Where a natural claim is false

Each has a counterexample and the exact condition, proved for all inputs.

- A recommendation may leave forecast demand uncovered with no maximum or step limit reported, when it
  lifts the count from below the minimum: `Recommend.CorrectionMayUndersize`, `Recommend.CoversDemandIff`.
- The cluster headroom check can refuse pods that fit on the nodes when one node is over-requested:
  `HeadroomProvider.OverRequestedNodeMakesClusterRefuse`, `HeadroomProvider.ClusterNeverOverrulesIff`.
- The dashboard overlay can differ from the policy when the step-up sum overflows int32, and outside
  the range: `Dashboard.OverlayIgnoresOutOfRangeCorrection`, with one exact condition each for counts
  in range (`OverlayAgreesIffStepFits`), below it (`AgreeBelowMinimumIff`) and above it
  (`AgreeAboveMaximumIff`).
- The simulated count can change by more than the step limits, for timings in which the spacing of
  events does not cover the warmup: `StepTiming.UnsafeTimingBreaksLimits`, `StepTiming.StepLimitsKeptIff`.
  The default step and warmup keep them under any cooldown, even none: `StepTiming.DefaultTimingIsSafe`.
- Scored plus unscored minutes need not be all the replay minutes, although a caveat presents their sum
  so: `StepTiming.ReplayWithFailedForecasts`, `Engine.ReportShowsAllTimeIff`.
- Demand whose season is detected with confidence 1 need not get a forecast, because the season is counted
  in steps of the forecast and not of the samples: `DetectedSeason.DetectedSeasonIsLost`,
  `DetectedSeason.SeasonKeptIff`, `DetectedSeason.ForecastIsExactIff`, `DetectedSeason.FinerStepForecastsIff`.
- The values of an exact forecast need not be those of the times they are stamped with, because the stamps
  start at the evaluation and the values after the last sample: `PointTimes.LateForecastIsOffTime`,
  `PointTimes.PointsOnTimeIff`, `PointTimes.FinerStepIsNeverOnTime`.
- The live controller does not always keep the cooldown across reconciles: one that surfaces nothing
  erases the memory (`Controller.BrokenMemoryBreaksCooldown`, `Controller.CooldownSurvivesIff`), and
  storing drops part of a second (`Controller.FullCooldownKeptIff`).

## Model

| member | source | states |
|---|---|---|
| Engine.Run | internal/replay/replay.go:365-656 | A replay over any observations and any per-step answers fails exactly when some step rejects its input; otherwise events, counts, queue, counters and totals are those of the surfaced-event history, the recount agrees with the running counters, and the report is complete exactly when some time was scored. |
| Engine.RunSpec | internal/replay/replay.go:256-330 | From the raw specification: an error exactly on refused defaults, failed readiness, a grid point without a sample or a rejected step; no run on unsupported telemetry; otherwise the report of the run over the step grid from one lookback before the window. |
| Engine.BuildObservedGrid | internal/replay/replay.go:769-787 | Fails exactly when some grid point has no sample; otherwise one observation per grid point, with a count of at least zero. |
| Engine.Simulate | internal/replay/replay.go:382-600 | The loop skips exactly the grid points before the window and steps through all others in order. |
| Engine.GridReachesWindow | internal/replay/replay.go:382-388 | The evaluated points are never empty, all lie in the window, and the grid reaches the window end. |
| Engine.EarlierCountsStand | internal/replay/replay.go:390-404 | What a step simulated is never rewritten by later events: it is what the complete event history says for that time. |
| Engine.ReplicasAreTrajectory | internal/replay/replay.go:390-413 | At every evaluated step of every run the simulated count is the target of the latest event matured by then, or the starting count. |
| Engine.CountersCountEvents | internal/replay/replay.go:502-520 | Scale-ups plus scale-downs equal the surfaced events that are no longer pending. |
| Engine.RunConservesTime | internal/replay/replay.go:440-453 | Scored, unscored and forecast-failed time together are the time from the first evaluated point to the window end; the code reports only the first two. |
| Engine.EventsInWindow | internal/replay/replay.go:502-520 | The events of every reported run happen at evaluated times inside the window and keep order, spacing, range and step discipline. |
| Engine.WholeRunPassesGates | internal/replay/replay.go:455-520 | Every event of every reported run passed its gates at an evaluated step: a forecast that reaches the ready time and sizes the target, ready telemetry, enough confidence, no covering blackout, healthy dependencies and, for a gated scale-up, a ready signal whose nodes take the added pods. |
| Engine.WholeRunCooldown | internal/replay/replay.go:466-520 | Consecutive events are at least the cooldown apart, so their number is bounded by the window length in cooldowns, and every target is between the minimum and the maximum. |
| Engine.WholeRunConservesTime | internal/replay/replay.go:543-564 | The reported totals of a whole run satisfy time conservation, and overload plus excess fit in the scored time for baseline and replay. |
| Engine.ReportShowsAllTimeIff | internal/replay/replay.go:602-657 | Scored plus unscored time make up the window from its first evaluated point exactly when no forecast fails before the last evaluated point. |
| StepTiming.ReplayWithFailedForecasts | internal/replay/replay.go:440-453 | A concrete replay whose scored and unscored time fall short of the window. |
| Accounting.NoTimeIff | internal/replay/replay.go:543-564 | A class of evaluations covers no time exactly when each of its intervals is empty. |
| Engine.WholeRunStepLimits | internal/replay/replay.go:390-391 | When the least whole number of steps covering the cooldown also covers the warmup, each change of the simulated count is within the step limits, except a first correction of an out-of-range start. |
| Engine.WholeRunPending | internal/replay/replay.go:876-904 | After every evaluated step at most one activation is pending when the cooldown covers the warmup, and at every step but the last already when the spacing of events does. |
| StepTiming.StepLimitsKeptIff | internal/replay/replay.go:390-391 | Over all policies with a given step, warmup and cooldown and all histories, the step limits are kept in every run exactly when the least positive whole number of steps covering the cooldown also covers the warmup. |
| StepTiming.DefaultTimingIsSafe | internal/replay/replay.go:659-734 | The default step and warmup keep the step limits under any cooldown. |
| StepTiming.UnsafeTimingBreaksLimits | internal/replay/replay.go:502-520 | For every other timing, a policy the defaults leave as it is and a history on which the count falls by four between two grid points under a limit of two. |
| Engine.WholeRunStaysInRange | internal/replay/replay.go:365-391 | Once the simulated count is within the policy range it stays there for the rest of the run. |
| Replay.WithDefaults | internal/replay/replay.go:659-734 | Defaults are refused exactly for an unnamed target or an unusable window, duration or range; what is accepted has a strictly positive warmup and step and a usable range. |
| Replay.DefaultsKeepValues | internal/replay/replay.go:659-734 | Usable values are kept, and filling in defaults twice changes nothing more. |
| Replay.DefaultsOfWindow | internal/replay/replay.go:659-734 | A specification that sets only its window gets the documented defaults. |
| Replay.Simulation.constructor | internal/replay/replay.go:365-380 | A fresh simulation stands for the empty event history. |
| Replay.Simulation.Step | internal/replay/replay.go:382-600 | One step succeeds exactly when the recommender accepts its input, and leaves all mutable variables standing for the history extended by what the step surfaced. |
| Replay.Simulation.Activate | internal/replay/replay.go:390-391 | Adopting due activations and dropping them from the queue gives the count and the queue the event history prescribes. |
| Replay.Judge | internal/replay/replay.go:439-519 | A step surfaces exactly when the forecast succeeded, the recommendation is available and its count differs from both the simulated and the last recommended one. |
| StepAnswers.StepAnswer | internal/replay/replay.go:455-520 | The whole answer of a step with a forecast, on its inputs: the earliest listed point at or after the ready time is sized with the estimated capacity and bounded from the simulated count; the step is unavailable exactly when that point is too early or cannot be sized, available exactly when all gates are open too, and surfaces that target exactly when it is news. |
| StepAnswers.ReachedStepIsSized | internal/replay/replay.go:455-495 | A listed point at or after the ready time, an estimated capacity and a running replica make a step never unavailable. |
| StepAnswers.WarmupWithinHorizonIsSized | internal/replay/replay.go:430-495 | A warmup within the forecast horizon never makes such a step unavailable. |
| StepAnswers.WholeRunSizes | internal/replay/replay.go:382-600 | The same at every step of every reported run. |
| StepAnswers.FirstCountIsObserved | internal/replay/replay.go:350-400 | The simulated count starts as the count observed at the first evaluated step. |
| Replay.StepMatches | internal/replay/replay.go:382-600 | The simulator invariant: current count, queue, last recommendation, counters, records and totals stay functions of the surfaced events. |
| Replay.AdvanceToStep | internal/replay/replay.go:876-904 | Between consecutive evaluated times at most one activation ripens, and the count and queue advance to what the events prescribe. |
| Replay.CountStep | internal/replay/replay.go:876-891 | The running counters move exactly as a recount of the recorded counts does. |
| Replay.AdoptTarget | internal/replay/replay.go:505-520 | Surfacing leaves the current count alone and appends exactly one activation and one event. |
| Replay.RunGrows | internal/replay/replay.go:382-600 | Runs are built one accepted step at a time. |
| Timeline.RipeCount | internal/replay/replay.go:876-891 | The number of leading events whose warmup has elapsed. |
| Timeline.RipeIffCounted | internal/replay/replay.go:876-904 | On time-ordered events an event has matured exactly when it is among the counted ones, so each activation is applied once. |
| Timeline.LaterEventsDoNotMatter | internal/replay/replay.go:505-520 | An event still warming up changes neither the simulated count nor the earlier queue. |
| Timeline.SurfacedEventIsSound | internal/replay/replay.go:502-520 | Every surfaced event changes the count, differs from the previous target, respects the cooldown, and its target is in range and within the step limits, or corrects an out-of-range count. |
| Timeline.EveryRunIsDisciplined | internal/replay/replay.go:382-600 | By induction over every accepted run of any length and any answers: events happen at evaluated times, in order, and each is sound. |
| Timeline.EveryEventPassedItsGates | internal/replay/replay.go:382-520 | By induction over every accepted run: every event passed its gates at a step of the run. |
| RunProperties.SimulatedIsLatestMatured | internal/replay/replay.go:876-891 | The simulated count is characterised by the latest matured event, in both directions of its maturity condition. |
| RunProperties.PendingIsUnmatured | internal/replay/replay.go:893-904 | An event is in the queue exactly while it has not matured, and the queue is in time order. |
| RunProperties.EventsAreSpaced | internal/safety/safety.go:352-364 | Events j - i apart in the list are at least j - i cooldowns apart in time. |
| RunProperties.EventCountBound | internal/safety/safety.go:352-364 | The number of events in any span is bounded by the span in cooldowns. |
| RunProperties.MaturedInRange | internal/replay/replay.go:390-391 | Once any event has matured the simulated count is in the policy range. |
| RunProperties.StaysInRange | internal/replay/replay.go:390-391 | The simulated count never leaves the range after entering it. |
| RunProperties.NothingInFlightAtEvent | internal/replay/replay.go:502-520 | When an event finds the one before it matured, it finds everything surfaced earlier matured. |
| RunProperties.AtMostOneInFlight | internal/replay/replay.go:502-520 | When each event finds the one before it matured, the queue never holds more than one activation. |
| RunProperties.EventsAreSpacingApart | internal/replay/replay.go:949-959 | Consecutive events are at least the spacing apart, a whole number of steps covering the cooldown, unless the later one is at the last point. |
| RunProperties.LongCooldownIsSafe | internal/safety/safety.go:352-364 | A cooldown no shorter than the warmup is one timing that keeps the step limits. |
| RunProperties.EventsAreStepsApart | internal/replay/replay.go:949-959 | Events are at least a step apart, unless the later one is at the shortened last point. |
| RunProperties.AtMostOneMaturesPerStep | internal/replay/replay.go:876-891 | At most one activation ripens between consecutive evaluated times. |
| RunProperties.ChangesRespectStepLimits | internal/replay/replay.go:390-391 | When the spacing covers the warmup, from one evaluated time to the next the count stays, moves within the step limits, or is the one initial range correction. |
| RunProperties.ChainAlwaysMoves | internal/replay/replay.go:502-504 | Every event changes the count the previous one led to, so rises plus falls equal the number of events. |
| RunProperties.TrajectoryCountsChain | internal/replay/replay.go:825-856 | Counting changes along the sampled counts equals counting them along the matured events: sampling on the grid misses none. |
| RunProperties.ChangesAreMaturedEvents | internal/replay/replay.go:825-856 | Rises plus falls of the simulated counts equal the matured events. |
| RunProperties.ChangesAreCounted | internal/replay/replay.go:876-891 | Scale-ups and scale-downs are the numbers of places where the count goes up and down. |
| Queue.ApplyScheduledActivations | internal/replay/replay.go:876-891 | The loop ends on the last due target and counts each rise and fall among the due targets once. |
| Queue.PendingAfter | internal/replay/replay.go:893-904 | The rebuilt queue holds exactly the activations that are not due, in time order. |
| Queue.SortByTime | internal/replay/replay.go:900-902 | Sorting keeps the activations and orders them by time; an ordered list is unchanged. |
| Queue.AdvanceQueue | internal/replay/replay.go:876-904 | Advancing the clock moves exactly the newly matured events out of the queue. |
| Queue.AdvanceCount | internal/replay/replay.go:876-891 | Adopting the due activations brings the count to what the events prescribe at the new time. |
| Accounting.RequiredIsLeastCarrying | internal/replay/replay.go:938-947 | A count is below the required proxy exactly when its capacity does not carry the demand. |
| StepAnswers.TotalsMeaning | internal/replay/replay.go:530-566 | The reported totals are times of the observed window: overload is the time in which the capacity of the count does not carry the demand, excess the time in which one replica less would, for the baseline and for the simulation; scored and unscored time tell whether a capacity was estimated. |
| Accounting.ScoreStep | internal/replay/replay.go:543-564 | Scoring one step extends the totals to those of the longer evaluation list. |
| Accounting.TimeIsConserved | internal/replay/replay.go:440-453 | Scored, unscored and failed time partition the time of any list of evaluations. |
| Accounting.OverloadAndExcessDisjoint | internal/replay/replay.go:543-561 | No interval is both overload and excess, so both fit in the scored time. |
| Accounting.SummarizeObservations | internal/replay/replay.go:825-856 | The summary holds the true minimum, maximum, sum, ends and numbers of rises and falls of the counts. |
| Grid.BuildStepGrid | internal/replay/replay.go:949-959 | The grid is empty exactly on a bad step or window; otherwise it is strictly increasing from start to end with gaps of one step except possibly the last. |
| Grid.DedupeTimes | internal/replay/replay.go:1142-1154 | Repeats are dropped, every time is kept, and the step grid is unchanged. |
| Grid.PacedIncreasing | internal/replay/replay.go:949-959 | Any two grid points are ordered, and a full step apart unless the later one is the last. |
| Grid.IntervalsTile | internal/replay/replay.go:858-874 | The step intervals from any grid point onward add up to the time left in the window. |
| Grid.LastIntervalIsEmpty | internal/replay/replay.go:858-874 | Only the last grid point covers no time. |
| Points.SelectForecastPoint | internal/replay/replay.go:1025-1035 | The chosen point is the earliest at or after the target time, or the last one when all are earlier. |
| Points.SelectedIsUnique | internal/controller/evaluation.go:651-661 | That description fixes the point, so the replay and the controller selectors agree. |
| Bounds.FinalIsNearestReachable | internal/safety/safety.go:505-593 | From an in-range count the recommendation is the count nearest to the raw one among those in range and within the step limits. |
| Bounds.OutOfRangeIsCorrected | internal/safety/safety.go:505-568 | From an out-of-range count it is the nearest end of the range, whatever was asked. |
| Bounds.FinalInRange | internal/safety/safety.go:505-568 | The final count is always between minimum and maximum. |
| Bounds.StepFlagsMeaning | internal/safety/safety.go:505-568 | A step limit is reported exactly when without it the recommendation would have gone further in that direction. |
| Bounds.RangeFlagMeaning | internal/safety/safety.go:505-568 | The range is reported exactly when it kept the raw or the current count out, and its count is the nearest allowed one. |
| Bounds.FinalIsMonotone | internal/safety/safety.go:505-593 | Asking for more never yields less. |
| Bounds.FinalCoversRaw | internal/safety/safety.go:505-568 | The final count reaches the raw one exactly when the raw one is at most the maximum and one step up from the current count, or at most the minimum below it. |
| Bounds.RoundMovesTowardsTarget | internal/safety/safety.go:570-593 | One bounded round moves strictly towards the clamped target and never past it, and rests on it. |
| Bounds.OneRoundFewer | internal/safety/safety.go:570-593 | Each round leaves one fewer of the ceiling(distance/step) rounds. |
| SteadyRuns.WholeRunRounds | internal/replay/replay.go:455-520 | In every reported run whose available recommendations were all sized at one raw count, the targets are the successive bounded rounds towards it, each surfaced after the previous one matured, and at most as many as the rounds needed. |
| SteadyRuns.WholeRunArrives | internal/replay/replay.go:455-520 | If nothing is pending at the end and the last recommendation is available, the simulated count is the raw count within the limits, after exactly the rounds needed. |
| SteadyRuns.QuietStepHasArrived | internal/replay/replay.go:455-520 | The same at any step: an available recommendation that leaves nothing pending means the count has arrived. |
| Bounds.IterateConverges | internal/safety/safety.go:505-593 | Iterating with a fixed target is monotone, arrives after exactly ceiling(distance/step) rounds and not before, and stays. |
| Dashboard.OverlayAgreesIffStepFits | internal/controller/dashboard.go:447-465 | For an in-range count the overlay and the policy agree on every raw count exactly when adding the step-up limit fits int32. |
| Dashboard.OverlayIgnoresOutOfRangeCorrection | internal/controller/dashboard.go:447-465 | Out of range they may disagree: a concrete count the overlay shows as 8 and the policy corrects to 3. |
| Dashboard.AgreeBelowMinimumIff | internal/controller/dashboard.go:447-465 | Below the minimum they agree on every raw count exactly when one step up lands on the minimum, or the range is a single count that a step up reaches without overflow. |
| Dashboard.AgreeAboveMaximumIff | internal/controller/dashboard.go:447-465 | Above the maximum they agree on every raw count exactly when the step-up sum does not overflow and one step down lands on the maximum, or reaches the only count of the range. |
| Safety.Evaluate | internal/safety/safety.go:204-388 | Errors exactly on invalid input; otherwise the outcome is suppressed exactly when some gate blocks, the reported codes are exactly those of the blocking gates, and the bounds are the policy bounds. |
| Safety.PassesIff | internal/safety/safety.go:204-389 | An input is let through exactly when every gate is open, each told on its own inputs: operator, telemetry, confidence, divergence, error, breaker, blackouts, dependencies, cooldown, and for a gated scale-up a ready signal with both requests declared and room for the added pods. |
| Safety.BlocksMeaning | internal/safety/safety.go:204-389 | Which condition each gate code reports. |
| Safety.HeadroomBlocksMeaning | internal/safety/safety.go:688-728 | Which signal state or verdict each headroom code reports, and only on a gated scale-up. |
| Safety.SurfacingReasons | internal/safety/safety.go:229-272 | The operator, telemetry and confidence codes are added exactly when their condition holds, and no other code is. |
| Safety.QualityReasons | internal/safety/safety.go:274-319 | Divergence, forecast-error and circuit-breaker codes are added exactly when the measured value passes its limit. |
| Safety.WindowReasons | internal/safety/safety.go:321-364 | Blackout, dependency and cooldown codes are added exactly when a window covers the time, a dependency is unhealthy, or a different count falls inside the cooldown. |
| Safety.HeadroomReasons | internal/safety/safety.go:366-383 | Headroom is consulted exactly for a gated scale-up, and blocks exactly when the placement verdict on the added pods is not sufficient. |
| Safety.DependencyReasons | internal/safety/safety.go:335-350 | The earlier reasons followed by one reason for each unhealthy dependency, in the order listed. |
| Safety.ActiveBlackoutWindow | internal/safety/safety.go:628-637 | The first listed window covering the time, or none when no window does. |
| Core.Dedupe | internal/safety/safety.go:730-742 | Keeps the first occurrence of every element in order, drops nothing else, and never empties a non-empty list. |
| Recommend.Recommend | internal/recommend/recommend.go:131-267 | Available exactly when the forecast covers the ready time, a capacity baseline exists and every gate passes; unavailable exactly when one of the first two fails; the count is the bounded target and the codes are exactly those of the blocking gates or of what is missing. |
| Recommend.AvailabilityReasons | internal/recommend/recommend.go:159-195 | A reason is given exactly when the forecast is too short or a baseline is missing, and each of the three codes exactly in its own case. |
| Recommend.PreventsMeaning | internal/recommend/recommend.go:131-190 | Which missing input each code reports, and that one of them is missing exactly when nothing can be sized. |
| Recommend.AvailableIff | internal/recommend/recommend.go:131-268 | Available exactly when the forecast reaches the ready time, a positive forecast has a baseline, and every gate is open. |
| Recommend.RawFromCurrentDemand | internal/recommend/recommend.go:415-432 | Without an estimate a count covers the forecast, in proportion to what the replicas carry now at the target load, exactly when it is at least the raw one. |
| Recommend.RawIsLeastCover | internal/recommend/recommend.go:422-432 | Below int32 saturation a count covers the forecast demand exactly when it is at least the raw count. |
| Recommend.CoversDemandIff | internal/recommend/recommend.go:197-237 | The final count covers the demand exactly when the raw count is at most the maximum and one step up from the current count, or at most the minimum below it. |
| Recommend.CorrectionMayUndersize | internal/recommend/recommend.go:197-237 | The coverage claim without that last condition is false: a correction leaves 3 replicas for a demand of 8 with no limit reported. |
| Headroom.Assess | internal/safety/headroom.go:102-232 | Errors exactly on a negative count or an invalid signal; otherwise the verdict is the one defined by existence of placements, the cluster and node estimates are the saturated rooms, the limiting resource is the scarcer one, and node packing is named exactly when no placement exists on nodes the cluster check let through. |
| Headroom.AssessmentMeaning | internal/safety/headroom.go:102-232 | Sufficient exactly with a ready signal and, for any pods needed, both requests declared, room in the cluster and a placement of all of them; insufficient exactly with a ready signal and one request declared but no such room or placement. |
| Headroom.PlacementIff | internal/safety/headroom.go:40-52 | A placement puts pods on schedulable nodes only, on top of what is requested there. |
| Headroom.ScarcerMeaning | internal/safety/headroom.go:279-309 | Memory is told as limiting exactly when some count fits in CPU but not in memory. |
| Headroom.FittingNodesMeaning | internal/safety/headroom.go:180-193 | No node is counted as fitting exactly when not even one pod can be placed. |
| Headroom.CanPlaceIffRoom | internal/safety/headroom.go:154-198 | Identical pods can be placed on the schedulable nodes in two dimensions exactly when their number is at most the sum of per-node rooms. |
| Headroom.PlacementWithinRoom | internal/safety/headroom.go:279-309 | No placement exceeds the sum of per-node rooms. |
| Headroom.PlaceGreedily | internal/safety/headroom.go:279-309 | A witness placement for any number up to that sum. |
| Headroom.CapacityIsSaturatedRoom | internal/safety/headroom.go:279-320 | The computed capacity is the true room cut off at the int32 maximum. |
| Headroom.SumNodes | internal/safety/headroom.go:180-193 | The loop computes the saturated total room and the true numbers of schedulable and fitting nodes. |
| HeadroomProvider.HeadroomFor | internal/controller/runtime_inputs.go:146-228 | The signal state follows from which reads failed or were empty; a ready one carries the pod request, each node with the sum of its live pods, and totals over the schedulable nodes. |
| HeadroomProvider.RequestsByNode | internal/controller/runtime_inputs.go:191-198 | Each node maps to the 64-bit sum of the requests of its live pods. |
| HeadroomProvider.AddingPod | internal/controller/runtime_inputs.go:190-200 | A pod adds its request to the node it is bound to, unless it has finished, and to no other. |
| HeadroomProvider.RequestsAreConserved | internal/controller/runtime_inputs.go:190-200 | Over any distinct nodes the requests by node add up to the requests of the pods bound to them. |
| HeadroomProvider.SumOfParts | internal/controller/runtime_inputs.go:251-258 | Container requests add up, dimension by dimension. |
| HeadroomProvider.SummariseNodes | internal/controller/runtime_inputs.go:200-219 | Every node is summarised, and the cluster totals are the sums over the schedulable ones. |
| HeadroomProvider.NodeSchedulable | internal/controller/runtime_inputs.go:230-240 | A node counts exactly when it is not cordoned and reports ready. |
| HeadroomProvider.SchedulableMeaning | internal/controller/runtime_inputs.go:230-240 | A node that is not cordoned is judged by its first readiness condition, and without one it is schedulable. |
| HeadroomProvider.PodSpecRequests | internal/controller/runtime_inputs.go:242-249 | In each dimension the larger of the container sum and the largest init container. |
| HeadroomProvider.InitContainerMax | internal/controller/runtime_inputs.go:260-271 | The per-dimension maximum over the init containers, at least zero. |
| HeadroomProvider.ResourceTotals | internal/controller/runtime_inputs.go:251-258 | The 64-bit sum of the container requests. |
| HeadroomProvider.FreeVersusNet | internal/controller/runtime_inputs.go:191-219 | Free capacity summed node by node is at least the net total, and equal exactly when no node is over-requested. |
| HeadroomProvider.PlacementWithinFree | internal/safety/headroom.go:154-198 | Placed pods use no more of a dimension than the nodes have free. |
| HeadroomProvider.ClusterAcceptsPlacements | internal/safety/headroom.go:154-198 | Without an over-requested node beside a free one, the cluster check accepts whatever the nodes accept. |
| HeadroomProvider.ClusterNeverOverrulesIff | internal/safety/headroom.go:154-198 | The cluster check never rejects a placement the nodes allow, for all pod shapes and counts however large, exactly when every dimension is balanced. |
| HeadroomProvider.ClusterNeverOverrulesInt32Iff | internal/safety/headroom.go:154-198 | For one signal, with its own pod and every count up to the int32 maximum: the aggregate refuses no placement exactly when its own room reaches the node room, cut at that maximum. |
| HeadroomProvider.NodeEstimateDecides | internal/safety/headroom.go:154-213 | With no over-requested schedulable node the final estimate is the node estimate whenever there is one, and the pods are refused exactly when no placement on the nodes exists. |
| HeadroomProvider.OverRequestedNodeMakesClusterRefuse | internal/safety/headroom.go:154-198 | With one over-requested node the claim is false: a snapshot whose free node takes two pods that the estimator refuses. |
| Core.WrapAccumulates | internal/controller/runtime_inputs.go:294-299 | Wrapping a 64-bit running sum at every step or only at the end gives the same value. |
| Forecasting.PrepareAcceptsValid | internal/forecast/forecast.go:157-217 | Preparation fails exactly on invalid input: an inferred step is always positive. |
| Forecasting.PreparedMeaning | internal/forecast/forecast.go:157-218 | The later of the evaluation and the last sample, the fewest steps that cover the horizon, and the nearest whole number of steps to the season, at least one. |
| Forecasting.InferredStepSplitsGaps | internal/forecast/forecast.go:252-270 | The inferred step is one of the gaps, with at most half of them below it and fewer than half above. |
| Forecasting.MeasureStep | internal/forecast/forecast.go:252-270 | The upper median gap between samples, or zero when there is none or the series is out of order. |
| Forecasting.BuildForecastPoints | internal/forecast/forecast.go:272-281 | Point i is i + 1 steps after the generation time and carries value i. |
| Forecasting.ForecastReachesHorizon | internal/forecast/forecast.go:157-217 | The last forecast point is at or after the evaluation time plus the horizon. |
| Forecasting.WarmupWithinHorizonIsCovered | internal/controller/evaluation.go:651-661 | When the warmup fits in the horizon the selected point is the earliest at or after the ready time, so the too-short reason never fires. |
| Forecasting.EvaluateForecast | internal/forecast/forecast.go:283-314 | The loop computes the mean absolute error, mean demand, normalised error, and the fractions, rate and median of under-prediction. |
| Forecasting.ValidationMeaning | internal/forecast/forecast.go:283-314 | The figures multiplied out: errors, mean demand, the error as a share of the mean or of one, and the under-predicted share. |
| Forecasting.UnderPredictionCount | internal/forecast/forecast.go:283-314 | One figure for each place where positive demand was forecast too low. |
| Forecasting.ConstantMiss | internal/forecast/forecast.go:283-314 | Predictions off by the same amount everywhere miss that amount for each sample. |
| Forecasting.ConfidenceFromMeaning | internal/forecast/forecast.go:332-338 | The confidence is the share of the mean demand, or of one, that the mean error leaves over, and zero when it leaves nothing. |
| Forecasting.ReliabilityMeaning | internal/forecast/forecast.go:316-330 | The grade by the mean error: high up to a fifth of the mean demand or of one, medium to 40, low to 65 hundredths, unsupported beyond. |
| Forecasting.MedianMissIsPositiveIff | internal/forecast/forecast.go:296-311 | The median under-prediction is positive exactly when some positive demand was forecast too low. |
| Forecasting.ExactHoldout | internal/forecast/forecast.go:283-338 | An exactly predicted holdout has no error, confidence 1 and high reliability. |
| SeasonalNaive.SeasonalNaiveValues | internal/forecast/seasonal_naive.go:88-95 | Each value repeats the same place of the last season. |
| SeasonalNaive.Forecast | internal/forecast/seasonal_naive.go:20-86 | Fails exactly on invalid input or less than a season before the holdout; otherwise the result is the backtested repetition of the last season. |
| SeasonalNaive.Backtest | internal/forecast/seasonal_naive.go:38-41 | The holdout is predicted from the samples before it only. |
| SeasonalNaive.NaiveBacktestMeaning | internal/forecast/seasonal_naive.go:37-45 | The backtest error is the mean miss of each holdout sample by the sample of its place in the season before the holdout. |
| SeasonalNaive.NaivePointsMeaning | internal/forecast/seasonal_naive.go:37-60 | Each point carries the sample of its place in the last season, one step after the other from the time of the forecast. |
| SeasonalNaive.NaiveIsContinuation | internal/forecast/seasonal_naive.go:88-95 | On periodic demand the forecast is the true continuation, for every longer periodic series. |
| SeasonalNaive.NaiveOnPeriodicDemand | internal/forecast/seasonal_naive.go:20-86 | On periodic demand the backtest is exact: confidence 1, no error, usable reliability. |
| HoltWinters.Smooth | internal/forecast/holt_winters.go:199-207 | The loop that overwrites one seasonal slot per sample computes the textbook recurrences, where every season has its own value. |
| HoltWinters.SlotsAdvance | internal/forecast/holt_winters.go:200-207 | Before each sample its slot holds the season of one period earlier, and after it the slots hold the last period. |
| HoltWinters.ForecastSlot | internal/forecast/holt_winters.go:209-215 | The slot read for a horizon step is that of the same place in the last observed season. |
| HoltWinters.SeasonalForecast | internal/forecast/holt_winters.go:199-216 | Each value is level plus trends plus the matching season, clipped at zero. |
| HoltWinters.InitializeAdditiveState | internal/forecast/holt_winters.go:218-229 | Level, trend and seasons start from the averages of the first two seasons. |
| HoltWinters.HoltLinearForecast | internal/forecast/holt_winters.go:231-246 | The loop computes the linear recurrences and their clipped extrapolation. |
| HoltWinters.HoltWintersForecast | internal/forecast/holt_winters.go:182-216 | Fails exactly on a short series or an unusable season or horizon. |
| Smoothing.LinearErrorCorrection | internal/forecast/holt_winters.go:231-246 | After each sample the level has taken the share alpha of the one-step error and the trend the share alpha times beta. |
| Smoothing.SeasonalErrorCorrection | internal/forecast/holt_winters.go:199-207 | The same for the seasonal method, and the season of the place takes gamma times what the level left over. |
| Smoothing.ForecastResponds | internal/forecast/holt_winters.go:182-246 | For two series that differ by an amount in the last sample only, the unclipped value h steps ahead differs by alpha + h alpha beta of it, plus gamma (1 - alpha) when h is a whole number of seasons. |
| Smoothing.AverageBalances | internal/forecast/holt_winters.go:248-257 | The average is the value that the samples balance around. |
| Smoothing.FirstTrendIsSlope | internal/forecast/holt_winters.go:218-229 | When the second season lies a slope per sample above the first, the first trend is that slope. |
| HoltWinters.ParameterGrid | internal/forecast/holt_winters.go:143-164 | The grid is never empty and holds exactly the combinations of the usable values or the defaults, all strictly between 0 and 1, with gamma 0 without a season. |
| HoltWinters.CrossGrid | internal/forecast/holt_winters.go:151-163 | All combinations of the three lists and nothing else. |
| HoltWinters.BestParameters | internal/forecast/holt_winters.go:113-141 | The first grid entry with the least holdout error, with its forecast; fails exactly on unusable input or an empty grid. |
| ExactDemand.PeriodicFixedPoint | internal/forecast/holt_winters.go:182-229 | On exactly periodic demand the smoothing state never moves, for every alpha, beta and gamma. |
| ExactDemand.HoltWintersEqualsNaive | internal/forecast/holt_winters.go:182-229 | On periodic non-negative demand Holt-Winters and seasonal naive forecast the same values, for every parameter choice. |
| ExactDemand.LinearIsReproduced | internal/forecast/holt_winters.go:231-246 | On linear demand level and trend are the last sample and the slope, for every alpha and beta. |
| ExactDemand.LinearForecastIsExact | internal/forecast/holt_winters.go:231-246 | On linear demand the forecast is the exact extrapolation clipped at zero. |
| Auto.HoltWintersModelForecast | internal/forecast/holt_winters.go:29-111 | Fails exactly on invalid or insufficient input; otherwise the forecast uses parameters no tried combination beats on the holdout. |
| Auto.FitParameters | internal/forecast/holt_winters.go:113-141 | The fitted parameters minimise the holdout error over everything tried. |
| Auto.FittedIsBest | internal/forecast/holt_winters.go:113-141 | No tried parameters would have given the Holt-Winters result a smaller backtest error. |
| Auto.TriedMeaning | internal/forecast/holt_winters.go:143-180 | The weights tried are the configured ones strictly between 0 and 1, or the defaults when there are none; gamma only with a season. |
| Auto.HoltOutcomeMeaning | internal/forecast/holt_winters.go:29-60 | Holt-Winters needs two samples more than a season, and two whole seasons, before the holdout. |
| Auto.ResultReliability | internal/forecast/forecast.go:316-351 | A result is graded by its backtest, at most medium without a season, and at most low with less than two seasons of history, or three for Holt-Winters. |
| Auto.ForecastDivergence | internal/forecast/auto.go:138-154 | The largest relative disagreement over the shared points, attained by one of them. |
| Auto.AutoForecast | internal/forecast/auto.go:28-90 | Returns the selection the outcomes of the two models on the same input call for. |
| Auto.AutoGuarantees | internal/forecast/auto.go:28-90 | Every selection: an error only when seasonal naive is unusable, naive points only when it is usable, and Holt-Winters over a usable naive result only with a strictly smaller holdout error. |
| Auto.ChoiceGuarantees | internal/forecast/auto.go:60-136 | An error exactly when neither result is usable; Holt-Winters over a usable naive result only with a smaller error, nearly the confidence, and every shared point within the divergence threshold. |
| Auto.ChoiceMeaning | internal/forecast/auto.go:60-136 | With two usable results Holt-Winters is selected exactly when every shared point agrees within the threshold and it fits better; seasonal naive stands as it is when they agree, and with confidence at most 0.60 and low reliability when they do not. |
| Auto.SingleChoice | internal/forecast/auto.go:45-58 | With one usable result that one is selected as it is, and with none nothing. |
| Auto.RatioMeaning | internal/forecast/auto.go:138-154 | Two values agree within a threshold when they differ by at most that share of the larger, or of one. |
| Auto.ModelsAgree | internal/forecast/auto.go:28-90 | On periodic demand both models give the same points. |
| Auto.PeriodicDemandSelectsNaive | internal/forecast/auto.go:69-90 | On periodic demand the divergence from Holt-Winters with any parameters is zero, so the choice is seasonal naive unmodified with confidence 1, whatever the thresholds. |
| Auto.AutoOnPeriodicDemand | internal/forecast/auto.go:28-90 | On every accepted input with enough exactly periodic demand the automatic model returns the seasonal naive result, unmodified, with confidence 1. |
| Auto.SelectedPointsContinueDemand | internal/forecast/auto.go:69-90 | The selected points, one per horizon step, carry in order the values that follow in every longer series with the same period. |
| LinearDemand.AutoOnLinearDemand | internal/forecast/auto.go:28-90 | On every accepted input whose demand is a line that is not flat, with no season, a forecast is selected; it is Holt-Winters exactly when seasonal naive is not usable or the last point departs from the last sample by at most the threshold (and the demanded improvement is at most all of the error), and then it has confidence 1 and continues the line. |
| LinearDemand.HoltOnLine | internal/forecast/holt_winters.go:29-111 | On a line Holt-Winters with any parameters backtests without error and extrapolates the line, clipped at zero. |
| LinearDemand.LinearDivergence | internal/forecast/auto.go:138-154 | On a line the two forecasts disagree most at the last point. |
| DetectedSeason.SeasonKeptIff | internal/forecast/forecast.go:157-185 | The forecast counts a detected season in exactly the detected samples if and only if the season, rounded to steps of the forecast, is that many steps. |
| DetectedSeason.ForecastIsExactIff | internal/controller/evaluation.go:180-192 | From detection to selection at any step: exact (seasonal naive unmodified, confidence 1, the values of every continuation in order) when the counted season is a multiple of the detected one and fits before the holdout, no forecast when it does not fit, and in no other case exact once the horizon covers the season. |
| DetectedSeason.FinerStepForecastsIff | internal/controller/evaluation.go:180-192 | With a step that divides the spacing of the samples f times, there is a forecast exactly when f times the detected season and the horizon fit in the history, and then it is exact in that sense. |
| DetectedSeason.DetectedSeasonIsLost | internal/controller/evaluation.go:180-192 | A concrete history: the season is detected with confidence 1, and under a step of 30 seconds no selection succeeds. |
| DetectedSeason.DetectedSeasonForecastsExactly | internal/discovery/discovery.go:444-475 | Where the forecast runs at the inferred step, as it does here because none is passed, a searched period and the horizon fitting in the history suffice for an exact forecast. |
| Periods.MatchingShift | internal/forecast/seasonal_naive.go:28-60 | A shift that matches over one whole period is a multiple of the shortest period. |
| PointTimes.PointsOnTimeIff | internal/forecast/forecast.go:193-196 | On samples one step apart: a forecast that starts a whole number of shortest periods after the last sample carries at every time the demand of that time, and one that covers a period does so in no other case. |
| PointTimes.PointOfLateForecast | internal/forecast/forecast.go:193-196 | A point of a forecast m steps late is on time exactly when the demand m places on has the value it carries. |
| PointTimes.FinerStepIsNeverOnTime | internal/forecast/forecast.go:193-196 | Two points closer together than the samples are never both on time. |
| PointTimes.LateForecastIsOffTime | internal/forecast/forecast.go:193-196 | A concrete input: alternating demand evaluated one sample late is forecast with its values exchanged. |
| Seasonality.CauchySchwarz | internal/forecast/seasonality.go:115-127 | The squared numerator never exceeds the product of the two centred sums of squares. |
| Seasonality.CorrelationRange | internal/forecast/seasonality.go:107-132 | Every lag correlation lies between -1 and 1. |
| Seasonality.LagCorrelation | internal/forecast/seasonality.go:107-132 | The loop computes the correlation of the series with itself one lag earlier, zero when a side is constant. |
| Seasonality.LagMeanAbsoluteError | internal/forecast/seasonality.go:91-105 | The loop computes the mean absolute difference at the lag. |
| Seasonality.SearchLags | internal/forecast/seasonality.go:61-76 | The search keeps the first lag with the largest correlation among those that clearly beat persistence. |
| Seasonality.DetectSeasonality | internal/forecast/seasonality.go:23-89 | Nothing is searched on short or irregular history; otherwise the report is that of the best lag, or nothing when its correlation is below the minimum. |
| Seasonality.DetectedIff | internal/forecast/seasonality.go:23-89 | Detected exactly when the history has six samples and some allowed lag beats persistence with at least the minimum correlation; the period is the first such lag of the largest correlation. |
| Seasonality.LagAllowedIff | internal/forecast/seasonality.go:29-55 | The searched lags are those of two or more samples within the asked periods and with enough cycles in the history. |
| Seasonality.ConfidenceMeaning | internal/forecast/seasonality.go:75-89 | The confidence is where the correlation lies on the way from the minimum to 1: zero exactly at the minimum, one exactly at 1. |
| Seasonality.CorrelationMeaning | internal/forecast/seasonality.go:107-132 | The squared correlation times the two spreads is the squared numerator, the signs agree, and it is zero when a side is constant. |
| Seasonality.CrossSumExpands | internal/forecast/seasonality.go:115-127 | The centred sum in terms of plain sums. |
| Seasonality.LagErrorMeaning | internal/forecast/seasonality.go:91-105 | A series that repeats itself at the lag, raised by an amount, misses exactly that amount. |
| Seasonality.SearchFindsPeriod | internal/forecast/seasonality.go:61-76 | A search range holding the period ends with correlation 1 at a lag no longer than it. |
| Seasonality.PerfectIsAffine | internal/forecast/seasonality.go:107-132 | The equality case: a correlation of 1 puts each sample and the one a lag later on one rising line. |
| Seasonality.PerfectLagIsPeriod | internal/forecast/seasonality.go:107-132 | On periodic demand a lag no longer than the period with correlation 1 is itself a period. |
| Seasonality.PeriodicDemandIsDetected | internal/forecast/seasonality.go:50-89 | Every non-constant exactly periodic series whose period is searched is detected with correlation 1 and confidence 1, at the shortest period in the searched range. |
| Sorting.SortAscends | internal/forecast/forecast.go:265-267 | Sorting leaves ascending order. |
| Sorting.SortKeeps | internal/forecast/forecast.go:265-267 | Sorting keeps every element with its multiplicity. |
| Sorting.MedianBetween | internal/controller/evaluation.go:627-638 | A median lies within any bounds on the elements. |
| Sorting.MedianSplits | internal/controller/evaluation.go:627-638 | At most half of the values lie strictly below the median and at most half strictly above; it is one of them, or the mean of the middle two for an even number. |
| Series.MergeSeries | internal/controller/evaluation.go:399-434 | The merge is strictly increasing in time and holds exactly the recent value at each instant, else the base value. |
| Series.Overwrite | internal/controller/evaluation.go:412-424 | Writing a tier over the map leaves its last value at each of its instants and the old value elsewhere. |
| Series.LastAtIsLast | internal/controller/evaluation.go:412-424 | Of several samples of a tier at one instant the last listed one counts. |
| Series.DistinctSort | internal/controller/evaluation.go:430-432 | Sorting samples at distinct instants makes them strictly increasing and keeps them. |
| Series.ValueAtOrBefore | internal/controller/evaluation.go:610-625 | The binary search returns the newest sample at or before the time, exactly as a linear scan does. |
| Series.NewestIsNewest | internal/controller/evaluation.go:610-625 | The scan finds the sample at the latest instant not after the time, or none when all are later. |
| Series.MergeLookup | internal/controller/evaluation.go:399-434 | Looking up a time in the merge gives the later of the two tiers, with ties to the recent one. |
| Series.CapacityEstimateFromSeries | internal/controller/evaluation.go:571-608 | An estimate is made exactly when the target is in (0, 1] and enough samples are usable; it is their median, which is always positive. |
| Series.EstimateSplitsCapacities | internal/controller/evaluation.go:571-608 | An estimate is made exactly for a target in (0, 1] and enough usable samples, and it splits the capacities observed at them in half. |
| Series.CapacitiesAreObserved | internal/controller/evaluation.go:586-596 | The capacities are those at which the replicas running then, loaded to the target, carry the demand of some usable sample, one for each such sample. |
| Series.CollectCapacities | internal/controller/evaluation.go:586-596 | The capacities of exactly the samples in the window with positive demand and a known running replica. |
| Series.EstimateRecoversCapacity | internal/controller/evaluation.go:571-608 | If every usable sample was taken at the target load with one true capacity, the estimate is that capacity. |
| Gaps.NormalizeSamples | internal/metrics/readiness.go:571-590 | Strictly increasing, no invented sample, and no instant lost. |
| Gaps.MaxSampleGap | internal/metrics/readiness.go:611-636 | The loop computes the largest of the lead, the inner gaps and the tail. |
| Gaps.EveryInstantIsNearASample | internal/metrics/readiness.go:611-636 | Every instant of the window is within the largest gap of the previous sample or the window start. |
| Gaps.NoSmallerGapCovers | internal/metrics/readiness.go:611-636 | No bound more than a tick smaller has that property. |
| Gaps.GapsSpanWindow | internal/metrics/readiness.go:611-636 | (samples + 1) times the largest gap is at least the window length. |
| Gaps.MedianSampleResolution | internal/metrics/readiness.go:592-609 | The median gap, with the middle two averaged for an even number. |
| Gaps.ResolutionSplitsSteps | internal/metrics/readiness.go:592-609 | The median resolution splits the steps in half; it is one of them, or the mean of the middle two cut to a whole tick. |
| Gaps.MedianWithinMaxGap | internal/metrics/readiness.go:592-609 | The median resolution never exceeds the largest gap. |
| Gaps.MissingFractionRange | internal/metrics/readiness.go:638-652 | The fraction is in [0, 1], zero exactly when enough samples are there and one exactly when none are. |
| Gaps.MissingFractionCounts | internal/metrics/readiness.go:638-652 | The fraction counts the expected samples that are not there. |
| Gaps.ExpectedFit | internal/metrics/readiness.go:638-652 | As many samples are expected as fit at the expected resolution from the start of the stretch. |
| Gaps.SmallGapsMissLittle | internal/metrics/readiness.go:638-652 | When no gap exceeds the target resolution at most two expected samples are missing. |
| Readiness.AnalyzeSeries | internal/metrics/readiness.go:503-528 | Count, coverage, lookback, missing fraction, median resolution, largest gap and label count of the normalised series. |
| Readiness.CheckQuality | internal/metrics/readiness.go:244-283 | The severity is the worst of the five checks, and the issues are exactly those of the checks not passed, in order. |
| Readiness.EvaluateDemandStability | internal/metrics/readiness.go:461-501 | The severity is worsened by exactly the stability level, with an issue exactly when that is not supported. |
| Readiness.EvaluateStandardSignal | internal/metrics/readiness.go:212-309 | An absent signal is missing; a present one has the worst level and exactly the issues of its checks; it gives a blocking or degrading reason exactly when required and at that level. |
| Readiness.SignalMeaning | internal/metrics/readiness.go:212-309 | A present signal is unsupported exactly when its series passes some outer limit, and fully supported exactly when it passes no inner one, of history, missing samples, resolution, largest gap and labels; demand must also be stable. |
| Readiness.IssueMeaning | internal/metrics/readiness.go:244-283 | An issue is reported exactly when its limit for full support is passed. |
| Readiness.StabilityMeaning | internal/metrics/readiness.go:461-501 | Demand is unstable when it cannot be judged or the share of abrupt steps exceeds the limit. |
| Readiness.AbruptStepsAreCounted | internal/metrics/readiness.go:461-501 | Abrupt steps are the places where the change exceeds the threshold and that share of the mean size of the two values. |
| Readiness.EvaluateWarmup | internal/metrics/readiness.go:311-410 | The whole report: supported only for a declared positive warmup, degraded with the rounded median of enough positive samples, and otherwise blocking with its issue. |
| Readiness.WarmupMeaning | internal/metrics/readiness.go:311-410 | Declared, missing, refused for mixed labels or too few positive samples, or the whole number of seconds nearest to the median of the positive samples. |
| Readiness.Summarize | internal/metrics/readiness.go:191-207 | The report level is the worst over the required signals, with missing counted as unsupported; the reasons are exactly those of the required signals that block or degrade; optional ones never count. |
| Readiness.ReportLevelMeaning | internal/metrics/readiness.go:191-207 | A required signal that is unsupported or missing makes the report unsupported; else a degraded one degrades it. |
| Readiness.ReasonsMeaning | internal/metrics/readiness.go:191-207 | The reasons are those of the required signals that are not fully supported; the ones not just degraded block. |
| Readiness.DefaultsMeaning | internal/metrics/readiness.go:48-110 | Options that are set are kept, and unset ones get the documented defaults. |
| Readiness.Evaluate | internal/metrics/readiness.go:169-210 | Errors exactly on invalid options or a negative warmup; otherwise every signal is judged on its own data and the report takes the worst required level. |
| Readiness.SupportedMeansAllPass | internal/metrics/readiness.go:169-210 | A fully supported report means a declared warmup and all four metrics present and passing every check, and conversely. |
| Readiness.BetterStatsNeverHurt | internal/metrics/readiness.go:244-283 | Longer lookback and smaller deviations never worsen a level. |
| Readiness.DenseSeriesIsSupported | internal/metrics/readiness.go:244-283 | A long enough series with no gap above the expected resolution passes every check when two missing samples are tolerated. |
| Status.PolicyStatus.constructor | internal/controller/predictivescalingpolicy_controller.go:44-44 | A working copy starts as the stored status. |
| Status.PolicyStatus.MarkInvalidSpec | internal/controller/status.go:43-78 | Clears the recommendation and records the invalid specification. |
| Status.PolicyStatus.MarkUnsupportedMode | internal/controller/status.go:80-115 | Clears the recommendation and records the unsupported mode. |
| Status.PolicyStatus.MarkTargetFailure | internal/controller/status.go:117-157 | Clears the recommendation and records why the target failed. |
| Status.PolicyStatus.MarkEvaluationFailure | internal/controller/status.go:159-190 | Clears the recommendation, records the failure and keeps the target condition. |
| Status.PolicyStatus.ApplyEvaluation | internal/controller/status.go:210-317 | Records the recommendation and the telemetry, recommendation and reconcile conditions of the evaluation, and nothing else. |
| Status.UpdatesAreConsistent | internal/controller/status.go:43-340 | After every update the condition is in step with the recommendation, resolving the target changes neither, and what was surfaced reads back for its own generation only. |
| Status.RejectedMeaning | internal/controller/status.go:43-115 | What a refused policy says of each condition. |
| Status.TargetFailedMeaning | internal/controller/status.go:117-157 | What a failed target says of each condition. |
| Status.FailedMeaning | internal/controller/status.go:159-208 | What a failed evaluation says of each condition. |
| Status.EvaluatedMeaning | internal/controller/status.go:210-317 | What an evaluation says of each condition and records of its recommendation. |
| Status.StoringOnlyTruncates | internal/controller/status.go:342-350 | Storing keeps everything but the part of a second in the recommendation time, and storing twice changes nothing more. |
| Controller.EvaluatePipeline | internal/controller/evaluation.go:81-250 | Which stage an evaluation reaches, and that its decision is the recommender's on the recovered previous recommendation. |
| Controller.Policy.WriteStatus | internal/controller/predictivescalingpolicy_controller.go:132-146 | The status is replaced by the stored form of the desired one exactly when the write succeeds; an unchanged one needs no write. |
| Controller.Policy.Reconcile | internal/controller/predictivescalingpolicy_controller.go:31-130 | The status after a reconcile is the one its outcome prescribes, and is unchanged when the policy is missing or the write fails. |
| Controller.ReconcileMeaning | internal/controller/predictivescalingpolicy_controller.go:31-130 | How far a reconcile gets: the conditions are those of the first thing that goes wrong, and it succeeds exactly when nothing does. |
| Controller.FindingMeaning | internal/controller/evaluation.go:81-250 | What a reconcile that succeeds records, by what its evaluation found. |
| Controller.ReachableStatusIsConsistent | internal/controller/status.go:210-317 | In every reachable status the condition is true exactly when the last recommendation is available, false exactly when it is not, and unknown when there is none. |
| Controller.StepReadsBack | internal/controller/status.go:322-340 | The recovered recommendation is what this reconcile surfaced, for its own generation, and nothing for any other. |
| Controller.StatusRemembersLastSurfaced | internal/controller/status.go:322-340 | Over every run, with failed writes and generation changes, the status recovers exactly what the last effective same-generation reconcile surfaced, its time cut to whole seconds. |
| Controller.AdjacentReconcilesRespectCooldown | internal/controller/predictivescalingpolicy_controller.go:100-113 | Two adjacent same-generation reconciles that surface different counts are at least the cooldown apart, measured from the whole second of the first. |
| Controller.FullCooldownKeptIff | internal/controller/status.go:322-340 | The full cooldown is kept by every following reconcile exactly when the recommendation was surfaced on a whole second. |
| Controller.CooldownSurvivesIff | internal/controller/predictivescalingpolicy_controller.go:100-118 | Inside a cooldown, the cooldown still binds after one more reconcile exactly when that reconcile has no effect or recommends again, available, for the same generation. |
| Controller.KeepsMemoryIff | internal/controller/status.go:322-340 | A reconcile keeps the memory exactly under that guard on its inputs. |
| Controller.UnbrokenMemoryKeepsCooldown | internal/controller/predictivescalingpolicy_controller.go:100-113 | While every reconcile passes that guard and the clock does not run back, any two different counts are at least the cooldown apart from the whole second of the first. |
| Controller.BrokenMemoryBreaksCooldown | internal/controller/status.go:222-276 | A concrete history: one unready reconcile in between, and two different counts are surfaced two seconds apart under a cooldown of a minute. |

## Left out

- HeadroomProvider.ClusterNeverOverrulesIff: the count in the necessity half is unbounded, so it may exceed what the estimator can be asked for; ClusterNeverOverrulesInt32Iff bounds it, for one signal at a time. Totals are taken to fit in 64 bits.
- Engine.Run: counts of suppressions, models and reliability levels and the forecast quality of a report are not modelled.
- HeadroomProvider.NodeEstimateDecides: assumes the 64-bit totals do not wrap.
- Accounting.RequiredIsLeastCarrying: the cast to int32 is not modelled, so the required proxy is an unbounded integer.
- Seasonality.DetectSeasonality: the square root is a parameter with its defining property, and the undefined confidence at a minimum correlation of exactly 1 is an absent value.
- DetectedSeason.ForecastIsExactIff: that no other season is exact is stated for horizons that cover the season and searches from lag 2, as the callers ask for; a shorter forecast can match by coincidence.
- PointTimes.PointsOnTimeIff: likewise for horizons that cover a period; for shorter ones PointOfLateForecast gives the condition point by point.
- Controller.EvaluatePipeline: what telemetry, dependency, headroom and forecast steps find is an arbitrary input, not computed by the modules that model them.
- Gaps.NormalizeSamples: which of several samples at one instant survives is left open, because the sort is unstable.
- float64 rounding, infinities and NaN: values are reals.
- Readiness issue text and numbers, explanation text, advisories, confidence notes, and caveats.
- Auto.AutoForecast: advisories and the list of candidates are not part of a result, and the choice is told by a function with the code's branches; ChoiceGuarantees says what every choice keeps.
- Engine.RunSpec: a missing metrics source and a failed load are not among its errors; looking up the samples on the grid, slicing snapshots, readiness and capacity estimation inside a replay are answers from outside, and arbitrary, so the whole-run theorems hold for any of them.
- Observed workload, telemetry detail, forecast summary and suppression list in the policy status; only the conditions and the last recommendation are kept.
- The requeue delay and the error a reconcile returns.
- Policy defaults, field validation and choosing context windows.
- Kubernetes, Prometheus and TimesFM calls, the command line, the dashboard pages and report rendering.
- The side-by-side model, which repeats the selection of the automatic one, and workload discovery.
