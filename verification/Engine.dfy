/** Whole replay runs: the loop over the grid and what its report promises. */
module Engine {
  import opened Core
  import opened Bounds
  import opened Grid
  import opened Timeline
  import opened RunProperties
  import opened Accounting
  import opened Replay
  import Safety

  datatype Report = Report(
    start: int32, events: seq<Event>, evaluations: seq<Evaluation>, replicas: seq<int32>, pending: seq<Activation>,
    scaleUps: nat, scaleDowns: nat, totals: Totals, recount: Summary, complete: bool)

  /** How many leading grid points lie before the replay window. */
  function BeforeWindow(times: seq<Time>, windowStart: Time): (n: nat)
    ensures n <= |times|
    ensures forall i :: 0 <= i < n ==> times[i] < windowStart
    ensures n < |times| ==> times[n] >= windowStart
  {
    if times == [] || times[0] >= windowStart then 0 else 1 + BeforeWindow(times[1..], windowStart)
  }

  /** The observations that the run evaluates. */
  function InWindow(cfg: Config, observed: seq<StepInput>): seq<StepInput> {
    observed[BeforeWindow(Times(observed), cfg.windowStart)..]
  }

  /** The simulated count starts from the first observed count in the window. */
  function StartCount(steps: seq<StepInput>): int32 {
    if steps == [] then 0 else Max(0, steps[0].replicas)
  }

  lemma PacedBounds(times: seq<Time>, step: Duration, i: nat)
    requires Paced(times, step) && i < |times|
    ensures times[0] <= times[i] <= times[|times| - 1]
  {
    if 0 < i {
      PacedIncreasing(times, step, 0, i);
    }
    if i < |times| - 1 {
      PacedIncreasing(times, step, i, |times| - 1);
    }
  }

  /** The grid ends at the end of the window, so some point is evaluated, and all evaluated points are inside. */
  lemma GridReachesWindow(cfg: Config, observed: seq<StepInput>)
    requires ValidConfig(cfg)
    requires IsGrid(Times(observed), cfg.windowStart - cfg.lookback, cfg.windowEnd, cfg.step)
    ensures var steps := InWindow(cfg, observed);
            && steps != []
            && Times(steps) == Times(observed)[BeforeWindow(Times(observed), cfg.windowStart)..]
            && Paced(Times(steps), cfg.step)
            && forall i :: 0 <= i < |steps| ==> cfg.windowStart <= steps[i].at <= cfg.windowEnd
  {
    var times := Times(observed);
    var first := BeforeWindow(times, cfg.windowStart);
    var steps := InWindow(cfg, observed);
    GridIsPaced(times, cfg.windowStart - cfg.lookback, cfg.windowEnd, cfg.step);
    assert first < |times| by {
      assert times[|times| - 1] == cfg.windowEnd;
    }
    PacedSuffix(times, cfg.step, first);
    assert Times(steps) == times[first..];
    forall i | 0 <= i < |steps|
      ensures cfg.windowStart <= steps[i].at <= cfg.windowEnd
    {
      assert steps[i].at == Times(steps)[i];
      PacedBounds(Times(steps), cfg.step, i);
    }
  }

  // ---- the trajectory of the whole run ----

  /** Later events never rewrite an earlier count: what step `i` simulated is what the final events say. */
  lemma {:induction false} EarlierCountsStand(cfg: Config, start: int32, steps: seq<StepInput>, i: nat)
    requires ValidConfig(cfg) && Paced(Times(steps), cfg.step) && RunAccepted(cfg, start, steps) && i < |steps|
    ensures SimulatedAt(start, EventsOf(cfg, start, steps), cfg.warmup, steps[i].at) ==
            SimulatedAt(start, EventsOf(cfg, start, steps[..i]), cfg.warmup, steps[i].at)
    decreases |steps|
  {
    var n := |steps| - 1;
    var before := EventsOf(cfg, start, steps[..n]);
    PrefixOfRun(cfg, start, steps, n);
    assert steps == steps[..n] + [steps[n]];
    EventsBeforeStep(cfg, start, steps[..n], steps[n]);
    if i < n {
      EarlierCountsStand(cfg, start, steps[..n], i);
      assert steps[..n][..i] == steps[..i];
      PacedIncreasing(Times(steps), cfg.step, i, n);
    }
    EveryRunIsDisciplined(cfg, start, steps);
    DisciplinedByTime(cfg, start, EventsOf(cfg, start, steps));
    StepLeavesPast(cfg, start, before, steps[n], steps[i].at);
  }

  lemma StepLeavesPast(cfg: Config, start: int32, before: seq<Event>, s: StepInput, t: Time)
    requires ValidConfig(cfg) && ByTime(AfterStep(cfg, start, before, s)) && t <= s.at
    ensures SimulatedAt(start, AfterStep(cfg, start, before, s), cfg.warmup, t) ==
            SimulatedAt(start, before, cfg.warmup, t)
  {
    if AfterStep(cfg, start, before, s) != before {
      var e := AfterStep(cfg, start, before, s)[|before|];
      assert AfterStep(cfg, start, before, s) == before + [e];
      LaterEventsDoNotMatter(start, before, e, cfg.warmup, t);
    }
  }

  lemma EvaluationShowsCount(cfg: Config, start: int32, steps: seq<StepInput>, replicas: seq<int32>,
                             evaluations: seq<Evaluation>, i: nat)
    requires ValidConfig(cfg) && Paced(Times(steps), cfg.step) && RunAccepted(cfg, start, steps) && i < |steps|
    requires EvaluationsMatch(cfg, start, steps, replicas, evaluations)
    ensures replicas[i] == evaluations[i].simulated ==
            SimulatedAt(start, EventsOf(cfg, start, steps), cfg.warmup, steps[i].at)
  {
    assert Reports(cfg, start, EventsOf(cfg, start, steps[..i]), steps[i], evaluations[i]);
    EarlierCountsStand(cfg, start, steps, i);
  }

  /** The recorded counts are the trajectory that the run's events describe. */
  lemma ReplicasAreTrajectory(cfg: Config, start: int32, steps: seq<StepInput>, replicas: seq<int32>,
                              evaluations: seq<Evaluation>)
    requires ValidConfig(cfg) && Paced(Times(steps), cfg.step) && RunAccepted(cfg, start, steps)
    requires EvaluationsMatch(cfg, start, steps, replicas, evaluations)
    ensures replicas == Trajectory(start, EventsOf(cfg, start, steps), cfg.warmup, Times(steps), |steps|)
    ensures forall i :: 0 <= i < |steps| ==>
              evaluations[i].simulated == SimulatedAt(start, EventsOf(cfg, start, steps), cfg.warmup, steps[i].at)
  {
    var trajectory := Trajectory(start, EventsOf(cfg, start, steps), cfg.warmup, Times(steps), |steps|);
    forall i | 0 <= i < |steps|
      ensures replicas[i] == trajectory[i] == evaluations[i].simulated ==
              SimulatedAt(start, EventsOf(cfg, start, steps), cfg.warmup, steps[i].at)
    {
      EvaluationShowsCount(cfg, start, steps, replicas, evaluations, i);
    }
  }

  /** What the run's variables say about its events after the last step. */
  lemma MatchedVariables(cfg: Config, start: int32, steps: seq<StepInput>, intervals: seq<Duration>, st: Variables)
    requires ValidConfig(cfg) && steps != [] && Matches(cfg, start, steps, intervals, st)
    ensures st.events == EventsOf(cfg, start, steps)
    ensures EvaluationsMatch(cfg, start, steps, st.replicas, st.evaluations)
    ensures st.pending == InFlight(st.events, cfg.warmup, steps[|steps| - 1].at)
    ensures st.scaleUps == Rises(st.replicas) && st.scaleDowns == Falls(st.replicas)
  {
    hide EvaluationsMatch, EventsOf, InFlight, Rises, Falls, TotalsOf;
  }

  /** Scale-ups and scale-downs together are the events that are no longer pending. */
  lemma CountersCountEvents(cfg: Config, start: int32, steps: seq<StepInput>, intervals: seq<Duration>, st: Variables)
    requires ValidConfig(cfg) && steps != [] && Paced(Times(steps), cfg.step) && RunAccepted(cfg, start, steps)
    requires Matches(cfg, start, steps, intervals, st)
    ensures st.scaleUps + st.scaleDowns == |st.events| - |st.pending|
  {
    hide Matches, RunAccepted, EventsOf, EvaluationsMatch, Paced, AtSteps, Disciplined, Rises, Falls, Trajectory,
         InFlight, SimulatedAt, RipeCount, Scheduled, Sound, Reports, StepAccepted, Surfaces, AfterStep;
    MatchedVariables(cfg, start, steps, intervals, st);
    EveryRunIsDisciplined(cfg, start, steps);
    assert st.replicas == Trajectory(start, st.events, cfg.warmup, Times(steps), |steps|) by {
      ReplicasAreTrajectory(cfg, start, steps, st.replicas, st.evaluations);
    }
    ChangesAreMaturedEvents(cfg, start, st.events, Times(steps), |steps|);
  }

  /** Scored, unscored and forecast-failed time tile the run; overload and excess fit in the scored time. */
  lemma RunConservesTime(cfg: Config, observed: seq<StepInput>, evaluations: seq<Evaluation>, intervals: seq<Duration>)
    requires ValidConfig(cfg)
    requires IsGrid(Times(observed), cfg.windowStart - cfg.lookback, cfg.windowEnd, cfg.step)
    requires |evaluations| == |InWindow(cfg, observed)|
    requires intervals == IntervalsFrom(Times(observed), cfg.windowEnd,
                                        BeforeWindow(Times(observed), cfg.windowStart), |evaluations|)
    ensures var t := TotalsOf(evaluations, intervals);
            && t.scored + t.unscored + TimeWhere(evaluations, intervals, Failed) ==
               cfg.windowEnd - InWindow(cfg, observed)[0].at
            && t.baselineOverload + t.baselineExcess <= t.scored
            && t.replayOverload + t.replayExcess <= t.scored
  {
    hide IsGrid, Paced, TimeWhere, BeforeWindow;
    var times := Times(observed);
    var first := BeforeWindow(times, cfg.windowStart);
    GridReachesWindow(cfg, observed);
    TimeIsConserved(evaluations, intervals);
    NonNegativeIntervals(times, cfg.windowEnd, first, |evaluations|);
    IntervalsAddUp(times, cfg.windowEnd, first, |evaluations|);
    IntervalsTile(times, cfg.windowStart - cfg.lookback, cfg.windowEnd, cfg.step, first, |times|);
    assert Times(InWindow(cfg, observed))[0] == InWindow(cfg, observed)[0].at;
    OverloadAndExcessDisjoint(evaluations, intervals);
  }

  lemma NonNegativeIntervals(times: seq<Time>, end: Time, first: nat, n: nat)
    ensures forall i :: 0 <= i < n ==> IntervalsFrom(times, end, first, n)[i] >= 0
  {
    forall i | 0 <= i < n
      ensures IntervalsFrom(times, end, first, n)[i] >= 0
    {
      assert IntervalsFrom(times, end, first, n)[i] == StepInterval(times, first + i, end);
    }
  }

  // ---- the run ----

  /** The intervals of the evaluated steps, one per evaluation. */
  function RunIntervals(cfg: Config, observed: seq<StepInput>): seq<Duration> {
    IntervalsFrom(Times(observed), cfg.windowEnd, BeforeWindow(Times(observed), cfg.windowStart),
                  |InWindow(cfg, observed)|)
  }

  /** The simulator has taken the first `n` of the steps. */
  ghost predicate SoFar(sim: Simulation, cfg: Config, start: int32, steps: seq<StepInput>, intervals: seq<Duration>, n: nat)
    reads sim
  {
    && sim.Valid() && sim.cfg == cfg && sim.start == start
    && n <= |steps| == |intervals|
    && sim.done == steps[..n] && sim.intervals == intervals[..n]
  }

  method StepAt(sim: Simulation, s: StepInput, interval: Duration,
                ghost steps: seq<StepInput>, ghost intervals: seq<Duration>, ghost n: nat) returns (ok: bool)
    requires SoFar(sim, sim.cfg, sim.start, steps, intervals, n)
    requires Paced(Times(steps), sim.cfg.step) && n < |steps| && steps[n] == s && intervals[n] == interval
    modifies sim
    ensures ok ==> SoFar(sim, sim.cfg, sim.start, steps, intervals, n + 1)
    ensures !ok ==> !RunAccepted(sim.cfg, sim.start, steps)
  {
    hide StepAccepted, RunAccepted, Matches, EventsOf, Paced;
    NextStep(steps, sim.cfg.step, n);
    assert intervals[..n] + [intervals[n]] == intervals[..n + 1];
    ok := sim.Step(s, interval);
    if !ok {
      RejectedRun(sim.cfg, sim.start, steps, n);
    }
  }

  /** The loop over the grid: points before the window are skipped, every other one is a step. */
  method Simulate(cfg: Config, observed: seq<StepInput>) returns (sim: Simulation, ok: bool)
    requires ValidConfig(cfg)
    requires IsGrid(Times(observed), cfg.windowStart - cfg.lookback, cfg.windowEnd, cfg.step)
    ensures ok <==> RunAccepted(cfg, StartCount(InWindow(cfg, observed)), InWindow(cfg, observed))
    ensures ok ==> SoFar(sim, cfg, StartCount(InWindow(cfg, observed)), InWindow(cfg, observed),
                         RunIntervals(cfg, observed), |InWindow(cfg, observed)|)
  {
    hide RunAccepted, EventsOf, IsGrid, Matches, Paced, InWindow, RunIntervals, BeforeWindow, StepInterval;
    GridReachesWindow(cfg, observed);
    WindowIndex(cfg, observed);
    ghost var first := BeforeWindow(Times(observed), cfg.windowStart);
    ghost var steps := InWindow(cfg, observed);
    ghost var intervals := RunIntervals(cfg, observed);
    var start := StartCount(InWindow(cfg, observed));
    sim := new Simulation(cfg, start);
    for index := 0 to |observed|
      invariant fresh(sim) && SoFar(sim, cfg, start, steps, intervals, Max(0, index - first))
    {
      SkippedIffBeforeWindow(cfg, observed, index);
      if observed[index].at < cfg.windowStart {
        continue;
      }
      if observed[index].at > cfg.windowEnd {
        break;
      }
      var accepted := StepAt(sim, observed[index], StepInterval(Times(observed), index, cfg.windowEnd),
        steps, intervals, index - first);
      if !accepted {
        return sim, false;
      }
    }
    WholeRun(sim, cfg, start, steps, intervals);
    return sim, true;
  }

  lemma WindowIndex(cfg: Config, observed: seq<StepInput>)
    ensures var first := BeforeWindow(Times(observed), cfg.windowStart);
            var steps := InWindow(cfg, observed);
            && first + |steps| == |observed| && |RunIntervals(cfg, observed)| == |steps|
            && forall i :: first <= i < |observed| ==>
                 && steps[i - first] == observed[i]
                 && RunIntervals(cfg, observed)[i - first] == StepInterval(Times(observed), i, cfg.windowEnd)
  {
  }

  lemma WholeRun(sim: Simulation, cfg: Config, start: int32, steps: seq<StepInput>, intervals: seq<Duration>)
    requires SoFar(sim, cfg, start, steps, intervals, |steps|)
    ensures RunAccepted(cfg, start, steps) && Matches(cfg, start, steps, intervals, sim.Snapshot())
  {
    assert steps[..|steps|] == steps && intervals[..|steps|] == intervals;
  }

  lemma SkippedIffBeforeWindow(cfg: Config, observed: seq<StepInput>, index: nat)
    requires ValidConfig(cfg) && index < |observed|
    requires IsGrid(Times(observed), cfg.windowStart - cfg.lookback, cfg.windowEnd, cfg.step)
    ensures observed[index].at <= cfg.windowEnd
    ensures observed[index].at < cfg.windowStart <==> index < BeforeWindow(Times(observed), cfg.windowStart)
  {
    var first := BeforeWindow(Times(observed), cfg.windowStart);
    assert Times(observed)[index] == observed[index].at;
    GridReachesWindow(cfg, observed);
    if index >= first {
      assert InWindow(cfg, observed)[index - first] == observed[index];
    }
  }

  lemma NextStep(steps: seq<StepInput>, step: Duration, i: nat)
    requires i < |steps| && Paced(Times(steps), step)
    ensures Paced(Times(steps[..i] + [steps[i]]), step)
    ensures steps[..i] + [steps[i]] == steps[..i + 1]
  {
    var next := steps[..i] + [steps[i]];
    assert next == steps[..i + 1];
    assert forall j :: 0 <= j <= i ==> Times(next)[j] == Times(steps)[j];
  }

  lemma RejectedRun(cfg: Config, start: int32, steps: seq<StepInput>, i: nat)
    requires ValidConfig(cfg) && i < |steps|
    requires !StepAccepted(cfg, start, EventsOf(cfg, start, steps[..i]), steps[i])
    ensures !RunAccepted(cfg, start, steps)
  {
  }

  // ---- the report ----

  /** What the report of an accepted run says about the run. */
  ghost predicate ReportHolds(cfg: Config, observed: seq<StepInput>, rep: Report)
    requires ValidConfig(cfg)
  {
    var steps := InWindow(cfg, observed);
    && rep.start == StartCount(steps)
    && rep.events == EventsOf(cfg, rep.start, steps)
    && EvaluationsMatch(cfg, rep.start, steps, rep.replicas, rep.evaluations)
    && rep.replicas == Trajectory(rep.start, rep.events, cfg.warmup, Times(steps), |steps|)
    && rep.pending == InFlight(rep.events, cfg.warmup, cfg.windowEnd)
    && rep.scaleUps + rep.scaleDowns == |rep.events| - |rep.pending|
    && Summarises(rep.recount, rep.replicas)
    && rep.recount.ups == rep.scaleUps && rep.recount.downs == rep.scaleDowns
    && rep.totals == TotalsOf(rep.evaluations, RunIntervals(cfg, observed))
    && (rep.complete <==> rep.totals.scored != 0)
  }

  lemma LastPointIsWindowEnd(cfg: Config, observed: seq<StepInput>)
    requires ValidConfig(cfg)
    requires IsGrid(Times(observed), cfg.windowStart - cfg.lookback, cfg.windowEnd, cfg.step)
    ensures LastTime(InWindow(cfg, observed), 0) == cfg.windowEnd
  {
    GridReachesWindow(cfg, observed);
    var times := Times(observed);
    assert times[|times| - 1] == observed[|observed| - 1].at;
  }

  /** A whole replay run over any observations and any answers. */
  method Run(cfg: Config, observed: seq<StepInput>) returns (r: Result<Report, Error>)
    requires ValidConfig(cfg)
    requires IsGrid(Times(observed), cfg.windowStart - cfg.lookback, cfg.windowEnd, cfg.step)
    ensures r.Ok? <==> RunAccepted(cfg, StartCount(InWindow(cfg, observed)), InWindow(cfg, observed))
    ensures r.Ok? ==> ReportHolds(cfg, observed, r.value)
  {
    hide RunAccepted, EvaluationsMatch, EventsOf, Paced, IsGrid;
    ghost var steps := InWindow(cfg, observed);
    ghost var start := StartCount(steps);
    GridReachesWindow(cfg, observed);
    LastPointIsWindowEnd(cfg, observed);
    var sim, ok := Simulate(cfg, observed);
    if !ok {
      return Err(StepFailed);
    }
    WholeRun(sim, cfg, start, steps, RunIntervals(cfg, observed));
    CountersCountEvents(cfg, start, steps, RunIntervals(cfg, observed), sim.Snapshot());
    ReplicasAreTrajectory(cfg, start, steps, sim.replicas, sim.evaluations);
    var recount := SummarizeObservations(sim.replicas);
    return Ok(Report(sim.start, sim.events, sim.evaluations, sim.replicas, sim.pending, sim.scaleUps, sim.scaleDowns,
                     sim.totals, recount, sim.totals.scored != 0));
  }

  // ---- whole-run guarantees ----

  /** The report of an accepted run over its grid. */
  ghost predicate Reported(cfg: Config, observed: seq<StepInput>, rep: Report) {
    && ValidConfig(cfg)
    && IsGrid(Times(observed), cfg.windowStart - cfg.lookback, cfg.windowEnd, cfg.step)
    && RunAccepted(cfg, StartCount(InWindow(cfg, observed)), InWindow(cfg, observed))
    && ReportHolds(cfg, observed, rep)
  }

  /** What a replay ends in when nothing fails: no run at all on unsupported telemetry, or a report. */
  datatype Outcome = UnsupportedTelemetry | Completed(report: Report)

  /** What was observed and answered at a grid point; there is nothing before the first sample. */
  function ObservedAt(answers: Time -> Option<StepInput>, t: Time): StepInput
    requires answers(t).Some?
  {
    answers(t).value.(at := t, replicas := Max(0, answers(t).value.replicas))
  }

  predicate Answered(answers: Time -> Option<StepInput>, grid: seq<Time>) {
    forall i :: 0 <= i < |grid| ==> answers(grid[i]).Some?
  }

  function ObservedGrid(answers: Time -> Option<StepInput>, grid: seq<Time>): seq<StepInput>
    requires Answered(answers, grid)
  {
    seq(|grid|, i requires 0 <= i < |grid| => ObservedAt(answers, grid[i]))
  }

  method BuildObservedGrid(answers: Time -> Option<StepInput>, grid: seq<Time>) returns (r: Result<seq<StepInput>, Error>)
    ensures r.Ok? <==> Answered(answers, grid)
    ensures r.Ok? ==> r.value == ObservedGrid(answers, grid) && Times(r.value) == grid
  {
    var out: seq<StepInput> := [];
    for i := 0 to |grid|
      invariant |out| == i
      invariant forall j :: 0 <= j < i ==> answers(grid[j]).Some? && out[j] == ObservedAt(answers, grid[j])
    {
      var sample := answers(grid[i]);
      if sample.None? {
        return Err(InvalidSpec);
      }
      out := out + [sample.value.(at := grid[i], replicas := Max(0, sample.value.replicas))];
    }
    return Ok(out);
  }

  /** How a replay over a grid ends, by what was answered on it and by the telemetry of the whole window. */
  ghost predicate EndsWith(cfg: Config, grid: seq<Time>, answers: Time -> Option<StepInput>, full: Safety.TelemetryLevel,
                           r: Result<Outcome, Error>)
    requires ValidConfig(cfg)
  {
    if !Answered(answers, grid) then r.Err?
    else
      var observed := ObservedGrid(answers, grid);
      if full == Safety.Unsupported then r == Ok(UnsupportedTelemetry)
      else if RunAccepted(cfg, StartCount(InWindow(cfg, observed)), InWindow(cfg, observed))
      then r.Ok? && r.value.Completed? && Reported(cfg, observed, r.value.report)
      else r.Err?
  }

  /**
   * From the raw specification: defaults, readiness of the whole window, the step grid, the samples
   * on it, then the run.
   */
  method RunSpec(raw: Config, targetNamed: bool, full: Option<Safety.TelemetryLevel>, answers: Time -> Option<StepInput>)
    returns (r: Result<Outcome, Error>)
    ensures WithDefaults(raw, targetNamed).Err? || full.None? ==> r.Err?
    ensures WithDefaults(raw, targetNamed).Ok? && full.Some? ==>
              var cfg := WithDefaults(raw, targetNamed).value;
              exists grid :: IsGrid(grid, cfg.windowStart - cfg.lookback, cfg.windowEnd, cfg.step)
                             && EndsWith(cfg, grid, answers, full.value, r)
  {
    hide RunAccepted, ReportHolds, Filled, Refused, IsGrid, InWindow;
    var resolved := WithDefaults(raw, targetNamed);
    if resolved.Err? {
      return Err(resolved.error);
    }
    if full.None? {
      return Err(StepFailed);
    }
    var cfg := resolved.value;
    var grid := BuildStepGrid(cfg.windowStart - cfg.lookback, cfg.windowEnd, cfg.step);
    var built := BuildObservedGrid(answers, grid);
    if built.Err? {
      r := Err(built.error);
      assert EndsWith(cfg, grid, answers, full.value, r);
      return;
    }
    var observed := built.value;
    if full.value == Safety.Unsupported {
      r := Ok(UnsupportedTelemetry);
      assert EndsWith(cfg, grid, answers, full.value, r);
      return;
    }
    var run := Run(cfg, observed);
    r := if run.Ok? then Ok(Completed(run.value)) else Err(run.error);
    assert EndsWith(cfg, grid, answers, full.value, r);
  }

  /** The trajectory and the queue of a report, over evaluated times that are paced. */
  lemma ReportedTrajectory(cfg: Config, observed: seq<StepInput>, rep: Report)
    requires Reported(cfg, observed, rep)
    ensures var times := Times(InWindow(cfg, observed));
            && Paced(times, cfg.step)
            && rep.replicas == Trajectory(rep.start, rep.events, cfg.warmup, times, |times|)
            && rep.pending == InFlight(rep.events, cfg.warmup, cfg.windowEnd)
  {
    hide RunAccepted, EvaluationsMatch, EventsOf, IsGrid, Paced;
    GridReachesWindow(cfg, observed);
  }

  lemma ReportedRun(cfg: Config, observed: seq<StepInput>, rep: Report)
    requires Reported(cfg, observed, rep)
    ensures ValidConfig(cfg) && IsGrid(Times(observed), cfg.windowStart - cfg.lookback, cfg.windowEnd, cfg.step)
    ensures RunAccepted(cfg, rep.start, InWindow(cfg, observed))
    ensures rep.events == EventsOf(cfg, rep.start, InWindow(cfg, observed))
  {
    hide RunAccepted, EvaluationsMatch, EventsOf, IsGrid, InWindow, Trajectory, InFlight, Summarises, TotalsOf;
  }

  lemma EventsWithin(events: seq<Event>, steps: seq<StepInput>, from: Time, to: Time)
    requires AtSteps(events, Times(steps)) && forall i :: 0 <= i < |steps| ==> from <= steps[i].at <= to
    ensures forall i :: 0 <= i < |events| ==> from <= events[i].at <= to
  {
    forall i | 0 <= i < |events|
      ensures from <= events[i].at <= to
    {
      var k :| 0 <= k < |steps| && Times(steps)[k] == events[i].at;
    }
  }

  /** The events of every reported run keep the discipline, at evaluated times inside the window. */
  lemma EventsInWindow(cfg: Config, observed: seq<StepInput>, rep: Report)
    requires Reported(cfg, observed, rep)
    ensures Disciplined(cfg, rep.start, rep.events) && AtSteps(rep.events, Times(InWindow(cfg, observed)))
    ensures forall i :: 0 <= i < |rep.events| ==> cfg.windowStart <= rep.events[i].at <= cfg.windowEnd
  {
    hide Reported, RunAccepted, EventsOf, IsGrid, InWindow, Paced, Disciplined, AtSteps;
    ReportedRun(cfg, observed, rep);
    GridReachesWindow(cfg, observed);
    EveryRunIsDisciplined(cfg, rep.start, InWindow(cfg, observed));
    EventsWithin(rep.events, InWindow(cfg, observed), cfg.windowStart, cfg.windowEnd);
  }

  /**
   * Consecutive events keep the cooldown apart, so the number of events is bounded by the length
   * of the window in cooldowns; every target is in the policy's range.
   */
  lemma WholeRunCooldown(cfg: Config, observed: seq<StepInput>, rep: Report)
    requires Reported(cfg, observed, rep)
    ensures forall i :: 0 < i < |rep.events| ==> rep.events[i - 1].at + cfg.cooldown <= rep.events[i].at
    ensures rep.events != [] ==> (|rep.events| - 1) * cfg.cooldown <= cfg.windowEnd - cfg.windowStart
    ensures forall i :: 0 <= i < |rep.events| ==> InRange(cfg.limits, rep.events[i].target)
  {
    hide RunAccepted, ReportHolds, IsGrid;
    EventsInWindow(cfg, observed, rep);
    EventCountBound(cfg, rep.start, rep.events, cfg.windowStart, cfg.windowEnd);
    forall i | 0 <= i < |rep.events|
      ensures InRange(cfg.limits, rep.events[i].target)
      ensures i > 0 ==> rep.events[i - 1].at + cfg.cooldown <= rep.events[i].at
    {
      assert Sound(cfg, rep.start, rep.events, i);
    }
  }

  /**
   * Every event of every reported run passed its gates at an evaluated step: ready telemetry, enough
   * confidence, no blackout, healthy dependencies and, for a gated scale-up, room for the added pods.
   */
  lemma WholeRunPassesGates(cfg: Config, observed: seq<StepInput>, rep: Report)
    requires Reported(cfg, observed, rep)
    ensures forall e :: e in rep.events ==> exists s :: s in InWindow(cfg, observed) && PassedGates(cfg, e, s)
  {
    hide Reported, RunAccepted, EventsOf, IsGrid, InWindow, Paced, PassedGates;
    ReportedRun(cfg, observed, rep);
    GridReachesWindow(cfg, observed);
    EveryEventPassedItsGates(cfg, rep.start, InWindow(cfg, observed));
  }

  lemma ReportedTotals(cfg: Config, observed: seq<StepInput>, rep: Report)
    requires Reported(cfg, observed, rep)
    ensures ValidConfig(cfg) && IsGrid(Times(observed), cfg.windowStart - cfg.lookback, cfg.windowEnd, cfg.step)
    ensures InWindow(cfg, observed) != [] && |rep.evaluations| == |InWindow(cfg, observed)|
    ensures |RunIntervals(cfg, observed)| == |rep.evaluations|
    ensures rep.totals == TotalsOf(rep.evaluations, RunIntervals(cfg, observed))
    ensures RunIntervals(cfg, observed) ==
            IntervalsFrom(Times(observed), cfg.windowEnd, BeforeWindow(Times(observed), cfg.windowStart), |rep.evaluations|)
  {
    hide RunAccepted, EventsOf, IsGrid, Paced, TotalsOf, Trajectory, InFlight, Summarises, InWindow, BeforeWindow, StepInterval;
    GridReachesWindow(cfg, observed);
  }

  /**
   * Scored, unscored and forecast-failed time add up to the window from its first evaluated point,
   * and overload and excess fit in the scored time for the baseline and for the replay.
   */
  lemma WholeRunConservesTime(cfg: Config, observed: seq<StepInput>, rep: Report)
    requires Reported(cfg, observed, rep)
    ensures rep.totals.scored + rep.totals.unscored + TimeWhere(rep.evaluations, RunIntervals(cfg, observed), Failed)
            == cfg.windowEnd - InWindow(cfg, observed)[0].at
    ensures rep.totals.baselineOverload + rep.totals.baselineExcess <= rep.totals.scored
    ensures rep.totals.replayOverload + rep.totals.replayExcess <= rep.totals.scored
  {
    hide Reported, TotalsOf, TimeWhere, RunIntervals, InWindow;
    ReportedTotals(cfg, observed, rep);
    RunConservesTime(cfg, observed, rep.evaluations, RunIntervals(cfg, observed));
  }

  lemma FailedShows(cfg: Config, observed: seq<StepInput>, rep: Report, i: nat)
    requires Reported(cfg, observed, rep) && i < |InWindow(cfg, observed)| == |rep.evaluations|
    ensures Failed(rep.evaluations[i]) <==> InWindow(cfg, observed)[i].forecast.None?
  {
    hide RunAccepted, IsGrid, TotalsOf, Summarises, InWindow, EventsOf, Trajectory, RunIntervals;
    var steps := InWindow(cfg, observed);
    assert Reports(cfg, rep.start, EventsOf(cfg, rep.start, steps[..i]), steps[i], rep.evaluations[i]);
  }

  lemma OnlyLastIntervalIsEmpty(cfg: Config, observed: seq<StepInput>, i: nat)
    requires ValidConfig(cfg) && i < |InWindow(cfg, observed)| == |RunIntervals(cfg, observed)|
    requires IsGrid(Times(observed), cfg.windowStart - cfg.lookback, cfg.windowEnd, cfg.step)
    ensures RunIntervals(cfg, observed)[i] >= 0
    ensures RunIntervals(cfg, observed)[i] == 0 <==> i == |InWindow(cfg, observed)| - 1
  {
    hide IsGrid, StepInterval, BeforeWindow, InWindow, RunIntervals;
    WindowIndex(cfg, observed);
    var index := BeforeWindow(Times(observed), cfg.windowStart) + i;
    assert RunIntervals(cfg, observed)[i] == StepInterval(Times(observed), index, cfg.windowEnd);
    LastIntervalIsEmpty(Times(observed), cfg.windowStart - cfg.lookback, cfg.windowEnd, cfg.step, index);
  }

  /**
   * The reported scored and unscored time make up the window from its first evaluated point exactly
   * when no forecast fails before the last evaluated point.
   */
  lemma ReportShowsAllTimeIff(cfg: Config, observed: seq<StepInput>, rep: Report)
    requires Reported(cfg, observed, rep)
    ensures var steps := InWindow(cfg, observed);
            && steps != []
            && rep.totals.scored + rep.totals.unscored <= cfg.windowEnd - steps[0].at
            && (rep.totals.scored + rep.totals.unscored == cfg.windowEnd - steps[0].at <==>
                forall i :: 0 <= i < |steps| - 1 ==> steps[i].forecast.Some?)
  {
    hide Reported, RunIntervals, InWindow, TimeWhere, IsGrid, Failed;
    ReportedTotals(cfg, observed, rep);
    WholeRunConservesTime(cfg, observed, rep);
    var steps, intervals := InWindow(cfg, observed), RunIntervals(cfg, observed);
    forall i | 0 <= i < |steps|
      ensures Failed(rep.evaluations[i]) <==> steps[i].forecast.None?
      ensures intervals[i] >= 0 && (intervals[i] == 0 <==> i == |steps| - 1)
    {
      FailedShows(cfg, observed, rep, i);
      OnlyLastIntervalIsEmpty(cfg, observed, i);
    }
    NoTimeIff(rep.evaluations, intervals, Failed);
  }

  /**
   * When the spacing of events covers the warmup, from each evaluated time to the next the count
   * stays or makes an allowed change.
   */
  lemma WholeRunStepLimits(cfg: Config, observed: seq<StepInput>, rep: Report, j: nat)
    requires Reported(cfg, observed, rep) && SafeTiming(cfg.step, cfg.warmup, cfg.cooldown)
    requires 0 < j < |rep.replicas|
    ensures rep.replicas[j - 1] == rep.replicas[j] || AllowedChange(cfg, rep.start, rep.replicas[j - 1], rep.replicas[j])
  {
    hide ReportHolds, RunAccepted, IsGrid, Disciplined, Paced, InWindow, ByTime, AtSteps, SafeTiming;
    EventsInWindow(cfg, observed, rep);
    ReportedTrajectory(cfg, observed, rep);
    ChangesRespectStepLimits(cfg, rep.start, rep.events, Times(InWindow(cfg, observed)), j);
  }

  /**
   * After every evaluated step at most one activation is pending when the cooldown covers the
   * warmup, and at every step but the last already when the spacing of events does.
   */
  lemma AtMostOnePending(cfg: Config, start: int32, steps: seq<StepInput>, j: nat)
    requires ValidConfig(cfg) && Paced(Times(steps), cfg.step) && RunAccepted(cfg, start, steps) && j < |steps|
    requires cfg.cooldown >= cfg.warmup || (j < |steps| - 1 && SafeTiming(cfg.step, cfg.warmup, cfg.cooldown))
    ensures |InFlight(EventsOf(cfg, start, steps[..j + 1]), cfg.warmup, steps[j].at)| <= 1
  {
    hide StepAccepted, EventsOf, SafeTiming, Spacing;
    var before := steps[..j + 1];
    var events := EventsOf(cfg, start, before);
    PrefixOfRun(cfg, start, steps, j + 1);
    EveryRunIsDisciplined(cfg, start, before);
    EventsUpTo(events, steps, cfg.step, j);
    forall i | 0 <= i < |events|
      ensures FindsMatured(events, cfg.warmup, i)
    {
      assert Sound(cfg, start, events, i);
      if i > 0 && cfg.cooldown < cfg.warmup {
        EventsAreSpacingApart(cfg, start, events, Times(steps), i);
        SpacingIsEnough(cfg);
      }
    }
    AtMostOneInFlight(events, cfg.warmup, steps[j].at);
  }

  lemma EventsUpTo(events: seq<Event>, steps: seq<StepInput>, step: Duration, j: nat)
    requires j < |steps| && Paced(Times(steps), step) && AtSteps(events, Times(steps[..j + 1]))
    ensures AtSteps(events, Times(steps))
    ensures forall i :: 0 <= i < |events| ==> events[i].at <= steps[j].at
    ensures j < |steps| - 1 ==> forall i :: 0 <= i < |events| ==> events[i].at < Times(steps)[|steps| - 1]
  {
    forall i | 0 <= i < |events|
      ensures events[i].at in Times(steps) && events[i].at <= steps[j].at
      ensures j < |steps| - 1 ==> events[i].at < Times(steps)[|steps| - 1]
    {
      var k :| 0 <= k <= j && Times(steps[..j + 1])[k] == events[i].at;
      assert Times(steps)[k] == events[i].at && Times(steps)[j] == steps[j].at;
      if k < j {
        PacedIncreasing(Times(steps), step, k, j);
      }
      if j < |steps| - 1 {
        PacedIncreasing(Times(steps), step, j, |steps| - 1);
      }
    }
  }

  /** The same of a whole run, with the queue its report ends on. */
  lemma WholeRunPending(cfg: Config, observed: seq<StepInput>, rep: Report, j: nat)
    requires Reported(cfg, observed, rep) && j < |InWindow(cfg, observed)|
    requires cfg.cooldown >= cfg.warmup
             || (j < |InWindow(cfg, observed)| - 1 && SafeTiming(cfg.step, cfg.warmup, cfg.cooldown))
    ensures var steps := InWindow(cfg, observed);
            |InFlight(EventsOf(cfg, rep.start, steps[..j + 1]), cfg.warmup, steps[j].at)| <= 1
    ensures cfg.cooldown >= cfg.warmup ==> |rep.pending| <= 1
  {
    hide RunAccepted, EventsOf, IsGrid, Paced, EvaluationsMatch, InWindow, SafeTiming;
    var steps := InWindow(cfg, observed);
    GridReachesWindow(cfg, observed);
    AtMostOnePending(cfg, rep.start, steps, j);
    if cfg.cooldown >= cfg.warmup {
      var last := |steps| - 1;
      AtMostOnePending(cfg, rep.start, steps, last);
      assert steps[..last + 1] == steps;
      LastPointIsWindowEnd(cfg, observed);
    }
  }

  /** Once the simulated count is within the policy's range it is so at every later evaluated time. */
  lemma WholeRunStaysInRange(cfg: Config, observed: seq<StepInput>, rep: Report, i: nat, j: nat)
    requires Reported(cfg, observed, rep)
    requires i <= j < |rep.replicas| && InRange(cfg.limits, rep.replicas[i])
    ensures InRange(cfg.limits, rep.replicas[j])
  {
    hide ReportHolds, RunAccepted, IsGrid, Disciplined, Paced, InWindow, ByTime, AtSteps;
    EventsInWindow(cfg, observed, rep);
    ReportedTrajectory(cfg, observed, rep);
    var times := Times(InWindow(cfg, observed));
    if i < j {
      PacedIncreasing(times, cfg.step, i, j);
      StaysInRange(cfg, rep.start, rep.events, times[i], times[j]);
    }
  }
}
