/** What the steps and the totals of a replay say, told by what was observed and nothing else. */
module StepAnswers {
  import opened Core
  import opened Bounds
  import opened Grid
  import opened Safety
  import opened Points
  import opened Recommend
  import opened Timeline
  import opened RunProperties
  import opened Accounting
  import opened Replay
  import opened Engine
  import Forecasting
  import Headroom

  // ---- one step ----

  /** The selected point is too early, or its demand cannot be turned into replicas. */
  predicate CannotSize(cfg: Config, s: StepInput, now: int32, p: Point) {
    || p.at < s.at + cfg.warmup
    || (p.value > 0.0 && (now < 1 || !s.capacity.estimated || s.capacity.perReplica <= 0.0))
  }

  /** The policy's gates are open at this step for surfacing `target` from `now` after `last`. */
  ghost predicate StepGatesOpen(cfg: Config, s: StepInput, last: Previous, now: int32, target: int32)
    requires s.forecast.Some?
  {
    && s.readiness == Some(Ready)
    && s.forecast.value.confidence >= cfg.threshold
    && (forall w :: w in cfg.blackouts ==> s.at < w.start || w.end < s.at)
    && (forall d :: d in cfg.dependencies ==> d.healthy && (d.minimum > 0.0 ==> d.ratio >= d.minimum))
    && (cfg.cooldown > 0 && last.changedAt != 0 && target != last.replicas ==> s.at >= last.changedAt + cfg.cooldown)
    && (cfg.headroomMode == RequireForScaleUp && target > now ==> Headroom.HasPlacement(s.headroom, target - now))
  }

  /**
   * The whole answer of a step with a forecast: the earliest point at or after the ready time is sized
   * with the estimated capacity, bounded from the simulated count, and surfaced exactly when all gates
   * are open and it is news.
   */
  lemma StepAnswer(cfg: Config, start: int32, before: seq<Event>, s: StepInput, e: Evaluation, p: Point)
    requires ValidConfig(cfg) && StepAccepted(cfg, start, before, s) && Reports(cfg, start, before, s, e)
    requires s.forecast.Some? && IsSelected(s.forecast.value.points, s.at + cfg.warmup, p)
    ensures var target := Final(RequiredReplicas(p.value, s.capacity.perReplica), e.simulated, cfg.limits);
            var last := if before == [] then Previous(start, 0)
                        else Previous(before[|before| - 1].target, before[|before| - 1].at);
            && (e.state == Unavailable <==> CannotSize(cfg, s, e.simulated, p))
            && (e.state == Available <==> !CannotSize(cfg, s, e.simulated, p) && StepGatesOpen(cfg, s, last, e.simulated, target))
            && (e.surfaced <==> e.state == Available && target != e.simulated && target != last.replicas)
            && AfterStep(cfg, start, before, s) == if e.surfaced then before + [Event(s.at, e.simulated, target)] else before
  {
    hide Final, RequiredReplicas, Passes, SimulatedAt, IsSelected, Headroom.HasPlacement;
    SelectedIsUnique(s.forecast.value.points, s.at + cfg.warmup, p);
    var d := DemandAt(cfg, e.simulated, s);
    var last := LastOf(start, before);
    RawOfDemand(d, s.capacity.perReplica);
    if CoversReadyTime(d) && HasBaseline(d) {
      PassesIff(SafetyInput(d, GatesAt(cfg, last, s)));
    }
  }

  /** Whatever the current demand, an estimated capacity alone sizes the forecast. */
  lemma RawOfDemand(d: Demand, perReplica: real)
    requires d.utilization > 0.0 && d.capacity.Some? && d.capacity.value.perReplica == perReplica
    ensures Raw(d) == RequiredReplicas(d.forecast, perReplica)
  {
  }

  /** A listed point at or after the ready time, an estimated capacity and a running replica are enough to size a step. */
  lemma ReachedStepIsSized(cfg: Config, start: int32, before: seq<Event>, s: StepInput, e: Evaluation)
    requires ValidConfig(cfg) && StepAccepted(cfg, start, before, s) && Reports(cfg, start, before, s, e)
    requires s.forecast.Some? && exists i :: 0 <= i < |s.forecast.value.points| && s.forecast.value.points[i].at >= s.at + cfg.warmup
    requires s.capacity.estimated && s.capacity.perReplica > 0.0 && e.simulated >= 1
    ensures e.state != Unavailable
  {
    hide StepAccepted, Reports;
    var points := s.forecast.value.points;
    SelectedIsSelected(points, s.at + cfg.warmup);
    StepAnswer(cfg, start, before, s, e, Selected(points, s.at + cfg.warmup));
  }

  /** So a warmup within the forecast horizon never makes such a step unavailable. */
  lemma WarmupWithinHorizonIsSized(cfg: Config, start: int32, before: seq<Event>, s: StepInput, e: Evaluation,
                                   input: Forecasting.Input, values: seq<real>)
    requires ValidConfig(cfg) && StepAccepted(cfg, start, before, s) && Reports(cfg, start, before, s, e)
    requires Forecasting.Prepare(input).Ok? && |values| == Forecasting.Prepare(input).value.horizonPoints
    requires input.evaluatedAt == s.at && cfg.warmup <= input.horizon
    requires s.forecast.Some?
    requires var p := Forecasting.Prepare(input).value;
             s.forecast.value.points == Forecasting.ForecastPoints(p.generatedAt, p.step, values)
    requires s.capacity.estimated && s.capacity.perReplica > 0.0 && e.simulated >= 1
    ensures e.state != Unavailable
  {
    hide StepAccepted, Reports, Forecasting.Prepare, Forecasting.ForecastPoints;
    Forecasting.ForecastReachesHorizon(input, values);
    ReachedStepIsSized(cfg, start, before, s, e);
  }

  // ---- whole runs ----

  lemma ReportedStep(cfg: Config, observed: seq<StepInput>, rep: Report, i: nat)
    requires Reported(cfg, observed, rep) && i < |InWindow(cfg, observed)|
    ensures var steps := InWindow(cfg, observed);
            && ValidConfig(cfg)
            && |rep.evaluations| == |rep.replicas| == |steps| && rep.replicas[i] == rep.evaluations[i].simulated
            && Reports(cfg, rep.start, EventsOf(cfg, rep.start, steps[..i]), steps[i], rep.evaluations[i])
            && StepAccepted(cfg, rep.start, EventsOf(cfg, rep.start, steps[..i]), steps[i])
  {
    hide IsGrid, InWindow, EventsOf, Reports, StepAccepted, Trajectory, TotalsOf, Summarises;
  }

  /** In every reported run a step whose forecast reaches the ready time is sized. */
  lemma WholeRunSizes(cfg: Config, observed: seq<StepInput>, rep: Report, i: nat)
    requires Reported(cfg, observed, rep) && i < |InWindow(cfg, observed)|
    requires var s := InWindow(cfg, observed)[i];
             && s.forecast.Some? && s.capacity.estimated && s.capacity.perReplica > 0.0
             && exists j :: 0 <= j < |s.forecast.value.points| && s.forecast.value.points[j].at >= s.at + cfg.warmup
    ensures |rep.replicas| == |rep.evaluations| == |InWindow(cfg, observed)|
    ensures rep.replicas[i] >= 1 ==> rep.evaluations[i].state != Unavailable
  {
    hide Reported, InWindow, EventsOf, Reports, StepAccepted;
    ReportedStep(cfg, observed, rep, i);
    if rep.replicas[i] >= 1 {
      var steps := InWindow(cfg, observed);
      ReachedStepIsSized(cfg, rep.start, EventsOf(cfg, rep.start, steps[..i]), steps[i], rep.evaluations[i]);
    }
  }

  /** The simulation starts from the count observed at its first step. */
  lemma FirstCountIsObserved(cfg: Config, observed: seq<StepInput>, rep: Report)
    requires Reported(cfg, observed, rep)
    ensures InWindow(cfg, observed) != [] && |rep.replicas| == |rep.evaluations| == |InWindow(cfg, observed)|
    ensures rep.replicas[0] == rep.evaluations[0].simulated == Max(0, rep.evaluations[0].baseline)
    ensures rep.evaluations[0].baseline == InWindow(cfg, observed)[0].replicas
  {
    hide InWindow, StepAccepted, IsGrid, RunAccepted, Trajectory, TotalsOf, Summarises, Surfaces;
    GridReachesWindow(cfg, observed);
    ReportedStep(cfg, observed, rep, 0);
    var steps := InWindow(cfg, observed);
    assert steps[..0] == [];
  }

  // ---- what the totals measure ----

  /** The time covered by the places that satisfy `p`. */
  function TimeAt(intervals: seq<Duration>, p: int -> bool): Duration {
    if intervals == [] then 0
    else TimeAt(intervals[..|intervals| - 1], p) + if p(|intervals| - 1) then intervals[|intervals| - 1] else 0
  }

  lemma {:induction false} TimeAtPlaces(evals: seq<Evaluation>, intervals: seq<Duration>, q: Evaluation -> bool, p: int -> bool)
    requires |evals| == |intervals| && forall i :: 0 <= i < |evals| ==> q(evals[i]) == p(i)
    ensures TimeWhere(evals, intervals, q) == TimeAt(intervals, p)
  {
    if evals != [] {
      TimeAtPlaces(evals[..|evals| - 1], intervals[..|evals| - 1], q, p);
    }
  }

  predicate HasCapacity(s: StepInput) { s.forecast.Some? && s.capacity.estimated && s.capacity.perReplica > 0.0 }

  /** The count's capacity does not carry the demand of the step. */
  predicate Overloads(s: StepInput, count: int32) {
    HasCapacity(s) && count as real * s.capacity.perReplica < s.demand
  }

  /** One replica less would carry it too. */
  predicate Exceeds(s: StepInput, count: int32) {
    HasCapacity(s) && count >= 1 && (count - 1) as real * s.capacity.perReplica >= s.demand
  }

  lemma RequiredMeaning(s: StepInput, count: int32)
    requires HasCapacity(s) && s.demand >= 0.0
    ensures RequiredFromCapacity(s.demand, s.capacity).Some?
    ensures count < RequiredFromCapacity(s.demand, s.capacity).value <==> Overloads(s, count)
    ensures count > RequiredFromCapacity(s.demand, s.capacity).value <==> Exceeds(s, count)
  {
    var required := RequiredFromCapacity(s.demand, s.capacity).value;
    if count >= 1 {
      RequiredIsLeastCarrying(s.demand, s.capacity, count);
      RequiredIsLeastCarrying(s.demand, s.capacity, count - 1);
    } else {
      RequiredIsLeastCarrying(s.demand, s.capacity, 0);
      ScaleReal(count as real, 0.0, s.capacity.perReplica);
      RequiredNonNegative(s.demand, s.capacity);
      NegativeCarries(count, s.capacity.perReplica);
    }
  }

  lemma RequiredNonNegative(demand: real, capacity: CapacityEstimate)
    requires RequiredFromCapacity(demand, capacity).Some?
    ensures RequiredFromCapacity(demand, capacity).value >= 0
  {
    if demand > 0.0 {
      PositiveQuotient(demand, capacity.perReplica);
    }
  }

  lemma NegativeCarries(count: int, perReplica: real)
    requires count <= 0 && perReplica > 0.0
    ensures count < 0 ==> count as real * perReplica < 0.0
    ensures count == 0 ==> count as real * perReplica == 0.0
  {
    if count < 0 {
      PositiveProduct(-count as real, perReplica);
      assert count as real * perReplica == -(-count as real * perReplica);
    }
  }

  lemma EvaluationClasses(cfg: Config, start: int32, before: seq<Event>, s: StepInput, e: Evaluation)
    requires ValidConfig(cfg) && StepAccepted(cfg, start, before, s) && Reports(cfg, start, before, s, e)
    ensures Scored(e) <==> HasCapacity(s)
    ensures Unscored(e) <==> s.forecast.Some? && !HasCapacity(s)
    ensures BaselineOverloaded(e) <==> Overloads(s, s.replicas)
    ensures BaselineExcess(e) <==> Exceeds(s, s.replicas)
    ensures ReplayOverloaded(e) <==> Overloads(s, e.simulated)
    ensures ReplayExcess(e) <==> Exceeds(s, e.simulated)
  {
    hide Surfaces, IsAvailable, SimulatedAt, Overloads, Exceeds;
    if HasCapacity(s) {
      RequiredMeaning(s, s.replicas);
      RequiredMeaning(s, e.simulated);
    } else {
      assert !Overloads(s, s.replicas) && !Overloads(s, e.simulated) && !Exceeds(s, s.replicas) && !Exceeds(s, e.simulated) by {
        NoCapacityNoClass(s, s.replicas);
        NoCapacityNoClass(s, e.simulated);
      }
    }
  }

  lemma NoCapacityNoClass(s: StepInput, count: int32)
    requires !HasCapacity(s)
    ensures !Overloads(s, count) && !Exceeds(s, count)
  {
  }

  /**
   * The reported totals are times of the observed window: overload is the time in which the capacity of
   * the count does not carry the demand, excess the time in which one replica less would carry it.
   */
  lemma TotalsMeaning(cfg: Config, observed: seq<StepInput>, rep: Report)
    requires Reported(cfg, observed, rep)
    ensures var steps, times := InWindow(cfg, observed), RunIntervals(cfg, observed);
            && |steps| == |rep.replicas| == |times|
            && rep.totals.scored == TimeAt(times, i => 0 <= i < |steps| && HasCapacity(steps[i]))
            && rep.totals.unscored == TimeAt(times, i => 0 <= i < |steps| && steps[i].forecast.Some? && !HasCapacity(steps[i]))
            && rep.totals.baselineOverload == TimeAt(times, i => 0 <= i < |steps| && Overloads(steps[i], steps[i].replicas))
            && rep.totals.baselineExcess == TimeAt(times, i => 0 <= i < |steps| && Exceeds(steps[i], steps[i].replicas))
            && rep.totals.replayOverload ==
               TimeAt(times, i => 0 <= i < |steps| && i < |rep.replicas| && Overloads(steps[i], rep.replicas[i]))
            && rep.totals.replayExcess ==
               TimeAt(times, i => 0 <= i < |steps| && i < |rep.replicas| && Exceeds(steps[i], rep.replicas[i]))
  {
    hide Reported, InWindow, EventsOf, Reports, StepAccepted, RunIntervals, Overloads, Exceeds, HasCapacity, IsGrid, TimeAt;
    hide Scored, Unscored, BaselineOverloaded, BaselineExcess, ReplayOverloaded, ReplayExcess, TimeWhere;
    ReportedTotals(cfg, observed, rep);
    var steps, times, evals := InWindow(cfg, observed), RunIntervals(cfg, observed), rep.evaluations;
    ReportedStep(cfg, observed, rep, 0);
    forall i | 0 <= i < |steps|
      ensures Scored(evals[i]) == HasCapacity(steps[i])
      ensures Unscored(evals[i]) == (steps[i].forecast.Some? && !HasCapacity(steps[i]))
      ensures BaselineOverloaded(evals[i]) == Overloads(steps[i], steps[i].replicas)
      ensures BaselineExcess(evals[i]) == Exceeds(steps[i], steps[i].replicas)
      ensures ReplayOverloaded(evals[i]) == Overloads(steps[i], rep.replicas[i])
      ensures ReplayExcess(evals[i]) == Exceeds(steps[i], rep.replicas[i])
    {
      ReportedStep(cfg, observed, rep, i);
      EvaluationClasses(cfg, rep.start, EventsOf(cfg, rep.start, steps[..i]), steps[i], evals[i]);
    }
    TimeAtPlaces(evals, times, Scored, i => 0 <= i < |steps| && HasCapacity(steps[i]));
    TimeAtPlaces(evals, times, Unscored, i => 0 <= i < |steps| && steps[i].forecast.Some? && !HasCapacity(steps[i]));
    TimeAtPlaces(evals, times, BaselineOverloaded, i => 0 <= i < |steps| && Overloads(steps[i], steps[i].replicas));
    TimeAtPlaces(evals, times, BaselineExcess, i => 0 <= i < |steps| && Exceeds(steps[i], steps[i].replicas));
    TimeAtPlaces(evals, times, ReplayOverloaded,
      i => 0 <= i < |steps| && i < |rep.replicas| && Overloads(steps[i], rep.replicas[i]));
    TimeAtPlaces(evals, times, ReplayExcess,
      i => 0 <= i < |steps| && i < |rep.replicas| && Exceeds(steps[i], rep.replicas[i]));
  }
}
