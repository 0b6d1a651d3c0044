/**
 * Which timings keep the step limits: those whose spacing of events covers the warmup, and no
 * others. For every other timing one policy and one history are given that break them.
 */
module StepTiming {
  import opened Core
  import opened Bounds
  import opened Grid
  import opened Safety
  import opened Points
  import opened Recommend
  import opened Timeline
  import opened RunProperties
  import opened Engine
  import Replay

  /** The inputs of every run that ends in a report. */
  ghost predicate Replays(cfg: Config, observed: seq<StepInput>) {
    && ValidConfig(cfg)
    && IsGrid(Times(observed), cfg.windowStart - cfg.lookback, cfg.windowEnd, cfg.step)
    && RunAccepted(cfg, StartCount(InWindow(cfg, observed)), InWindow(cfg, observed))
  }

  /** The count stays, or makes an allowed change, on the way to evaluated step `j`. */
  ghost predicate KeepsLimitsAt(cfg: Config, start: int32, steps: seq<StepInput>, j: nat)
    requires ValidConfig(cfg) && 0 < j < |steps|
  {
    var events := EventsOf(cfg, start, steps);
    var was := SimulatedAt(start, events, cfg.warmup, steps[j - 1].at);
    var now := SimulatedAt(start, events, cfg.warmup, steps[j].at);
    was == now || AllowedChange(cfg, start, was, now)
  }

  /** No policy with this timing ever breaks its step limits, whatever it observes. */
  ghost predicate KeepsLimits(step: Duration, warmup: Duration, cooldown: Duration) {
    forall cfg: Config, observed, j: nat ::
      && cfg.step == step && cfg.warmup == warmup && cfg.cooldown == cooldown
      && Replays(cfg, observed) && 0 < j < |InWindow(cfg, observed)|
      ==> KeepsLimitsAt(cfg, StartCount(InWindow(cfg, observed)), InWindow(cfg, observed), j)
  }

  /** What a run does depends on its timing through these three durations. */
  datatype Timing = Timing(step: Duration, warmup: Duration, cooldown: Duration)

  predicate Unsafe(t: Timing) {
    t.step > 0 && t.warmup > 0 && t.cooldown >= 0 && !SafeTiming(t.step, t.warmup, t.cooldown)
  }

  /** Steps from the first event to the second. */
  function Apart(t: Timing): nat
    requires t.step > 0
  {
    CeilDiv(Max(t.cooldown, 1), t.step)
  }

  /** Steps until the first event has matured. */
  function Matures(t: Timing): nat
    requires t.step > 0 && t.warmup > 0
  {
    CeilDiv(t.warmup, t.step)
  }

  /** Instants start at 1 because instant 0 is the zero time. */
  function At(t: Timing, i: int): Time { 1 + i * t.step }

  // ---- the breaking policy and history ----

  /**
   * Two steps of lookback, so every evaluated step has the three samples that a capacity estimate asks
   * for by default, under a capacity lookback of at least two steps.
   */
  function Policy(t: Timing): Config
    requires t.step > 0 && t.warmup > 0
  {
    Config(1, At(t, Apart(t) + Matures(t)), t.step, 2 * t.step, t.warmup, t.warmup, 0.8, 0.7,
           Limits(1, 20, Some(2), Some(2)), t.cooldown, [], [], DisabledMode)
  }

  /**
   * A step forecasting demand `d` for the ready time. The five replicas carry demand 4 at a target
   * utilization of 0.8: one unit of capacity each.
   */
  function Forecasting(t: Timing, at: Time, d: real): StepInput {
    StepInput(at, 4.0, 5, Some(Ready), Some(Forecast([Point(at + t.warmup, d)], 1.0)), CapacityEstimate(true, 1.0), None)
  }

  /** A step whose forecast fails. */
  function Silent(at: Time): StepInput {
    StepInput(at, 4.0, 5, Some(Ready), None, CapacityEstimate(true, 1.0), None)
  }

  /** Demand for 7 replicas at the first step and for 3 one spacing later; every other forecast fails. */
  function StepOf(t: Timing, i: nat): StepInput
    requires t.step > 0
  {
    if i == 0 then Forecasting(t, At(t, 0), 7.0)
    else if i == Apart(t) then Forecasting(t, At(t, i), 3.0)
    else Silent(At(t, i))
  }

  function Steps(t: Timing, n: nat): seq<StepInput>
    requires t.step > 0
  {
    seq(n, i requires 0 <= i < n => StepOf(t, i))
  }

  function History(t: Timing): seq<StepInput>
    requires t.step > 0 && t.warmup > 0
  {
    [Silent(At(t, -2)), Silent(At(t, -1))] + Steps(t, Apart(t) + Matures(t) + 1)
  }

  function EventsAfter(t: Timing, n: nat): seq<Event>
    requires t.step > 0
  {
    if n == 0 then []
    else if n <= Apart(t) then [Event(At(t, 0), 5, 7)]
    else [Event(At(t, 0), 5, 7), Event(At(t, Apart(t)), 5, 3)]
  }

  /** With no gate but the cooldown an available forecast is recommended as it stands, within the step limits. */
  lemma Surfaced(t: Timing, events: seq<Event>, at: Time, n: nat)
    requires t.step > 0 && t.warmup > 0 && t.cooldown >= 0
    requires at > 0 && 3 <= n <= 7 && n != 5
    requires SimulatedAt(5, events, t.warmup, at) == 5
    requires var last := LastOf(5, events); last.replicas >= 0 && last.replicas != n
                                            && (last.changedAt == 0 || last.changedAt + t.cooldown <= at)
    requires ValidConfig(Policy(t))
    ensures StepAccepted(Policy(t), 5, events, Forecasting(t, at, n as real))
    ensures AfterStep(Policy(t), 5, events, Forecasting(t, at, n as real)) == events + [Event(at, 5, n)]
  {
    hide RipeCount, LastOf, SimulatedAt, At, Apart, Matures;
    var cfg := Policy(t);
    var s := Forecasting(t, at, n as real);
    var d := DemandAt(cfg, 5, s);
    var g := GatesAt(cfg, LastOf(5, events), s);
    assert Selected(s.forecast.value.points, at + t.warmup) == Point(at + t.warmup, n as real);
    WholeDemand(n);
    assert Target(d, g) == n;
    forall c
      ensures !Blocks(SafetyInput(d, g), c)
    {
    }
    assert IsAvailable(d, g);
  }

  lemma TimesOrdered(t: Timing, i: int, j: int)
    requires t.step > 0
    ensures i < j <==> At(t, i) < At(t, j)
    ensures At(t, i) + t.step == At(t, i + 1)
  {
    Distribute(i, 1, t.step);
    if i < j {
      Distribute(i, j - i, t.step);
      ScaleLe(1, j - i, t.step);
    } else {
      ScaleLe(j, i, t.step);
    }
  }

  /** What makes a timing unsafe: the second event comes no sooner than the cooldown, but before the warmup. */
  lemma SecondIsEarly(t: Timing)
    requires Unsafe(t)
    ensures Apart(t) >= 1 && Matures(t) >= 1
    ensures At(t, 0) + t.cooldown <= At(t, Apart(t)) < At(t, 0) + t.warmup
  {
    SpacingCoversCooldown(t.step, t.cooldown);
    Commute(t.step, Apart(t));
  }

  lemma PolicyIsValid(t: Timing)
    requires Unsafe(t)
    ensures ValidConfig(Policy(t)) && Replay.WithDefaults(Policy(t), true) == Ok(Policy(t))
  {
    SecondIsEarly(t);
    TimesOrdered(t, 0, Apart(t) + Matures(t));
    hide Apart, Matures, SafeTiming;
  }

  lemma StepSurfacesNext(t: Timing, n: nat)
    requires Unsafe(t) && ValidConfig(Policy(t))
    ensures StepAccepted(Policy(t), 5, EventsAfter(t, n), StepOf(t, n))
    ensures AfterStep(Policy(t), 5, EventsAfter(t, n), StepOf(t, n)) == EventsAfter(t, n + 1)
  {
    SecondIsEarly(t);
    TimesOrdered(t, 0, Apart(t));
    hide At, Apart, Matures, SafeTiming, StepAccepted, AfterStep;
    if n == 0 {
      FirstTime(t);
      Surfaced(t, [], At(t, 0), 7);
    } else if n == Apart(t) {
      FirstTime(t);
      assert RipeCount([Event(At(t, 0), 5, 7)], t.warmup, At(t, n)) == 0;
      Surfaced(t, [Event(At(t, 0), 5, 7)], At(t, n), 3);
    } else {
      NothingSurfaced(Policy(t), EventsAfter(t, n), At(t, n));
    }
  }

  lemma FirstTime(t: Timing)
    ensures At(t, 0) == 1
  {
  }

  lemma NothingSurfaced(cfg: Config, events: seq<Event>, at: Time)
    requires ValidConfig(cfg)
    ensures StepAccepted(cfg, 5, events, Silent(at)) && AfterStep(cfg, 5, events, Silent(at)) == events
  {
  }

  lemma {:induction false} RunOfSteps(t: Timing, n: nat)
    requires Unsafe(t) && ValidConfig(Policy(t))
    ensures RunAccepted(Policy(t), 5, Steps(t, n)) && EventsOf(Policy(t), 5, Steps(t, n)) == EventsAfter(t, n)
  {
    hide StepAccepted, AfterStep, EventsAfter, Policy, StepOf, SafeTiming;
    if n == 0 {
      NoEventsAtFirst(t);
    } else {
      RunOfSteps(t, n - 1);
      StepSurfacesNext(t, n - 1);
      assert Steps(t, n) == Steps(t, n - 1) + [StepOf(t, n - 1)];
      Replay.RunGrows(Policy(t), 5, Steps(t, n - 1), StepOf(t, n - 1));
    }
  }

  lemma NoEventsAtFirst(t: Timing)
    requires t.step > 0
    ensures EventsAfter(t, 0) == []
  {
  }

  lemma StepTimes(t: Timing, i: nat)
    requires t.step > 0
    ensures StepOf(t, i).at == At(t, i)
  {
  }

  /** The history lies on the policy's grid, and its steps from index 2 on are the evaluated ones. */
  lemma HistoryIsOnGrid(t: Timing)
    requires Unsafe(t) && ValidConfig(Policy(t))
    ensures IsGrid(Times(History(t)), At(t, -2), At(t, Apart(t) + Matures(t)), t.step)
    ensures InWindow(Policy(t), History(t)) == Steps(t, Apart(t) + Matures(t) + 1)
    ensures StartCount(Steps(t, Apart(t) + Matures(t) + 1)) == 5
  {
    SecondIsEarly(t);
    var observed := History(t);
    var times := Times(observed);
    forall i | 0 <= i < |observed|
      ensures times[i] == At(t, i - 2)
    {
      if i > 1 {
        StepTimes(t, i - 2);
        assert observed[i] == StepOf(t, i - 2);
      }
    }
    forall i | 0 < i < |times|
      ensures times[i] == times[i - 1] + t.step
    {
      TimesOrdered(t, i - 3, i - 2);
    }
    TimesOrdered(t, -2, -1);
    TimesOrdered(t, -1, 0);
    FirstTime(t);
    assert BeforeWindow(times, 1) == 2 by {
      assert times[0] < times[1] < 1 && times[2] == 1;
    }
    assert observed[2..] == Steps(t, Apart(t) + Matures(t) + 1);
    assert Steps(t, Apart(t) + Matures(t) + 1)[0] == StepOf(t, 0);
  }

  /** One step before the end only the first event has matured; at the end both have. */
  lemma DropTimes(t: Timing)
    requires Unsafe(t)
    ensures var q := Apart(t) + Matures(t);
            At(t, 0) + t.warmup <= At(t, q - 1) < At(t, Apart(t)) + t.warmup <= At(t, q)
  {
    SecondIsEarly(t);
    var k, c := Apart(t), Matures(t);
    assert c * t.step >= t.warmup > (c - 1) * t.step;
    hide Apart, Matures, SafeTiming;
    Distribute(k, c, t.step);
    Distribute(k, c - 1, t.step);
    ScaleLe(c, k + c - 1, t.step);
  }

  /** At the end of the run the second event matures, one step or more after the first alone had. */
  lemma CountDrops(t: Timing)
    requires Unsafe(t)
    ensures var q := Apart(t) + Matures(t);
            && SimulatedAt(5, EventsAfter(t, q + 1), t.warmup, At(t, q - 1)) == 7
            && SimulatedAt(5, EventsAfter(t, q + 1), t.warmup, At(t, q)) == 3
  {
    hide At, Apart, Matures, SafeTiming, RipeCount;
    SecondIsEarly(t);
    FirstTime(t);
    DropTimes(t);
    TimesOrdered(t, 0, Apart(t));
    var q := Apart(t) + Matures(t);
    var events := EventsAfter(t, q + 1);
    assert events == [Event(At(t, 0), 5, 7), Event(At(t, Apart(t)), 5, 3)];
    RipeCountIs(events, t.warmup, At(t, q - 1), 1);
    RipeCountIs(events, t.warmup, At(t, q), 2);
  }

  /** A policy of the replay's own making and a history on which it falls by four under a limit of two. */
  lemma UnsafeTimingBreaksLimits(t: Timing)
    requires Unsafe(t)
    ensures Replay.WithDefaults(Policy(t), true) == Ok(Policy(t)) && Replays(Policy(t), History(t))
    ensures var steps := InWindow(Policy(t), History(t));
            var q := Apart(t) + Matures(t);
            && 0 < q < |steps|
            && SimulatedAt(StartCount(steps), EventsOf(Policy(t), StartCount(steps), steps), t.warmup, steps[q - 1].at) == 7
            && SimulatedAt(StartCount(steps), EventsOf(Policy(t), StartCount(steps), steps), t.warmup, steps[q].at) == 3
            && !KeepsLimitsAt(Policy(t), StartCount(steps), steps, q)
  {
    hide RunAccepted, EventsOf, EventsAfter, SimulatedAt, At, StepOf, IsGrid, InWindow, StartCount, SafeTiming;
    PolicyIsValid(t);
    SecondIsEarly(t);
    HistoryIsOnGrid(t);
    var q := Apart(t) + Matures(t);
    RunOfSteps(t, q + 1);
    CountDrops(t);
    StepTimes(t, q - 1);
    StepTimes(t, q);
    WindowStart(t);
  }

  lemma WindowStart(t: Timing)
    requires t.step > 0 && t.warmup > 0
    ensures Policy(t).windowStart - Policy(t).lookback == At(t, -2)
  {
  }

  /** The default step is longer than the default warmup, so those two keep the limits under any cooldown. */
  lemma DefaultTimingIsSafe(raw: Config)
    requires raw.step <= 0 && raw.warmup == 0 && Replay.WithDefaults(raw, true).Ok?
    ensures var cfg := Replay.WithDefaults(raw, true).value;
            SafeTiming(cfg.step, cfg.warmup, cfg.cooldown)
  {
    var cfg := Replay.WithDefaults(raw, true).value;
    assert cfg.step == 60 * SECOND && cfg.warmup == 45 * SECOND;
    var k: nat := CeilDiv(Max(cfg.cooldown, 1), cfg.step);
    ScaleLe(1, k, cfg.step);
    Commute(cfg.step, k);
  }

  lemma SafeTimingKeepsLimits(cfg: Config, observed: seq<StepInput>, j: nat)
    requires Replays(cfg, observed) && SafeTiming(cfg.step, cfg.warmup, cfg.cooldown)
    requires 0 < j < |InWindow(cfg, observed)|
    ensures KeepsLimitsAt(cfg, StartCount(InWindow(cfg, observed)), InWindow(cfg, observed), j)
  {
    hide RunAccepted, EventsOf, IsGrid, InWindow, SafeTiming, Disciplined, Paced, AtSteps;
    var steps := InWindow(cfg, observed);
    GridReachesWindow(cfg, observed);
    EveryRunIsDisciplined(cfg, StartCount(steps), steps);
    ChangesRespectStepLimits(cfg, StartCount(steps), EventsOf(cfg, StartCount(steps), steps), Times(steps), j);
  }

  /**
   * A timing keeps the step limits in every run of every policy exactly when the least whole number
   * of steps that covers the cooldown also covers the warmup.
   */
  lemma StepLimitsKeptIff(t: Timing)
    requires t.step > 0 && t.warmup > 0 && t.cooldown >= 0
    ensures KeepsLimits(t.step, t.warmup, t.cooldown) <==> SafeTiming(t.step, t.warmup, t.cooldown)
  {
    hide KeepsLimitsAt, SafeTiming, RunAccepted, IsGrid, InWindow;
    if SafeTiming(t.step, t.warmup, t.cooldown) {
      forall cfg: Config, observed, j: nat |
        && cfg.step == t.step && cfg.warmup == t.warmup && cfg.cooldown == t.cooldown
        && Replays(cfg, observed) && 0 < j < |InWindow(cfg, observed)|
        ensures KeepsLimitsAt(cfg, StartCount(InWindow(cfg, observed)), InWindow(cfg, observed), j)
      {
        SafeTimingKeepsLimits(cfg, observed, j);
      }
    } else {
      UnsafeTimingBreaksLimits(t);
    }
  }

  // ---- time the report does not show ----

  lemma TimingExample(t: Timing)
    requires t == Timing(10, 25, 0)
    ensures Unsafe(t) && ValidConfig(Policy(t))
    ensures var steps := InWindow(Policy(t), History(t));
            |steps| == 5 && steps[2].forecast.None?
  {
    assert Unsafe(t);
    PolicyIsValid(t);
    HistoryIsOnGrid(t);
  }

  /** A replay whose scored and unscored time together miss the steps with a failed forecast. */
  method ReplayWithFailedForecasts() returns (cfg: Config, observed: seq<StepInput>, rep: Report)
    ensures Reported(cfg, observed, rep)
    ensures rep.totals.scored + rep.totals.unscored < cfg.windowEnd - InWindow(cfg, observed)[0].at
  {
    hide RunAccepted, ReportHolds, IsGrid, InWindow, KeepsLimitsAt, StartCount;
    var t := Timing(10, 25, 0);
    TimingExample(t);
    cfg, observed := Policy(t), History(t);
    UnsafeTimingBreaksLimits(t);
    var r := Run(cfg, observed);
    rep := r.value;
    ReportShowsAllTimeIff(cfg, observed, rep);
  }
}
