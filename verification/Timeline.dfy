/**
 * The reference meaning of a replay: a list of surfaced events. What the simulator keeps as
 * mutable state at any time is a function of that list.
 */
module Timeline {
  import opened Core
  import opened Bounds
  import opened Grid
  import opened Safety
  import opened Points
  import opened Recommend
  import Headroom

  /** A replay specification after its defaults are applied. */
  datatype Config = Config(
    windowStart: Time, windowEnd: Time, step: Duration, lookback: Duration, horizon: Duration, warmup: Duration,
    utilization: real, threshold: real, limits: Limits, cooldown: Duration,
    blackouts: seq<Window>, dependencies: seq<Dependency>, headroomMode: HeadroomMode)

  predicate ValidConfig(cfg: Config) {
    && cfg.windowStart < cfg.windowEnd
    && cfg.step > 0 && cfg.lookback > 0
    && cfg.warmup > 0
    && 0.0 < cfg.utilization <= 1.0
    && 1 <= cfg.limits.min <= cfg.limits.max
    && cfg.cooldown >= 0
  }

  /** What a forecast model returned: points and a confidence score. */
  datatype Forecast = Forecast(points: seq<Point>, confidence: real)

  /**
   * One grid point: what was observed there, and what readiness, forecasting, capacity estimation
   * and the headroom timeline answered. Any answers are allowed.
   */
  datatype StepInput = StepInput(
    at: Time, demand: real, replicas: int32,
    readiness: Option<TelemetryLevel>, forecast: Option<Forecast>,
    capacity: CapacityEstimate, headroom: Option<Headroom.Signal>)

  /** A surfaced recommendation: when, from which simulated count, to which. */
  datatype Event = Event(at: Time, before: int32, target: int32)

  datatype Activation = Activation(at: Time, replicas: int32)

  // ---- state as a function of the events ----

  predicate ByTime(events: seq<Event>) {
    forall i :: 0 < i < |events| ==> events[i - 1].at < events[i].at
  }

  /** How many leading events have matured at `t`. */
  function RipeCount(events: seq<Event>, warmup: Duration, t: Time): (k: nat)
    ensures k <= |events|
    ensures forall i :: 0 <= i < k ==> events[i].at + warmup <= t
    ensures k < |events| ==> events[k].at + warmup > t
  {
    if events == [] || events[0].at + warmup > t then 0
    else 1 + RipeCount(events[1..], warmup, t)
  }

  /** The target of the latest matured event, or the starting count when none has matured. */
  function SimulatedAt(start: int32, events: seq<Event>, warmup: Duration, t: Time): int32 {
    var k := RipeCount(events, warmup, t);
    if k == 0 then start else events[k - 1].target
  }

  function Scheduled(events: seq<Event>, warmup: Duration): seq<Activation> {
    seq(|events|, i requires 0 <= i < |events| => Activation(events[i].at + warmup, events[i].target))
  }

  /** The surfaced events that have not matured at `t`, in time order. */
  function InFlight(events: seq<Event>, warmup: Duration, t: Time): seq<Activation> {
    Scheduled(events[RipeCount(events, warmup, t)..], warmup)
  }

  function LastOf(start: int32, events: seq<Event>): Previous {
    if events == [] then Previous(start, 0)
    else Previous(events[|events| - 1].target, events[|events| - 1].at)
  }

  lemma {:induction false} ByTimeTransitive(events: seq<Event>, i: nat, j: nat)
    requires ByTime(events) && i < j < |events|
    ensures events[i].at < events[j].at
    decreases j
  {
    if i + 1 < j {
      ByTimeTransitive(events, i, j - 1);
    }
  }

  /** On events in time order the leading matured ones are all the matured ones. */
  lemma RipeIffCounted(events: seq<Event>, warmup: Duration, t: Time, i: nat)
    requires ByTime(events) && i < |events|
    ensures events[i].at + warmup <= t <==> i < RipeCount(events, warmup, t)
  {
    var k := RipeCount(events, warmup, t);
    if k < i {
      ByTimeTransitive(events, k, i);
    }
  }

  lemma RipeCountIs(events: seq<Event>, warmup: Duration, t: Time, k: nat)
    requires ByTime(events) && k <= |events|
    requires forall i :: 0 <= i < k ==> events[i].at + warmup <= t
    requires k < |events| ==> events[k].at + warmup > t
    ensures RipeCount(events, warmup, t) == k
  {
    var r := RipeCount(events, warmup, t);
    assert !(r < k) && !(k < r);
  }

  lemma RipeCountMonotone(events: seq<Event>, warmup: Duration, t: Time, u: Time)
    requires ByTime(events) && t <= u
    ensures RipeCount(events, warmup, t) <= RipeCount(events, warmup, u)
  {
    var k := RipeCount(events, warmup, t);
    if k > 0 {
      RipeIffCounted(events, warmup, u, k - 1);
    }
  }

  lemma LaterEventNotCounted(events: seq<Event>, e: Event, warmup: Duration, t: Time)
    requires ByTime(events + [e]) && e.at + warmup > t
    ensures RipeCount(events + [e], warmup, t) == RipeCount(events, warmup, t)
  {
    var k := RipeCount(events, warmup, t);
    assert forall i :: 0 <= i < |events| ==> (events + [e])[i] == events[i];
    RipeCountIs(events + [e], warmup, t, k);
  }

  lemma ScheduledAppend(events: seq<Event>, e: Event, warmup: Duration)
    ensures Scheduled(events + [e], warmup) == Scheduled(events, warmup) + [Activation(e.at + warmup, e.target)]
  {
  }

  /** An event that has not matured at `t` does not change what is simulated at `t`. */
  lemma LaterEventsDoNotMatter(start: int32, events: seq<Event>, e: Event, warmup: Duration, t: Time)
    requires ByTime(events + [e]) && e.at + warmup > t
    ensures RipeCount(events + [e], warmup, t) == RipeCount(events, warmup, t)
    ensures SimulatedAt(start, events + [e], warmup, t) == SimulatedAt(start, events, warmup, t)
    ensures InFlight(events + [e], warmup, t) ==
            InFlight(events, warmup, t) + [Activation(e.at + warmup, e.target)]
  {
    LaterEventNotCounted(events, e, warmup, t);
    var k := RipeCount(events, warmup, t);
    assert (events + [e])[k..] == events[k..] + [e];
    ScheduledAppend(events[k..], e, warmup);
  }

  // ---- one evaluated step ----

  function DemandAt(cfg: Config, simulated: int32, s: StepInput): Demand
    requires s.forecast.Some?
  {
    var p := Selected(s.forecast.value.points, s.at + cfg.warmup);
    Demand(s.at, p.value, p.at, s.demand, simulated, cfg.utilization, cfg.warmup, Some(s.capacity))
  }

  function GatesAt(cfg: Config, last: Previous, s: StepInput): Gates
    requires s.forecast.Some?
  {
    Gates(cfg.limits, s.forecast.value.confidence, cfg.threshold, s.readiness, None, None,
          cfg.blackouts, cfg.dependencies, cfg.cooldown, Some(last), cfg.headroomMode, s.headroom, UnsetOperator, None)
  }

  /** The step neither fails readiness evaluation nor feeds the recommender an invalid input. */
  predicate StepAccepted(cfg: Config, start: int32, events: seq<Event>, s: StepInput)
    requires ValidConfig(cfg)
  {
    && s.readiness.Some?
    && (s.forecast.Some? ==>
          Accepts(DemandAt(cfg, SimulatedAt(start, events, cfg.warmup, s.at), s), GatesAt(cfg, LastOf(start, events), s)))
  }

  /** The recommendation is available and asks for a count that is neither simulated nor already asked for. */
  ghost predicate Surfaces(cfg: Config, start: int32, events: seq<Event>, s: StepInput)
    requires ValidConfig(cfg)
  {
    && s.forecast.Some?
    && var now := SimulatedAt(start, events, cfg.warmup, s.at);
       var d := DemandAt(cfg, now, s);
       var g := GatesAt(cfg, LastOf(start, events), s);
       IsAvailable(d, g) && Target(d, g) != now && Target(d, g) != LastOf(start, events).replicas
  }

  ghost function AfterStep(cfg: Config, start: int32, events: seq<Event>, s: StepInput): seq<Event>
    requires ValidConfig(cfg)
  {
    var now := SimulatedAt(start, events, cfg.warmup, s.at);
    if Surfaces(cfg, start, events, s)
    then events + [Event(s.at, now, Target(DemandAt(cfg, now, s), GatesAt(cfg, LastOf(start, events), s)))]
    else events
  }

  /** The events of a whole run, step by step. */
  ghost function EventsOf(cfg: Config, start: int32, steps: seq<StepInput>): seq<Event>
    requires ValidConfig(cfg)
  {
    if steps == [] then []
    else AfterStep(cfg, start, EventsOf(cfg, start, steps[..|steps| - 1]), steps[|steps| - 1])
  }

  ghost predicate RunAccepted(cfg: Config, start: int32, steps: seq<StepInput>)
    requires ValidConfig(cfg)
  {
    forall i :: 0 <= i < |steps| ==> StepAccepted(cfg, start, EventsOf(cfg, start, steps[..i]), steps[i])
  }

  // ---- what every run keeps ----

  /** The event at `i`, judged against the events before it. */
  predicate Sound(cfg: Config, start: int32, events: seq<Event>, i: nat)
    requires i < |events|
  {
    var e := events[i];
    && !IsZeroTime(e.at)
    && e.before == SimulatedAt(start, events[..i], cfg.warmup, e.at)
    && e.target != e.before
    && e.target != LastOf(start, events[..i]).replicas
    && InRange(cfg.limits, e.target)
    && (InRange(cfg.limits, e.before) ==> Reachable(cfg.limits, e.before, e.target))
    && (!InRange(cfg.limits, e.before) ==> e.target == Clamp(e.before, cfg.limits.min, cfg.limits.max))
    && (i > 0 ==> events[i - 1].at < e.at && events[i - 1].at + cfg.cooldown <= e.at)
  }

  predicate Disciplined(cfg: Config, start: int32, events: seq<Event>) {
    forall i :: 0 <= i < |events| ==> Sound(cfg, start, events, i)
  }

  lemma DisciplinedByTime(cfg: Config, start: int32, events: seq<Event>)
    requires Disciplined(cfg, start, events)
    ensures ByTime(events)
  {
    forall i | 0 < i < |events|
      ensures events[i - 1].at < events[i].at
    {
      assert Sound(cfg, start, events, i);
    }
  }

  /** An available recommendation at a later time yields an event that keeps the discipline. */
  lemma SurfacedEventIsSound(cfg: Config, start: int32, events: seq<Event>, s: StepInput)
    requires ValidConfig(cfg) && Disciplined(cfg, start, events)
    requires events != [] ==> events[|events| - 1].at < s.at
    requires StepAccepted(cfg, start, events, s) && Surfaces(cfg, start, events, s)
    ensures Sound(cfg, start, AfterStep(cfg, start, events, s), |events|)
  {
    var now := SimulatedAt(start, events, cfg.warmup, s.at);
    var d := DemandAt(cfg, now, s);
    var g := GatesAt(cfg, LastOf(start, events), s);
    var after := AfterStep(cfg, start, events, s);
    assert after[..|events|] == events;
    FinalInRange(Raw(d), now, cfg.limits);
    if InRange(cfg.limits, now) {
      FinalIsNearestReachable(Raw(d), now, cfg.limits, now);
    } else {
      OutOfRangeIsCorrected(Raw(d), now, cfg.limits);
    }
    assert !Blocks(SafetyInput(d, g), CooldownActive);
    if events != [] {
      assert Sound(cfg, start, events, |events| - 1);
    }
  }

  lemma StepKeepsDiscipline(cfg: Config, start: int32, events: seq<Event>, s: StepInput)
    requires ValidConfig(cfg) && Disciplined(cfg, start, events)
    requires events != [] ==> events[|events| - 1].at < s.at
    requires StepAccepted(cfg, start, events, s)
    ensures Disciplined(cfg, start, AfterStep(cfg, start, events, s))
  {
    var after := AfterStep(cfg, start, events, s);
    if Surfaces(cfg, start, events, s) {
      SurfacedEventIsSound(cfg, start, events, s);
      forall i | 0 <= i < |events|
        ensures Sound(cfg, start, after, i)
      {
        assert Sound(cfg, start, events, i);
        assert after[..i] == events[..i];
      }
    }
  }

  function Times(steps: seq<StepInput>): seq<Time> {
    seq(|steps|, i requires 0 <= i < |steps| => steps[i].at)
  }

  /** Every event happened at one of the evaluated times. */
  predicate AtSteps(events: seq<Event>, times: seq<Time>) {
    forall i :: 0 <= i < |events| ==> events[i].at in times
  }

  lemma EventsPrecedeNextStep(events: seq<Event>, steps: seq<StepInput>, step: Duration, n: nat)
    requires n < |steps| && Paced(Times(steps), step) && AtSteps(events, Times(steps[..n]))
    ensures forall i :: 0 <= i < |events| ==> events[i].at < steps[n].at
    ensures AtSteps(events, Times(steps))
  {
    forall i | 0 <= i < |events|
      ensures events[i].at < steps[n].at && events[i].at in Times(steps)
    {
      var j :| 0 <= j < n && Times(steps[..n])[j] == events[i].at;
      assert Times(steps)[j] == events[i].at && Times(steps)[n] == steps[n].at;
      PacedIncreasing(Times(steps), step, j, n);
    }
  }

  /** Every accepted run, over any answers at any number of steps, keeps the discipline. */
  lemma {:induction false} EveryRunIsDisciplined(cfg: Config, start: int32, steps: seq<StepInput>)
    requires ValidConfig(cfg) && Paced(Times(steps), cfg.step) && RunAccepted(cfg, start, steps)
    ensures Disciplined(cfg, start, EventsOf(cfg, start, steps))
    ensures AtSteps(EventsOf(cfg, start, steps), Times(steps))
  {
    if steps != [] {
      var n := |steps| - 1;
      var events := EventsOf(cfg, start, steps[..n]);
      PrefixOfRun(cfg, start, steps, n);
      EveryRunIsDisciplined(cfg, start, steps[..n]);
      EventsPrecedeNextStep(events, steps, cfg.step, n);
      assert StepAccepted(cfg, start, events, steps[n]);
      StepKeepsDiscipline(cfg, start, events, steps[n]);
      assert Times(steps)[n] == steps[n].at;
    }
  }

  // ---- what every event passed ----

  /**
   * The step `s` at which `e` was surfaced: its forecast reaches the ready time and sizes the target,
   * every gate is open, and a gated scale-up has a placement for the added pods.
   */
  ghost predicate PassedGates(cfg: Config, e: Event, s: StepInput)
    requires ValidConfig(cfg)
  {
    && s.at == e.at
    && s.readiness == Some(Ready)
    && s.forecast.Some? && s.forecast.value.confidence >= cfg.threshold
    && CoversReadyTime(DemandAt(cfg, e.before, s)) && HasBaseline(DemandAt(cfg, e.before, s))
    && e.target == Final(Raw(DemandAt(cfg, e.before, s)), e.before, cfg.limits)
    && (forall w :: w in cfg.blackouts ==> !Covers(w, e.at))
    && (forall d :: d in cfg.dependencies ==> Healthy(d))
    && (cfg.headroomMode == RequireForScaleUp && e.target > e.before ==> Headroom.HasPlacement(s.headroom, e.target - e.before))
  }

  lemma SurfacedEventPassed(cfg: Config, start: int32, events: seq<Event>, s: StepInput)
    requires ValidConfig(cfg) && StepAccepted(cfg, start, events, s) && Surfaces(cfg, start, events, s)
    ensures PassedGates(cfg, AfterStep(cfg, start, events, s)[|events|], s)
  {
    hide Headroom.HasPlacement, RipeCount, Final, Raw, Passes;
    var d := DemandAt(cfg, SimulatedAt(start, events, cfg.warmup, s.at), s);
    var g := GatesAt(cfg, LastOf(start, events), s);
    PassesIff(SafetyInput(d, g));
  }

  /** Every event of an accepted run passed its gates at a step of the run. */
  lemma {:induction false} EveryEventPassedItsGates(cfg: Config, start: int32, steps: seq<StepInput>)
    requires ValidConfig(cfg) && Paced(Times(steps), cfg.step) && RunAccepted(cfg, start, steps)
    ensures forall e :: e in EventsOf(cfg, start, steps) ==> exists s :: s in steps && PassedGates(cfg, e, s)
  {
    if steps != [] {
      hide PassedGates, StepAccepted, Surfaces, Paced;
      var n := |steps| - 1;
      var events := EventsOf(cfg, start, steps[..n]);
      PrefixOfRun(cfg, start, steps, n);
      EveryEventPassedItsGates(cfg, start, steps[..n]);
      if Surfaces(cfg, start, events, steps[n]) {
        SurfacedEventPassed(cfg, start, events, steps[n]);
      }
    }
  }

  lemma PrefixOfRun(cfg: Config, start: int32, steps: seq<StepInput>, n: nat)
    requires ValidConfig(cfg) && Paced(Times(steps), cfg.step) && RunAccepted(cfg, start, steps) && n <= |steps|
    ensures Paced(Times(steps[..n]), cfg.step) && RunAccepted(cfg, start, steps[..n])
  {
    var prefix := steps[..n];
    assert forall i :: 0 <= i < n ==> Times(prefix)[i] == Times(steps)[i];
    forall i | 0 <= i < n
      ensures StepAccepted(cfg, start, EventsOf(cfg, start, prefix[..i]), prefix[i])
    {
      assert prefix[..i] == steps[..i];
    }
  }
}
