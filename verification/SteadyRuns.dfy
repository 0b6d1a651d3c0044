/** Replays under steady demand: the surfaced targets are the successive rounds towards the raw count. */
module SteadyRuns {
  import opened Core
  import opened Bounds
  import opened Grid
  import opened Safety
  import opened Recommend
  import opened Timeline
  import opened RunProperties
  import opened Engine

  /** The step's recommendation is available: nothing prevents it and no gate blocks it. */
  ghost predicate Available(cfg: Config, start: int32, events: seq<Event>, s: StepInput)
    requires ValidConfig(cfg)
  {
    && s.forecast.Some?
    && IsAvailable(DemandAt(cfg, SimulatedAt(start, events, cfg.warmup, s.at), s), GatesAt(cfg, LastOf(start, events), s))
  }

  /** If this step's recommendation is available, it was sized at the raw count `raw`. */
  ghost predicate Sizes(cfg: Config, start: int32, events: seq<Event>, s: StepInput, raw: int32)
    requires ValidConfig(cfg)
  {
    Available(cfg, start, events, s) ==> Raw(DemandAt(cfg, SimulatedAt(start, events, cfg.warmup, s.at), s)) == raw
  }

  /** Every available recommendation of the run was sized at the same raw count; gates may block any step. */
  ghost predicate Steady(cfg: Config, start: int32, steps: seq<StepInput>, raw: int32)
    requires ValidConfig(cfg)
  {
    forall i :: 0 <= i < |steps| ==> Sizes(cfg, start, EventsOf(cfg, start, steps[..i]), steps[i], raw)
  }

  /** Each event goes one round further than the one before, which has matured by then. */
  predicate AreRounds(cfg: Config, start: int32, events: seq<Event>, raw: int32) {
    && (forall i :: 0 <= i < |events| ==>
          && events[i].before == Iterate(raw, start, cfg.limits, i)
          && events[i].target == Iterate(raw, start, cfg.limits, i + 1))
    && (forall i :: 0 < i < |events| ==> events[i - 1].at + cfg.warmup <= events[i].at)
    && (events != [] ==> ValidLimits(cfg.limits))
  }

  /** Rounds from any count: one to come into the range, then the distance in steps. */
  function RoundsFrom(raw: int32, current: int32, l: Limits): nat {
    if InRange(l, current) then RoundsNeeded(raw, current, l) else 1 + RoundsNeeded(raw, Final(raw, current, l), l)
  }

  lemma {:induction false} IterateLast(raw: int32, current: int32, l: Limits, n: nat)
    ensures Iterate(raw, current, l, n + 1) == Final(raw, Iterate(raw, current, l, n), l)
    decreases n
  {
    if n > 0 {
      IterateLast(raw, Final(raw, current, l), l, n - 1);
    }
  }

  /** The limit is reached after exactly those rounds, from any count. */
  lemma ReachedIff(raw: int32, current: int32, l: Limits, n: nat)
    requires ValidLimits(l)
    ensures Iterate(raw, current, l, n) == Clamp(raw, l.min, l.max) <==> n >= RoundsFrom(raw, current, l)
  {
    if InRange(l, current) {
      IterateConverges(raw, current, l, n);
    } else {
      FinalInRange(raw, current, l);
      if n > 0 {
        IterateConverges(raw, Final(raw, current, l), l, n - 1);
      }
    }
  }

  /** At the next step all events but the last have matured, so a new event starts from the last target. */
  lemma RipeButLast(cfg: Config, start: int32, events: seq<Event>, raw: int32, t: Time)
    requires ValidConfig(cfg) && ByTime(events) && AreRounds(cfg, start, events, raw)
    requires forall i :: 0 <= i < |events| ==> events[i].at < t
    ensures var k := RipeCount(events, cfg.warmup, t);
            && |events| - 1 <= k <= |events|
            && SimulatedAt(start, events, cfg.warmup, t) == Iterate(raw, start, cfg.limits, k)
            && LastOf(start, events).replicas == Iterate(raw, start, cfg.limits, |events|)
  {
    if |events| >= 2 {
      var i := |events| - 1;
      assert events[i - 1].at + cfg.warmup <= events[i].at;
      RipeIffCounted(events, cfg.warmup, t, |events| - 2);
    }
  }

  /** The recommender refuses limits it cannot use. */
  lemma AvailableLimits(cfg: Config, start: int32, events: seq<Event>, s: StepInput)
    requires ValidConfig(cfg) && StepAccepted(cfg, start, events, s) && Available(cfg, start, events, s)
    ensures ValidLimits(cfg.limits)
  {
    hide Passes, Raw;
  }

  lemma StepIsRound(cfg: Config, start: int32, events: seq<Event>, s: StepInput, raw: int32)
    requires ValidConfig(cfg) && ByTime(events) && AreRounds(cfg, start, events, raw)
    requires forall i :: 0 <= i < |events| ==> events[i].at < s.at
    requires Sizes(cfg, start, events, s, raw) && StepAccepted(cfg, start, events, s)
    ensures AreRounds(cfg, start, AfterStep(cfg, start, events, s), raw)
  {
    hide Final, Iterate;
    if Surfaces(cfg, start, events, s) {
      AvailableLimits(cfg, start, events, s);
      hide IsAvailable;
      RipeButLast(cfg, start, events, raw, s.at);
      var k := RipeCount(events, cfg.warmup, s.at);
      IterateLast(raw, start, cfg.limits, k);
      assert k == |events|;
    }
  }

  /** In every accepted run under steady demand the events are rounds, whatever the gates block in between. */
  lemma {:induction false} EventsAreRounds(cfg: Config, start: int32, steps: seq<StepInput>, raw: int32)
    requires ValidConfig(cfg) && Paced(Times(steps), cfg.step) && RunAccepted(cfg, start, steps)
    requires Steady(cfg, start, steps, raw)
    ensures AreRounds(cfg, start, EventsOf(cfg, start, steps), raw)
  {
    if steps != [] {
      hide AreRounds, Sizes, AfterStep, StepAccepted, Paced, Sound;
      var n := |steps| - 1;
      var events := EventsOf(cfg, start, steps[..n]);
      PrefixOfRun(cfg, start, steps, n);
      SteadyPrefix(cfg, start, steps, raw, n);
      EventsAreRounds(cfg, start, steps[..n], raw);
      EveryRunIsDisciplined(cfg, start, steps[..n]);
      DisciplinedByTime(cfg, start, events);
      EventsPrecedeNextStep(events, steps, cfg.step, n);
      StepIsRound(cfg, start, events, steps[n], raw);
    } else {
      NoRounds(cfg, start, raw);
    }
  }

  lemma NoRounds(cfg: Config, start: int32, raw: int32)
    ensures AreRounds(cfg, start, [], raw)
  {
  }

  lemma SteadyPrefix(cfg: Config, start: int32, steps: seq<StepInput>, raw: int32, n: nat)
    requires ValidConfig(cfg) && Steady(cfg, start, steps, raw) && n <= |steps|
    ensures Steady(cfg, start, steps[..n], raw)
  {
    forall i | 0 <= i < n
      ensures Sizes(cfg, start, EventsOf(cfg, start, steps[..n][..i]), steps[..n][i], raw)
    {
      assert steps[..n][..i] == steps[..i];
    }
  }

  /** There are never more events than rounds. */
  lemma EventsWithinRounds(cfg: Config, start: int32, events: seq<Event>, raw: int32)
    requires ValidConfig(cfg) && AreRounds(cfg, start, events, raw) && Disciplined(cfg, start, events)
    ensures |events| <= RoundsFrom(raw, start, cfg.limits)
  {
    hide RoundsFrom, Iterate, Clamp;
    if events != [] {
      var n := |events|;
      assert Sound(cfg, start, events, n - 1);
      ReachedIff(raw, start, cfg.limits, n - 1);
      ReachedIff(raw, start, cfg.limits, n);
    }
  }

  /** A step with an available recommendation and nothing pending after it has arrived at the limit. */
  lemma QuietStepHasArrived(cfg: Config, start: int32, events: seq<Event>, s: StepInput, raw: int32)
    requires ValidConfig(cfg) && ByTime(events) && AreRounds(cfg, start, events, raw)
    requires forall i :: 0 <= i < |events| ==> events[i].at < s.at
    requires Sizes(cfg, start, events, s, raw) && StepAccepted(cfg, start, events, s) && Available(cfg, start, events, s)
    requires InFlight(AfterStep(cfg, start, events, s), cfg.warmup, s.at) == []
    ensures AfterStep(cfg, start, events, s) == events
    ensures SimulatedAt(start, events, cfg.warmup, s.at) == Clamp(raw, cfg.limits.min, cfg.limits.max)
  {
    AvailableLimits(cfg, start, events, s);
    RipeButLast(cfg, start, events, raw, s.at);
    hide IsAvailable, Iterate, AreRounds;
    SurfacedIsPending(cfg, start, events, s);
    var now := SimulatedAt(start, events, cfg.warmup, s.at);
    assert RipeCount(events, cfg.warmup, s.at) == |events|;
    RestingCount(raw, now, cfg.limits);
  }

  lemma SurfacedIsPending(cfg: Config, start: int32, events: seq<Event>, s: StepInput)
    requires ValidConfig(cfg)
    ensures Surfaces(cfg, start, events, s) ==> InFlight(AfterStep(cfg, start, events, s), cfg.warmup, s.at) != []
  {
    hide IsAvailable, Target;
    var after := AfterStep(cfg, start, events, s);
    assert Surfaces(cfg, start, events, s) ==> |after| == |events| + 1 && after[|after| - 1].at == s.at;
  }

  /** A count that a round leaves alone is the limit. */
  lemma RestingCount(raw: int32, current: int32, l: Limits)
    requires ValidLimits(l) && Final(raw, current, l) == current
    ensures current == Clamp(raw, l.min, l.max)
  {
    FinalInRange(raw, current, l);
    RoundMovesTowardsTarget(raw, current, l);
  }

  /**
   * Over every reported run under steady demand the surfaced targets are the successive rounds towards
   * the limit, each surfaced only after the one before has matured, and no more of them than rounds.
   */
  lemma WholeRunRounds(cfg: Config, observed: seq<StepInput>, rep: Report, raw: int32)
    requires Reported(cfg, observed, rep) && Steady(cfg, rep.start, InWindow(cfg, observed), raw)
    ensures AreRounds(cfg, rep.start, rep.events, raw)
    ensures |rep.events| <= RoundsFrom(raw, rep.start, cfg.limits)
  {
    hide Reported, RunAccepted, EventsOf, IsGrid, InWindow, Paced, Disciplined, Steady, AreRounds, AtSteps;
    ReportedRun(cfg, observed, rep);
    GridReachesWindow(cfg, observed);
    EventsInWindow(cfg, observed, rep);
    EventsAreRounds(cfg, rep.start, InWindow(cfg, observed), raw);
    EventsWithinRounds(cfg, rep.start, rep.events, raw);
  }

  /** When the last step's recommendation is available and nothing is pending after it, the run has arrived. */
  lemma RunArrives(cfg: Config, start: int32, steps: seq<StepInput>, raw: int32)
    requires ValidConfig(cfg) && Paced(Times(steps), cfg.step) && RunAccepted(cfg, start, steps)
    requires Steady(cfg, start, steps, raw) && steps != []
    requires Available(cfg, start, EventsOf(cfg, start, steps[..|steps| - 1]), steps[|steps| - 1])
    requires InFlight(EventsOf(cfg, start, steps), cfg.warmup, steps[|steps| - 1].at) == []
    ensures SimulatedAt(start, EventsOf(cfg, start, steps), cfg.warmup, steps[|steps| - 1].at)
            == Clamp(raw, cfg.limits.min, cfg.limits.max)
    ensures |EventsOf(cfg, start, steps)| == RoundsFrom(raw, start, cfg.limits)
  {
    hide RunAccepted, Paced, Disciplined, AreRounds, AtSteps, Available, Steady, Sizes, AfterStep, SimulatedAt, RoundsFrom,
         StepAccepted, Iterate, Clamp;
    var n := |steps| - 1;
    var events := EventsOf(cfg, start, steps[..n]);
    PrefixOfRun(cfg, start, steps, n);
    SteadyPrefix(cfg, start, steps, raw, n);
    LastSizes(cfg, start, steps, raw);
    EventsAreRounds(cfg, start, steps[..n], raw);
    EveryRunIsDisciplined(cfg, start, steps[..n]);
    DisciplinedByTime(cfg, start, events);
    EventsPrecedeNextStep(events, steps, cfg.step, n);
    AvailableLimits(cfg, start, events, steps[n]);
    QuietStepHasArrived(cfg, start, events, steps[n], raw);
    EventsWithinRounds(cfg, start, events, raw);
    RipeButLast(cfg, start, events, raw, steps[n].at);
    ReachedIff(raw, start, cfg.limits, |events|);
    assert RipeCount(events, cfg.warmup, steps[n].at) == |events|;
  }

  lemma LastSizes(cfg: Config, start: int32, steps: seq<StepInput>, raw: int32)
    requires ValidConfig(cfg) && RunAccepted(cfg, start, steps) && Steady(cfg, start, steps, raw) && steps != []
    ensures StepAccepted(cfg, start, EventsOf(cfg, start, steps[..|steps| - 1]), steps[|steps| - 1])
    ensures Sizes(cfg, start, EventsOf(cfg, start, steps[..|steps| - 1]), steps[|steps| - 1], raw)
  {
  }

  /**
   * When the last evaluated step has an available recommendation and nothing is pending at the end, the
   * simulated count has arrived at the limit, after exactly the rounds needed.
   */
  lemma WholeRunArrives(cfg: Config, observed: seq<StepInput>, rep: Report, raw: int32)
    requires Reported(cfg, observed, rep) && Steady(cfg, rep.start, InWindow(cfg, observed), raw)
    requires var steps := InWindow(cfg, observed);
             steps != [] && Available(cfg, rep.start, EventsOf(cfg, rep.start, steps[..|steps| - 1]), steps[|steps| - 1])
    requires rep.pending == []
    ensures rep.replicas != [] && rep.replicas[|rep.replicas| - 1] == Clamp(raw, cfg.limits.min, cfg.limits.max)
    ensures |rep.events| == RoundsFrom(raw, rep.start, cfg.limits)
  {
    hide Reported, RunAccepted, EventsOf, IsGrid, InWindow, Paced, Available, Steady, InFlight, SimulatedAt, RoundsFrom, Clamp;
    ReportedRun(cfg, observed, rep);
    GridReachesWindow(cfg, observed);
    ReportedTrajectory(cfg, observed, rep);
    LastPointIsWindowEnd(cfg, observed);
    RunArrives(cfg, rep.start, InWindow(cfg, observed), raw);
  }
}
