/**
 * The replay engine: a fixed-step simulator with a warmup queue. Its mutable state is proved to
 * be what the list of surfaced events says it is, at every step of every run.
 */
module Replay {
  import opened Core
  import opened Bounds
  import opened Grid
  import opened Points
  import opened Recommend
  import opened Timeline
  import opened RunProperties
  import opened Queue
  import opened Accounting
  import Safety

  datatype Error = InvalidSpec | StepFailed

  // ---- defaults ----

  const MINUTE: Duration := 60 * SECOND

  function DefaultLimits(l: Limits): Limits {
    var min: int32 := if l.min < 1 then 1 else l.min;
    l.(min := min, max := if l.max < 1 then Max(min, 10) else l.max)
  }

  function Filled(raw: Config): Config {
    raw.(step := if raw.step <= 0 then MINUTE else raw.step,
         lookback := if raw.lookback <= 0 then 30 * MINUTE else raw.lookback,
         horizon := if raw.horizon <= 0 then 5 * MINUTE else raw.horizon,
         warmup := if raw.warmup == 0 then 45 * SECOND else raw.warmup,
         utilization := if raw.utilization <= 0.0 || raw.utilization > 1.0 then 0.8 else raw.utilization,
         threshold := if raw.threshold <= 0.0 || raw.threshold > 1.0 then 0.7 else raw.threshold,
         limits := DefaultLimits(raw.limits),
         headroomMode := if raw.headroomMode == Safety.UnsetMode then Safety.DisabledMode else raw.headroomMode)
  }

  /** The window or a duration is unusable, or the maximum is set below the minimum. */
  predicate Refused(raw: Config) {
    || IsZeroTime(raw.windowStart) || IsZeroTime(raw.windowEnd) || raw.windowEnd <= raw.windowStart
    || raw.warmup < 0 || raw.cooldown < 0
    || (1 <= raw.limits.max && raw.limits.max < Max(1, raw.limits.min))
  }

  /** The specification with its defaults filled in, or an error; accepted ones are valid and keep a positive warmup. */
  function WithDefaults(raw: Config, targetNamed: bool): (r: Result<Config, Error>)
    ensures r.Ok? ==> ValidConfig(r.value)
    ensures r.Err? <==> !targetNamed || Refused(raw)
  {
    if !targetNamed then Err(InvalidSpec)
    else if IsZeroTime(raw.windowStart) || IsZeroTime(raw.windowEnd) || raw.windowEnd <= raw.windowStart then Err(InvalidSpec)
    else if raw.warmup < 0 then Err(InvalidSpec)
    else if DefaultLimits(raw.limits).max < DefaultLimits(raw.limits).min then Err(InvalidSpec)
    else if raw.cooldown < 0 then Err(InvalidSpec)
    else Ok(Filled(raw))
  }

  /** Usable values are kept, and filling in defaults a second time changes nothing. */
  lemma DefaultsKeepValues(raw: Config)
    requires WithDefaults(raw, true).Ok?
    ensures var cfg := WithDefaults(raw, true).value;
            && WithDefaults(cfg, true) == Ok(cfg)
            && cfg.windowStart == raw.windowStart && cfg.windowEnd == raw.windowEnd && cfg.cooldown == raw.cooldown
            && cfg.blackouts == raw.blackouts && cfg.dependencies == raw.dependencies
            && (raw.step > 0 ==> cfg.step == raw.step) && (raw.lookback > 0 ==> cfg.lookback == raw.lookback)
            && (raw.horizon > 0 ==> cfg.horizon == raw.horizon) && (raw.warmup > 0 ==> cfg.warmup == raw.warmup)
            && (0.0 < raw.utilization <= 1.0 ==> cfg.utilization == raw.utilization)
            && (0.0 < raw.threshold <= 1.0 ==> cfg.threshold == raw.threshold)
            && (raw.limits.min >= 1 ==> cfg.limits.min == raw.limits.min)
            && (raw.limits.max >= 1 ==> cfg.limits.max == raw.limits.max)
            && cfg.limits.stepUp == raw.limits.stepUp && cfg.limits.stepDown == raw.limits.stepDown
            && (raw.headroomMode != Safety.UnsetMode ==> cfg.headroomMode == raw.headroomMode)
  {
  }

  /** A specification that sets only its window runs a step a minute over half an hour of history. */
  lemma DefaultsOfWindow(from: Time, to: Time)
    requires from != 0 && to != 0 && from < to
    ensures WithDefaults(Config(from, to, 0, 0, 0, 0, 0.0, 0.0, Limits(0, 0, None, None), 0, [], [], Safety.UnsetMode), true) ==
            Ok(Config(from, to, 60 * SECOND, 1800 * SECOND, 300 * SECOND, 45 * SECOND, 0.8, 0.7,
                      Limits(1, 10, None, None), 0, [], [], Safety.DisabledMode))
  {
  }

  // ---- what one evaluation must report ----

  ghost predicate Reports(cfg: Config, start: int32, before: seq<Event>, s: StepInput, e: Evaluation)
    requires ValidConfig(cfg)
  {
    var now := SimulatedAt(start, before, cfg.warmup, s.at);
    && e.at == s.at && e.simulated == now && e.baseline == s.replicas
    && e.forecastFailed == s.forecast.None?
    && (s.forecast.None? ==> e.state == Unavailable && e.required == None)
    && (s.forecast.Some? ==>
          && (e.state == Available <==> IsAvailable(DemandAt(cfg, now, s), GatesAt(cfg, LastOf(start, before), s)))
          && (e.state == Unavailable <==> !(CoversReadyTime(DemandAt(cfg, now, s)) && HasBaseline(DemandAt(cfg, now, s))))
          && e.required == RequiredFromCapacity(s.demand, s.capacity))
    && (e.surfaced <==> Surfaces(cfg, start, before, s))
  }

  function LastTime(steps: seq<StepInput>, otherwise: Time): Time {
    if steps == [] then otherwise else steps[|steps| - 1].at
  }

  predicate QueueMatches(start: int32, events: seq<Event>, warmup: Duration, done: seq<StepInput>,
                         current: int32, pending: seq<Activation>)
  {
    if done == [] then events == [] && current == start && pending == []
    else && current == SimulatedAt(start, events, warmup, LastTime(done, 0))
         && pending == InFlight(events, warmup, LastTime(done, 0))
  }

  ghost predicate CountersMatch(
    done: seq<StepInput>, current: int32, replicas: seq<int32>, scaleUps: nat, scaleDowns: nat)
  {
    && |replicas| == |done|
    && (done != [] ==> replicas[|replicas| - 1] == current)
    && scaleUps == Rises(replicas) && scaleDowns == Falls(replicas)
  }

  ghost predicate EvaluationsMatch(
    cfg: Config, start: int32, done: seq<StepInput>, replicas: seq<int32>, evaluations: seq<Evaluation>)
    requires ValidConfig(cfg)
  {
    && |replicas| == |evaluations| == |done|
    && forall i :: 0 <= i < |done| ==>
         && replicas[i] == evaluations[i].simulated
         && Reports(cfg, start, EventsOf(cfg, start, done[..i]), done[i], evaluations[i])
  }

  /** The simulator's variables as one value. */
  datatype Variables = Variables(
    current: int32, pending: seq<Activation>, last: Safety.Previous, scaleUps: nat, scaleDowns: nat,
    replicas: seq<int32>, evaluations: seq<Evaluation>, events: seq<Event>, totals: Totals)

  /** The variables are the ones the events of the steps so far stand for. */
  ghost predicate Matches(cfg: Config, start: int32, done: seq<StepInput>, intervals: seq<Duration>, st: Variables)
    requires ValidConfig(cfg)
  {
    && st.events == EventsOf(cfg, start, done)
    && st.last == LastOf(start, st.events)
    && QueueMatches(start, st.events, cfg.warmup, done, st.current, st.pending)
    && CountersMatch(done, st.current, st.replicas, st.scaleUps, st.scaleDowns)
    && EvaluationsMatch(cfg, start, done, st.replicas, st.evaluations)
    && |intervals| == |st.evaluations|
    && st.totals == TotalsOf(st.evaluations, intervals)
  }

  function WithActivation(queue: seq<Activation>, at: Time, warmup: Duration, target: Option<int32>): seq<Activation> {
    if target.Some? then queue + [Activation(at + warmup, target.value)] else queue
  }

  function WithLast(last: Safety.Previous, at: Time, target: Option<int32>): Safety.Previous {
    if target.Some? then Safety.Previous(target.value, at) else last
  }

  /** The count and counters after adopting what is due at `s`: at most one activation. */
  predicate Advanced(st: Variables, done: seq<StepInput>, s: StepInput, now: int32, ups: nat, downs: nat) {
    var due := Due(st.pending, s.at);
    && |due| <= 1 && (done == [] ==> due == [])
    && now == LastCount(st.current, due)
    && ups == st.scaleUps + Rises([st.current] + Replicas(due))
    && downs == st.scaleDowns + Falls([st.current] + Replicas(due))
  }

  /** The variables after a step that reported `e` and surfaced `target`, if any. */
  function NextState(st: Variables, at: Time, warmup: Duration, ups: nat, downs: nat, queue: seq<Activation>,
                     e: Evaluation, target: Option<int32>, totals: Totals): Variables {
    Variables(e.simulated,
          WithActivation(queue, at, warmup, target),
          WithLast(st.last, at, target),
          ups, downs, st.replicas + [e.simulated], st.evaluations + [e],
          WithTarget(st.events, at, e.simulated, target), totals)
  }

  /** The simulator between two steps. */
  class Simulation {
    const cfg: Config
    const start: int32
    var current: int32
    var pending: seq<Activation>
    var last: Safety.Previous
    var scaleUps: nat
    var scaleDowns: nat
    var replicas: seq<int32>
    var evaluations: seq<Evaluation>
    var events: seq<Event>
    var totals: Totals
    ghost var done: seq<StepInput>
    ghost var intervals: seq<Duration>

    function Snapshot(): Variables
      reads this
    {
      Variables(current, pending, last, scaleUps, scaleDowns, replicas, evaluations, events, totals)
    }

    ghost predicate Valid()
      reads this
    {
      && ValidConfig(cfg)
      && Paced(Times(done), cfg.step)
      && RunAccepted(cfg, start, done)
      && Matches(cfg, start, done, intervals, Snapshot())
    }

    constructor (cfg: Config, start: int32)
      requires ValidConfig(cfg)
      ensures Valid() && this.cfg == cfg && this.start == start && done == [] && intervals == []
    {
      this.cfg, this.start := cfg, start;
      current, pending, last := start, [], Safety.Previous(start, 0);
      scaleUps, scaleDowns := 0, 0;
      replicas, evaluations, events, totals := [], [], [], NO_TIME;
      done, intervals := [], [];
    }

    /** One evaluated grid point; false when readiness evaluation or the recommender reports an error. */
    method Step(s: StepInput, interval: Duration) returns (ok: bool)
      requires Valid() && Paced(Times(done + [s]), cfg.step)
      modifies this
      ensures ok <==> StepAccepted(cfg, start, EventsOf(cfg, start, old(done)), s)
      ensures ok ==> Valid() && done == old(done) + [s] && intervals == old(intervals) + [interval]
    {
      var now, ups, downs, queue := Activate(s);
      var judged := Judge(cfg, start, last, now, s, events);
      if judged.Err? {
        return false;
      }
      var (e, target) := judged.value;
      var scored := ScoreStep(totals, e, interval, evaluations, intervals);
      StepMatches(cfg, start, done, intervals, Snapshot(), s, interval, ups, downs, queue, e, target, scored);
      ghost var next := NextState(Snapshot(), s.at, cfg.warmup, ups, downs, queue, e, target, scored);
      Assign(s, interval, ups, downs, queue, e, target, scored);
      assert Snapshot() == next;
      return true;
    }

    /** The matured activations are adopted and the rest stay queued. */
    method Activate(s: StepInput) returns (now: int32, ups: nat, downs: nat, queue: seq<Activation>)
      requires Valid() && Paced(Times(done + [s]), cfg.step)
      ensures now == SimulatedAt(start, events, cfg.warmup, s.at)
      ensures queue == InFlight(events, cfg.warmup, s.at)
      ensures Advanced(Snapshot(), done, s, now, ups, downs)
      ensures ByTime(events) && forall i :: 0 <= i < |events| ==> events[i].at < s.at
    {
      hide RunAccepted, EventsOf, EvaluationsMatch, NotDue, Due, Sorted, Paced, RipeCount;
      now, ups, downs := ApplyScheduledActivations(current, pending, s.at, scaleUps, scaleDowns);
      queue := PendingAfter(pending, s.at);
      EventsBeforeStep(cfg, start, done, s);
      AdvanceToStep(start, events, cfg.warmup, cfg.step, done, s, current, pending);
    }

    /** The step's evaluation is recorded, and a surfaced target is queued and remembered. */
    method Assign(s: StepInput, interval: Duration, ups: nat, downs: nat, queue: seq<Activation>,
                  e: Evaluation, target: Option<int32>, scored: Totals)
      modifies this
      ensures current == e.simulated && scaleUps == ups && scaleDowns == downs && totals == scored
      ensures pending == WithActivation(queue, s.at, cfg.warmup, target)
      ensures last == WithLast(old(last), s.at, target)
      ensures events == WithTarget(old(events), s.at, e.simulated, target)
      ensures replicas == old(replicas) + [e.simulated] && evaluations == old(evaluations) + [e]
      ensures done == old(done) + [s] && intervals == old(intervals) + [interval]
    {
      current, scaleUps, scaleDowns, totals, pending := e.simulated, ups, downs, scored, queue;
      if target.Some? {
        pending := pending + [Activation(s.at + cfg.warmup, target.value)];
        last := Safety.Previous(target.value, s.at);
        events := events + [Event(s.at, e.simulated, target.value)];
      }
      replicas, evaluations := replicas + [e.simulated], evaluations + [e];
      done, intervals := done + [s], intervals + [interval];
    }
  }

  // ---- the step's obligations, on values ----

  /** The events so far are in order and before the next step. */
  lemma EventsBeforeStep(cfg: Config, start: int32, done: seq<StepInput>, s: StepInput)
    requires ValidConfig(cfg) && Paced(Times(done + [s]), cfg.step) && RunAccepted(cfg, start, done)
    ensures var events := EventsOf(cfg, start, done);
            && ByTime(events)
            && AtSteps(events, Times(done + [s]))
            && forall i :: 0 <= i < |events| ==> events[i].at < s.at
  {
    var steps := done + [s];
    assert steps[..|done|] == done;
    PacedPrefix(steps, cfg.step);
    EveryRunIsDisciplined(cfg, start, done);
    DisciplinedByTime(cfg, start, EventsOf(cfg, start, done));
    EventsPrecedeNextStep(EventsOf(cfg, start, done), steps, cfg.step, |done|);
  }

  /** The queue and the count, advanced to the next evaluated time. */
  lemma AdvanceToStep(start: int32, events: seq<Event>, warmup: Duration, step: Duration,
                      done: seq<StepInput>, s: StepInput, current: int32, pending: seq<Activation>)
    requires Paced(Times(done + [s]), step) && warmup > 0
    requires ByTime(events) && AtSteps(events, Times(done + [s]))
    requires forall i :: 0 <= i < |events| ==> events[i].at < s.at
    requires QueueMatches(start, events, warmup, done, current, pending)
    ensures && LastCount(current, Due(pending, s.at)) == SimulatedAt(start, events, warmup, s.at)
            && NotDue(pending, s.at) == InFlight(events, warmup, s.at)
            && Sorted(NotDue(pending, s.at))
            && |Due(pending, s.at)| <= 1
            && (done == [] ==> Due(pending, s.at) == [])
  {
    var n := |done|;
    if n > 0 {
      hide RipeCount, Paced, AtSteps, ByTime, NotDue, Sorted;
      var t := LastTime(done, 0);
      var times := Times(done + [s]);
      assert times[n - 1] == t && times[n] == s.at;
      PacedIncreasing(times, step, n - 1, n);
      AdvanceQueue(events, warmup, t, s.at);
      AdvanceCount(start, events, warmup, t, s.at);
      AtMostOneMaturesPerStep(events, times, step, warmup, n);
    }
  }

  lemma PacedPrefix(steps: seq<StepInput>, step: Duration)
    requires steps != [] && Paced(Times(steps), step)
    ensures Paced(Times(steps[..|steps| - 1]), step)
  {
    var prefix := steps[..|steps| - 1];
    assert forall i :: 0 <= i < |prefix| ==> Times(prefix)[i] == Times(steps)[i];
  }

  /** At most one activation is adopted per step, so the running counters follow the recorded counts. */
  lemma CountStep(replicas: seq<int32>, current: int32, pending: seq<Activation>, at: Time, now: int32)
    requires now == LastCount(current, Due(pending, at)) && |Due(pending, at)| <= 1
    requires if replicas == [] then Due(pending, at) == [] else replicas[|replicas| - 1] == current
    ensures Rises(replicas + [now]) == Rises(replicas) + Rises([current] + Replicas(Due(pending, at)))
    ensures Falls(replicas + [now]) == Falls(replicas) + Falls([current] + Replicas(Due(pending, at)))
  {
    var due := Due(pending, at);
    if replicas != [] {
      AppendCount(replicas, now);
    }
    if |due| == 1 {
      assert [current] + Replicas(due) == [current] + [now];
      AppendCount([current], now);
    }
  }

  /** One more accepted step extends the run. */
  lemma RunGrows(cfg: Config, start: int32, done: seq<StepInput>, s: StepInput)
    requires ValidConfig(cfg) && RunAccepted(cfg, start, done)
    requires StepAccepted(cfg, start, EventsOf(cfg, start, done), s)
    ensures RunAccepted(cfg, start, done + [s])
    ensures EventsOf(cfg, start, done + [s]) == AfterStep(cfg, start, EventsOf(cfg, start, done), s)
  {
    var steps := done + [s];
    assert steps[..|done|] == done;
    forall i | 0 <= i < |steps|
      ensures StepAccepted(cfg, start, EventsOf(cfg, start, steps[..i]), steps[i])
    {
      if i < |done| {
        assert steps[..i] == done[..i];
      }
    }
  }

  /** The events after a step that surfaced `target`, if any. */
  function WithTarget(before: seq<Event>, at: Time, now: int32, target: Option<int32>): seq<Event> {
    if target.Some? then before + [Event(at, now, target.value)] else before
  }

  /** A surfaced target joins the events and the back of the queue, and leaves the count alone. */
  lemma AdoptTarget(start: int32, before: seq<Event>, at: Time, now: int32, target: Option<int32>, warmup: Duration)
    requires ByTime(before) && warmup > 0 && forall i :: 0 <= i < |before| ==> before[i].at < at
    ensures var after := WithTarget(before, at, now, target);
            && SimulatedAt(start, after, warmup, at) == SimulatedAt(start, before, warmup, at)
            && InFlight(after, warmup, at) == WithActivation(InFlight(before, warmup, at), at, warmup, target)
            && LastOf(start, after) == WithLast(LastOf(start, before), at, target)
  {
    if target.Some? {
      LaterEventsDoNotMatter(start, before, Event(at, now, target.value), warmup, at);
    }
  }

  lemma RecordStep(cfg: Config, start: int32, done: seq<StepInput>, s: StepInput,
                   replicas: seq<int32>, evaluations: seq<Evaluation>, e: Evaluation)
    requires ValidConfig(cfg) && EvaluationsMatch(cfg, start, done, replicas, evaluations)
    requires Reports(cfg, start, EventsOf(cfg, start, done), s, e)
    ensures EvaluationsMatch(cfg, start, done + [s], replicas + [e.simulated], evaluations + [e])
  {
    var steps := done + [s];
    assert steps[..|done|] == done;
    forall i | 0 <= i < |steps|
      ensures (replicas + [e.simulated])[i] == (evaluations + [e])[i].simulated
      ensures Reports(cfg, start, EventsOf(cfg, start, steps[..i]), steps[i], (evaluations + [e])[i])
    {
      if i < |done| {
        assert steps[..i] == done[..i];
      }
    }
  }

  /** What one step leaves in the simulator's variables is again what the events stand for. */
  lemma StepMatches(cfg: Config, start: int32, done: seq<StepInput>, intervals: seq<Duration>, st: Variables,
                    s: StepInput, interval: Duration, ups: nat, downs: nat, queue: seq<Activation>,
                    e: Evaluation, target: Option<int32>, totals: Totals)
    requires ValidConfig(cfg) && RunAccepted(cfg, start, done) && Matches(cfg, start, done, intervals, st)
    requires StepAccepted(cfg, start, st.events, s) && Reports(cfg, start, st.events, s, e)
    requires ByTime(st.events) && forall i :: 0 <= i < |st.events| ==> st.events[i].at < s.at
    requires AfterStep(cfg, start, st.events, s) == WithTarget(st.events, s.at, e.simulated, target)
    requires queue == InFlight(st.events, cfg.warmup, s.at)
    requires Advanced(st, done, s, e.simulated, ups, downs)
    requires totals == TotalsOf(st.evaluations + [e], intervals + [interval])
    ensures RunAccepted(cfg, start, done + [s])
    ensures Matches(cfg, start, done + [s], intervals + [interval],
                    NextState(st, s.at, cfg.warmup, ups, downs, queue, e, target, totals))
  {
    RunGrows(cfg, start, done, s);
    QueueStep(start, st.events, cfg.warmup, done, s, e.simulated, queue, target);
    CountersStep(done, st, s, e.simulated, ups, downs);
    RecordStep(cfg, start, done, s, st.replicas, st.evaluations, e);
  }

  lemma QueueStep(start: int32, events: seq<Event>, warmup: Duration, done: seq<StepInput>, s: StepInput,
                  now: int32, queue: seq<Activation>, target: Option<int32>)
    requires ByTime(events) && warmup > 0 && forall i :: 0 <= i < |events| ==> events[i].at < s.at
    requires now == SimulatedAt(start, events, warmup, s.at) && queue == InFlight(events, warmup, s.at)
    ensures var after := WithTarget(events, s.at, now, target);
            && QueueMatches(start, after, warmup, done + [s], now, WithActivation(queue, s.at, warmup, target))
            && LastOf(start, after) == WithLast(LastOf(start, events), s.at, target)
  {
    AdoptTarget(start, events, s.at, now, target, warmup);
    assert LastTime(done + [s], 0) == s.at;
  }

  lemma CountersStep(done: seq<StepInput>, st: Variables, s: StepInput, now: int32, ups: nat, downs: nat)
    requires CountersMatch(done, st.current, st.replicas, st.scaleUps, st.scaleDowns)
    requires Advanced(st, done, s, now, ups, downs)
    ensures CountersMatch(done + [s], now, st.replicas + [now], ups, downs)
  {
    CountStep(st.replicas, st.current, st.pending, s.at, now);
  }

  /** Forecast, recommendation and the surfacing rule for one step. */
  method Judge(cfg: Config, start: int32, last: Safety.Previous, now: int32, s: StepInput, ghost before: seq<Event>)
    returns (r: Result<(Evaluation, Option<int32>), Error>)
    requires ValidConfig(cfg) && last == LastOf(start, before) && now == SimulatedAt(start, before, cfg.warmup, s.at)
    ensures r.Ok? <==> StepAccepted(cfg, start, before, s)
    ensures r.Ok? ==> Reports(cfg, start, before, s, r.value.0)
    ensures r.Ok? ==> AfterStep(cfg, start, before, s) == WithTarget(before, s.at, now, r.value.1)
  {
    if s.readiness.None? {
      return Err(StepFailed);
    }
    if s.forecast.None? {
      return Ok((Evaluation(s.at, now, s.replicas, Unavailable, true, false, None), None));
    }
    var point := SelectForecastPoint(s.forecast.value.points, s.at + cfg.warmup);
    var d := Demand(s.at, point.value, point.at, s.demand, now, cfg.utilization, cfg.warmup, Some(s.capacity));
    var recommended := Recommend.Recommend(d, GatesAt(cfg, last, s));
    if recommended.Err? {
      return Err(StepFailed);
    }
    var rec := recommended.value;
    var surfaced := rec.state == Available && rec.final != now && last.replicas != rec.final;
    return Ok((Evaluation(s.at, now, s.replicas, rec.state, false, surfaced,
                          RequiredFromCapacity(s.demand, s.capacity)),
               if surfaced then Some(rec.final) else None));
  }
}
