/** What holds of the simulated count over any whole run, proved from the run's events. */
module RunProperties {
  import opened Core
  import opened Bounds
  import opened Grid
  import opened Timeline

  // ---- the trajectory is the events, delayed ----

  /** The count simulated at `t` is the target of the latest event matured by `t`, or the start. */
  lemma SimulatedIsLatestMatured(start: int32, events: seq<Event>, warmup: Duration, t: Time, i: nat)
    requires ByTime(events)
    ensures i < |events| && events[i].at + warmup <= t && (i + 1 < |events| ==> events[i + 1].at + warmup > t)
            ==> SimulatedAt(start, events, warmup, t) == events[i].target
    ensures (forall j :: 0 <= j < |events| ==> events[j].at + warmup > t)
            ==> SimulatedAt(start, events, warmup, t) == start
  {
    if i < |events| {
      RipeIffCounted(events, warmup, t, i);
    }
    if i + 1 < |events| {
      RipeIffCounted(events, warmup, t, i + 1);
    }
  }

  /** Each event is pending until it matures and never after; pending activations are in time order. */
  lemma PendingIsUnmatured(events: seq<Event>, warmup: Duration, t: Time, i: nat)
    requires ByTime(events) && i < |events|
    ensures Activation(events[i].at + warmup, events[i].target) in InFlight(events, warmup, t)
            <==> events[i].at + warmup > t
    ensures var p := InFlight(events, warmup, t); forall j :: 0 < j < |p| ==> p[j - 1].at < p[j].at
  {
    var k := RipeCount(events, warmup, t);
    RipeIffCounted(events, warmup, t, i);
    var p := InFlight(events, warmup, t);
    if i >= k {
      assert p[i - k] == Activation(events[i].at + warmup, events[i].target);
    }
    forall j | 0 <= j < |p| ensures p[j].at > t {
      RipeIffCounted(events, warmup, t, k + j);
      assert p[j].at == events[k + j].at + warmup;
    }
  }

  // ---- cooldown ----

  /** Events are spaced by the cooldown, so `j - i` events later at least that many cooldowns passed. */
  lemma {:induction false} EventsAreSpaced(cfg: Config, start: int32, events: seq<Event>, i: nat, j: nat)
    requires Disciplined(cfg, start, events) && i <= j < |events|
    ensures events[i].at + (j - i) * cfg.cooldown <= events[j].at
    decreases j
  {
    if i < j {
      EventsAreSpaced(cfg, start, events, i, j - 1);
      assert Sound(cfg, start, events, j);
      Distribute(j - 1 - i, 1, cfg.cooldown);
    }
  }

  /** The number of events of a run is bounded by its length in cooldowns. */
  lemma EventCountBound(cfg: Config, start: int32, events: seq<Event>, from: Time, until: Time)
    requires Disciplined(cfg, start, events)
    requires forall i :: 0 <= i < |events| ==> from <= events[i].at <= until
    ensures events != [] ==> (|events| - 1) * cfg.cooldown <= until - from
  {
    if events != [] {
      EventsAreSpaced(cfg, start, events, 0, |events| - 1);
    }
  }

  // ---- range ----

  /** Every matured count is in range. */
  lemma MaturedInRange(cfg: Config, start: int32, events: seq<Event>, t: Time)
    requires Disciplined(cfg, start, events)
    ensures RipeCount(events, cfg.warmup, t) > 0 ==>
              InRange(cfg.limits, SimulatedAt(start, events, cfg.warmup, t))
  {
    var k := RipeCount(events, cfg.warmup, t);
    if k > 0 {
      assert Sound(cfg, start, events, k - 1);
    }
  }

  /** Once the simulated count is within the policy's range it stays there. */
  lemma StaysInRange(cfg: Config, start: int32, events: seq<Event>, t: Time, u: Time)
    requires Disciplined(cfg, start, events) && t <= u
    requires InRange(cfg.limits, SimulatedAt(start, events, cfg.warmup, t))
    ensures InRange(cfg.limits, SimulatedAt(start, events, cfg.warmup, u))
  {
    DisciplinedByTime(cfg, start, events);
    RipeCountMonotone(events, cfg.warmup, t, u);
    MaturedInRange(cfg, start, events, u);
  }

  // ---- activations in flight ----

  /** The event at `i` is surfaced after the one before it has matured. */
  predicate FindsMatured(events: seq<Event>, warmup: Duration, i: nat)
    requires i < |events|
  {
    i > 0 ==> events[i - 1].at + warmup <= events[i].at
  }

  /** When the event before it has matured, everything surfaced before an event has. */
  lemma NothingInFlightAtEvent(cfg: Config, start: int32, events: seq<Event>, i: nat)
    requires ValidConfig(cfg) && Disciplined(cfg, start, events) && i < |events|
    requires FindsMatured(events, cfg.warmup, i)
    ensures RipeCount(events[..i], cfg.warmup, events[i].at) == i
    ensures events[i].before == LastOf(start, events[..i]).replicas
  {
    DisciplinedByTime(cfg, start, events);
    assert Sound(cfg, start, events, i);
    forall j | 0 <= j < i
      ensures events[..i][j].at + cfg.warmup <= events[i].at
    {
      if j < i - 1 {
        ByTimeTransitive(events, j, i - 1);
      }
    }
    RipeCountIs(events[..i], cfg.warmup, events[i].at, i);
  }

  /** When each event finds the one before it matured, at most one is ever unmatured. */
  lemma AtMostOneInFlight(events: seq<Event>, warmup: Duration, t: Time)
    requires forall i :: 0 <= i < |events| ==> FindsMatured(events, warmup, i)
    requires forall i :: 0 <= i < |events| ==> events[i].at <= t
    ensures |InFlight(events, warmup, t)| <= 1
  {
    var k := RipeCount(events, warmup, t);
    assert k + 1 < |events| ==> FindsMatured(events, warmup, k + 1);
  }

  // ---- one activation per step ----

  /** Two events of a run are at least one step apart unless the later one is at the last point. */
  lemma EventsAreStepsApart(events: seq<Event>, times: seq<Time>, step: Duration, i: nat)
    requires Paced(times, step) && ByTime(events) && AtSteps(events, times) && i + 1 < |events|
    ensures events[i + 1].at == times[|times| - 1] || events[i].at + step <= events[i + 1].at
  {
    assert events[i].at in times && events[i + 1].at in times;
    var a :| 0 <= a < |times| && times[a] == events[i].at;
    var b :| 0 <= b < |times| && times[b] == events[i + 1].at;
    if b < a {
      PacedIncreasing(times, step, b, a);
    }
    PacedIncreasing(times, step, a, b);
  }

  /** Between two consecutive evaluated times at most one activation matures. */
  lemma AtMostOneMaturesPerStep(events: seq<Event>, times: seq<Time>, step: Duration, warmup: Duration, j: nat)
    requires Paced(times, step) && ByTime(events) && AtSteps(events, times) && warmup > 0
    requires 0 < j < |times|
    ensures var k := RipeCount(events, warmup, times[j - 1]);
            k <= RipeCount(events, warmup, times[j]) <= k + 1
  {
    var k := RipeCount(events, warmup, times[j - 1]);
    RipeCountMonotone(events, warmup, times[j - 1], times[j]);
    if k + 1 < |events| {
      EventsAreStepsApart(events, times, step, k);
      if j < |times| - 1 {
        PacedIncreasing(times, step, j, |times| - 1);
      }
      RipeIffCounted(events, warmup, times[j], k + 1);
    }
  }

  lemma NothingMaturedAtFirst(events: seq<Event>, times: seq<Time>, step: Duration, warmup: Duration)
    requires Paced(times, step) && AtSteps(events, times) && warmup > 0 && times != []
    ensures RipeCount(events, warmup, times[0]) == 0
  {
    if events != [] {
      var a :| 0 <= a < |times| && times[a] == events[0].at;
      if a > 0 {
        PacedIncreasing(times, step, 0, a);
      }
    }
  }

  // ---- how close two events can be ----

  /** The least whole number of steps, at least one, that covers the cooldown. */
  function Spacing(step: Duration, cooldown: Duration): Duration
    requires step > 0
  {
    step * CeilDiv(Max(cooldown, 1), step)
  }

  /** Two events this far apart never overlap: the first has matured when the second is surfaced. */
  predicate SafeTiming(step: Duration, warmup: Duration, cooldown: Duration)
    requires step > 0
  {
    Spacing(step, cooldown) >= warmup
  }

  lemma SpacingCoversCooldown(step: Duration, cooldown: Duration)
    requires step > 0
    ensures Spacing(step, cooldown) >= cooldown
  {
    var k: nat := CeilDiv(Max(cooldown, 1), step);
    assert step * k == k * step;
  }

  /** No shorter multiple of the step is positive and covers the cooldown. */
  lemma SpacingIsLeast(k: nat, step: Duration, cooldown: Duration)
    requires step > 0 && k >= 1 && k * step >= cooldown
    ensures Spacing(step, cooldown) <= k * step
  {
    var q: int := CeilDiv(Max(cooldown, 1), step);
    ScaleLe(1, k, step);
    CancelFactor(q - 1, k, step);
    ScaleLe(q, k, step);
    Commute(step, q);
  }

  lemma {:induction false} GridDistance(times: seq<Time>, step: Duration, a: nat, b: nat)
    requires Paced(times, step) && a <= b < |times| - 1
    ensures times[b] - times[a] == (b - a) * step
    decreases b
  {
    if a < b {
      GridDistance(times, step, a, b - 1);
      Distribute(b - 1 - a, 1, step);
    }
  }

  /** Consecutive events are at least the spacing apart, unless the later one is at the last evaluated time. */
  lemma EventsAreSpacingApart(cfg: Config, start: int32, events: seq<Event>, times: seq<Time>, i: nat)
    requires ValidConfig(cfg) && Disciplined(cfg, start, events)
    requires Paced(times, cfg.step) && AtSteps(events, times)
    requires 0 < i < |events| && events[i].at < times[|times| - 1]
    ensures events[i - 1].at + Spacing(cfg.step, cfg.cooldown) <= events[i].at
  {
    assert Sound(cfg, start, events, i);
    assert events[i - 1].at in times && events[i].at in times;
    var a :| 0 <= a < |times| && times[a] == events[i - 1].at;
    var b :| 0 <= b < |times| && times[b] == events[i].at;
    if b <= a {
      if b < a {
        PacedIncreasing(times, cfg.step, b, a);
      }
    } else {
      GridDistance(times, cfg.step, a, b);
      SpacingIsLeast(b - a, cfg.step, cfg.cooldown);
    }
  }

  // ---- step limits ----

  /** A change of count the policy allows: within the step limits, or the first correction into range. */
  predicate AllowedChange(cfg: Config, start: int32, was: int32, now: int32) {
    if InRange(cfg.limits, was) then Reachable(cfg.limits, was, now)
    else was == start && now == Clamp(start, cfg.limits.min, cfg.limits.max)
  }

  /**
   * When the spacing of events covers the warmup, from one evaluated time to the next the simulated
   * count either stays or changes within the step limits; only the first change can exceed them,
   * and only to bring an out-of-range start to the nearest end of the range. An event at the last
   * evaluated time may come earlier than the spacing, but never matures inside the run.
   */
  lemma ChangesRespectStepLimits(cfg: Config, start: int32, events: seq<Event>, times: seq<Time>, j: nat)
    requires ValidConfig(cfg) && Disciplined(cfg, start, events)
    requires SafeTiming(cfg.step, cfg.warmup, cfg.cooldown)
    requires Paced(times, cfg.step) && AtSteps(events, times) && 0 < j < |times|
    ensures var was := SimulatedAt(start, events, cfg.warmup, times[j - 1]);
            var now := SimulatedAt(start, events, cfg.warmup, times[j]);
            was == now || AllowedChange(cfg, start, was, now)
  {
    hide Paced, AtSteps, SafeTiming;
    DisciplinedByTime(cfg, start, events);
    AtMostOneMaturesPerStep(events, times, cfg.step, cfg.warmup, j);
    var k := RipeCount(events, cfg.warmup, times[j - 1]);
    if RipeCount(events, cfg.warmup, times[j]) == k + 1 {
      assert Sound(cfg, start, events, k);
      MaturedIsBeforeLast(events, times, cfg.step, cfg.warmup, j, k);
      if k > 0 {
        EventsAreSpacingApart(cfg, start, events, times, k);
        SpacingIsEnough(cfg);
      }
      NothingInFlightAtEvent(cfg, start, events, k);
      MaturedInRange(cfg, start, events, times[j - 1]);
    }
  }

  lemma SpacingIsEnough(cfg: Config)
    requires ValidConfig(cfg) && SafeTiming(cfg.step, cfg.warmup, cfg.cooldown)
    ensures Spacing(cfg.step, cfg.cooldown) >= cfg.warmup
  {
  }

  lemma MaturedIsBeforeLast(events: seq<Event>, times: seq<Time>, step: Duration, warmup: Duration, j: nat, k: nat)
    requires Paced(times, step) && warmup > 0 && j < |times| && k < RipeCount(events, warmup, times[j])
    ensures events[k].at < times[|times| - 1]
  {
    if j < |times| - 1 {
      PacedIncreasing(times, step, j, |times| - 1);
    }
  }

  /** A cooldown no shorter than the warmup is one way to keep the spacing. */
  lemma LongCooldownIsSafe(step: Duration, warmup: Duration, cooldown: Duration)
    requires step > 0 && cooldown >= warmup
    ensures SafeTiming(step, warmup, cooldown)
  {
    SpacingCoversCooldown(step, cooldown);
  }

  // ---- scale accounting ----

  /** Upward changes along a list of counts. */
  function Rises(xs: seq<int32>): nat {
    if |xs| <= 1 then 0
    else Rises(xs[..|xs| - 1]) + if xs[|xs| - 1] > xs[|xs| - 2] then 1 else 0
  }

  /** Downward changes along a list of counts. */
  function Falls(xs: seq<int32>): nat {
    if |xs| <= 1 then 0
    else Falls(xs[..|xs| - 1]) + if xs[|xs| - 1] < xs[|xs| - 2] then 1 else 0
  }

  lemma AppendCount(xs: seq<int32>, y: int32)
    requires xs != []
    ensures Rises(xs + [y]) == Rises(xs) + if y > xs[|xs| - 1] then 1 else 0
    ensures Falls(xs + [y]) == Falls(xs) + if y < xs[|xs| - 1] then 1 else 0
  {
    assert (xs + [y])[..|xs|] == xs;
  }

  predicate UpAt(xs: seq<int32>, i: int) { 0 < i < |xs| && xs[i - 1] < xs[i] }

  predicate DownAt(xs: seq<int32>, i: int) { 0 < i < |xs| && xs[i] < xs[i - 1] }

  /** The places where the count goes up, and where it goes down. */
  ghost function RisePlaces(xs: seq<int32>): set<int> { set i | 0 <= i < |xs| && UpAt(xs, i) }

  ghost function FallPlaces(xs: seq<int32>): set<int> { set i | 0 <= i < |xs| && DownAt(xs, i) }

  lemma EarlierPlaces(xs: seq<int32>, n: nat, i: int)
    requires n <= |xs| && i < n
    ensures UpAt(xs[..n], i) <==> UpAt(xs, i)
    ensures DownAt(xs[..n], i) <==> DownAt(xs, i)
  {
  }

  lemma PlacesGrow(xs: seq<int32>)
    requires |xs| >= 2
    ensures var n := |xs| - 1;
            && |RisePlaces(xs)| == |RisePlaces(xs[..n])| + (if UpAt(xs, n) then 1 else 0)
            && |FallPlaces(xs)| == |FallPlaces(xs[..n])| + (if DownAt(xs, n) then 1 else 0)
  {
    hide UpAt, DownAt;
    var n := |xs| - 1;
    forall i: int | 0 <= i < n
      ensures UpAt(xs[..n], i) <==> UpAt(xs, i)
      ensures DownAt(xs[..n], i) <==> DownAt(xs, i)
    {
      EarlierPlaces(xs, n, i);
    }
    assert RisePlaces(xs) == RisePlaces(xs[..n]) + if UpAt(xs, n) then {n as int} else {};
    assert FallPlaces(xs) == FallPlaces(xs[..n]) + if DownAt(xs, n) then {n as int} else {};
  }

  /** Rises and falls are the numbers of places where the count goes up and down. */
  lemma {:induction false} ChangesAreCounted(xs: seq<int32>)
    ensures Rises(xs) == |RisePlaces(xs)| && Falls(xs) == |FallPlaces(xs)|
  {
    if |xs| <= 1 {
      assert RisePlaces(xs) == {} && FallPlaces(xs) == {};
    } else {
      hide RisePlaces, FallPlaces;
      ChangesAreCounted(xs[..|xs| - 1]);
      PlacesGrow(xs);
    }
  }

  /** The counts a run passes through: the start and then each event's target. */
  function Chain(start: int32, events: seq<Event>): seq<int32> {
    [start] + seq(|events|, i requires 0 <= i < |events| => events[i].target)
  }

  /** Every event changes the count that the chain had reached. */
  lemma ChainMoves(cfg: Config, start: int32, events: seq<Event>, k: nat)
    requires Disciplined(cfg, start, events) && 0 < k <= |events|
    ensures Chain(start, events)[k] != Chain(start, events)[k - 1]
  {
    assert Sound(cfg, start, events, k - 1);
  }

  lemma {:induction false} ChainAlwaysMoves(cfg: Config, start: int32, events: seq<Event>, k: nat)
    requires Disciplined(cfg, start, events) && k <= |events|
    ensures var chain := Chain(start, events)[..k + 1]; Rises(chain) + Falls(chain) == k
  {
    var chain := Chain(start, events);
    assert |chain| == |events| + 1;
    if k > 0 {
      hide Disciplined, Chain;
      ChainAlwaysMoves(cfg, start, events, k - 1);
      ChainMoves(cfg, start, events, k);
      assert chain[..k + 1] == chain[..k] + [chain[k]];
      AppendCount(chain[..k], chain[k]);
    }
  }

  /** The simulated counts at the first `n` evaluated times. */
  function Trajectory(start: int32, events: seq<Event>, warmup: Duration, times: seq<Time>, n: nat): seq<int32>
    requires n <= |times|
  {
    seq(n, i requires 0 <= i < n => SimulatedAt(start, events, warmup, times[i]))
  }

  /** The counts passed through by `t`: the start and the targets of the matured events. */
  function MaturedChain(start: int32, events: seq<Event>, warmup: Duration, t: Time): seq<int32> {
    Chain(start, events)[..RipeCount(events, warmup, t) + 1]
  }

  /** Two lists end alike and change direction equally often. */
  predicate CountAlike(xs: seq<int32>, ys: seq<int32>) {
    && xs != [] && ys != [] && xs[|xs| - 1] == ys[|ys| - 1]
    && Rises(xs) == Rises(ys) && Falls(xs) == Falls(ys)
  }

  lemma ExtendAlike(xs: seq<int32>, ys: seq<int32>, y: int32)
    requires CountAlike(xs, ys)
    ensures CountAlike(xs + [y], ys + [y])
    ensures y == xs[|xs| - 1] ==> CountAlike(xs + [y], ys)
  {
    AppendCount(xs, y);
    AppendCount(ys, y);
  }

  lemma ChainAt(start: int32, events: seq<Event>, warmup: Duration, t: Time)
    ensures var was := MaturedChain(start, events, warmup, t);
            was != [] && was[|was| - 1] == SimulatedAt(start, events, warmup, t)
  {
  }

  lemma ChainGrows(start: int32, events: seq<Event>, warmup: Duration, t: Time, u: Time)
    requires RipeCount(events, warmup, t) <= RipeCount(events, warmup, u) <= RipeCount(events, warmup, t) + 1
    ensures var was := MaturedChain(start, events, warmup, t);
            var now := MaturedChain(start, events, warmup, u);
            now == was || now == was + [SimulatedAt(start, events, warmup, u)]
  {
    ChainAt(start, events, warmup, u);
    hide RipeCount;
    var k := RipeCount(events, warmup, t);
    var chain := Chain(start, events);
    if RipeCount(events, warmup, u) == k + 1 {
      assert chain[..k + 2] == chain[..k + 1] + [chain[k + 1]];
    }
  }

  /** Counting changes along the trajectory counts changes along the matured events. */
  lemma {:induction false} TrajectoryCountsChain(
    cfg: Config, start: int32, events: seq<Event>, times: seq<Time>, n: nat)
    requires ValidConfig(cfg) && ByTime(events)
    requires Paced(times, cfg.step) && AtSteps(events, times) && 0 < n <= |times|
    ensures CountAlike(Trajectory(start, events, cfg.warmup, times, n),
                       MaturedChain(start, events, cfg.warmup, times[n - 1]))
  {
    hide CountAlike, Trajectory, MaturedChain, Paced, AtSteps, ByTime;
    if n == 1 {
      TrajectoryStarts(start, events, cfg.warmup, times, cfg.step);
    } else {
      TrajectoryCountsChain(cfg, start, events, times, n - 1);
      AtMostOneMaturesPerStep(events, times, cfg.step, cfg.warmup, n - 1);
      StepAlike(start, events, cfg.warmup, times, n);
    }
  }

  /** One more evaluated time extends both lists alike, or repeats the last count. */
  lemma StepAlike(start: int32, events: seq<Event>, warmup: Duration, times: seq<Time>, n: nat)
    requires 1 < n <= |times|
    requires CountAlike(Trajectory(start, events, warmup, times, n - 1), MaturedChain(start, events, warmup, times[n - 2]))
    requires var k := RipeCount(events, warmup, times[n - 2]); k <= RipeCount(events, warmup, times[n - 1]) <= k + 1
    ensures CountAlike(Trajectory(start, events, warmup, times, n), MaturedChain(start, events, warmup, times[n - 1]))
  {
    hide RipeCount, Trajectory, MaturedChain, SimulatedAt, Rises, Falls;
    var was := MaturedChain(start, events, warmup, times[n - 2]);
    var now := MaturedChain(start, events, warmup, times[n - 1]);
    var y := SimulatedAt(start, events, warmup, times[n - 1]);
    ChainGrows(start, events, warmup, times[n - 2], times[n - 1]);
    ChainAt(start, events, warmup, times[n - 1]);
    TrajectoryGrows(start, events, warmup, times, n);
    ExtendAlike(Trajectory(start, events, warmup, times, n - 1), was, y);
    assert now == was || now == was + [y];
  }

  lemma TrajectoryStarts(start: int32, events: seq<Event>, warmup: Duration, times: seq<Time>, step: Duration)
    requires Paced(times, step) && AtSteps(events, times) && warmup > 0 && times != []
    ensures CountAlike(Trajectory(start, events, warmup, times, 1), MaturedChain(start, events, warmup, times[0]))
  {
    NothingMaturedAtFirst(events, times, step, warmup);
    assert Trajectory(start, events, warmup, times, 1) == [start];
    assert MaturedChain(start, events, warmup, times[0]) == [start];
  }

  lemma TrajectoryGrows(start: int32, events: seq<Event>, warmup: Duration, times: seq<Time>, n: nat)
    requires 0 < n <= |times|
    ensures Trajectory(start, events, warmup, times, n) ==
            Trajectory(start, events, warmup, times, n - 1) + [SimulatedAt(start, events, warmup, times[n - 1])]
  {
    hide SimulatedAt;
  }

  /** Upward and downward changes of the simulated count together are the events no longer pending. */
  lemma ChangesAreMaturedEvents(cfg: Config, start: int32, events: seq<Event>, times: seq<Time>, n: nat)
    requires ValidConfig(cfg) && Disciplined(cfg, start, events)
    requires Paced(times, cfg.step) && AtSteps(events, times) && 0 < n <= |times|
    ensures var trajectory := Trajectory(start, events, cfg.warmup, times, n);
            Rises(trajectory) + Falls(trajectory) ==
            |events| - |InFlight(events, cfg.warmup, times[n - 1])|
  {
    hide Disciplined, Paced, AtSteps, RipeCount, Chain, Trajectory, Rises, Falls;
    DisciplinedByTime(cfg, start, events);
    TrajectoryCountsChain(cfg, start, events, times, n);
    ChainAlwaysMoves(cfg, start, events, RipeCount(events, cfg.warmup, times[n - 1]));
  }
}
