/** Scoring evaluated steps against the required count, and adding up the time each verdict covers. */
module Accounting {
  import opened Core
  import opened Grid
  import opened Recommend
  import opened RunProperties

  /** One evaluated step. `required` is absent when no capacity could be estimated or forecasting failed. */
  datatype Evaluation = Evaluation(
    at: Time, simulated: int32, baseline: int32, state: State, forecastFailed: bool, surfaced: bool, required: Option<int>)

  /** Accumulated durations; the replay reports them in minutes. */
  datatype Totals = Totals(
    scored: Duration, unscored: Duration, baselineOverload: Duration, baselineExcess: Duration,
    replayOverload: Duration, replayExcess: Duration)

  const NO_TIME := Totals(0, 0, 0, 0, 0, 0)

  function RequiredFromCapacity(demand: real, capacity: CapacityEstimate): Option<int> {
    if !capacity.estimated || capacity.perReplica <= 0.0 then None
    else if demand <= 0.0 then Some(0)
    else Some(Ceil(demand / capacity.perReplica))
  }

  /** Proxy overload: the count does not have the capacity to carry the demand. */
  lemma RequiredIsLeastCarrying(demand: real, capacity: CapacityEstimate, replicas: nat)
    requires RequiredFromCapacity(demand, capacity).Some?
    ensures replicas < RequiredFromCapacity(demand, capacity).value <==>
            replicas as real * capacity.perReplica < demand
  {
    if demand > 0.0 {
      var q := demand / capacity.perReplica;
      Quotient(demand, capacity.perReplica);
      CeilIsLeast(q, replicas);
      ScaleReal(q, replicas as real, capacity.perReplica);
    } else {
      ScaleReal(0.0, replicas as real, capacity.perReplica);
    }
  }

  predicate Failed(e: Evaluation) { e.forecastFailed }

  predicate Scored(e: Evaluation) { !e.forecastFailed && e.required.Some? }

  predicate Unscored(e: Evaluation) { !e.forecastFailed && e.required.None? }

  predicate BaselineOverloaded(e: Evaluation) { Scored(e) && e.baseline < e.required.value }

  predicate BaselineExcess(e: Evaluation) { Scored(e) && e.baseline > e.required.value }

  predicate ReplayOverloaded(e: Evaluation) { Scored(e) && e.simulated < e.required.value }

  predicate ReplayExcess(e: Evaluation) { Scored(e) && e.simulated > e.required.value }

  /** The time covered by the evaluations that satisfy `p`; evaluation `i` covers `intervals[i]`. */
  function TimeWhere(evals: seq<Evaluation>, intervals: seq<Duration>, p: Evaluation -> bool): Duration
    requires |evals| == |intervals|
  {
    if evals == [] then 0
    else
      var n := |evals| - 1;
      TimeWhere(evals[..n], intervals[..n], p) + if p(evals[n]) then intervals[n] else 0
  }

  function TotalTime(intervals: seq<Duration>): Duration {
    if intervals == [] then 0 else TotalTime(intervals[..|intervals| - 1]) + intervals[|intervals| - 1]
  }

  /** The totals a list of evaluations stands for. */
  function TotalsOf(evals: seq<Evaluation>, intervals: seq<Duration>): Totals
    requires |evals| == |intervals|
  {
    Totals(TimeWhere(evals, intervals, Scored), TimeWhere(evals, intervals, Unscored),
           TimeWhere(evals, intervals, BaselineOverloaded), TimeWhere(evals, intervals, BaselineExcess),
           TimeWhere(evals, intervals, ReplayOverloaded), TimeWhere(evals, intervals, ReplayExcess))
  }

  /** The scoring branch of one step. */
  method ScoreStep(totals: Totals, e: Evaluation, interval: Duration,
                   ghost evals: seq<Evaluation>, ghost intervals: seq<Duration>) returns (after: Totals)
    requires |evals| == |intervals| && totals == TotalsOf(evals, intervals)
    ensures after == TotalsOf(evals + [e], intervals + [interval])
  {
    assert (evals + [e])[..|evals|] == evals && (intervals + [interval])[..|evals|] == intervals;
    after := totals;
    if e.forecastFailed {
      return;
    }
    if e.required.Some? {
      var required := e.required.value;
      after := after.(scored := after.scored + interval);
      if e.baseline < required {
        after := after.(baselineOverload := after.baselineOverload + interval);
      }
      if e.simulated < required {
        after := after.(replayOverload := after.replayOverload + interval);
      }
      if e.baseline > required {
        after := after.(baselineExcess := after.baselineExcess + interval);
      }
      if e.simulated > required {
        after := after.(replayExcess := after.replayExcess + interval);
      }
    } else {
      after := after.(unscored := after.unscored + interval);
    }
  }

  /** Scored, unscored and forecast-failed time together are all the time there is. */
  lemma {:induction false} TimeIsConserved(evals: seq<Evaluation>, intervals: seq<Duration>)
    requires |evals| == |intervals|
    ensures TimeWhere(evals, intervals, Scored) + TimeWhere(evals, intervals, Unscored)
            + TimeWhere(evals, intervals, Failed) == TotalTime(intervals)
  {
    if evals != [] {
      var n := |evals| - 1;
      TimeIsConserved(evals[..n], intervals[..n]);
    }
  }

  /** The evaluations that satisfy `p` cover no time exactly when each covers none. */
  lemma {:induction false} NoTimeIff(evals: seq<Evaluation>, intervals: seq<Duration>, p: Evaluation -> bool)
    requires |evals| == |intervals| && forall i :: 0 <= i < |intervals| ==> intervals[i] >= 0
    ensures TimeWhere(evals, intervals, p) >= 0
    ensures TimeWhere(evals, intervals, p) == 0 <==> forall i :: 0 <= i < |evals| && p(evals[i]) ==> intervals[i] == 0
  {
    if evals != [] {
      var n := |evals| - 1;
      NoTimeIff(evals[..n], intervals[..n], p);
      assert forall i :: 0 <= i < n ==> evals[..n][i] == evals[i] && intervals[..n][i] == intervals[i];
    }
  }

  /** Overload and excess never overlap, so together they fit in the scored time. */
  lemma {:induction false} OverloadAndExcessDisjoint(evals: seq<Evaluation>, intervals: seq<Duration>)
    requires |evals| == |intervals| && forall i :: 0 <= i < |intervals| ==> intervals[i] >= 0
    ensures var t := TotalsOf(evals, intervals);
            && t.baselineOverload + t.baselineExcess <= t.scored
            && t.replayOverload + t.replayExcess <= t.scored
            && 0 <= t.baselineOverload && 0 <= t.baselineExcess && 0 <= t.replayOverload && 0 <= t.replayExcess
  {
    if evals != [] {
      var n := |evals| - 1;
      OverloadAndExcessDisjoint(evals[..n], intervals[..n]);
    }
  }

  /** Intervals of the grid points from `first` on. */
  function IntervalsFrom(times: seq<Time>, end: Time, first: nat, n: nat): seq<Duration> {
    seq(n, i requires 0 <= i < n => StepInterval(times, first + i, end))
  }

  lemma {:induction false} IntervalsAddUp(times: seq<Time>, end: Time, first: nat, n: nat)
    ensures TotalTime(IntervalsFrom(times, end, first, n)) == Elapsed(times, end, first, first + n)
  {
    if n > 0 {
      IntervalsAddUp(times, end, first, n - 1);
      assert IntervalsFrom(times, end, first, n)[..n - 1] == IntervalsFrom(times, end, first, n - 1);
    }
  }

  // ---- the independent recount over observations ----

  datatype Summary = Summary(first: int32, last: int32, min: int32, max: int32, sum: int, ups: nat, downs: nat)

  const NO_SUMMARY := Summary(0, 0, 0, 0, 0, 0, 0)

  predicate IsMinimum(xs: seq<int32>, m: int32) { m in xs && forall x :: x in xs ==> m <= x }

  predicate IsMaximum(xs: seq<int32>, m: int32) { m in xs && forall x :: x in xs ==> x <= m }

  function SumOf(xs: seq<int32>): int {
    if xs == [] then 0 else SumOf(xs[..|xs| - 1]) + xs[|xs| - 1]
  }

  /** The sum lies between as many times the smallest and the largest count, and meets both bounds only for equal counts. */
  lemma {:induction false} SumBetween(xs: seq<int32>, lo: int, hi: int)
    requires forall i :: 0 <= i < |xs| ==> lo <= xs[i] <= hi
    ensures |xs| * lo <= SumOf(xs) <= |xs| * hi
    ensures SumOf(xs) == |xs| * lo <==> forall i :: 0 <= i < |xs| ==> xs[i] == lo
  {
    if xs != [] {
      var n := |xs| - 1;
      SumBetween(xs[..n], lo, hi);
      Distribute(n, 1, lo);
      Distribute(n, 1, hi);
    }
  }

  predicate Summarises(s: Summary, xs: seq<int32>) {
    && xs != []
    && s.first == xs[0] && s.last == xs[|xs| - 1]
    && IsMinimum(xs, s.min) && IsMaximum(xs, s.max)
    && s.sum == SumOf(xs)
    && s.ups == Rises(xs) && s.downs == Falls(xs)
  }

  /** One more observation, compared with the one before it. */
  function Extend(s: Summary, x: int32): Summary {
    Summary(s.first, x, if x < s.min then x else s.min, if x > s.max then x else s.max, s.sum + x,
            if x > s.last then s.ups + 1 else s.ups, if x < s.last then s.downs + 1 else s.downs)
  }

  lemma AppendSummary(s: Summary, xs: seq<int32>, x: int32)
    requires Summarises(s, xs)
    ensures Summarises(Extend(s, x), xs + [x])
  {
    assert (xs + [x])[..|xs|] == xs;
    AppendCount(xs, x);
  }

  method SummarizeObservations(xs: seq<int32>) returns (s: Summary)
    ensures xs != [] ==> Summarises(s, xs)
    ensures xs == [] ==> s == NO_SUMMARY
  {
    if |xs| == 0 {
      return NO_SUMMARY;
    }
    s := Summary(xs[0], xs[0], xs[0], xs[0], xs[0], 0, 0);
    assert xs[..1] == [xs[0]] && xs[..1][..0] == [];
    for i := 1 to |xs|
      invariant Summarises(s, xs[..i])
    {
      AppendSummary(s, xs[..i], xs[i]);
      assert xs[..i + 1] == xs[..i] + [xs[i]];
      s := Extend(s, xs[i]);
    }
    assert xs[..|xs|] == xs;
  }
}
