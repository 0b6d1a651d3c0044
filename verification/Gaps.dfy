/** How densely a series covers its window: gaps, typical resolution and missing samples. */
module Gaps {
  import opened Core
  import opened Sorting
  import opened Series

  /** An instant of 0 is an unset end of the window. */
  datatype Window = Window(start: Time, end: Time)

  predicate Bounded(w: Window) { !IsZeroTime(w.start) && !IsZeroTime(w.end) && w.end > w.start }

  predicate Within(xs: seq<Sample>, w: Window) {
    forall s :: s in xs ==> w.start <= s.at <= w.end
  }

  // ---- normalisation ----

  predicate HasTime(xs: seq<Sample>, t: Time) { exists k :: 0 <= k < |xs| && xs[k].at == t }

  lemma KeepsTimes(before: seq<Sample>, after: seq<Sample>)
    requires |before| <= |after| && forall k :: 0 <= k < |before| ==> after[k].at == before[k].at
    ensures forall t :: HasTime(before, t) ==> HasTime(after, t)
    ensures after != [] ==> HasTime(after, after[|after| - 1].at)
  {
    forall t | HasTime(before, t)
      ensures HasTime(after, t)
    {
      var k :| 0 <= k < |before| && before[k].at == t;
      assert after[k].at == t;
    }
  }

  /** Of samples at the same instant the last listed one stays. */
  method KeepLast(sorted: seq<Sample>) returns (out: seq<Sample>)
    requires Ascending(sorted, SampleKey)
    ensures Increasing(out)
    ensures forall s :: s in out ==> s in sorted
    ensures forall j :: 0 <= j < |sorted| ==> HasTime(out, sorted[j].at)
  {
    hide HasTime;
    out := [];
    for i := 0 to |sorted|
      invariant Increasing(out)
      invariant if i == 0 then out == [] else out != [] && out[|out| - 1].at == sorted[i - 1].at
      invariant forall s :: s in out ==> s in sorted
      invariant forall j :: 0 <= j < i ==> HasTime(out, sorted[j].at)
    {
      assert i > 0 ==> SampleKey(sorted[i - 1]) <= SampleKey(sorted[i]);
      var before := out;
      if |out| == 0 || sorted[i].at != out[|out| - 1].at {
        out := out + [sorted[i]];
      } else {
        out := out[|out| - 1 := sorted[i]];
      }
      KeepsTimes(before, out);
    }
  }

  /** Samples in time order, one per instant. */
  method NormalizeSamples(samples: seq<Sample>) returns (out: seq<Sample>)
    ensures Increasing(out)
    ensures forall s :: s in out ==> s in samples
    ensures forall s :: s in samples ==> HasTime(out, s.at)
  {
    var sorted := Sort(samples, SampleKey);
    SortAscends(samples, SampleKey);
    SortKeeps(samples, SampleKey);
    hide Sort, HasTime, Increasing;
    assert forall s :: s in sorted <==> s in multiset(sorted);
    assert forall s :: s in samples <==> s in multiset(samples);
    out := KeepLast(sorted);
  }

  // ---- gaps ----

  /** The largest step between the first `n` samples. */
  function LargestStep(xs: seq<Sample>, n: nat): Duration
    requires n <= |xs|
  {
    if n < 2 then 0 else Max(LargestStep(xs, n - 1), xs[n - 1].at - xs[n - 2].at)
  }

  function Lead(xs: seq<Sample>, w: Window): Duration
    requires xs != []
  {
    if !IsZeroTime(w.start) && xs[0].at > w.start then xs[0].at - w.start else 0
  }

  function Tail(xs: seq<Sample>, w: Window): Duration
    requires xs != []
  {
    if !IsZeroTime(w.end) && w.end > xs[|xs| - 1].at then w.end - xs[|xs| - 1].at else 0
  }

  /** The largest stretch without a sample, including the stretches to the ends of the window. */
  function MaxGap(xs: seq<Sample>, w: Window): Duration {
    if xs == [] then if Bounded(w) then w.end - w.start else 0
    else Max(Max(Lead(xs, w), LargestStep(xs, |xs|)), Tail(xs, w))
  }

  method MaxSampleGap(samples: seq<Sample>, w: Window) returns (maxGap: Duration)
    ensures maxGap == MaxGap(samples, w)
  {
    if |samples| == 0 {
      if !IsZeroTime(w.start) && !IsZeroTime(w.end) && w.end > w.start {
        return w.end - w.start;
      }
      return 0;
    }
    maxGap := 0;
    if !IsZeroTime(w.start) && samples[0].at > w.start {
      maxGap := samples[0].at - w.start;
    }
    for i := 1 to |samples|
      invariant maxGap == Max(Lead(samples, w), LargestStep(samples, i))
    {
      var gap := samples[i].at - samples[i - 1].at;
      if gap > maxGap {
        maxGap := gap;
      }
    }
    if !IsZeroTime(w.end) && w.end > samples[|samples| - 1].at {
      var tailGap := w.end - samples[|samples| - 1].at;
      if tailGap > maxGap {
        maxGap := tailGap;
      }
    }
  }

  /** The last sample at or before `t`, or the start of the window when there is none. */
  function Anchor(xs: seq<Sample>, w: Window, t: Time): Time {
    var n := Newest(xs, t);
    if n.Some? then n.value.at else w.start
  }

  lemma {:induction false} StepBound(xs: seq<Sample>, n: nat, i: nat)
    requires n <= |xs| && 0 < i < n
    ensures xs[i].at - xs[i - 1].at <= LargestStep(xs, n)
  {
    if i < n - 1 {
      StepBound(xs, n - 1, i);
    }
  }

  /** Every instant of the window is within the largest gap of the last sample, or of the window's start. */
  lemma EveryInstantIsNearASample(xs: seq<Sample>, w: Window, t: Time)
    requires Increasing(xs) && Bounded(w) && Within(xs, w) && w.start <= t <= w.end
    ensures 0 <= t - Anchor(xs, w, t) <= MaxGap(xs, w)
  {
    NewestIsNewest(xs, t);
    hide Newest, LargestStep;
    var r := Newest(xs, t);
    if xs != [] {
      if r.None? {
        assert xs[0] in xs;
      } else {
        var i :| 0 <= i < |xs| && xs[i] == r.value;
        if i + 1 < |xs| {
          assert xs[i + 1] in xs;
          StepBound(xs, |xs|, i + 1);
        }
      }
    }
  }

  /** Anything that keeps every instant of the window close to an earlier sample is at least the largest gap, less a tick. */
  lemma NoSmallerGapCovers(xs: seq<Sample>, w: Window, g: Duration)
    requires Increasing(xs) && Bounded(w) && Within(xs, w)
    requires forall t :: w.start <= t <= w.end ==> t - Anchor(xs, w, t) <= g
    ensures MaxGap(xs, w) <= g + 1
  {
    assert 0 <= w.end - Anchor(xs, w, w.end) <= g by {
      EveryInstantIsNearASample(xs, w, w.end);
    }
    if xs == [] {
      assert Newest(xs, w.end) == None;
    } else {
      var last := |xs| - 1;
      assert xs[0] in xs && xs[last] in xs;
      NewestIsUnique(xs, w.end, Some(xs[last]));
      assert Anchor(xs, w, w.end) == xs[last].at;
      if xs[0].at > w.start {
        NewestIsUnique(xs, xs[0].at - 1, None);
        assert Anchor(xs, w, xs[0].at - 1) == w.start;
      }
      StepsCovered(xs, w, g, |xs|);
    }
  }

  lemma {:induction false} StepsCovered(xs: seq<Sample>, w: Window, g: Duration, n: nat)
    requires Increasing(xs) && Bounded(w) && Within(xs, w) && n <= |xs| && g >= 0
    requires forall t :: w.start <= t <= w.end ==> t - Anchor(xs, w, t) <= g
    ensures LargestStep(xs, n) <= g + 1
  {
    hide Anchor;
    if n >= 2 {
      StepsCovered(xs, w, g, n - 1);
      var t := xs[n - 1].at - 1;
      assert xs[n - 1] in xs && xs[n - 2] in xs;
      AnchorBefore(xs, w, n - 1);
      assert t - Anchor(xs, w, t) <= g;
    }
  }

  lemma AnchorBefore(xs: seq<Sample>, w: Window, i: nat)
    requires Increasing(xs) && 0 < i < |xs|
    ensures Anchor(xs, w, xs[i].at - 1) == xs[i - 1].at
  {
    NewestIsUnique(xs, xs[i].at - 1, Some(xs[i - 1]));
  }

  /** The gaps add up to the window, so few samples force a large gap. */
  lemma GapsSpanWindow(xs: seq<Sample>, w: Window)
    requires Increasing(xs) && Bounded(w) && Within(xs, w)
    ensures (|xs| + 1) * MaxGap(xs, w) >= w.end - w.start
  {
    if xs != [] {
      assert xs[0] in xs && xs[|xs| - 1] in xs;
      var g := MaxGap(xs, w);
      StepsSpan(xs, |xs|, g);
      assert (|xs| + 1) * g == (|xs| - 1) * g + 2 * g;
    }
  }

  lemma {:induction false} StepsSpan(xs: seq<Sample>, n: nat, g: Duration)
    requires 1 <= n <= |xs| && LargestStep(xs, n) <= g
    ensures xs[n - 1].at - xs[0].at <= (n - 1) * g
  {
    if n > 1 {
      StepsSpan(xs, n - 1, g);
      assert (n - 1) * g == (n - 2) * g + g;
    }
  }

  // ---- resolution ----

  function Intervals(xs: seq<Sample>): seq<int> {
    if xs == [] then [] else seq(|xs| - 1, i requires 0 <= i < |xs| - 1 => xs[i + 1].at - xs[i].at)
  }

  /** The median step between consecutive samples; zero with fewer than two samples. */
  function MedianResolution(xs: seq<Sample>): Duration {
    if |xs| < 2 then 0
    else
      var sorted := Sort(Intervals(xs), DurationKey);
      var mid := |sorted| / 2;
      if |sorted| % 2 == 1 then sorted[mid] else (sorted[mid - 1] + sorted[mid]) / 2
  }

  method CollectIntervals(samples: seq<Sample>) returns (intervals: seq<int>)
    requires samples != []
    ensures intervals == Intervals(samples) && |intervals| == |samples| - 1
  {
    intervals := [];
    for i := 1 to |samples|
      invariant |intervals| == i - 1
      invariant forall j :: 0 <= j < i - 1 ==> intervals[j] == samples[j + 1].at - samples[j].at
    {
      intervals := intervals + [samples[i].at - samples[i - 1].at];
    }
  }

  method MedianSampleResolution(samples: seq<Sample>) returns (d: Duration)
    ensures d == MedianResolution(samples)
  {
    hide Sort, Intervals;
    if |samples| < 2 {
      return 0;
    }
    var intervals := CollectIntervals(samples);
    var sorted := Sort(intervals, DurationKey);
    var mid := |sorted| / 2;
    if |sorted| % 2 == 1 {
      return sorted[mid];
    }
    return (sorted[mid - 1] + sorted[mid]) / 2;
  }

  predicate StepWithin(xs: seq<Sample>, g: Duration, i: nat)
    requires 0 < i < |xs|
  {
    0 <= xs[i].at - xs[i - 1].at <= g
  }

  lemma StepWithinMaxGap(xs: seq<Sample>, w: Window, i: nat)
    requires Increasing(xs) && 0 < i < |xs|
    ensures StepWithin(xs, MaxGap(xs, w), i)
  {
    hide LargestStep;
    StepBound(xs, |xs|, i);
  }

  /** The typical resolution never exceeds the largest gap. */
  lemma MedianWithinMaxGap(xs: seq<Sample>, w: Window)
    requires Increasing(xs)
    ensures 0 <= MedianResolution(xs) <= MaxGap(xs, w)
  {
    if |xs| >= 2 {
      hide Increasing, StepWithin, MedianResolution, MaxGap;
      forall i: nat | 0 < i < |xs|
        ensures StepWithin(xs, MaxGap(xs, w), i)
      {
        StepWithinMaxGap(xs, w, i);
      }
      MedianOfIntervals(xs, MaxGap(xs, w));
    }
  }

  /** Every place of the sorted intervals holds the step before some sample. */
  lemma SortedInterval(xs: seq<Sample>, g: Duration, k: nat)
    requires k < |xs| - 1 && forall i: nat :: 0 < i < |xs| ==> StepWithin(xs, g, i)
    ensures |Sort(Intervals(xs), DurationKey)| == |xs| - 1 && 0 <= Sort(Intervals(xs), DurationKey)[k] <= g
  {
    hide Sort;
    SortedElement(Intervals(xs), DurationKey, k);
    var i :| 0 <= i < |xs| - 1 && Intervals(xs)[i] == Sort(Intervals(xs), DurationKey)[k];
    assert StepWithin(xs, g, i + 1);
  }

  lemma MedianOfIntervals(xs: seq<Sample>, g: Duration)
    requires |xs| >= 2 && forall i: nat :: 0 < i < |xs| ==> StepWithin(xs, g, i)
    ensures 0 <= MedianResolution(xs) <= g
  {
    var n := |xs| - 1;
    hide Sort, Intervals, StepWithin;
    SortedInterval(xs, g, n / 2);
    if n % 2 == 0 {
      SortedInterval(xs, g, n / 2 - 1);
    }
  }

  /** The median resolution splits the steps in half; it is one of them, or the mean of the middle two cut to a whole tick. */
  lemma ResolutionSplitsSteps(xs: seq<Sample>)
    requires |xs| >= 2
    ensures var m, steps := MedianResolution(xs), Intervals(xs);
            && |steps| == |xs| - 1
            && 2 * Below(steps, DurationKey, m as real) <= |steps| && 2 * Above(steps, DurationKey, m as real) <= |steps|
            && (|steps| % 2 == 1 ==> m in steps)
            && (|steps| % 2 == 0 ==> exists a, b :: AreMiddle(steps, DurationKey, a, b) && m == (a + b) / 2)
  {
    hide Sort, Below, Above, AreMiddle, Intervals, DurationKey, MedianResolution;
    ResolutionValue(xs);
    var steps := Intervals(xs);
    var mid := |steps| / 2;
    SortedElement(steps, DurationKey, mid);
    SortedPlace(steps, DurationKey, mid);
    if |steps| % 2 == 0 {
      SortAscends(steps, DurationKey);
      MiddleOfSorted(steps, DurationKey, mid);
      MiddleSplits(steps, DurationKey, mid, MedianResolution(xs) as real);
    }
  }

  lemma ResolutionValue(xs: seq<Sample>)
    requires |xs| >= 2
    ensures var sorted, mid, m := Sort(Intervals(xs), DurationKey), (|xs| - 1) / 2, MedianResolution(xs);
            && |Intervals(xs)| == |xs| - 1 >= 1 && DurationKey(m) == m as real
            && (if (|xs| - 1) % 2 == 1 then m == sorted[mid]
                else m == (sorted[mid - 1] + sorted[mid]) / 2
                     && DurationKey(sorted[mid - 1]) <= m as real <= DurationKey(sorted[mid]))
  {
    hide Sort, Ascending, Intervals;
    var sorted, mid := Sort(Intervals(xs), DurationKey), (|xs| - 1) / 2;
    IntervalCount(xs);
    if mid >= 1 {
      SortAscends(Intervals(xs), DurationKey);
      MeanBetween(sorted, mid);
    }
  }

  lemma IntervalCount(xs: seq<Sample>)
    requires xs != []
    ensures |Intervals(xs)| == |xs| - 1
  {
  }

  lemma MeanBetween(sorted: seq<int>, mid: nat)
    requires Ascending(sorted, DurationKey) && 1 <= mid < |sorted|
    ensures DurationKey(sorted[mid - 1]) <= ((sorted[mid - 1] + sorted[mid]) / 2) as real <= DurationKey(sorted[mid])
  {
    var a, b := sorted[mid - 1], sorted[mid];
    assert DurationKey(a) <= DurationKey(b);
    hide Ascending;
    MeanOfTwo(a, b);
    KeyKeepsOrder(a, (a + b) / 2);
    KeyKeepsOrder((a + b) / 2, b);
  }

  lemma MeanOfTwo(a: int, b: int)
    requires DurationKey(a) <= DurationKey(b)
    ensures a <= (a + b) / 2 <= b
  {
    assert a <= b;
    hide DurationKey;
  }

  lemma KeyKeepsOrder(a: int, b: int)
    requires a <= b
    ensures a as real <= b as real && DurationKey(a) == a as real && DurationKey(b) == b as real
  {
  }

  // ---- missing samples ----

  function Expected(lookback: Duration, resolution: Duration): nat
    requires lookback > 0 && resolution > 0
  {
    lookback / resolution + 1
  }

  /** The fraction of the samples expected at the target resolution that are not there. */
  function MissingFraction(count: nat, lookback: Duration, resolution: Duration): real {
    if lookback <= 0 || resolution <= 0 then 0.0
    else
      var missing := Expected(lookback, resolution) - count;
      if missing <= 0 then 0.0 else missing as real / Expected(lookback, resolution) as real
  }

  lemma MissingFractionRange(count: nat, lookback: Duration, resolution: Duration)
    ensures 0.0 <= MissingFraction(count, lookback, resolution) <= 1.0
    ensures MissingFraction(count, lookback, resolution) == 1.0 <==> count == 0 && lookback > 0 && resolution > 0
    ensures MissingFraction(count, lookback, resolution) == 0.0 <==>
              lookback <= 0 || resolution <= 0 || count >= Expected(lookback, resolution)
  {
    if lookback > 0 && resolution > 0 && count < Expected(lookback, resolution) {
      FractionRange(Expected(lookback, resolution) - count, Expected(lookback, resolution));
    }
  }

  /** As a share of the expected samples it counts the ones that are not there. */
  lemma MissingFractionCounts(count: nat, lookback: Duration, resolution: Duration)
    requires lookback > 0 && resolution > 0
    ensures MissingFraction(count, lookback, resolution) * Expected(lookback, resolution) as real
            == Max(0, Expected(lookback, resolution) - count) as real
  {
  }

  /** Samples from the start at every resolution step: as many as fit are expected. */
  lemma ExpectedFit(lookback: Duration, resolution: Duration, n: nat)
    requires lookback > 0 && resolution > 0
    ensures n < Expected(lookback, resolution) <==> n * resolution <= lookback
  {
    var q := lookback / resolution;
    assert q * resolution <= lookback < (q + 1) * resolution;
    if n <= q {
      ScaleLe(n, q, resolution);
    } else {
      ScaleLe(q + 1, n, resolution);
    }
  }

  lemma FractionRange(a: nat, b: nat)
    requires 0 < a <= b
    ensures 0.0 < a as real / b as real <= 1.0
    ensures a as real / b as real == 1.0 <==> a == b
  {
    var q := a as real / b as real;
    assert q * b as real == a as real;
  }

  /** When no gap exceeds the target resolution, at most two of the expected samples are missing. */
  lemma SmallGapsMissLittle(xs: seq<Sample>, w: Window, resolution: Duration)
    requires Increasing(xs) && Bounded(w) && Within(xs, w)
    requires 0 < resolution && MaxGap(xs, w) <= resolution
    ensures Expected(w.end - w.start, resolution) - |xs| <= 2
  {
    GapsSpanWindow(xs, w);
    var lookback := w.end - w.start;
    ScaleLe(MaxGap(xs, w), resolution, |xs| + 1);
    DivideBound(lookback, resolution, |xs| + 1);
  }

  lemma DivideBound(a: nat, b: nat, n: nat)
    requires b > 0 && a <= n * b
    ensures a / b <= n
  {
    var q := a / b;
    assert a == q * b + a % b;
    assert q > n ==> (q - n - 1) * b >= 0;
  }
}
