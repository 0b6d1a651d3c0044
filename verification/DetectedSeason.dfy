/** From a detected season to the selected forecast: when the forecast is exact. */
module DetectedSeason {
  import opened Core
  import opened Points
  import Sorting
  import opened Forecasting
  import opened SeasonalNaive
  import opened HoltWinters
  import opened Periods
  import opened Auto
  import opened Seasonality

  // ---- the season as the forecast counts it ----

  /** `k` samples of the inferred step, rounded to steps of the forecast, are `k` steps again. */
  predicate StepKeepsSeason(k: nat, inferred: Duration, step: Duration) {
    k * (2 * step) <= 2 * (k * inferred) + step < (k + 1) * (2 * step)
  }

  lemma QuotientIs(a: int, b: int, k: int)
    requires b > 0
    ensures a / b == k <==> k * b <= a < (k + 1) * b
  {
    var q := a / b;
    assert a == q * b + a % b;
    Distribute(k, 1, b);
    if k * b <= a < (k + 1) * b {
      assert a - k * b < b;
      ModUnique(a, b, k, a - k * b);
    }
  }

  /** The forecast counts the detected season in exactly the detected samples under that condition, and no other. */
  lemma SeasonKeptIff(input: Input, k: nat)
    requires ValidInput(input) && k >= 2 && input.seasonality == k * InferStep(input.series)
    ensures Prepare(input).Ok? && Prepare(input).value.step > 0
    ensures Prepare(input).value.seasonPoints == k <==>
            StepKeepsSeason(k, InferStep(input.series), Prepare(input).value.step)
  {
    hide InferStep, CeilDiv;
    InferredStepIsPositive(input.series);
    var p := Prepare(input).value;
    QuotientIs(2 * input.seasonality + p.step, 2 * p.step, k);
  }

  /** Without a step of its own, or with the inferred one, the forecast keeps every season. */
  lemma InferredStepKeepsSeason(k: nat, step: Duration)
    requires step > 0
    ensures StepKeepsSeason(k, step, step)
  {
    assert k * (2 * step) == 2 * (k * step);
    Distribute(k, 1, 2 * step);
  }

  /** A step that divides the inferred one `f` times counts the season `f` times over. */
  lemma FinerStepCountsMore(input: Input, k: nat, f: nat)
    requires ValidInput(input) && k >= 2 && f >= 1 && input.step > 0
    requires InferStep(input.series) == f * input.step && input.seasonality == k * InferStep(input.series)
    ensures Prepare(input).Ok? && Prepare(input).value.seasonPoints == f * k
  {
    hide InferStep, CeilDiv;
    var s := input.step;
    assert k * (f * s) == (f * k) * s;
    assert f * k >= 1 by { PositiveTimes(f, k); }
    ModUnique(2 * ((f * k) * s) + s, 2 * s, f * k, s);
  }

  lemma PositiveTimes(a: nat, b: nat)
    requires a >= 1 && b >= 1
    ensures a * b >= 1
  {
  }

  // ---- the selected forecast ----

  /**
   * The automatic model returns seasonal naive, unmodified, with confidence 1, and its values are, in
   * order, the demand of every continuation with period `p`.
   */
  ghost predicate IsExact(input: Input, p: nat, r: Result<Selection, Error>) {
    && r.Ok? && r.value.usesNaive && r.value.fallback == NoFallback && r.value.result.confidence == 1.0
    && forall y :: Continues(y, input.series, p) ==> Foretells(r.value.result.points, y, |input.series|)
  }

  /** The detected season is a period that the history covers twice, and every continuation has it too. */
  lemma DetectedSeasonHolds(series: seq<Point>, o: Options, root: real -> real, p: nat, bestLag: int, d: Detection)
    requires IsSquareRoot(root) && Detects(series, o, root, bestLag, d) && HasPeriod(series, o, p) && MinCorrelation(o) < 1.0
    ensures d.detected && 2 <= bestLag <= p && d.period == bestLag * InferStep(series)
    ensures 2 * p <= |series| && Periodic(Values(series), bestLag)
    ensures forall y :: Continues(y, series, p) ==> Continues(y, series, bestLag)
  {
    hide IsSquareRoot, Detects, MinCorrelation, InferStep, Periodic;
    PeriodicDemandIsDetected(series, o, root, p, bestLag, d);
    HalfCoversPeriod(|series|, MinCycles(o), p);
    forall y | Continues(y, series, p)
      ensures Continues(y, series, bestLag)
    {
      PeriodOfWhole(y, |series|, p, bestLag);
    }
  }

  /** When shorter lags were all searched, no period at all is shorter than the detected one. */
  lemma DetectedSeasonIsShortest(series: seq<Point>, o: Options, root: real -> real, p: nat, bestLag: int, d: Detection)
    requires IsSquareRoot(root) && Detects(series, o, root, bestLag, d) && HasPeriod(series, o, p) && MinCorrelation(o) < 1.0
    requires MinLag(o, InferStep(series)) == 2
    ensures bestLag >= 2 && Shortest(Values(series), bestLag)
  {
    hide IsSquareRoot, Detects, MinCorrelation, InferStep, Periodic, Constant;
    PeriodicDemandIsDetected(series, o, root, p, bestLag, d);
    forall q | 1 <= q < bestLag
      ensures !Periodic(Values(series), q)
    {
      assert !HasPeriod(series, o, q);
      if q == 1 && Periodic(Values(series), 1) {
        StillIsConstant(Values(series));
      }
    }
  }

  lemma StillIsConstant(x: seq<real>)
    requires Periodic(x, 1)
    ensures Constant(x)
  {
    forall i | 0 < i < |x|
      ensures x[i] == x[i - 1]
    {
      assert x[i - 1 + 1] == x[i - 1];
    }
  }

  /** With neither a season before the holdout nor the two that smoothing needs there is no forecast. */
  lemma TooLongSeasonFails(m: HoltWintersModel, divergenceThreshold: real, minimumImprovement: real, input: Input,
                           r: Result<Selection, Error>)
    requires IsSelection(m, divergenceThreshold, minimumImprovement, input, r)
    requires Prepare(input).Ok? && !Enough(Prepare(input).value)
    ensures r == Err(NoForecastResult)
  {
    PreparedShape(input);
    hide Prepare, Divergence;
  }

  /** A counted season that is a multiple of the detected one forecasts exactly. */
  lemma MultipleForecastsExactly(m: HoltWintersModel, divergenceThreshold: real, minimumImprovement: real, input: Input,
                                 r: Result<Selection, Error>, p: nat, k: nat)
    requires IsSelection(m, divergenceThreshold, minimumImprovement, input, r)
    requires Prepare(input).Ok? && Enough(Prepare(input).value)
    requires k >= 1 && Prepare(input).value.seasonPoints % k == 0 && Periodic(Values(input.series), k)
    requires forall y :: Continues(y, input.series, p) ==> Continues(y, input.series, k)
    ensures IsExact(input, p, r)
  {
    hide Prepare, NaiveResult, IsSelection, Periodic, Foretells;
    var prepared := Prepare(input).value;
    PreparedShape(input);
    DividedPeriod(Values(input.series), k, prepared.seasonPoints);
    AutoOnPeriodicDemand(m, divergenceThreshold, minimumImprovement, input, r);
    forall y | Continues(y, input.series, p)
      ensures Foretells(r.value.result.points, y, |input.series|)
    {
      DividedPeriod(y, k, prepared.seasonPoints);
      SelectedPointsContinueDemand(prepared, y);
    }
  }

  /** The series goes on with its period as long as one likes. */
  lemma Extension(series: seq<Point>, p: nat, more: nat) returns (y: seq<real>)
    requires 1 <= p <= |series| && Periodic(Values(series), p)
    ensures |y| == |series| + more && Continues(y, series, p)
  {
    var x := Values(series);
    y := seq(|x| + more, i requires 0 <= i => Repeated(x, p, i));
    hide Repeated;
    forall i | 0 <= i < |y|
      ensures i < |x| ==> y[i] == x[i]
      ensures i + p < |y| ==> y[i + p] == y[i]
    {
      RepeatedRepeats(x, p, i);
    }
    assert x == y[..|x|];
  }

  /** Values that are exact over a whole shortest period were taken a multiple of it back. */
  lemma ExactMeansMultiple(series: seq<Point>, y: seq<real>, k: nat, season: nat, horizon: nat)
    requires Continues(y, series, k) && Shortest(y, k) && k <= horizon
    requires 1 <= season <= |series| && |y| >= |series| + horizon
    requires forall i :: 0 <= i < horizon ==> NaiveForecast(Values(series), season, horizon)[i] == y[|series| + i]
    ensures season % k == 0
  {
    var n := |series|;
    var forecast := NaiveForecast(Values(series), season, horizon);
    forall i | n - season <= i < n - season + k
      ensures y[i + season] == y[i]
    {
      var h := i - (n - season);
      assert forecast[h] == y[n + h];
      if h < season {
        ModUnique(h, season, 0, h);
      } else {
        ModShift(h - season, season);
        assert forecast[h - season] == y[n + h - season];
      }
    }
    MatchingShift(y, k, n - season, season);
  }

  /** What an exact selection says about the season it was made with. */
  lemma ExactSelection(m: HoltWintersModel, divergenceThreshold: real, minimumImprovement: real, input: Input,
                       r: Result<Selection, Error>, p: nat, k: nat)
    requires IsSelection(m, divergenceThreshold, minimumImprovement, input, r)
    requires Prepare(input).Ok? && IsExact(input, p, r)
    requires 1 <= p <= |input.series| && Periodic(Values(input.series), p) && Shortest(Values(input.series), k)
    requires forall y :: Continues(y, input.series, p) ==> Continues(y, input.series, k)
    requires k <= Prepare(input).value.horizonPoints
    ensures Enough(Prepare(input).value) && Prepare(input).value.seasonPoints % k == 0
  {
    hide IsSelection, Prepare, Periodic, NaiveForecast;
    AutoGuarantees(m, divergenceThreshold, minimumImprovement, input, r);
    var prepared := Prepare(input).value;
    PreparedShape(input);
    var y := Extension(input.series, p, prepared.horizonPoints);
    ShortestOfWhole(input.series, y, k);
    NaivePointValues(prepared);
    ExactMeansMultiple(input.series, y, k, prepared.seasonPoints, prepared.horizonPoints);
  }

  lemma ShortestOfWhole(series: seq<Point>, y: seq<real>, k: nat)
    requires Continues(y, series, k) && Shortest(Values(series), k)
    ensures Shortest(y, k)
  {
    forall q | 1 <= q < k
      ensures !Periodic(y, q)
    {
      PeriodOfStart(y, |series|, q);
    }
  }

  lemma NaivePointValues(p: Prepared)
    requires Shaped(p) && Enough(p)
    ensures var forecast := NaiveForecast(Values(p.series), p.seasonPoints, p.horizonPoints);
            && |NaiveResult(p).points| == p.horizonPoints
            && forall i :: 0 <= i < p.horizonPoints ==> NaiveResult(p).points[i].value == forecast[i]
  {
  }

  /**
   * End to end, without the season being told: demand that repeats with a searched period, its season
   * detected, and the automatic model on top, at any step. The forecast is exact when the counted
   * season is a multiple of the detected one and fits before the holdout; without the latter it fails;
   * and once the horizon covers the season and all shorter ones were searched, it is exact in no other case.
   */
  lemma ForecastIsExactIff(
    o: Options, root: real -> real, bestLag: int, d: Detection, p: nat,
    m: HoltWintersModel, divergenceThreshold: real, minimumImprovement: real, input: Input, r: Result<Selection, Error>)
    requires IsSquareRoot(root) && Detects(input.series, o, root, bestLag, d)
    requires HasPeriod(input.series, o, p) && MinCorrelation(o) < 1.0
    requires ValidInput(input) && (d.detected ==> input.seasonality == d.period)
    requires IsSelection(m, divergenceThreshold, minimumImprovement, input, r)
    ensures bestLag >= 2 && Prepare(input).Ok?
    ensures var q := Prepare(input).value;
            && (q.seasonPoints == bestLag <==> StepKeepsSeason(bestLag, InferStep(input.series), q.step))
            && (Enough(q) && q.seasonPoints % bestLag == 0 ==> IsExact(input, p, r))
            && (!Enough(q) ==> r.Err?)
            && (MinLag(o, InferStep(input.series)) == 2 && bestLag <= q.horizonPoints && IsExact(input, p, r) ==>
                  Enough(q) && q.seasonPoints % bestLag == 0)
  {
    hide IsSquareRoot, Detects, MinCorrelation, InferStep, IsSelection, Periodic, ValidInput, Prepare, StepKeepsSeason,
         IsExact, Continues, Shortest;
    DetectedSeasonHolds(input.series, o, root, p, bestLag, d);
    SeasonKeptIff(input, bestLag);
    var q := Prepare(input).value;
    if !Enough(q) {
      TooLongSeasonFails(m, divergenceThreshold, minimumImprovement, input, r);
    } else if q.seasonPoints % bestLag == 0 {
      MultipleForecastsExactly(m, divergenceThreshold, minimumImprovement, input, r, p, bestLag);
    }
    if MinLag(o, InferStep(input.series)) == 2 && bestLag <= q.horizonPoints && IsExact(input, p, r) {
      DetectedSeasonIsShortest(input.series, o, root, p, bestLag, d);
      ExactSelection(m, divergenceThreshold, minimumImprovement, input, r, p, bestLag);
    }
  }

  /**
   * With a step `f` times finer than the samples, as the live controller's is by default, there is a
   * forecast exactly when `f` times the detected season fits before the holdout; then it is exact.
   */
  lemma FinerStepForecastsIff(
    o: Options, root: real -> real, bestLag: int, d: Detection, p: nat, f: nat,
    m: HoltWintersModel, divergenceThreshold: real, minimumImprovement: real, input: Input, r: Result<Selection, Error>)
    requires IsSquareRoot(root) && Detects(input.series, o, root, bestLag, d)
    requires HasPeriod(input.series, o, p) && MinCorrelation(o) < 1.0
    requires ValidInput(input) && (d.detected ==> input.seasonality == d.period)
    requires f >= 1 && input.step > 0 && InferStep(input.series) == f * input.step
    requires IsSelection(m, divergenceThreshold, minimumImprovement, input, r)
    ensures r.Ok? <==> f * bestLag + Max(1, CeilDiv(input.horizon, input.step)) <= |input.series|
    ensures r.Ok? <==> IsExact(input, p, r)
  {
    hide IsSquareRoot, Detects, MinCorrelation, InferStep, IsSelection, Periodic, ValidInput, CeilDiv,
         StepKeepsSeason, Continues, Shortest, HasPeriod, Foretells;
    DetectedSeasonHolds(input.series, o, root, p, bestLag, d);
    ForecastIsExactIff(o, root, bestLag, d, p, m, divergenceThreshold, minimumImprovement, input, r);
    FinerStepCountsMore(input, bestLag, f);
    MultipleLeavesNothing(f, bestLag);
  }

  lemma MultipleLeavesNothing(f: nat, k: nat)
    requires k >= 1
    ensures (f * k) % k == 0
  {
    ModUnique(f * k, k, f, 0);
  }

  /** With the inferred step, which discovery leaves to the forecast, a period and the horizon in the history suffice. */
  lemma DetectedSeasonForecastsExactly(
    o: Options, root: real -> real, bestLag: int, d: Detection, p: nat,
    m: HoltWintersModel, divergenceThreshold: real, minimumImprovement: real, input: Input, r: Result<Selection, Error>)
    requires IsSquareRoot(root) && Detects(input.series, o, root, bestLag, d)
    requires HasPeriod(input.series, o, p) && MinCorrelation(o) < 1.0
    requires ValidInput(input) && (input.step == 0 || input.step == InferStep(input.series))
    requires d.detected ==> input.seasonality == d.period
    requires p + CeilDiv(input.horizon, InferStep(input.series)) <= |input.series|
    requires IsSelection(m, divergenceThreshold, minimumImprovement, input, r)
    ensures IsExact(input, p, r) && |r.value.result.points| == Max(1, CeilDiv(input.horizon, InferStep(input.series)))
  {
    hide IsSquareRoot, Detects, MinCorrelation, InferStep, IsSelection, Periodic, ValidInput, CeilDiv, StepKeepsSeason,
         Continues, Shortest, HasPeriod, Foretells, NaiveResult;
    DetectedSeasonHolds(input.series, o, root, p, bestLag, d);
    InferredStep(input);
    InferredStepKeepsSeason(bestLag, InferStep(input.series));
    ForecastIsExactIff(o, root, bestLag, d, p, m, divergenceThreshold, minimumImprovement, input, r);
    MultipleLeavesNothing(1, bestLag);
    AutoGuarantees(m, divergenceThreshold, minimumImprovement, input, r);
    NaivePointValues(Prepare(input).value);
  }

  lemma InferredStep(input: Input)
    requires ValidInput(input) && (input.step == 0 || input.step == InferStep(input.series))
    ensures InferStep(input.series) > 0 && Prepare(input).Ok? && Prepare(input).value.step == InferStep(input.series)
    ensures Prepare(input).value.horizonPoints == Max(1, CeilDiv(input.horizon, InferStep(input.series)))
  {
    InferredStepIsPositive(input.series);
    hide InferStep;
  }

  // ---- a history on which the season is lost ----

  function Minutes(n: int): Duration { n * (60 * SECOND) }

  /** `n` samples five minutes apart that alternate between two values. */
  function Alternation(n: nat): seq<Point> {
    seq(n, i requires 0 <= i < n => Point(Minutes(5 * (i + 1)), if i % 2 == 0 then 1.0 else 3.0))
  }

  lemma AlternationShape(n: nat)
    ensures |Alternation(n)| == n
    ensures forall i :: 0 <= i < n ==> Alternation(n)[i].at > 0 && Alternation(n)[i].value > 0.0
    ensures forall i :: 0 < i < n ==> Alternation(n)[i].at == Alternation(n)[i - 1].at + Minutes(5)
  {
    var y := Alternation(n);
    forall i | 0 < i < n
      ensures y[i].at == y[i - 1].at + Minutes(5)
    {
      assert y[i].at == Minutes(5 * (i + 1)) && y[i - 1].at == Minutes(5 * i);
    }
  }

  function SearchTwoToThird(): Options { Options(0, 0, 3, 0.75) }

  lemma AlternatingValues()
    ensures Periodic(Values(Alternation(6)), 2) && !Constant(Values(Alternation(6)))
  {
    var x := Values(Alternation(6));
    assert x == [1.0, 3.0, 1.0, 3.0, 1.0, 3.0];
    assert x[1] != x[1 - 1];
  }

  lemma AlternatingStep()
    ensures InferStep(Alternation(6)) == Minutes(5)
  {
    hide Sorting.Sort, Alternation;
    AlternationShape(6);
    var deltas := Deltas(Alternation(6));
    assert |deltas| == 5 && forall d :: d in deltas ==> d == Minutes(5);
    Sorting.SortedElement(deltas, Sorting.DurationKey, 2);
  }

  lemma AlternatingHasPeriod()
    ensures InferStep(Alternation(6)) == Minutes(5) && HasPeriod(Alternation(6), SearchTwoToThird(), 2)
    ensures MinCorrelation(SearchTwoToThird()) < 1.0
  {
    hide InferStep, Periodic, Constant, Values;
    AlternatingStep();
    AlternatingValues();
  }

  /** The season is detected with confidence 1, and under a step of thirty seconds there is no forecast with it. */
  lemma DetectedSeasonIsLost(root: real -> real, bestLag: int, d: Detection, m: HoltWintersModel,
                             divergenceThreshold: real, minimumImprovement: real, r: Result<Selection, Error>)
    requires IsSquareRoot(root) && Detects(Alternation(6), SearchTwoToThird(), root, bestLag, d)
    requires IsSelection(m, divergenceThreshold, minimumImprovement,
                         Input(Alternation(6), Minutes(30), Minutes(5), 30 * SECOND, d.period), r)
    ensures d.detected && d.correlation == 1.0 && d.confidence == Some(1.0) && d.period == Minutes(10)
    ensures r.Err?
  {
    hide IsSquareRoot, Detects, IsSelection, HasPeriod, MinCorrelation, Alternation;
    var input := Input(Alternation(6), Minutes(30), Minutes(5), 30 * SECOND, d.period);
    AlternationShape(6);
    AlternatingHasPeriod();
    PeriodicDemandIsDetected(Alternation(6), SearchTwoToThird(), root, 2, bestLag, d);
    FinerStepForecastsIff(SearchTwoToThird(), root, bestLag, d, 2, 10, m, divergenceThreshold, minimumImprovement, input, r);
  }
}
