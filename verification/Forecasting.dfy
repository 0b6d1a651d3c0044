/** The shared forecast pipeline: input preparation, forecast points and holdout validation. */
module Forecasting {
  import opened Core
  import opened Points
  import opened Sorting
  import opened Recommend

  datatype Error = InvalidInput | InsufficientData | NoForecastResult

  datatype Reliability = High | Medium | Low | Unsupported

  datatype Input = Input(series: seq<Point>, evaluatedAt: Time, horizon: Duration, step: Duration, seasonality: Duration)

  datatype Prepared = Prepared(
    series: seq<Point>, generatedAt: Time, step: Duration, horizonPoints: int, seasonPoints: int)

  datatype Validation = Validation(
    holdoutPoints: nat, meanAbsoluteErr: real, meanActual: real, normalizedError: real,
    underPredictions: seq<real>, underPredictionRate: real, medianUnderPredictionPct: real)

  const NO_VALIDATION := Validation(0, 0.0, 0.0, 0.0, [], 0.0, 0.0)

  datatype ForecastResult = ForecastResult(
    points: seq<Point>, confidence: real, reliability: Reliability, validation: Validation)

  // ---- preparation ----

  predicate ValidInput(input: Input) {
    && |input.series| >= 2
    && input.horizon > 0 && input.step >= 0 && input.seasonality >= 0
    && (forall i :: 0 <= i < |input.series| ==> !IsZeroTime(input.series[i].at) && input.series[i].value >= 0.0)
    && (forall i :: 0 < i < |input.series| ==> input.series[i - 1].at < input.series[i].at)
  }

  function Deltas(series: seq<Point>): seq<int>
    requires |series| >= 1
  {
    seq(|series| - 1, i requires 0 <= i < |series| - 1 => series[i + 1].at - series[i].at)
  }

  /** The upper median of the gaps between samples; zero when there are none or one is not positive. */
  function InferStep(series: seq<Point>): Duration {
    if |series| < 2 || exists d :: d in Deltas(series) && d <= 0 then 0
    else Sort(Deltas(series), DurationKey)[(|series| - 1) / 2]
  }

  method MeasureStep(series: seq<Point>) returns (step: Duration)
    ensures step == InferStep(series)
  {
    if |series| < 2 {
      return 0;
    }
    var deltas: seq<int> := [];
    for index := 1 to |series|
      invariant deltas == Deltas(series)[..index - 1]
      invariant forall d :: d in deltas ==> d > 0
    {
      var delta := series[index].at - series[index - 1].at;
      if delta <= 0 {
        assert Deltas(series)[index - 1] == delta && delta in Deltas(series);
        return 0;
      }
      deltas := deltas + [delta];
    }
    assert deltas == Deltas(series);
    return Sort(deltas, DurationKey)[|deltas| / 2];
  }

  lemma InferredStepIsPositive(series: seq<Point>)
    requires |series| >= 2 && forall i :: 0 < i < |series| ==> series[i - 1].at < series[i].at
    ensures InferStep(series) > 0
  {
    forall d | d in Deltas(series)
      ensures d > 0
    {
      var i :| 0 <= i < |series| - 1 && Deltas(series)[i] == d;
      assert series[i].at < series[i + 1].at;
    }
    SortedElement(Deltas(series), DurationKey, (|series| - 1) / 2);
  }

  /**
   * The inferred step is one of the gaps, with at most half of them below it and fewer than half above:
   * the upper one of the middle two when their number is even.
   */
  lemma InferredStepSplitsGaps(series: seq<Point>)
    requires |series| >= 2 && forall i :: 0 < i < |series| ==> series[i - 1].at < series[i].at
    ensures var step, gaps := InferStep(series), Deltas(series);
            && step in gaps
            && 2 * Below(gaps, DurationKey, step as real) <= |gaps| && 2 * Above(gaps, DurationKey, step as real) < |gaps|
  {
    InferredStepIsPositive(series);
    hide Sort, Below, Above;
    SortedElement(Deltas(series), DurationKey, (|series| - 1) / 2);
    SortedPlace(Deltas(series), DurationKey, (|series| - 1) / 2);
  }

  /** Half away from zero, for a non-negative quotient. */
  function RoundDiv(a: nat, b: nat): nat
    requires b > 0
  {
    (2 * a + b) / (2 * b)
  }

  function Prepare(input: Input): Result<Prepared, Error> {
    if !ValidInput(input) then Err(InvalidInput)
    else
      var step := if input.step == 0 then InferStep(input.series) else input.step;
      if step <= 0 then Err(InvalidInput)
      else
        var horizonPoints := CeilDiv(input.horizon, step);
        var seasonPoints := RoundDiv(input.seasonality, step);
        var last := input.series[|input.series| - 1].at;
        Ok(Prepared(input.series, if input.evaluatedAt > last then input.evaluatedAt else last, step,
                    if horizonPoints < 1 then 1 else horizonPoints, if seasonPoints < 1 then 1 else seasonPoints))
  }

  /** Preparation fails on invalid input only: an inferred step is always usable. */
  lemma PrepareAcceptsValid(input: Input)
    ensures Prepare(input).Ok? <==> ValidInput(input)
  {
    if ValidInput(input) {
      InferredStepIsPositive(input.series);
    }
  }

  function Values(points: seq<Point>): seq<real> {
    seq(|points|, i requires 0 <= i < |points| => points[i].value)
  }

  lemma ValuesSlice(points: seq<Point>, k: nat)
    requires k <= |points|
    ensures |Values(points)| == |points|
    ensures Values(points[..k]) == Values(points)[..k] && Values(points[k..]) == Values(points)[k..]
  {
  }

  lemma PreparedShape(input: Input)
    requires Prepare(input).Ok?
    ensures var p := Prepare(input).value;
            p.series == input.series && p.horizonPoints >= 1 && p.seasonPoints >= 1 && p.step > 0
  {
  }

  // ---- forecast points ----

  function ForecastPoints(generatedAt: Time, step: Duration, values: seq<real>): seq<Point> {
    seq(|values|, i requires 0 <= i < |values| => Point(generatedAt + step * (i + 1), values[i]))
  }

  method BuildForecastPoints(generatedAt: Time, step: Duration, values: seq<real>) returns (points: seq<Point>)
    ensures points == ForecastPoints(generatedAt, step, values)
  {
    points := [];
    for i := 0 to |values|
      invariant points == ForecastPoints(generatedAt, step, values)[..i]
    {
      points := points + [Point(generatedAt + step * (i + 1), values[i])];
    }
  }

  /** The last forecast point is at or after the evaluation time plus the horizon. */
  lemma ForecastReachesHorizon(input: Input, values: seq<real>)
    requires Prepare(input).Ok? && |values| == Prepare(input).value.horizonPoints
    ensures var p := Prepare(input).value;
            var points := ForecastPoints(p.generatedAt, p.step, values);
            points != [] && points[|points| - 1].at >= input.evaluatedAt + input.horizon
  {
    var p := Prepare(input).value;
    Commute(p.step, p.horizonPoints);
  }

  /**
   * When the warmup fits in the horizon, the point selected for the ready time is the earliest one
   * at or after it, so the forecast is never reported as too short.
   */
  lemma WarmupWithinHorizonIsCovered(input: Input, values: seq<real>, d: Demand)
    requires Prepare(input).Ok? && |values| == Prepare(input).value.horizonPoints
    requires d.at == input.evaluatedAt && d.warmup <= input.horizon
    requires var p := Prepare(input).value;
             d.forecastFor == Selected(ForecastPoints(p.generatedAt, p.step, values), ReadyTime(d)).at
    ensures CoversReadyTime(d)
    ensures var p := Prepare(input).value;
            var points := ForecastPoints(p.generatedAt, p.step, values);
            exists i :: 0 <= i < |points| && points[i] == Selected(points, ReadyTime(d))
                        && forall j :: 0 <= j < i ==> points[j].at < ReadyTime(d)
  {
    var p := Prepare(input).value;
    var points := ForecastPoints(p.generatedAt, p.step, values);
    ForecastReachesHorizon(input, values);
    SelectedIsSelected(points, ReadyTime(d));
    assert points[|points| - 1].at >= ReadyTime(d);
  }

  // ---- validation on a holdout ----

  function Sum(xs: seq<real>): real {
    if xs == [] then 0.0 else Sum(xs[..|xs| - 1]) + xs[|xs| - 1]
  }

  /** Sum of the absolute errors of the first `n` pairs. */
  function SumAbsError(actual: seq<real>, predicted: seq<real>, n: nat): (s: real)
    requires n <= |actual| && n <= |predicted|
    ensures s >= 0.0
  {
    if n == 0 then 0.0 else SumAbsError(actual, predicted, n - 1) + AbsReal(actual[n - 1] - predicted[n - 1])
  }

  /** Positive demand was forecast too low. */
  predicate Under(actual: real, predicted: real) { actual > 0.0 && predicted < actual }

  /** By what fraction each under-predicted sample of the first `n` was missed. */
  function UnderPredictions(actual: seq<real>, predicted: seq<real>, n: nat): seq<real>
    requires n <= |actual| && n <= |predicted|
  {
    if n == 0 then []
    else
      var before := UnderPredictions(actual, predicted, n - 1);
      if Under(actual[n - 1], predicted[n - 1])
      then before + [(actual[n - 1] - predicted[n - 1]) / actual[n - 1]] else before
  }

  function ValidationOf(actual: seq<real>, predicted: seq<real>): Validation {
    var n := Min(|actual|, |predicted|);
    if n == 0 then NO_VALIDATION
    else
      var mae := SumAbsError(actual, predicted, n) / n as real;
      var mean := Sum(actual[..n]) / n as real;
      var under := UnderPredictions(actual, predicted, n);
      Validation(n, mae, mean, mae / (if mean > 1.0 then mean else 1.0),
                 under, |under| as real / n as real, Median(under) * 100.0)
  }

  method EvaluateForecast(actual: seq<real>, predicted: seq<real>) returns (v: Validation)
    ensures v == ValidationOf(actual, predicted)
  {
    hide Median;
    var count := Min(|actual|, |predicted|);
    if count == 0 {
      return NO_VALIDATION;
    }
    var absErrSum, actualSum, under: seq<real> := 0.0, 0.0, [];
    for i := 0 to count
      invariant absErrSum == SumAbsError(actual, predicted, i)
      invariant actualSum == Sum(actual[..i])
      invariant under == UnderPredictions(actual, predicted, i)
    {
      assert actual[..i + 1][..i] == actual[..i];
      absErrSum := absErrSum + AbsReal(actual[i] - predicted[i]);
      actualSum := actualSum + actual[i];
      if actual[i] > 0.0 && predicted[i] < actual[i] {
        under := under + [(actual[i] - predicted[i]) / actual[i]];
      }
    }
    var mae := absErrSum / count as real;
    var mean := actualSum / count as real;
    v := Validation(count, mae, mean, mae / (if mean > 1.0 then mean else 1.0),
                    under, |under| as real / count as real, Median(under) * 100.0);
  }

  lemma ErrorIsNonNegative(actual: seq<real>, predicted: seq<real>)
    ensures ValidationOf(actual, predicted).meanAbsoluteErr >= 0.0
  {
    hide Sum, UnderPredictions, Median;
    var n := Min(|actual|, |predicted|);
    if n > 0 && SumAbsError(actual, predicted, n) > 0.0 {
      PositiveQuotient(SumAbsError(actual, predicted, n), n as real);
    }
  }

  lemma {:induction false} MissesArePositive(actual: seq<real>, predicted: seq<real>, n: nat)
    requires n <= |actual| && n <= |predicted|
    ensures forall x :: x in UnderPredictions(actual, predicted, n) ==> x > 0.0
    ensures |UnderPredictions(actual, predicted, n)| <= n
    ensures UnderPredictions(actual, predicted, n) == [] <==>
            forall i :: 0 <= i < n ==> !Under(actual[i], predicted[i])
  {
    if n > 0 {
      MissesArePositive(actual, predicted, n - 1);
      if Under(actual[n - 1], predicted[n - 1]) {
        PositiveQuotient(actual[n - 1] - predicted[n - 1], actual[n - 1]);
      }
    }
  }

  /** The median miss is positive exactly when some positive demand was forecast too low. */
  lemma MedianMissIsPositiveIff(actual: seq<real>, predicted: seq<real>)
    ensures ValidationOf(actual, predicted).medianUnderPredictionPct > 0.0 <==>
            exists i :: 0 <= i < |actual| && i < |predicted| && Under(actual[i], predicted[i])
  {
    var n := Min(|actual|, |predicted|);
    MissesArePositive(actual, predicted, n);
    var under := UnderPredictions(actual, predicted, n);
    if under != [] {
      MedianPositive(under);
    }
  }

  function ClampReal(x: real, lo: real, hi: real): real {
    if x < lo then lo else if x > hi then hi else x
  }

  function ConfidenceFrom(v: Validation): real {
    if v.holdoutPoints == 0 then 0.0 else ClampReal(1.0 - v.normalizedError, 0.0, 1.0)
  }

  function DeriveReliability(confidence: real, v: Validation): Reliability {
    if v.holdoutPoints == 0 then Unsupported
    else if confidence >= 0.80 then High
    else if confidence >= 0.60 then Medium
    else if confidence >= 0.35 then Low
    else Unsupported
  }

  function Rank(r: Reliability): int {
    match r case High => 4 case Medium => 3 case Low => 2 case Unsupported => 1
  }

  function Degrade(current: Reliability, limit: Reliability): Reliability {
    if Rank(current) > Rank(limit) then limit else current
  }

  /**
   * Points, confidence and reliability from the forecast values and the holdout validation; a history
   * of fewer than `seasons` full seasons caps the reliability.
   */
  function Assembled(p: Prepared, values: seq<real>, v: Validation, seasons: nat): ForecastResult {
    var c := ConfidenceFrom(v);
    var r := DeriveReliability(c, v);
    var seasonal := if p.seasonPoints == 1 then Degrade(r, Medium) else r;
    ForecastResult(ForecastPoints(p.generatedAt, p.step, values), c,
                   if |p.series| < seasons * p.seasonPoints then Degrade(seasonal, Low) else seasonal, v)
  }

  method Assemble(p: Prepared, values: seq<real>, validation: Validation, seasons: nat) returns (result: ForecastResult)
    ensures result == Assembled(p, values, validation, seasons)
  {
    hide ForecastPoints, ConfidenceFrom, DeriveReliability, Degrade;
    var confidence := ConfidenceFrom(validation);
    var points := BuildForecastPoints(p.generatedAt, p.step, values);
    result := ForecastResult(points, confidence, DeriveReliability(confidence, validation), validation);
    if p.seasonPoints == 1 {
      result := result.(reliability := Degrade(result.reliability, Medium));
    }
    if |p.series| < seasons * p.seasonPoints {
      result := result.(reliability := Degrade(result.reliability, Low));
    }
  }

  lemma {:induction false} NoErrorSum(actual: seq<real>, n: nat)
    requires n <= |actual|
    ensures SumAbsError(actual, actual, n) == 0.0
  {
    if n > 0 {
      NoErrorSum(actual, n - 1);
    }
  }

  lemma {:induction false} ZeroErrors(a: seq<real>, b: seq<real>, n: nat)
    requires n <= |a| && n <= |b|
    ensures SumAbsError(a, b, n) == 0.0 ==> forall i :: 0 <= i < n ==> a[i] == b[i]
  {
    if n > 0 {
      ZeroErrors(a, b, n - 1);
    }
  }

  /** Predictions that are off by the same amount everywhere miss that amount for each sample. */
  lemma {:induction false} ConstantMiss(actual: seq<real>, predicted: seq<real>, c: real, n: nat)
    requires n <= |actual| && n <= |predicted| && forall i :: 0 <= i < n ==> predicted[i] == actual[i] + c
    ensures SumAbsError(actual, predicted, n) == n as real * AbsReal(c)
  {
    if n > 0 {
      ConstantMiss(actual, predicted, c, n - 1);
      DistributeReal((n - 1) as real, 1.0, AbsReal(c));
    }
  }

  /** A holdout predicted exactly scores no error and full confidence. */
  lemma ExactHoldout(actual: seq<real>)
    requires actual != []
    ensures var v := ValidationOf(actual, actual);
            && v.meanAbsoluteErr == 0.0 && v.normalizedError == 0.0
            && ConfidenceFrom(v) == 1.0 && DeriveReliability(ConfidenceFrom(v), v) == High
  {
    NoErrorSum(actual, |actual|);
  }

  // ---- what the validation figures mean ----

  /** Errors are judged against the mean demand, but at least against one unit of it. */
  function Yardstick(v: Validation): real { if v.meanActual > 1.0 then v.meanActual else 1.0 }

  /** The figures of a holdout, multiplied out. */
  lemma ValidationMeaning(actual: seq<real>, predicted: seq<real>)
    requires actual != [] && predicted != []
    ensures var v, n := ValidationOf(actual, predicted), Min(|actual|, |predicted|);
            && v.holdoutPoints == n
            && v.meanAbsoluteErr * n as real == SumAbsError(actual, predicted, n)
            && v.meanActual * n as real == Sum(actual[..n])
            && v.normalizedError * Yardstick(v) == v.meanAbsoluteErr
            && v.underPredictionRate * n as real == |UnderPredictions(actual, predicted, n)| as real
            && v.medianUnderPredictionPct == 100.0 * Median(UnderPredictions(actual, predicted, n))
  {
    hide SumAbsError, Sum, UnderPredictions, Median;
    var n := Min(|actual|, |predicted|);
    var mae, mean := SumAbsError(actual, predicted, n) / n as real, Sum(actual[..n]) / n as real;
    Quotient(SumAbsError(actual, predicted, n), n as real);
    Quotient(Sum(actual[..n]), n as real);
    Quotient(|UnderPredictions(actual, predicted, n)| as real, n as real);
    Quotient(mae, if mean > 1.0 then mean else 1.0);
  }

  lemma HoldoutFigures(actual: seq<real>, predicted: seq<real>)
    requires actual != [] && |actual| == |predicted|
    ensures var v := ValidationOf(actual, predicted);
            v.holdoutPoints == |actual| && v.meanAbsoluteErr * |actual| as real == SumAbsError(actual, predicted, |actual|)
  {
    hide SumAbsError, Sum, UnderPredictions, Median;
    Quotient(SumAbsError(actual, predicted, |actual|), |actual| as real);
  }

  ghost function UnderPlaces(actual: seq<real>, predicted: seq<real>, n: nat): set<int>
    requires n <= |actual| && n <= |predicted|
  {
    set i: int | 0 <= i < n && actual[i] > 0.0 && predicted[i] < actual[i]
  }

  /** One figure for each place where positive demand was forecast too low. */
  lemma {:induction false} UnderPredictionCount(actual: seq<real>, predicted: seq<real>, n: nat)
    requires n <= |actual| && n <= |predicted|
    ensures |UnderPredictions(actual, predicted, n)| == |UnderPlaces(actual, predicted, n)|
  {
    if n > 0 {
      UnderPredictionCount(actual, predicted, n - 1);
      assert UnderPlaces(actual, predicted, n) ==
             UnderPlaces(actual, predicted, n - 1) + if Under(actual[n - 1], predicted[n - 1]) then {n - 1} else {};
    } else {
      assert UnderPlaces(actual, predicted, n) == {};
    }
  }

  /** The confidence is the part of the yardstick that the mean error leaves over, and zero when it leaves nothing. */
  lemma ConfidenceFromMeaning(actual: seq<real>, predicted: seq<real>)
    requires actual != [] && predicted != []
    ensures var v := ValidationOf(actual, predicted);
            && (v.meanAbsoluteErr <= Yardstick(v) ==> ConfidenceFrom(v) * Yardstick(v) == Yardstick(v) - v.meanAbsoluteErr)
            && (v.meanAbsoluteErr >= Yardstick(v) ==> ConfidenceFrom(v) == 0.0)
  {
    hide ValidationOf;
    var v := ValidationOf(actual, predicted);
    ValidationMeaning(actual, predicted);
    ErrorIsNonNegative(actual, predicted);
    ScaleReal(v.normalizedError, 1.0, Yardstick(v));
    ScaleReal(0.0, v.normalizedError, Yardstick(v));
    DistributeReal(1.0 - v.normalizedError, v.normalizedError, Yardstick(v));
  }

  /** A share of the yardstick, compared with a limit, is the error compared with that limit's share of it. */
  lemma ShareWithin(share: real, limit: real, yardstick: real, error: real)
    requires yardstick >= 1.0 && share * yardstick == error
    ensures share <= limit <==> error <= limit * yardstick
  {
    ScaleReal(share, limit, yardstick);
  }

  lemma NonNegativeShare(share: real, yardstick: real)
    requires yardstick >= 1.0 && share * yardstick >= 0.0
    ensures share >= 0.0
  {
  }

  /** The reliability grades the mean error: up to a fifth of the yardstick is high, up to 65 hundredths is usable. */
  lemma ReliabilityMeaning(actual: seq<real>, predicted: seq<real>)
    requires actual != [] && predicted != []
    ensures var v := ValidationOf(actual, predicted);
            var r := DeriveReliability(ConfidenceFrom(v), v);
            && (r == High <==> v.meanAbsoluteErr <= 0.20 * Yardstick(v))
            && (r == Medium <==> 0.20 * Yardstick(v) < v.meanAbsoluteErr <= 0.40 * Yardstick(v))
            && (r == Low <==> 0.40 * Yardstick(v) < v.meanAbsoluteErr <= 0.65 * Yardstick(v))
            && (r == Unsupported <==> 0.65 * Yardstick(v) < v.meanAbsoluteErr)
  {
    hide ValidationOf, Yardstick, DeriveReliability, ConfidenceFrom;
    var v := ValidationOf(actual, predicted);
    YardstickShare(actual, predicted);
    Grades(v, v.normalizedError, Yardstick(v), v.meanAbsoluteErr);
  }

  lemma Grades(v: Validation, share: real, yardstick: real, error: real)
    requires v.holdoutPoints > 0 && v.normalizedError == share
    requires yardstick >= 1.0 && share * yardstick == error >= 0.0
    ensures var r := DeriveReliability(ConfidenceFrom(v), v);
            && (r == High <==> error <= 0.20 * yardstick)
            && (r == Medium <==> 0.20 * yardstick < error <= 0.40 * yardstick)
            && (r == Low <==> 0.40 * yardstick < error <= 0.65 * yardstick)
            && (r == Unsupported <==> 0.65 * yardstick < error)
  {
    NonNegativeShare(share, yardstick);
    ShareWithin(share, 0.20, yardstick, error);
    ShareWithin(share, 0.40, yardstick, error);
    ShareWithin(share, 0.65, yardstick, error);
  }

  lemma YardstickShare(actual: seq<real>, predicted: seq<real>)
    requires actual != [] && predicted != []
    ensures var v := ValidationOf(actual, predicted);
            v.holdoutPoints > 0 && Yardstick(v) >= 1.0 && v.normalizedError * Yardstick(v) == v.meanAbsoluteErr >= 0.0
  {
    hide ValidationOf;
    ValidationMeaning(actual, predicted);
    ErrorIsNonNegative(actual, predicted);
  }

  /** Of the three grades, the error's, at most medium without a season, at most low on a short history, the worst stands. */
  lemma AssembledReliability(p: Prepared, values: seq<real>, v: Validation, seasons: nat)
    ensures var r := Assembled(p, values, v, seasons);
            && r.validation == v && r.confidence == ConfidenceFrom(v) && |r.points| == |values|
            && Rank(r.reliability) == Min(Rank(DeriveReliability(r.confidence, v)),
                                          Min(if p.seasonPoints == 1 then 3 else 4,
                                              if |p.series| < seasons * p.seasonPoints then 2 else 4))
  {
  }

  /** What preparation makes of an input: the later of the two times, the fewest steps that cover the horizon, the nearest season. */
  lemma PreparedMeaning(input: Input)
    requires Prepare(input).Ok?
    ensures var p := Prepare(input).value;
            && p.series == input.series && p.step == (if input.step > 0 then input.step else InferStep(input.series)) > 0
            && p.generatedAt == Max(input.evaluatedAt, input.series[|input.series| - 1].at)
            && (p.horizonPoints - 1) * p.step < input.horizon <= p.horizonPoints * p.step
            && p.seasonPoints >= 1
            && (p.seasonPoints > 1 ==> (2 * p.seasonPoints - 1) * p.step <= 2 * input.seasonality)
            && 2 * input.seasonality < (2 * p.seasonPoints + 1) * p.step
  {
    hide InferStep, CeilDiv;
    InferredStepIsPositive(input.series);
    var p := Prepare(input).value;
    RoundDivBounds(input.seasonality, p.step);
  }

  lemma RoundDivBounds(a: nat, b: nat)
    requires b > 0
    ensures var q := RoundDiv(a, b);
            (2 * q - 1) * b <= 2 * a < (2 * q + 1) * b && (q < 1 ==> 2 * a < 3 * b)
  {
    var q := RoundDiv(a, b);
    assert q * (2 * b) <= 2 * a + b < (q + 1) * (2 * b);
  }
}
