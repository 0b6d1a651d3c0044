/** Linear demand through the automatic model: which forecast is selected, and that it is exact. */
module LinearDemand {
  import opened Core
  import opened Points
  import opened Forecasting
  import opened SeasonalNaive
  import opened HoltWinters
  import opened ExactDemand
  import opened Auto
  import Recommend

  /** How far the last forecast point of Holt-Winters departs from the last sample, on a line of slope `b`. */
  function LinearGap(last: real, b: real, h: nat): real { Ratio(last, ClipZero(Extrapolate(last, b, h))) }

  lemma LinearValues(x: seq<real>, b: real, n: nat, w: Params, horizon: nat)
    requires 2 <= n <= |x| && Linear(x, b) && horizon >= 1
    ensures Usable(x[..n], 1, horizon) && |ForecastValues(x[..n], 1, horizon, w)| == horizon
    ensures forall i :: 0 <= i < horizon ==>
              ForecastValues(x[..n], 1, horizon, w)[i] == ClipZero(Extrapolate(x[n - 1], b, i + 1))
  {
    LinearIsReproduced(x[..n], b, w, n - 1);
    hide LinearLevel, LinearTrend, Extrapolate, ClipZero;
  }

  /** The holdout of a line is predicted without error. */
  lemma LinearHoldout(x: seq<real>, b: real, n: nat, w: Params)
    requires 2 <= n < |x| && Linear(x, b) && NonNegativeDemand(x)
    ensures Usable(x[..n], 1, |x| - n) && ForecastValues(x[..n], 1, |x| - n, w) == x[n..]
  {
    LinearValues(x, b, n, w, |x| - n);
    var forecast := ForecastValues(x[..n], 1, |x| - n, w);
    hide ForecastValues, Linear;
    forall i | 0 <= i < |x| - n
      ensures forecast[i] == x[n..][i]
    {
      LinearGrowth(x, b, n - 1, i + 1);
    }
  }

  /** On a line Holt-Winters, whatever its parameters, backtests without error and extrapolates the line. */
  lemma HoltOnLine(p: Prepared, b: real, w: Params)
    requires Shaped(p) && p.seasonPoints == 1 && RequiredSamples(p) <= |p.series|
    requires Linear(Values(p.series), b) && NonNegativeDemand(Values(p.series))
    ensures var r := HoltResult(p, w);
            && r.confidence == 1.0 && r.validation.meanAbsoluteErr == 0.0
            && IsUsable(Ok(r)) && |r.points| == p.horizonPoints
            && forall i :: 0 <= i < p.horizonPoints ==>
                 r.points[i].value == ClipZero(Extrapolate(p.series[|p.series| - 1].value, b, i + 1))
  {
    hide Linear, ForecastValues, ValidationOf, NonNegativeDemand, ConfidenceFrom, ClipZero, Extrapolate;
    var x := Values(p.series);
    var split := |x| - p.horizonPoints;
    LinearHoldout(x, b, split, w);
    LinearValues(x, b, |x|, w, p.horizonPoints);
    assert x[..|x|] == x;
    ExactHoldout(x[split..]);
  }

  /** On a line that is not flat seasonal naive without a season backtests with an error. */
  lemma NaiveOnLine(p: Prepared, b: real)
    requires Shaped(p) && p.seasonPoints == 1 && Enough(p) && Linear(Values(p.series), b) && b != 0.0
    ensures var r := NaiveResult(p);
            && r.validation.meanAbsoluteErr > 0.0 && |r.points| == p.horizonPoints && r.confidence <= 1.0
            && forall i :: 0 <= i < p.horizonPoints ==> r.points[i].value == p.series[|p.series| - 1].value
  {
    hide ValidationOf, DeriveReliability;
    var x := Values(p.series);
    var split := |x| - p.horizonPoints;
    var predicted := NaiveForecast(x[..split], 1, p.horizonPoints);
    ModUnique(0, 1, 0, 0);
    assert x[split..][0] == x[split - 1 + 1] && predicted[0] == x[split - 1];
    PositiveError(x[split..], predicted);
  }

  lemma PositiveError(actual: seq<real>, predicted: seq<real>)
    requires |actual| == |predicted| > 0 && actual[0] != predicted[0]
    ensures ValidationOf(actual, predicted).meanAbsoluteErr > 0.0
  {
    var n := |actual|;
    ZeroErrors(actual, predicted, n);
    PositiveQuotient(SumAbsError(actual, predicted, n), n as real);
  }

  lemma QuotientOrder(a: real, b: real, c: real, d: real)
    requires b > 0.0 && d > 0.0 && a * d <= c * b
    ensures a / b <= c / d
  {
    var l, r := a / b, c / d;
    assert l * b == a && r * d == c;
    assert (l * b) * d <= (r * d) * b;
    assert (r - l) * (b * d) >= 0.0;
    PositiveProduct(b, d);
  }

  lemma NonNegativeProduct(a: real, b: real)
    requires a >= 0.0 && b >= 0.0
    ensures a * b >= 0.0
  {
  }

  lemma AboveGrows(a: real, u: real, v: real)
    requires 0.0 <= a <= u <= v
    ensures (u - a) * (if v > 1.0 then v else 1.0) <= (v - a) * (if u > 1.0 then u else 1.0)
  {
    if v > 1.0 && u > 1.0 {
      NonNegativeProduct(a, v - u);
      assert (v - a) * u - (u - a) * v == a * (v - u);
    } else if v > 1.0 {
      NonNegativeProduct(1.0 - u, v);
      NonNegativeProduct(a, v - 1.0);
      assert (v - a) - (u - a) * v == (1.0 - u) * v + a * (v - 1.0);
    }
  }

  /** The disagreement grows with the distance. */
  lemma RatioGrows(a: real, u: real, v: real)
    requires a >= 0.0 && u >= 0.0 && v >= 0.0 && (a <= u <= v || v <= u <= a)
    ensures Ratio(a, u) <= Ratio(a, v)
  {
    if a <= u && u <= v {
      AboveGrows(a, u, v);
      QuotientOrder(u - a, if u > 1.0 then u else 1.0, v - a, if v > 1.0 then v else 1.0);
    } else {
      var d := if a > 1.0 then a else 1.0;
      Recommend.ScaleReal(a - u, a - v, d);
      QuotientOrder(a - u, d, a - v, d);
    }
  }

  lemma LineMoves(last: real, b: real, i: nat)
    requires last >= 0.0
    ensures var u, v := ClipZero(Extrapolate(last, b, i)), ClipZero(Extrapolate(last, b, i + 1));
            u >= 0.0 && v >= 0.0 && (last <= u <= v || v <= u <= last)
  {
    if b >= 0.0 {
      assert i as real * b >= 0.0;
    } else {
      assert i as real * -b >= 0.0;
    }
    assert (i + 1) as real * b == i as real * b + b;
  }

  /** So on a line the forecasts disagree most at the last point. */
  lemma {:induction false} LinearDivergence(naive: seq<Point>, holt: seq<Point>, last: real, b: real, n: nat)
    requires 1 <= n <= |naive| == |holt| && last >= 0.0
    requires forall i :: 0 <= i < n ==> naive[i].value == last
    requires forall i :: 0 <= i < n ==> holt[i].value == ClipZero(Extrapolate(last, b, i + 1))
    ensures Divergence(naive, holt, n) == LinearGap(last, b, n) >= 0.0
  {
    hide ClipZero, Extrapolate, Ratio;
    LineMoves(last, b, n - 1);
    var u, v := ClipZero(Extrapolate(last, b, n - 1)), ClipZero(Extrapolate(last, b, n));
    RatioGrows(last, u, v);
    RatioGrows(last, last, v);
    SelfRatio(last);
    if n > 1 {
      LinearDivergence(naive, holt, last, b, n - 1);
    }
  }

  lemma SelfRatio(a: real)
    ensures Ratio(a, a) == 0.0
  {
  }

  /** What the selection does on a line that is not flat, with no season. */
  lemma LinearDemandSelects(p: Prepared, b: real, naive: Result<ForecastResult, Error>, w: Params,
                            divergenceThreshold: real, minimumImprovement: real)
    requires Shaped(p) && p.seasonPoints == 1 && RequiredSamples(p) <= |p.series|
    requires Linear(Values(p.series), b) && NonNegativeDemand(Values(p.series)) && b != 0.0
    requires naive == Ok(NaiveResult(p))
    ensures var r := Choose(naive, Ok(HoltResult(p, w)), divergenceThreshold, minimumImprovement);
            && r.Ok?
            && (!r.value.usesNaive ==> r.value.result == HoltResult(p, w))
            && (!r.value.usesNaive <==>
                || !IsUsable(naive)
                || (LinearGap(p.series[|p.series| - 1].value, b, p.horizonPoints) <= OrDefault(divergenceThreshold, 0.35)
                    && OrDefault(minimumImprovement, 0.15) <= 1.0))
  {
    hide NaiveResult, HoltResult, Linear, LinearGap, Divergence, Extrapolate, ClipZero;
    HoltOnLine(p, b, w);
    NaiveOnLine(p, b);
    var n, h := NaiveResult(p), HoltResult(p, w);
    LastIsNonNegative(p);
    LinearDivergence(n.points, h.points, p.series[|p.series| - 1].value, b, p.horizonPoints);
    ImprovementIff(n.validation.meanAbsoluteErr, OrDefault(minimumImprovement, 0.15));
  }

  lemma LastIsNonNegative(p: Prepared)
    requires p.series != [] && NonNegativeDemand(Values(p.series))
    ensures p.series[|p.series| - 1].value >= 0.0
  {
    assert Values(p.series)[|p.series| - 1] == p.series[|p.series| - 1].value;
  }

  lemma ImprovementIff(error: real, improvement: real)
    requires error > 0.0
    ensures 0.0 <= error * (1.0 - improvement) <==> improvement <= 1.0
  {
    if improvement <= 1.0 {
      NonNegativeProduct(error, 1.0 - improvement);
    } else {
      PositiveProduct(error, improvement - 1.0);
      assert error * (1.0 - improvement) == -(error * (improvement - 1.0));
    }
  }

  /** The points carry, in order, the samples after the series of every non-negative longer line. */
  ghost predicate ForetellsLine(points: seq<Point>, series: seq<Point>, b: real) {
    forall y :: |series| <= |y| && Values(series) == y[..|series|] && Linear(y, b) && NonNegativeDemand(y)
                ==> Foretells(points, y, |series|)
  }

  lemma LineGoesOn(series: seq<Point>, y: seq<real>, b: real, i: nat)
    requires series != [] && |series| + i < |y| && Values(series) == y[..|series|]
    requires Linear(y, b) && NonNegativeDemand(y)
    ensures ClipZero(Extrapolate(series[|series| - 1].value, b, i + 1)) == y[|series| + i]
  {
    var n := |series|;
    assert Values(series)[n - 1] == series[n - 1].value;
    LinearGrowth(y, b, n - 1, i + 1);
  }

  lemma HoltForetellsLine(p: Prepared, b: real, w: Params)
    requires Shaped(p) && p.seasonPoints == 1 && RequiredSamples(p) <= |p.series|
    requires Linear(Values(p.series), b) && NonNegativeDemand(Values(p.series))
    ensures ForetellsLine(HoltResult(p, w).points, p.series, b)
  {
    hide HoltResult, Linear, NonNegativeDemand, Values, ClipZero, Extrapolate;
    HoltOnLine(p, b, w);
    var points, n := HoltResult(p, w).points, |p.series|;
    forall y, i | n <= |y| && Values(p.series) == y[..n] && Linear(y, b) && NonNegativeDemand(y)
                  && 0 <= i < |points| && n + i < |y|
      ensures points[i].value == y[n + i]
    {
      LineGoesOn(p.series, y, b, i);
    }
  }

  /**
   * On every accepted input whose demand is a line that is not flat, with no season, the automatic
   * model succeeds, and it selects Holt-Winters exactly when seasonal naive is not usable or the two
   * disagree by no more than the threshold at the last point; then with confidence 1 and exact points.
   */
  lemma AutoOnLinearDemand(m: HoltWintersModel, divergenceThreshold: real, minimumImprovement: real, input: Input,
                           r: Result<Selection, Error>, b: real)
    requires IsSelection(m, divergenceThreshold, minimumImprovement, input, r) && Prepare(input).Ok?
    requires Prepare(input).value.seasonPoints == 1 && RequiredSamples(Prepare(input).value) <= |input.series|
    requires Linear(Values(input.series), b) && b != 0.0
    ensures r.Ok? && input.series != [] && Prepare(input).value.horizonPoints >= 1
    ensures !r.value.usesNaive <==>
            || !NaiveUsable(input)
            || (LinearGap(input.series[|input.series| - 1].value, b, Prepare(input).value.horizonPoints)
                <= OrDefault(divergenceThreshold, 0.35) && OrDefault(minimumImprovement, 0.15) <= 1.0)
    ensures !r.value.usesNaive ==> r.value.result.confidence == 1.0 && ForetellsLine(r.value.result.points, input.series, b)
  {
    hide Prepare, NaiveResult, HoltResult, Choose, Linear, Fitted, NonNegativeDemand, ForetellsLine, LinearGap;
    PreparedShape(input);
    DemandIsNonNegative(input);
    var naive, holt :| IsNaiveOutcome(input, naive) && IsHoltOutcome(m, input, holt)
                       && r == Choose(naive, holt, divergenceThreshold, minimumImprovement);
    var p := Prepare(input).value;
    var w :| Fitted(m, p, w) && holt.value == HoltResult(p, w);
    LinearDemandSelects(p, b, naive, w, divergenceThreshold, minimumImprovement);
    HoltOnLine(p, b, w);
    HoltForetellsLine(p, b, w);
  }
}
