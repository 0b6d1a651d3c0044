/** Seasonal naive forecasting: repeat the last observed season. */
module SeasonalNaive {
  import opened Core
  import opened Points
  import opened Forecasting

  /** The value `i` places into the horizon: the same place in the last observed season. */
  function NaiveValue(x: seq<real>, season: nat, i: nat): real
    requires 1 <= season <= |x|
  {
    x[|x| - season + i % season]
  }

  function NaiveForecast(x: seq<real>, season: nat, horizon: nat): seq<real>
    requires 1 <= season <= |x|
  {
    seq(horizon, i requires 0 <= i < horizon => NaiveValue(x, season, i))
  }

  method SeasonalNaiveValues(series: seq<Point>, season: nat, horizon: nat) returns (out: seq<real>)
    requires 1 <= season <= |series|
    ensures out == NaiveForecast(Values(series), season, horizon)
  {
    out := [];
    var start := |series| - season;
    for i := 0 to horizon
      invariant out == NaiveForecast(Values(series), season, horizon)[..i]
    {
      assert 0 <= i % season < season;
      out := out + [series[start + i % season].value];
    }
  }

  /** The result for a prepared input, before advisories. */
  function NaiveResult(p: Prepared): ForecastResult
    requires p.horizonPoints >= 1 && 1 <= p.seasonPoints && p.seasonPoints + p.horizonPoints <= |p.series|
  {
    var x := Values(p.series);
    var split := |x| - p.horizonPoints;
    Assembled(p, NaiveForecast(x, p.seasonPoints, p.horizonPoints),
              ValidationOf(x[split..], NaiveForecast(x[..split], p.seasonPoints, p.horizonPoints)), 2)
  }

  /** A season before the holdout. */
  predicate Enough(p: Prepared) { p.seasonPoints + p.horizonPoints <= |p.series| }

  /** The last horizon's worth of samples, predicted from the samples before them. */
  method Backtest(p: Prepared) returns (v: Validation)
    requires p.horizonPoints >= 1 && p.seasonPoints >= 1 && Enough(p)
    ensures var x := Values(p.series);
            var split := |x| - p.horizonPoints;
            v == ValidationOf(x[split..], NaiveForecast(x[..split], p.seasonPoints, p.horizonPoints))
  {
    hide ValidationOf, NaiveForecast, Values;
    var holdoutStart := |p.series| - p.horizonPoints;
    ValuesSlice(p.series, holdoutStart);
    var predicted := SeasonalNaiveValues(p.series[..holdoutStart], p.seasonPoints, p.horizonPoints);
    v := EvaluateForecast(Values(p.series[holdoutStart..]), predicted);
  }

  method Forecast(input: Input) returns (r: Result<ForecastResult, Error>)
    ensures r.Ok? <==> Prepare(input).Ok? && Enough(Prepare(input).value)
    ensures r.Ok? ==> r.value == NaiveResult(Prepare(input).value)
  {
    hide Prepare, ValidationOf, NaiveForecast, Assembled, Values;
    var prepared := Prepare(input);
    if prepared.Err? {
      return Err(prepared.error);
    }
    var p := prepared.value;
    PreparedShape(input);
    if |p.series| < p.seasonPoints + p.horizonPoints {
      return Err(InsufficientData);
    }
    var forecastValues := SeasonalNaiveValues(p.series, p.seasonPoints, p.horizonPoints);
    var validation := Backtest(p);
    var result := Assemble(p, forecastValues, validation, 2);
    return Ok(result);
  }

  /** By how much sample `i` of the holdout is missed by the sample of its place in the season before the holdout. */
  function PlaceMiss(x: seq<real>, split: nat, season: nat, i: nat): real
    requires 1 <= season <= split && split + i < |x|
  {
    ModUnique(i, season, i / season, i % season);
    AbsReal(x[split + i] - x[split - season + i % season])
  }

  /** The total miss over the first `n` samples of the holdout. */
  function HoldoutMiss(x: seq<real>, split: nat, season: nat, n: nat): real
    requires 1 <= season <= split && split + n <= |x|
  {
    if n == 0 then 0.0 else HoldoutMiss(x, split, season, n - 1) + PlaceMiss(x, split, season, n - 1)
  }

  lemma {:induction false} MissIsError(x: seq<real>, split: nat, season: nat, horizon: nat, n: nat)
    requires 1 <= season <= split && split + horizon <= |x| && n <= horizon
    ensures |NaiveForecast(x[..split], season, horizon)| == horizon
    ensures SumAbsError(x[split..split + horizon], NaiveForecast(x[..split], season, horizon), n) ==
            HoldoutMiss(x, split, season, n)
  {
    hide NaiveForecast, PlaceMiss;
    ForecastLength(x[..split], season, horizon);
    if n > 0 {
      MissIsError(x, split, season, horizon, n - 1);
      PlaceMissIsError(x, split, season, horizon, n - 1);
    }
  }

  lemma PlaceMissIsError(x: seq<real>, split: nat, season: nat, horizon: nat, i: nat)
    requires 1 <= season <= split && split + horizon <= |x| && i < horizon
    ensures |NaiveForecast(x[..split], season, horizon)| == horizon
    ensures AbsReal(x[split..split + horizon][i] - NaiveForecast(x[..split], season, horizon)[i]) ==
            PlaceMiss(x, split, season, i)
  {
    ModUnique(i, season, i / season, i % season);
  }

  /** The backtest judges the holdout from the samples before it. */
  lemma NaiveBacktestMeaning(p: Prepared)
    requires p.horizonPoints >= 1 && p.seasonPoints >= 1 && Enough(p)
    ensures var v, n, h := NaiveResult(p).validation, |p.series|, p.horizonPoints;
            && v.holdoutPoints == h && |Values(p.series)| == n
            && v.meanAbsoluteErr * h as real == HoldoutMiss(Values(p.series), n - h, p.seasonPoints, h)
  {
    hide ValidationOf, HoldoutMiss, SumAbsError, ConfidenceFrom, DeriveReliability, NaiveForecast, ForecastPoints, Values;
    ValuesSlice(p.series, 0);
    var x := Values(p.series);
    var split := |x| - p.horizonPoints;
    MissIsError(x, split, p.seasonPoints, p.horizonPoints, p.horizonPoints);
    assert x[split..split + p.horizonPoints] == x[split..];
    ForecastLength(x[..split], p.seasonPoints, p.horizonPoints);
    HoldoutFigures(x[split..], NaiveForecast(x[..split], p.seasonPoints, p.horizonPoints));
  }

  lemma ForecastLength(x: seq<real>, season: nat, horizon: nat)
    requires 1 <= season <= |x|
    ensures |NaiveForecast(x, season, horizon)| == horizon
  {
  }

  /** The forecast repeats the last season of all samples, one point per step after the time it was made. */
  lemma NaivePointsMeaning(p: Prepared, i: nat)
    requires p.horizonPoints >= 1 && p.seasonPoints >= 1 && Enough(p) && i < p.horizonPoints
    ensures 0 <= i % p.seasonPoints < p.seasonPoints
    ensures var points, n := NaiveResult(p).points, |p.series|;
            && |points| == p.horizonPoints && points[i].at == p.generatedAt + p.step * (i + 1)
            && points[i].value == p.series[n - p.seasonPoints + i % p.seasonPoints].value
  {
    hide ValidationOf, ConfidenceFrom, DeriveReliability;
    ModUnique(i, p.seasonPoints, i / p.seasonPoints, i % p.seasonPoints);
  }

  // ---- periodic demand ----

  /** The series repeats exactly every `p` samples. */
  predicate Periodic(x: seq<real>, p: nat) {
    forall i :: 0 <= i < |x| - p ==> x[i + p] == x[i]
  }

  /**
   * On demand that repeats with the forecast's season, the forecast is the true continuation:
   * whatever longer series `y` continues `x` with the same period.
   */
  lemma {:induction false} NaiveIsContinuation(y: seq<real>, n: nat, p: nat, i: nat)
    requires 1 <= p <= n && n + i < |y| && Periodic(y, p)
    ensures y[n + i] == NaiveValue(y[..n], p, i)
    decreases i
  {
    if i < p {
      ModUnique(i, p, 0, i);
      assert y[n - p + i + p] == y[n - p + i];
    } else {
      NaiveIsContinuation(y, n, p, i - p);
      ModShift(i - p, p);
      assert y[n + i - p + p] == y[n + i - p];
    }
  }

  lemma ModShift(a: nat, p: nat)
    requires p > 0
    ensures (a + p) % p == a % p
  {
    var q := a / p;
    assert a == q * p + a % p;
    ModUnique(a + p, p, q + 1, a % p);
  }

  lemma ModUnique(a: int, p: int, q: int, r: nat)
    requires r < p && a == q * p + r
    ensures a % p == r && a / p == q
  {
    var d := a / p - q;
    assert a == (a / p) * p + a % p;
    Distribute(a / p - q, q, p);
    SmallMultiple(d, p, r - a % p);
  }

  lemma SmallMultiple(d: int, p: int, x: int)
    requires d * p == x && -p < x < p
    ensures d == 0
  {
    assert d >= 1 ==> d * p >= p;
    assert d <= -1 ==> d * p <= -p;
  }

  /** On periodic demand with one season to spare the backtest is exact: confidence 1 and no error. */
  lemma NaiveOnPeriodicDemand(p: Prepared)
    requires p.horizonPoints >= 1 && 1 <= p.seasonPoints && p.seasonPoints + p.horizonPoints <= |p.series|
    requires Periodic(Values(p.series), p.seasonPoints)
    ensures var r := NaiveResult(p);
            && r.confidence == 1.0 && r.validation.meanAbsoluteErr == 0.0
            && r.reliability != Unsupported && r.points != []
  {
    var x := Values(p.series);
    var split := |x| - p.horizonPoints;
    var predicted := NaiveForecast(x[..split], p.seasonPoints, p.horizonPoints);
    forall i | 0 <= i < p.horizonPoints
      ensures predicted[i] == x[split..][i]
    {
      NaiveIsContinuation(x, split, p.seasonPoints, i);
    }
    assert predicted == x[split..];
    ExactHoldout(x[split..]);
  }
}
