/** Demand on which exponential smoothing is exact, whatever its parameters. */
module ExactDemand {
  import opened SeasonalNaive
  import opened HoltWinters

  lemma BlendSame(weight: real, v: real)
    ensures Blend(weight, v, v) == v
  {
  }

  // ---- periodic demand ----

  lemma FirstSeasonsAgree(x: seq<real>, p: nat)
    requires 1 <= p && 2 * p <= |x| && Periodic(x, p)
    ensures Average(x[p..2 * p]) == Average(x[..p])
  {
    assert forall i :: 0 <= i < p ==> x[p..2 * p][i] == x[i + p] == x[i];
    assert x[p..2 * p] == x[..p];
  }

  /**
   * On demand with period `p` the smoothing state never moves: the level stays the seasonal mean,
   * the trend zero, and every seasonal component the sample's distance from the mean.
   */
  lemma {:induction false} PeriodicFixedPoint(x: seq<real>, p: nat, w: Params, t: nat)
    requires 1 <= p && 2 * p <= |x| && Periodic(x, p) && p <= t <= |x|
    ensures Level(x, p, w, t) == Average(x[..p]) && Trend(x, p, w, t) == 0.0
    ensures forall i :: 0 <= i < t ==> Season(x, p, w, i) == x[i] - Average(x[..p])
    decreases t
  {
    hide Blend, Average;
    var mean := Average(x[..p]);
    if t == p {
      FirstSeasonsAgree(x, p);
    } else {
      PeriodicFixedPoint(x, p, w, t - 1);
      assert x[t - 1 - p + p] == x[t - 1 - p];
      BlendSame(w.alpha, mean);
      BlendSame(w.beta, 0.0);
      BlendSame(w.gamma, x[t - 1] - mean);
    }
  }

  predicate NonNegativeDemand(x: seq<real>) { forall i :: 0 <= i < |x| ==> x[i] >= 0.0 }

  // ---- linear demand ----

  /** The series grows by `b` from each sample to the next. */
  predicate Linear(x: seq<real>, b: real) {
    forall i :: 0 <= i < |x| - 1 ==> x[i + 1] == x[i] + b
  }

  /** On linear demand the level is always the last sample and the trend the slope. */
  lemma {:induction false} LinearIsReproduced(x: seq<real>, b: real, w: Params, i: nat)
    requires 2 <= |x| && i < |x| && Linear(x, b)
    ensures LinearLevel(x, w, i) == x[i] && LinearTrend(x, w, i) == b
  {
    hide Blend;
    if i == 0 {
      assert x[0 + 1] == x[0] + b;
    } else {
      LinearIsReproduced(x, b, w, i - 1);
      assert x[i - 1 + 1] == x[i - 1] + b;
      BlendSame(w.alpha, x[i]);
      BlendSame(w.beta, b);
    }
  }

  lemma {:induction false} LinearGrowth(y: seq<real>, b: real, n: nat, h: nat)
    requires n + h < |y| && Linear(y, b)
    ensures y[n + h] == Extrapolate(y[n], b, h)
  {
    if h > 0 {
      LinearGrowth(y, b, n, h - 1);
      assert y[n + h - 1 + 1] == y[n + h - 1] + b;
    }
  }

  /**
   * On linear demand the forecast is the exact extrapolation clipped at zero: it is what any
   * longer series `y` on the same line goes on to do, as long as that stays non-negative.
   */
  lemma LinearForecastIsExact(y: seq<real>, b: real, n: nat, w: Params, h: nat)
    requires 2 <= n && 1 <= h && n - 1 + h < |y| && Linear(y, b)
    ensures LinearForecastValue(y[..n], w, h) == ClipZero(y[n - 1 + h])
  {
    LinearIsReproduced(y[..n], b, w, n - 1);
    LinearGrowth(y, b, n - 1, h);
  }

  // ---- both methods on periodic demand ----

  lemma ConstantForecast(x: seq<real>, w: Params, h: nat)
    requires 2 <= |x| && Periodic(x, 1) && NonNegativeDemand(x)
    ensures LinearForecastValue(x, w, h) == x[|x| - 1]
  {
    LinearIsReproduced(x, 0.0, w, |x| - 1);
  }

  lemma SeasonalForecastOnPeriodic(x: seq<real>, p: nat, w: Params, h: nat)
    requires 1 <= p && 2 * p <= |x| && Periodic(x, p) && NonNegativeDemand(x) && h >= 1
    ensures SeasonalForecastValue(x, p, w, h) == NaiveValue(x, p, h - 1)
  {
    PeriodicFixedPoint(x, p, w, |x|);
    ModBound(h - 1, p);
    hide Level, Trend, Season, Average;
    assert Extrapolate(Level(x, p, w, |x|), 0.0, h) == Level(x, p, w, |x|);
  }

  /** For every parameter choice Holt-Winters forecasts periodic demand exactly as seasonal naive does. */
  lemma HoltWintersEqualsNaive(x: seq<real>, p: nat, horizon: nat, w: Params)
    requires Usable(x, p, horizon) && p <= |x| && Periodic(x, p) && NonNegativeDemand(x)
    ensures ForecastValues(x, p, horizon, w) == NaiveForecast(x, p, horizon)
  {
    forall i | 0 <= i < horizon
      ensures ForecastValues(x, p, horizon, w)[i] == NaiveForecast(x, p, horizon)[i]
    {
      if p == 1 {
        ModUnique(i, 1, i, 0);
        ConstantForecast(x, w, i + 1);
      } else {
        SeasonalForecastOnPeriodic(x, p, w, i + 1);
      }
    }
  }
}
