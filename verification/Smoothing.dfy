/**
 * What exponential smoothing does with one sample: the state moves by fixed shares of the error of
 * the one-step forecast, so the forecast responds to the newest sample in those shares.
 */
module Smoothing {
  import opened Core
  import opened Forecasting
  import opened SeasonalNaive
  import opened HoltWinters

  /** A share of an amount. */
  function Part(share: real, amount: real): real { share * amount }

  /** A blend starts from what was carried and goes a share of the way to what was observed. */
  lemma BlendCorrects(weight: real, observed: real, carried: real, way: real)
    requires way == observed - carried
    ensures Blend(weight, observed, carried) == carried + Part(weight, way)
  {
  }

  /** The share of a one-step error that the trend takes. */
  function TrendShare(w: Params): real { w.alpha * w.beta }

  /** The share that the season takes of what the level leaves over. */
  function SeasonShare(w: Params): real { w.gamma * (1.0 - w.alpha) }

  /** Of the error one part reaches the level and the rest is left. */
  lemma Shares(w: Params, e: real, part: real, left: real)
    requires part == Part(w.alpha, e) && left == e - part
    ensures Part(w.beta, part) == Part(TrendShare(w), e)
    ensures Part(w.gamma, left) == Part(SeasonShare(w), e)
  {
    assert left == (1.0 - w.alpha) * e;
  }

  /** One smoothing step in terms of the one-step error `e`. */
  lemma StepCorrects(w: Params, observed: real, level: real, trend: real, season: real, e: real)
    requires e == observed - (level + trend + season)
    ensures var next := Blend(w.alpha, observed - season, level + trend);
            && next == level + trend + Part(w.alpha, e)
            && Blend(w.beta, next - level, trend) == trend + Part(TrendShare(w), e)
            && Blend(w.gamma, observed - next, season) == season + Part(SeasonShare(w), e)
  {
    hide Blend, TrendShare, SeasonShare, Part;
    var part := Part(w.alpha, e);
    var left := e - part;
    Shares(w, e, part, left);
    var next := Blend(w.alpha, observed - season, level + trend);
    BlendCorrects(w.alpha, observed - season, level + trend, e);
    BlendCorrects(w.beta, next - level, trend, part);
    BlendCorrects(w.gamma, observed - next, season, left);
  }

  // ---- Holt's linear method ----

  /** The level takes the share alpha of the one-step error, the trend the share alpha times beta. */
  lemma LinearErrorCorrection(x: seq<real>, w: Params, i: nat, e: real)
    requires 1 <= i < |x| && e == x[i] - (LinearLevel(x, w, i - 1) + LinearTrend(x, w, i - 1))
    ensures LinearLevel(x, w, i) == LinearLevel(x, w, i - 1) + LinearTrend(x, w, i - 1) + Part(w.alpha, e)
    ensures LinearTrend(x, w, i) == LinearTrend(x, w, i - 1) + Part(TrendShare(w), e)
  {
    hide Blend, TrendShare, SeasonShare, Part;
    StepCorrects(w, x[i], LinearLevel(x, w, i - 1), LinearTrend(x, w, i - 1), 0.0, e);
    assert x[i] - 0.0 == x[i];
  }

  lemma {:induction false} LinearPrefix(x: seq<real>, y: seq<real>, w: Params, i: nat)
    requires 2 <= |x| && 2 <= |y| && i < |x| && i < |y| && x[..2] == y[..2] && x[..i + 1] == y[..i + 1]
    ensures LinearLevel(x, w, i) == LinearLevel(y, w, i) && LinearTrend(x, w, i) == LinearTrend(y, w, i)
  {
    hide Blend;
    assert x[i] == x[..i + 1][i] == y[i];
    if i == 0 {
      assert x[1] == x[..2][1] == y[1];
    } else {
      assert x[..i] == x[..i + 1][..i];
      LinearPrefix(x, y, w, i - 1);
    }
  }

  // ---- the seasonal method ----

  /**
   * The level takes the share alpha of the one-step error, the trend alpha times beta, and the season
   * of the sample's place gamma times what the level left over.
   */
  lemma SeasonalErrorCorrection(x: seq<real>, p: nat, w: Params, t: nat, e: real)
    requires 1 <= p && 2 * p <= |x| && p <= t < |x|
    requires e == x[t] - (Level(x, p, w, t) + Trend(x, p, w, t) + Season(x, p, w, t - p))
    ensures Level(x, p, w, t + 1) == Level(x, p, w, t) + Trend(x, p, w, t) + Part(w.alpha, e)
    ensures Trend(x, p, w, t + 1) == Trend(x, p, w, t) + Part(TrendShare(w), e)
    ensures Season(x, p, w, t) == Season(x, p, w, t - p) + Part(SeasonShare(w), e)
  {
    hide Blend, Average, TrendShare, SeasonShare, Part, Level, Trend, Season;
    SeasonalStep(x, p, w, t);
    StepCorrects(w, x[t], Level(x, p, w, t), Trend(x, p, w, t), Season(x, p, w, t - p), e);
  }

  /** The recurrences of one sample. */
  lemma SeasonalStep(x: seq<real>, p: nat, w: Params, t: nat)
    requires 1 <= p && 2 * p <= |x| && p <= t < |x|
    ensures Level(x, p, w, t + 1) ==
            Blend(w.alpha, x[t] - Season(x, p, w, t - p), Level(x, p, w, t) + Trend(x, p, w, t))
    ensures Trend(x, p, w, t + 1) ==
            Blend(w.beta, Level(x, p, w, t + 1) - Level(x, p, w, t), Trend(x, p, w, t))
    ensures Season(x, p, w, t) == Blend(w.gamma, x[t] - Level(x, p, w, t + 1), Season(x, p, w, t - p))
  {
    hide Blend, Average;
    assert t + 1 - 1 == t;
  }

  lemma {:induction false} SeasonalPrefix(x: seq<real>, y: seq<real>, p: nat, w: Params, t: nat)
    requires 1 <= p && 2 * p <= |x| && |x| == |y| && p <= t <= |x|
    requires x[..2 * p] == y[..2 * p] && x[..t] == y[..t]
    ensures Level(x, p, w, t) == Level(y, p, w, t) && Trend(x, p, w, t) == Trend(y, p, w, t)
    ensures forall i :: 0 <= i < t ==> Season(x, p, w, i) == Season(y, p, w, i)
    decreases t
  {
    if t == p {
      SeasonalStart(x, y, p, w);
    } else {
      hide Level, Trend, Season, Blend;
      assert x[..t - 1] == x[..t][..t - 1];
      assert x[t - 1] == x[..t][t - 1] == y[t - 1];
      SeasonalPrefix(x, y, p, w, t - 1);
      SeasonalStep(x, p, w, t - 1);
      SeasonalStep(y, p, w, t - 1);
    }
  }

  lemma SeasonalStart(x: seq<real>, y: seq<real>, p: nat, w: Params)
    requires 1 <= p && 2 * p <= |x| && |x| == |y| && x[..2 * p] == y[..2 * p]
    ensures Level(x, p, w, p) == Level(y, p, w, p) && Trend(x, p, w, p) == Trend(y, p, w, p)
    ensures forall i :: 0 <= i < p ==> Season(x, p, w, i) == Season(y, p, w, i)
  {
    hide Blend, Average;
    assert x[..p] == x[..2 * p][..p] == y[..p];
    assert x[p..2 * p] == x[..2 * p][p..] == y[p..2 * p];
    assert forall i :: 0 <= i < p ==> x[i] == x[..p][i] == y[i];
  }

  // ---- the response of the forecast ----

  /** The season's part: only forecasts a whole number of seasons ahead use the newest sample's place. */
  function SeasonPart(p: nat, w: Params, h: nat): real
    requires 1 <= p && h >= 1
  {
    if p > 1 && (h - 1) % p == p - 1 then SeasonShare(w) else 0.0
  }

  /** The share of a change of the newest sample that reaches the forecast `h` steps ahead. */
  function Response(p: nat, w: Params, h: nat): real
    requires 1 <= p && h >= 1
  {
    StateShare(w, h) + SeasonPart(p, w, h)
  }

  /** The level's part and `h` times the trend's. */
  function StateShare(w: Params, h: nat): real { w.alpha + h as real * TrendShare(w) }

  lemma SharesDiffer(share: real, d: real, e: real, delta: real)
    requires e - d == delta
    ensures Part(share, e) - Part(share, d) == Part(share, delta)
  {
  }

  lemma LinearStateResponds(x: seq<real>, y: seq<real>, w: Params, delta: real)
    requires |x| >= 3 && |x| == |y| && x[..|x| - 1] == y[..|x| - 1] && y[|x| - 1] - x[|x| - 1] == delta
    ensures LinearLevel(y, w, |x| - 1) - LinearLevel(x, w, |x| - 1) == Part(w.alpha, delta)
    ensures LinearTrend(y, w, |x| - 1) - LinearTrend(x, w, |x| - 1) == Part(TrendShare(w), delta)
  {
    hide LinearLevel, LinearTrend, TrendShare, SeasonShare, Part;
    var n := |x| - 1;
    assert x[..2] == x[..n][..2] == y[..n][..2] == y[..2];
    LinearPrefix(x, y, w, n - 1);
    var predicted := LinearLevel(x, w, n - 1) + LinearTrend(x, w, n - 1);
    var d, e := x[n] - predicted, y[n] - predicted;
    LinearErrorCorrection(x, w, n, d);
    LinearErrorCorrection(y, w, n, e);
    SharesDiffer(w.alpha, d, e, delta);
    SharesDiffer(TrendShare(w), d, e, delta);
  }

  lemma SeasonalStateResponds(x: seq<real>, y: seq<real>, p: nat, w: Params, delta: real)
    requires 1 <= p && 2 * p < |x| && |x| == |y| && x[..|x| - 1] == y[..|x| - 1] && y[|x| - 1] - x[|x| - 1] == delta
    ensures Level(y, p, w, |x|) - Level(x, p, w, |x|) == Part(w.alpha, delta)
    ensures Trend(y, p, w, |x|) - Trend(x, p, w, |x|) == Part(TrendShare(w), delta)
    ensures Season(y, p, w, |x| - 1) - Season(x, p, w, |x| - 1) == Part(SeasonShare(w), delta)
    ensures forall i :: 0 <= i < |x| - 1 ==> Season(y, p, w, i) == Season(x, p, w, i)
  {
    hide Level, Trend, Season, TrendShare, SeasonShare, Part;
    var n := |x| - 1;
    assert x[..2 * p] == x[..n][..2 * p] == y[..n][..2 * p] == y[..2 * p];
    SeasonalPrefix(x, y, p, w, n);
    var predicted := Level(x, p, w, n) + Trend(x, p, w, n) + Season(x, p, w, n - p);
    var d, e := x[n] - predicted, y[n] - predicted;
    SeasonalErrorCorrection(x, p, w, n, d);
    SeasonalErrorCorrection(y, p, w, n, e);
    SharesDiffer(w.alpha, d, e, delta);
    SharesDiffer(TrendShare(w), d, e, delta);
    SharesDiffer(SeasonShare(w), d, e, delta);
  }

  lemma ExtrapolationsDiffer(w: Params, l: real, m: real, t: real, u: real, delta: real, h: nat)
    requires m - l == Part(w.alpha, delta) && u - t == Part(TrendShare(w), delta)
    ensures Extrapolate(m, u, h) - Extrapolate(l, t, h) == Part(StateShare(w, h), delta)
  {
    hide TrendShare;
    var more := TrendShare(w);
    DistributeReal(u - t, t, h as real);
    assert h as real * (more * delta) == (h as real * more) * delta;
    DistributeReal(w.alpha, h as real * more, delta);
  }

  /**
   * For two series that differ by `delta` in the last sample and nowhere else, every forecast value
   * that is not clipped differs by that share of `delta`.
   */
  lemma ForecastResponds(x: seq<real>, y: seq<real>, p: nat, horizon: nat, w: Params, h: nat, delta: real)
    requires 1 <= h <= horizon && p >= 1 && |x| == |y| && (if p == 1 then |x| >= 3 else 2 * p < |x|)
    requires x[..|x| - 1] == y[..|x| - 1] && y[|x| - 1] - x[|x| - 1] == delta
    ensures Usable(x, p, horizon) && Usable(y, p, horizon)
    ensures var u, v := ForecastValues(x, p, horizon, w)[h - 1], ForecastValues(y, p, horizon, w)[h - 1];
            u > 0.0 && v > 0.0 ==> v - u == Part(Response(p, w, h), delta)
  {
    hide LinearLevel, LinearTrend, Extrapolate, Level, Trend, Season, Response, Part;
    if p == 1 {
      LinearValueResponds(x, y, w, h, delta);
    } else {
      SeasonalValueResponds(x, y, p, w, h, delta);
    }
  }

  lemma LinearValueResponds(x: seq<real>, y: seq<real>, w: Params, h: nat, delta: real)
    requires h >= 1 && |x| >= 3 && |x| == |y| && x[..|x| - 1] == y[..|x| - 1] && y[|x| - 1] - x[|x| - 1] == delta
    ensures var u, v := LinearForecastValue(x, w, h), LinearForecastValue(y, w, h);
            u > 0.0 && v > 0.0 ==> v - u == Part(Response(1, w, h), delta)
  {
    hide LinearLevel, LinearTrend, Extrapolate, TrendShare, SeasonShare, StateShare, SeasonPart, Response, Part;
    var n := |x| - 1;
    LinearStateResponds(x, y, w, delta);
    ExtrapolationsDiffer(w, LinearLevel(x, w, n), LinearLevel(y, w, n), LinearTrend(x, w, n), LinearTrend(y, w, n), delta, h);
    ResponseSplits(1, w, h, delta);
  }

  lemma SeasonalValueResponds(x: seq<real>, y: seq<real>, p: nat, w: Params, h: nat, delta: real)
    requires h >= 1 && 2 <= p && 2 * p < |x| && |x| == |y| && x[..|x| - 1] == y[..|x| - 1] && y[|x| - 1] - x[|x| - 1] == delta
    ensures var u, v := SeasonalForecastValue(x, p, w, h), SeasonalForecastValue(y, p, w, h);
            u > 0.0 && v > 0.0 ==> v - u == Part(Response(p, w, h), delta)
  {
    hide Level, Trend, Season, Extrapolate, Response, TrendShare, SeasonShare, StateShare, SeasonPart, Part;
    SeasonalStateResponds(x, y, p, w, delta);
    ExtrapolationsDiffer(w, Level(x, p, w, |x|), Level(y, p, w, |x|), Trend(x, p, w, |x|), Trend(y, p, w, |x|), delta, h);
    ModBound(h - 1, p);
    SeasonPartTimes(p, w, h, delta);
    ResponseSplits(p, w, h, delta);
  }

  lemma SeasonPartTimes(p: nat, w: Params, h: nat, delta: real)
    requires p >= 2 && h >= 1
    ensures Part(SeasonPart(p, w, h), delta) == if (h - 1) % p == p - 1 then Part(SeasonShare(w), delta) else 0.0
  {
    hide SeasonShare;
  }

  lemma ResponseSplits(p: nat, w: Params, h: nat, delta: real)
    requires p >= 1 && h >= 1
    ensures Part(Response(p, w, h), delta) == Part(StateShare(w, h), delta) + Part(SeasonPart(p, w, h), delta)
    ensures p == 1 ==> Part(SeasonPart(p, w, h), delta) == 0.0
  {
    hide StateShare, SeasonShare;
    DistributeReal(StateShare(w, h), SeasonPart(p, w, h), delta);
  }

  // ---- where the seasonal method starts ----

  lemma {:induction false} SumOfShifted(x: seq<real>, y: seq<real>, b: real)
    requires |x| == |y| && forall i :: 0 <= i < |x| ==> y[i] == x[i] + b
    ensures Sum(y) == Sum(x) + |x| as real * b
  {
    if x != [] {
      var n := |x| - 1;
      SumOfShifted(x[..n], y[..n], b);
      DistributeReal(n as real, 1.0, b);
    }
  }

  /** The average is the value that the samples balance around. */
  lemma AverageBalances(x: seq<real>)
    requires x != []
    ensures Sum(seq(|x|, i requires 0 <= i < |x| => x[i] - Average(x))) == 0.0
  {
    SumOfShifted(x, seq(|x|, i requires 0 <= i < |x| => x[i] - Average(x)), -Average(x));
    AverageTimes(x);
  }

  /** When the second season lies a slope per sample above the first, the first trend is that slope. */
  lemma FirstTrendIsSlope(x: seq<real>, p: nat, w: Params, b: real)
    requires 1 <= p && 2 * p <= |x| && forall i :: 0 <= i < p ==> x[i + p] == x[i] + p as real * b
    ensures Trend(x, p, w, p) == b
  {
    hide Sum, Average, Trend;
    SeasonsApart(x, p, p as real * b);
    AverageTimes(x[..p]);
    AverageTimes(x[p..2 * p]);
    FirstTrend(x, p, w);
    SlopeOfSums(Average(x[..p]), Average(x[p..2 * p]), p as real, b);
  }

  lemma SeasonsApart(x: seq<real>, p: nat, rise: real)
    requires 1 <= p && 2 * p <= |x| && forall i :: 0 <= i < p ==> x[i + p] == x[i] + rise
    ensures Sum(x[p..2 * p]) == Sum(x[..p]) + p as real * rise
  {
    hide Sum;
    var first, second := x[..p], x[p..2 * p];
    assert forall i :: 0 <= i < p ==> second[i] == x[i + p] && first[i] == x[i];
    SumOfShifted(first, second, rise);
  }

  lemma FirstTrend(x: seq<real>, p: nat, w: Params)
    requires 1 <= p && 2 * p <= |x|
    ensures Trend(x, p, w, p) == (Average(x[p..2 * p]) - Average(x[..p])) / p as real
  {
    hide Average;
  }

  lemma AverageTimes(x: seq<real>)
    requires x != []
    ensures |x| as real * Average(x) == Sum(x)
  {
    hide Sum;
  }

  lemma SlopeOfSums(u: real, v: real, p: real, b: real)
    requires p > 0.0 && p * v == p * u + p * (p * b)
    ensures (v - u) / p == b
  {
    assert p * (v - u - p * b) == 0.0;
    assert v - u == b * p;
    QuotientOf(b, p);
  }

  lemma QuotientOf(a: real, q: real)
    requires q != 0.0
    ensures (a * q) / q == a
  {
  }
}
