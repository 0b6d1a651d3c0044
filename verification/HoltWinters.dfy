/**
 * Additive Holt-Winters. The textbook recurrences index every season separately; the forecaster
 * overwrites one slot per season position. The loop is proved to compute the recurrences.
 */
module HoltWinters {
  import opened Core
  import opened Forecasting
  import opened SeasonalNaive

  datatype Params = Params(alpha: real, beta: real, gamma: real)

  function Average(x: seq<real>): real {
    if x == [] then 0.0 else Sum(x) / |x| as real
  }

  method AverageOf(x: seq<real>) returns (a: real)
    ensures a == Average(x)
  {
    if |x| == 0 {
      return 0.0;
    }
    var sum := 0.0;
    for i := 0 to |x|
      invariant sum == Sum(x[..i])
    {
      assert x[..i + 1][..i] == x[..i];
      sum := sum + x[i];
    }
    assert x[..|x|] == x;
    return sum / |x| as real;
  }

  /** One exponential smoothing step. */
  function Blend(weight: real, observed: real, carried: real): real { weight * observed + (1.0 - weight) * carried }

  function Extrapolate(level: real, trend: real, h: int): real { level + h as real * trend }

  // ---- the textbook recurrences ----

  /** Level after the first `t` samples. */
  function Level(x: seq<real>, p: nat, w: Params, t: nat): real
    requires 1 <= p && 2 * p <= |x| && p <= t <= |x|
    decreases t, 0
  {
    if t == p then Average(x[..p])
    else Blend(w.alpha, x[t - 1] - Season(x, p, w, t - 1 - p), Level(x, p, w, t - 1) + Trend(x, p, w, t - 1))
  }

  /** Trend after the first `t` samples. */
  function Trend(x: seq<real>, p: nat, w: Params, t: nat): real
    requires 1 <= p && 2 * p <= |x| && p <= t <= |x|
    decreases t, 1
  {
    if t == p then (Average(x[p..2 * p]) - Average(x[..p])) / p as real
    else Blend(w.beta, Level(x, p, w, t) - Level(x, p, w, t - 1), Trend(x, p, w, t - 1))
  }

  /** Seasonal component of sample `i`. */
  function Season(x: seq<real>, p: nat, w: Params, i: nat): real
    requires 1 <= p && 2 * p <= |x| && i < |x|
    decreases i + 1, 1
  {
    if i < p then x[i] - Average(x[..p])
    else Blend(w.gamma, x[i] - Level(x, p, w, i + 1), Season(x, p, w, i - p))
  }

  function ClipZero(v: real): real { if v > 0.0 then v else 0.0 }

  /** Forecast `h` steps ahead: level, `h` trends, and the season of the same place in the last season. */
  function SeasonalForecastValue(x: seq<real>, p: nat, w: Params, h: nat): real
    requires 1 <= p && 2 * p <= |x| && h >= 1
  {
    ModBound(h - 1, p);
    ClipZero(Extrapolate(Level(x, p, w, |x|), Trend(x, p, w, |x|), h) + Season(x, p, w, |x| - p + (h - 1) % p))
  }

  lemma ModBound(a: nat, p: nat)
    requires p > 0
    ensures 0 <= a % p < p
  {
  }

  // ---- Holt's linear method, used when there is no season ----

  function LinearLevel(x: seq<real>, w: Params, i: nat): real
    requires 2 <= |x| && i < |x|
    decreases i, 0
  {
    if i == 0 then x[0]
    else Blend(w.alpha, x[i], LinearLevel(x, w, i - 1) + LinearTrend(x, w, i - 1))
  }

  function LinearTrend(x: seq<real>, w: Params, i: nat): real
    requires 2 <= |x| && i < |x|
    decreases i, 1
  {
    if i == 0 then x[1] - x[0]
    else Blend(w.beta, LinearLevel(x, w, i) - LinearLevel(x, w, i - 1), LinearTrend(x, w, i - 1))
  }

  function LinearForecastValue(x: seq<real>, w: Params, h: nat): real
    requires 2 <= |x|
  {
    ClipZero(Extrapolate(LinearLevel(x, w, |x| - 1), LinearTrend(x, w, |x| - 1), h))
  }

  predicate Usable(x: seq<real>, p: int, horizon: int) {
    |x| >= 2 && p >= 1 && horizon >= 1 && (p == 1 || 2 * p <= |x|)
  }

  /** The forecast of either method, one value per step of the horizon. */
  function ForecastValues(x: seq<real>, p: int, horizon: int, w: Params): seq<real>
    requires Usable(x, p, horizon)
  {
    seq(horizon, i requires 0 <= i < horizon =>
      if p == 1 then LinearForecastValue(x, w, i + 1) else SeasonalForecastValue(x, p, w, i + 1))
  }

  method HoltLinearForecast(x: seq<real>, horizon: nat, w: Params) returns (out: seq<real>)
    requires 2 <= |x| && horizon >= 1
    ensures out == ForecastValues(x, 1, horizon, w)
  {
    hide Blend, Extrapolate, ClipZero;
    var level := x[0];
    var trend := x[1] - x[0];
    for i := 1 to |x|
      invariant level == LinearLevel(x, w, i - 1) && trend == LinearTrend(x, w, i - 1)
    {
      var prevLevel := level;
      level := Blend(w.alpha, x[i], level + trend);
      trend := Blend(w.beta, level - prevLevel, trend);
    }
    out := [];
    for step := 1 to horizon + 1
      invariant out == ForecastValues(x, 1, horizon, w)[..step - 1]
    {
      out := out + [ClipZero(Extrapolate(level, trend, step))];
    }
  }

  // ---- the in-place loop ----

  /** Two indices less than a season apart never share a slot. */
  lemma SlotsDistinct(i: nat, t: nat, p: nat)
    requires 0 < t - i < p
    ensures i % p != t % p
  {
    assert i == (i / p) * p + i % p && t == (t / p) * p + t % p;
    Distribute(t / p - i / p, i / p, p);
    if i % p == t % p {
      SmallMultiple(t / p - i / p, p, t - i);
    }
  }

  /** The slot read for step `h` holds the season of the same place in the last observed season. */
  lemma ForecastSlot(n: nat, p: nat, h: nat)
    requires 1 <= p <= n && h >= 1
    ensures (n + h - 1) % p == (n - p + (h - 1) % p) % p
  {
    var q := (h - 1) / p;
    var a := n - p + (h - 1) % p;
    assert h - 1 == q * p + (h - 1) % p;
    assert a == (a / p) * p + a % p;
    assert n + h - 1 == a + (q + 1) * p by { assert (q + 1) * p == q * p + p; }
    assert (a / p + q + 1) * p == (a / p) * p + (q + 1) * p;
    ModUnique(n + h - 1, p, a / p + q + 1, a % p);
  }

  /** Before sample `t` is processed, the slots hold the seasons of the last `p` samples. */
  ghost predicate SlotsHold(slots: seq<real>, x: seq<real>, p: nat, w: Params, t: nat)
    requires 1 <= p && 2 * p <= |x| && p <= t <= |x|
  {
    |slots| == p && forall i :: t - p <= i < t ==> slots[i % p] == Season(x, p, w, i)
  }

  lemma SlotsAdvance(slots: seq<real>, x: seq<real>, p: nat, w: Params, t: nat)
    requires 1 <= p && 2 * p <= |x| && p <= t < |x|
    requires SlotsHold(slots, x, p, w, t)
    ensures slots[t % p] == Season(x, p, w, t - p)
    ensures SlotsHold(slots[t % p := Season(x, p, w, t)], x, p, w, t + 1)
  {
    ModShift(t - p, p);
    var after := slots[t % p := Season(x, p, w, t)];
    forall i | t + 1 - p <= i < t + 1
      ensures after[i % p] == Season(x, p, w, i)
    {
      if i < t {
        SlotsDistinct(i, t, p);
      }
    }
  }

  lemma SlotsStart(slots: seq<real>, x: seq<real>, p: nat, w: Params)
    requires 1 <= p && 2 * p <= |x| && |slots| == p
    requires forall i :: 0 <= i < p ==> slots[i] == x[i] - Average(x[..p])
    ensures SlotsHold(slots, x, p, w, p)
  {
    forall i | 0 <= i < p
      ensures slots[i % p] == Season(x, p, w, i)
    {
      ModUnique(i, p, 0, i);
    }
  }

  method InitializeAdditiveState(x: seq<real>, p: nat) returns (level: real, trend: real, seasonals: array<real>)
    requires 1 <= p && 2 * p <= |x|
    ensures fresh(seasonals) && seasonals.Length == p
    ensures level == Average(x[..p])
    ensures trend == (Average(x[p..2 * p]) - Average(x[..p])) / p as real
    ensures forall i :: 0 <= i < p ==> seasonals[i] == x[i] - Average(x[..p])
  {
    var first := AverageOf(x[..p]);
    var second := AverageOf(x[p..2 * p]);
    seasonals := new real[p];
    for i := 0 to p
      invariant forall j :: 0 <= j < i ==> seasonals[j] == x[j] - first
    {
      seasonals[i] := x[i] - first;
    }
    return first, (second - first) / p as real, seasonals;
  }

  /** The smoothing loop overwrites one slot per sample and computes the textbook recurrences. */
  method Smooth(x: seq<real>, p: nat, w: Params) returns (level: real, trend: real, seasonals: array<real>)
    requires 1 <= p && 2 * p <= |x|
    ensures fresh(seasonals)
    ensures level == Level(x, p, w, |x|) && trend == Trend(x, p, w, |x|)
    ensures SlotsHold(seasonals[..], x, p, w, |x|)
  {
    hide Blend, Average;
    level, trend, seasonals := InitializeAdditiveState(x, p);
    SlotsStart(seasonals[..], x, p, w);
    for t := p to |x|
      invariant fresh(seasonals) && seasonals.Length == p
      invariant level == Level(x, p, w, t) && trend == Trend(x, p, w, t)
      invariant SlotsHold(seasonals[..], x, p, w, t)
    {
      SlotsAdvance(seasonals[..], x, p, w, t);
      var slot := t % p;
      var season := seasonals[slot];
      var prevLevel := level;
      level := Blend(w.alpha, x[t] - season, level + trend);
      trend := Blend(w.beta, level - prevLevel, trend);
      seasonals[slot] := Blend(w.gamma, x[t] - level, season);
    }
  }

  lemma ReadSlot(slots: seq<real>, x: seq<real>, p: nat, w: Params, h: nat)
    requires 1 <= p && 2 * p <= |x| && h >= 1 && SlotsHold(slots, x, p, w, |x|)
    ensures 0 <= (|x| + h - 1) % p < |slots| && 0 <= (h - 1) % p < p
    ensures slots[(|x| + h - 1) % p] == Season(x, p, w, |x| - p + (h - 1) % p)
  {
    ForecastSlot(|x|, p, h);
    ModBound(h - 1, p);
  }

  method SeasonalForecast(x: seq<real>, p: nat, horizon: nat, w: Params) returns (out: seq<real>)
    requires 2 <= p && 2 * p <= |x| && horizon >= 1
    ensures out == ForecastValues(x, p, horizon, w)
  {
    hide Blend, Extrapolate, ClipZero, Level, Trend, Season;
    var level, trend, seasonals := Smooth(x, p, w);
    out := [];
    for step := 1 to horizon + 1
      invariant out == ForecastValues(x, p, horizon, w)[..step - 1]
      invariant SlotsHold(seasonals[..], x, p, w, |x|)
    {
      ReadSlot(seasonals[..], x, p, w, step);
      var slot := (|x| + step - 1) % p;
      out := out + [ClipZero(Extrapolate(level, trend, step) + seasonals[slot])];
    }
  }

  method HoltWintersForecast(x: seq<real>, p: int, horizon: int, w: Params) returns (r: Result<seq<real>, Error>)
    ensures r.Ok? <==> Usable(x, p, horizon)
    ensures r.Ok? ==> r.value == ForecastValues(x, p, horizon, w)
  {
    hide Blend, Extrapolate, ClipZero, Level, Trend, Season;
    if |x| < 2 {
      return Err(InsufficientData);
    }
    if p < 1 || horizon < 1 {
      return Err(InvalidInput);
    }
    if p == 1 {
      var linear := HoltLinearForecast(x, horizon, w);
      return Ok(linear);
    }
    if |x| < p * 2 {
      return Err(InsufficientData);
    }
    var seasonal := SeasonalForecast(x, p, horizon, w);
    return Ok(seasonal);
  }

  // ---- the parameter search ----

  function InUnit(values: seq<real>): (r: seq<real>)
    ensures forall v :: v in r <==> v in values && 0.0 < v < 1.0
  {
    if values == [] then []
    else
      var n := |values| - 1;
      assert values == values[..n] + [values[n]];
      if 0.0 < values[n] < 1.0 then InUnit(values[..n]) + [values[n]] else InUnit(values[..n])
  }

  function SanitizeGrid(values: seq<real>, defaults: seq<real>): seq<real> {
    if InUnit(values) == [] then defaults else InUnit(values)
  }

  predicate InGrid(w: Params, alphas: seq<real>, betas: seq<real>, gammas: seq<real>) {
    w.alpha in alphas && w.beta in betas && w.gamma in gammas
  }

  /** Every combination of the three lists, and nothing else. */
  method CrossGrid(alphas: seq<real>, betas: seq<real>, gammas: seq<real>) returns (grid: seq<Params>)
    ensures forall w :: w in grid <==> InGrid(w, alphas, betas, gammas)
  {
    grid := [];
    for a := 0 to |alphas|
      invariant forall w :: w in grid <==> InGrid(w, alphas[..a], betas, gammas)
    {
      for b := 0 to |betas|
        invariant forall w :: w in grid <==>
                    InGrid(w, alphas[..a], betas, gammas) || InGrid(w, [alphas[a]], betas[..b], gammas)
      {
        for g := 0 to |gammas|
          invariant forall w :: w in grid <==>
                      || InGrid(w, alphas[..a], betas, gammas)
                      || InGrid(w, [alphas[a]], betas[..b], gammas)
                      || InGrid(w, [alphas[a]], [betas[b]], gammas[..g])
        {
          grid := grid + [Params(alphas[a], betas[b], gammas[g])];
        }
      }
    }
  }

  /** The combinations tried: the usable configured values, or the defaults; no season, no gamma. */
  predicate Tried(w: Params, alphas: seq<real>, betas: seq<real>, gammas: seq<real>, p: int) {
    InGrid(w, SanitizeGrid(alphas, [0.2, 0.4, 0.6]), SanitizeGrid(betas, [0.1, 0.2, 0.4]),
           if p == 1 then [0.0] else SanitizeGrid(gammas, [0.2, 0.4, 0.6]))
  }

  method ParameterGrid(alphas: seq<real>, betas: seq<real>, gammas: seq<real>, p: int) returns (grid: seq<Params>)
    ensures grid != []
    ensures forall w :: w in grid <==> Tried(w, alphas, betas, gammas, p)
    ensures forall w :: w in grid ==> 0.0 < w.alpha < 1.0 && 0.0 < w.beta < 1.0
    ensures forall w :: w in grid ==> (if p == 1 then w.gamma == 0.0 else 0.0 < w.gamma < 1.0)
  {
    var as_ := SanitizeGrid(alphas, [0.2, 0.4, 0.6]);
    var bs := SanitizeGrid(betas, [0.1, 0.2, 0.4]);
    var gs := SanitizeGrid(gammas, [0.2, 0.4, 0.6]);
    if p == 1 {
      gs := [0.0];
    }
    grid := CrossGrid(as_, bs, gs);
    assert InGrid(Params(as_[0], bs[0], gs[0]), as_, bs, gs);
  }

  /** `k` is the first grid entry whose forecast has the least holdout error. */
  ghost predicate IsFirstBest(grid: seq<Params>, x: seq<real>, p: int, holdout: seq<real>, k: nat)
    requires k < |grid| && Usable(x, p, |holdout|)
  {
    && (forall j :: 0 <= j < |grid| ==> Score(grid[k], x, p, holdout) <= Score(grid[j], x, p, holdout))
    && (forall j :: 0 <= j < k ==> Score(grid[k], x, p, holdout) < Score(grid[j], x, p, holdout))
  }

  function Score(w: Params, x: seq<real>, p: int, holdout: seq<real>): real
    requires Usable(x, p, |holdout|)
  {
    ValidationOf(holdout, ForecastValues(x, p, |holdout|, w)).meanAbsoluteErr
  }

  /** The search keeps the first grid entry with the least error; it fails only on unusable input or an empty grid. */
  method BestParameters(grid: seq<Params>, x: seq<real>, p: int, holdout: seq<real>)
    returns (r: Result<(Params, seq<real>), Error>)
    ensures r.Ok? <==> grid != [] && Usable(x, p, |holdout|)
    ensures r.Ok? ==>
              && r.value.1 == ForecastValues(x, p, |holdout|, r.value.0)
              && exists k :: 0 <= k < |grid| && IsFirstBest(grid, x, p, holdout, k) && grid[k] == r.value.0
  {
    hide ForecastValues, ValidationOf, Usable;
    ghost var best := 0;
    var chosen: Option<(Params, seq<real>)> := None;
    var bestScore := 0.0;
    for i := 0 to |grid|
      invariant !Usable(x, p, |holdout|) ==> chosen.None?
      invariant Usable(x, p, |holdout|) ==> (chosen.None? <==> i == 0)
      invariant chosen.Some? ==>
                  && best < i && IsFirstBest(grid[..i], x, p, holdout, best)
                  && bestScore == Score(grid[best], x, p, holdout)
                  && chosen.value == (grid[best], ForecastValues(x, p, |holdout|, grid[best]))
    {
      var forecast := HoltWintersForecast(x, p, |holdout|, grid[i]);
      if forecast.Err? {
        continue;
      }
      var validation := EvaluateForecast(holdout, forecast.value);
      if chosen.None? || validation.meanAbsoluteErr < bestScore {
        bestScore := validation.meanAbsoluteErr;
        chosen := Some((grid[i], forecast.value));
        best := i;
      }
    }
    if chosen.None? {
      return Err(NoForecastResult);
    }
    assert grid[..|grid|] == grid;
    return Ok(chosen.value);
  }
}
