/** Choosing between seasonal naive and Holt-Winters. */
module Auto {
  import opened Core
  import opened Points
  import opened Forecasting
  import opened SeasonalNaive
  import opened HoltWinters
  import opened ExactDemand
  import Recommend

  // ---- the Holt-Winters model around the search ----

  function RequiredSamples(p: Prepared): int {
    Max(p.seasonPoints + 2, 2 * p.seasonPoints) + p.horizonPoints
  }

  predicate Shaped(p: Prepared) { p.horizonPoints >= 1 && p.seasonPoints >= 1 }

  /** The result for a prepared input and the parameters the search settled on, before advisories. */
  function HoltResult(p: Prepared, w: Params): ForecastResult
    requires Shaped(p) && RequiredSamples(p) <= |p.series|
  {
    var x := Values(p.series);
    var split := |x| - p.horizonPoints;
    Assembled(p, ForecastValues(x, p.seasonPoints, p.horizonPoints, w),
              ValidationOf(x[split..], ForecastValues(x[..split], p.seasonPoints, p.horizonPoints, w)), 3)
  }

  lemma EnoughForBoth(p: Prepared)
    requires Shaped(p)
    ensures RequiredSamples(p) <= |p.series| ==>
              && p.horizonPoints < |p.series| && Usable(Values(p.series), p.seasonPoints, p.horizonPoints)
              && Usable(Values(p.series)[..|p.series| - p.horizonPoints], p.seasonPoints, p.horizonPoints)
  {
  }

  datatype HoltWintersModel = HoltWintersModel(alphas: seq<real>, betas: seq<real>, gammas: seq<real>)

  /** `w` is among the parameters tried, and none of those predicts the holdout with less error. */
  ghost predicate Fitted(m: HoltWintersModel, p: Prepared, w: Params)
    requires Shaped(p) && RequiredSamples(p) <= |p.series|
  {
    var x := Values(p.series);
    var split := |x| - p.horizonPoints;
    && Tried(w, m.alphas, m.betas, m.gammas, p.seasonPoints)
    && forall v :: Tried(v, m.alphas, m.betas, m.gammas, p.seasonPoints) ==>
         Score(w, x[..split], p.seasonPoints, x[split..]) <= Score(v, x[..split], p.seasonPoints, x[split..])
  }

  lemma BestIsFitted(m: HoltWintersModel, p: Prepared, grid: seq<Params>, train: seq<real>, holdout: seq<real>, k: nat)
    requires Shaped(p) && RequiredSamples(p) <= |p.series|
    requires train == Values(p.series)[..|p.series| - p.horizonPoints]
    requires holdout == Values(p.series)[|p.series| - p.horizonPoints..]
    requires forall w :: w in grid <==> Tried(w, m.alphas, m.betas, m.gammas, p.seasonPoints)
    requires k < |grid| && IsFirstBest(grid, train, p.seasonPoints, holdout, k)
    ensures Fitted(m, p, grid[k])
  {
    hide Tried, Score;
    assert grid[k] in grid;
    forall v | Tried(v, m.alphas, m.betas, m.gammas, p.seasonPoints)
      ensures Score(grid[k], train, p.seasonPoints, holdout) <= Score(v, train, p.seasonPoints, holdout)
    {
      var j :| 0 <= j < |grid| && grid[j] == v;
    }
  }

  method FitParameters(m: HoltWintersModel, p: Prepared, train: seq<real>, holdout: seq<real>)
    returns (w: Params, predicted: seq<real>)
    requires Shaped(p) && RequiredSamples(p) <= |p.series|
    requires train == Values(p.series)[..|p.series| - p.horizonPoints]
    requires holdout == Values(p.series)[|p.series| - p.horizonPoints..]
    ensures Fitted(m, p, w)
    ensures predicted == ForecastValues(train, p.seasonPoints, p.horizonPoints, w)
  {
    hide Fitted, Tried, IsFirstBest, ForecastValues, RequiredSamples, Usable;
    EnoughForBoth(p);
    var grid := ParameterGrid(m.alphas, m.betas, m.gammas, p.seasonPoints);
    var best := BestParameters(grid, train, p.seasonPoints, holdout);
    ghost var k :| 0 <= k < |grid| && IsFirstBest(grid, train, p.seasonPoints, holdout, k) && grid[k] == best.value.0;
    BestIsFitted(m, p, grid, train, holdout, k);
    return best.value.0, best.value.1;
  }

  /** Fails exactly on invalid or insufficient input; otherwise the forecast uses fitted parameters. */
  ghost predicate IsHoltOutcome(m: HoltWintersModel, input: Input, r: Result<ForecastResult, Error>) {
    && (r.Ok? <==> Prepare(input).Ok? && RequiredSamples(Prepare(input).value) <= |input.series|)
    && (r.Ok? ==> Shaped(Prepare(input).value)
                  && exists w :: Fitted(m, Prepare(input).value, w) && r.value == HoltResult(Prepare(input).value, w))
  }

  method FittedForecast(m: HoltWintersModel, p: Prepared) returns (result: ForecastResult)
    requires Shaped(p) && RequiredSamples(p) <= |p.series|
    ensures exists w :: Fitted(m, p, w) && result == HoltResult(p, w)
  {
    hide ValidationOf, Assembled, Values, Fitted, ForecastValues, RequiredSamples, Usable;
    EnoughForBoth(p);
    var trainEnd := |p.series| - p.horizonPoints;
    ValuesSlice(p.series, trainEnd);
    var train, holdout := Values(p.series[..trainEnd]), Values(p.series[trainEnd..]);
    var best, predicted := FitParameters(m, p, train, holdout);
    var values := HoltWintersForecast(Values(p.series), p.seasonPoints, p.horizonPoints, best);
    var validation := EvaluateForecast(holdout, predicted);
    result := Assemble(p, values.value, validation, 3);
    assert result == HoltResult(p, best);
  }

  method HoltWintersModelForecast(m: HoltWintersModel, input: Input) returns (r: Result<ForecastResult, Error>)
    ensures IsHoltOutcome(m, input, r)
  {
    hide Prepare, Fitted, HoltResult;
    var prepared := Prepare(input);
    if prepared.Err? {
      return Err(prepared.error);
    }
    var p := prepared.value;
    PreparedShape(input);
    if |p.series| < RequiredSamples(p) {
      return Err(InsufficientData);
    }
    var result := FittedForecast(m, p);
    return Ok(result);
  }

  /** No tried parameters would have given the Holt-Winters result a smaller backtest error. */
  lemma FittedIsBest(m: HoltWintersModel, p: Prepared, w: Params, v: Params)
    requires Shaped(p) && RequiredSamples(p) <= |p.series|
    requires Fitted(m, p, w) && Tried(v, m.alphas, m.betas, m.gammas, p.seasonPoints)
    ensures HoltResult(p, w).validation.meanAbsoluteErr <= HoltResult(p, v).validation.meanAbsoluteErr
  {
    hide Tried, ForecastValues, ValidationOf;
    ValuesSlice(p.series, 0);
  }

  predicate IsTriedWeight(v: real, configured: seq<real>, defaults: seq<real>) {
    if exists u :: u in configured && 0.0 < u < 1.0 then v in configured && 0.0 < v < 1.0 else v in defaults
  }

  lemma SanitizedIff(v: real, configured: seq<real>, defaults: seq<real>)
    ensures v in SanitizeGrid(configured, defaults) <==> IsTriedWeight(v, configured, defaults)
  {
    hide InUnit;
    var usable := InUnit(configured);
    if usable != [] {
      assert usable[0] in usable;
    }
  }

  /** Configured weights strictly between 0 and 1 are tried; where none is, the defaults are, and gamma only with a season. */
  lemma TriedMeaning(w: Params, alphas: seq<real>, betas: seq<real>, gammas: seq<real>, p: int)
    ensures Tried(w, alphas, betas, gammas, p) <==>
              && IsTriedWeight(w.alpha, alphas, [0.2, 0.4, 0.6]) && IsTriedWeight(w.beta, betas, [0.1, 0.2, 0.4])
              && (if p == 1 then w.gamma == 0.0 else IsTriedWeight(w.gamma, gammas, [0.2, 0.4, 0.6]))
  {
    hide SanitizeGrid, IsTriedWeight;
    SanitizedIff(w.alpha, alphas, [0.2, 0.4, 0.6]);
    SanitizedIff(w.beta, betas, [0.1, 0.2, 0.4]);
    SanitizedIff(w.gamma, gammas, [0.2, 0.4, 0.6]);
  }

  /** Holt-Winters needs two samples more than a season, and two whole seasons, before the holdout. */
  lemma HoltOutcomeMeaning(m: HoltWintersModel, input: Input, r: Result<ForecastResult, Error>)
    requires IsHoltOutcome(m, input, r)
    ensures r.Ok? <==>
              && Prepare(input).Ok?
              && var p := Prepare(input).value;
                 && p.seasonPoints + p.horizonPoints + 2 <= |input.series|
                 && 2 * p.seasonPoints + p.horizonPoints <= |input.series|
  {
    hide Prepare, HoltResult, Fitted;
  }

  /** How the two results grade their backtests: with less than two seasons of history, or three for Holt-Winters, at most low. */
  lemma ResultReliability(p: Prepared, w: Params)
    requires Shaped(p)
    ensures Enough(p) ==>
              var r := NaiveResult(p);
              Rank(r.reliability) == Min(Rank(DeriveReliability(r.confidence, r.validation)),
                                         Min(if p.seasonPoints == 1 then 3 else 4, if |p.series| < 2 * p.seasonPoints then 2 else 4))
    ensures RequiredSamples(p) <= |p.series| ==>
              var r := HoltResult(p, w);
              Rank(r.reliability) == Min(Rank(DeriveReliability(r.confidence, r.validation)),
                                         Min(if p.seasonPoints == 1 then 3 else 4, if |p.series| < 3 * p.seasonPoints then 2 else 4))
  {
    hide ForecastPoints, NaiveForecast, ForecastValues, ValidationOf, DeriveReliability, ConfidenceFrom;
    ValuesSlice(p.series, 0);
  }

  // ---- selection ----

  datatype Fallback = NoFallback | SeasonalNaiveUnavailable | Diverged | HoltWintersBetterFit

  datatype Selection = Selection(usesNaive: bool, result: ForecastResult, fallback: Fallback)

  predicate IsUsable(r: Result<ForecastResult, Error>) {
    r.Ok? && r.value.points != [] && r.value.reliability != Unsupported
  }

  /** Disagreement at one point, relative to the larger forecast but at least to one unit of demand. */
  function Ratio(left: real, right: real): real {
    var larger := if left > right then left else right;
    AbsReal(left - right) / (if larger > 1.0 then larger else 1.0)
  }

  /** The largest disagreement over the points both forecasts have. */
  function Divergence(left: seq<Point>, right: seq<Point>, n: nat): real
    requires n <= |left| && n <= |right|
  {
    if n == 0 then 0.0
    else
      var peak := Divergence(left, right, n - 1);
      var here := Ratio(left[n - 1].value, right[n - 1].value);
      if here > peak then here else peak
  }

  method ForecastDivergence(left: seq<Point>, right: seq<Point>) returns (peak: real)
    ensures peak == Divergence(left, right, Min(|left|, |right|))
    ensures forall i :: 0 <= i < |left| && i < |right| ==> Ratio(left[i].value, right[i].value) <= peak
    ensures peak == 0.0 || exists i :: 0 <= i < |left| && i < |right| && peak == Ratio(left[i].value, right[i].value)
  {
    hide Ratio;
    peak := 0.0;
    for i := 0 to Min(|left|, |right|)
      invariant peak == Divergence(left, right, i)
      invariant forall j :: 0 <= j < i ==> Ratio(left[j].value, right[j].value) <= peak
      invariant peak == 0.0 || exists j :: 0 <= j < i && peak == Ratio(left[j].value, right[j].value)
    {
      var ratio := Ratio(left[i].value, right[i].value);
      if ratio > peak {
        peak := ratio;
      }
    }
  }

  function PreferHoltWinters(naive: ForecastResult, holt: ForecastResult, minimumImprovement: real): bool {
    && naive.validation.meanAbsoluteErr != 0.0
    && holt.validation.meanAbsoluteErr <= naive.validation.meanAbsoluteErr * (1.0 - minimumImprovement)
    && holt.confidence >= naive.confidence - 0.05
  }

  function OrDefault(x: real, default: real): real { if x <= 0.0 then default else x }

  /** What the selection decides, by usability, divergence and fit. */
  function Choose(naive: Result<ForecastResult, Error>, holt: Result<ForecastResult, Error>,
                  divergenceThreshold: real, minimumImprovement: real): Result<Selection, Error> {
    if IsUsable(naive) && !IsUsable(holt) then Ok(Selection(true, naive.value, NoFallback))
    else if !IsUsable(naive) && IsUsable(holt) then Ok(Selection(false, holt.value, SeasonalNaiveUnavailable))
    else if !IsUsable(naive) then Err(NoForecastResult)
    else
      var divergence := Divergence(naive.value.points, holt.value.points, Min(|naive.value.points|, |holt.value.points|));
      if divergence > OrDefault(divergenceThreshold, 0.35) then
        Ok(Selection(true, naive.value.(confidence := if naive.value.confidence < 0.60 then naive.value.confidence else 0.60,
                                        reliability := Degrade(naive.value.reliability, Low)), Diverged))
      else if PreferHoltWinters(naive.value, holt.value, OrDefault(minimumImprovement, 0.15)) then
        Ok(Selection(false, holt.value, HoltWintersBetterFit))
      else Ok(Selection(true, naive.value, NoFallback))
  }

  ghost predicate IsNaiveOutcome(input: Input, r: Result<ForecastResult, Error>) {
    && (r.Ok? <==> Prepare(input).Ok? && Enough(Prepare(input).value))
    && (r.Ok? ==> r.value == NaiveResult(Prepare(input).value))
  }

  /** The selection the outcomes of the two models on this input call for. */
  ghost predicate IsSelection(m: HoltWintersModel, divergenceThreshold: real, minimumImprovement: real, input: Input,
                              r: Result<Selection, Error>) {
    exists naive, holt :: IsNaiveOutcome(input, naive) && IsHoltOutcome(m, input, holt)
                          && r == Choose(naive, holt, divergenceThreshold, minimumImprovement)
  }

  method AutoForecast(m: HoltWintersModel, divergenceThreshold: real, minimumImprovement: real, input: Input)
    returns (r: Result<Selection, Error>)
    ensures IsSelection(m, divergenceThreshold, minimumImprovement, input, r)
  {
    hide Prepare, NaiveResult, HoltResult, Divergence, PreferHoltWinters, Degrade, IsHoltOutcome;
    var seasonalResult := Forecast(input);
    var holtWintersResult := HoltWintersModelForecast(m, input);
    assert IsNaiveOutcome(input, seasonalResult);
    hide IsNaiveOutcome;
    if IsUsable(seasonalResult) && !IsUsable(holtWintersResult) {
      return Ok(Selection(true, seasonalResult.value, NoFallback));
    }
    if !IsUsable(seasonalResult) && IsUsable(holtWintersResult) {
      return Ok(Selection(false, holtWintersResult.value, SeasonalNaiveUnavailable));
    }
    if !IsUsable(seasonalResult) {
      return Err(NoForecastResult);
    }
    var s, h := seasonalResult.value, holtWintersResult.value;
    var divergence := ForecastDivergence(s.points, h.points);
    if divergence > OrDefault(divergenceThreshold, 0.35) {
      return Ok(Selection(true, s.(confidence := if s.confidence < 0.60 then s.confidence else 0.60,
                                   reliability := Degrade(s.reliability, Low)), Diverged));
    }
    if PreferHoltWinters(s, h, OrDefault(minimumImprovement, 0.15)) {
      return Ok(Selection(false, h, HoltWintersBetterFit));
    }
    return Ok(Selection(true, s, NoFallback));
  }

  // ---- what the selection decides, told by the two results ----

  /** Two forecast values agree within `t` of the larger of them, or of one unit of demand. */
  predicate AgreeWithin(left: real, right: real, t: real) {
    AbsReal(left - right) <= t * (if left >= right && left >= 1.0 then left else if right >= 1.0 then right else 1.0)
  }

  lemma RatioMeaning(left: real, right: real, t: real)
    ensures Ratio(left, right) <= t <==> AgreeWithin(left, right, t)
  {
    var larger := if left > right then left else right;
    var scale := if larger > 1.0 then larger else 1.0;
    Recommend.Quotient(AbsReal(left - right), scale);
    Recommend.ScaleReal(Ratio(left, right), t, scale);
  }

  lemma {:induction false} DivergenceWithin(left: seq<Point>, right: seq<Point>, n: nat, t: real)
    requires n <= |left| && n <= |right| && t >= 0.0
    ensures Divergence(left, right, n) <= t <==> forall i :: 0 <= i < n ==> AgreeWithin(left[i].value, right[i].value, t)
  {
    hide Ratio, AgreeWithin;
    if n > 0 {
      DivergenceWithin(left, right, n - 1, t);
      RatioMeaning(left[n - 1].value, right[n - 1].value, t);
    }
  }

  predicate Agree(left: seq<Point>, right: seq<Point>, t: real) {
    forall i :: 0 <= i < |left| && i < |right| ==> AgreeWithin(left[i].value, right[i].value, t)
  }

  /** Holt-Winters misses less by the demanded share, and is nearly as confident. */
  predicate FitsBetter(naive: ForecastResult, holt: ForecastResult, improvement: real) {
    && naive.validation.meanAbsoluteErr != 0.0
    && holt.validation.meanAbsoluteErr <= (1.0 - improvement) * naive.validation.meanAbsoluteErr
    && holt.confidence + 0.05 >= naive.confidence
  }

  /**
   * With two usable results, Holt-Winters is selected exactly when they agree and it fits better;
   * seasonal naive stands as it is when they agree, and with capped confidence and reliability when not.
   */
  lemma ChoiceMeaning(naive: ForecastResult, holt: ForecastResult, divergenceThreshold: real, minimumImprovement: real)
    requires IsUsable(Ok(naive)) && IsUsable(Ok(holt))
    ensures var r := Choose(Ok(naive), Ok(holt), divergenceThreshold, minimumImprovement);
            var agree := Agree(naive.points, holt.points, if divergenceThreshold > 0.0 then divergenceThreshold else 0.35);
            var better := FitsBetter(naive, holt, if minimumImprovement > 0.0 then minimumImprovement else 0.15);
            && r.Ok?
            && (agree && better ==> r.value == Selection(false, holt, HoltWintersBetterFit))
            && (agree && !better ==> r.value == Selection(true, naive, NoFallback))
            && (!agree ==>
                  && r.value.usesNaive && r.value.fallback == Diverged
                  && r.value.result.points == naive.points && r.value.result.validation == naive.validation
                  && (naive.confidence <= 0.60 ==> r.value.result.confidence == naive.confidence)
                  && (naive.confidence >= 0.60 ==> r.value.result.confidence == 0.60)
                  && r.value.result.reliability == Low)
  {
    hide AgreeWithin, Divergence;
    DivergenceWithin(naive.points, holt.points, Min(|naive.points|, |holt.points|), OrDefault(divergenceThreshold, 0.35));
  }

  /** With one usable result that one is selected as it is, and with none nothing. */
  lemma SingleChoice(naive: Result<ForecastResult, Error>, holt: Result<ForecastResult, Error>,
                     divergenceThreshold: real, minimumImprovement: real)
    requires !IsUsable(naive) || !IsUsable(holt)
    ensures var r := Choose(naive, holt, divergenceThreshold, minimumImprovement);
            && (IsUsable(naive) ==> r == Ok(Selection(true, naive.value, NoFallback)))
            && (IsUsable(holt) ==> r == Ok(Selection(false, holt.value, SeasonalNaiveUnavailable)))
            && (!IsUsable(naive) && !IsUsable(holt) ==> r == Err(NoForecastResult))
  {
  }

  // ---- what the selection guarantees ----

  /** A usable result is used, Holt-Winters over a usable naive one only for a better and undisputed fit. */
  lemma ChoiceGuarantees(naive: Result<ForecastResult, Error>, holt: Result<ForecastResult, Error>,
                         divergenceThreshold: real, minimumImprovement: real)
    requires naive.Ok? ==> naive.value.validation.meanAbsoluteErr >= 0.0
    ensures var r := Choose(naive, holt, divergenceThreshold, minimumImprovement);
            && (r.Err? <==> !IsUsable(naive) && !IsUsable(holt))
            && (r.Ok? && r.value.usesNaive ==> IsUsable(naive) && r.value.result.points == naive.value.points)
            && (r.Ok? && !r.value.usesNaive ==>
                  && IsUsable(holt) && r.value.result == holt.value
                  && (IsUsable(naive) ==>
                        && holt.value.validation.meanAbsoluteErr < naive.value.validation.meanAbsoluteErr
                        && holt.value.confidence >= naive.value.confidence - 0.05
                        && (forall i :: 0 <= i < |naive.value.points| && i < |holt.value.points| ==>
                              Ratio(naive.value.points[i].value, holt.value.points[i].value)
                              <= OrDefault(divergenceThreshold, 0.35))))
  {
    hide Ratio;
    if IsUsable(naive) && IsUsable(holt) {
      var left, right := naive.value.points, holt.value.points;
      DivergenceBounds(left, right, Min(|left|, |right|));
      SmallerError(naive.value.validation.meanAbsoluteErr, OrDefault(minimumImprovement, 0.15));
    }
  }

  lemma SmallerError(error: real, improvement: real)
    requires error >= 0.0 && improvement > 0.0
    ensures error != 0.0 ==> error * (1.0 - improvement) < error
  {
    if error != 0.0 {
      PositiveProduct(error, improvement);
    }
  }

  lemma {:induction false} DivergenceBounds(left: seq<Point>, right: seq<Point>, n: nat)
    requires n <= |left| && n <= |right|
    ensures forall i :: 0 <= i < n ==> Ratio(left[i].value, right[i].value) <= Divergence(left, right, n)
  {
    hide Ratio;
    if n > 0 {
      DivergenceBounds(left, right, n - 1);
    }
  }

  /** The seasonal naive model gives a usable forecast on this input. */
  predicate NaiveUsable(input: Input) {
    Prepare(input).Ok? && Enough(Prepare(input).value) && IsUsable(Ok(NaiveResult(Prepare(input).value)))
  }

  /** What every selection made on an input guarantees about it. */
  lemma AutoGuarantees(m: HoltWintersModel, divergenceThreshold: real, minimumImprovement: real, input: Input,
                       r: Result<Selection, Error>)
    requires IsSelection(m, divergenceThreshold, minimumImprovement, input, r)
    ensures r.Err? ==> !NaiveUsable(input)
    ensures r.Ok? && r.value.usesNaive ==>
              NaiveUsable(input) && r.value.result.points == NaiveResult(Prepare(input).value).points
    ensures r.Ok? && !r.value.usesNaive ==>
              && IsHoltOutcome(m, input, Ok(r.value.result)) && IsUsable(Ok(r.value.result))
              && (NaiveUsable(input) ==>
                    r.value.result.validation.meanAbsoluteErr
                    < NaiveResult(Prepare(input).value).validation.meanAbsoluteErr)
  {
    hide Prepare, NaiveResult, IsHoltOutcome, Choose;
    var naive, holt :| IsNaiveOutcome(input, naive) && IsHoltOutcome(m, input, holt)
                       && r == Choose(naive, holt, divergenceThreshold, minimumImprovement);
    if naive.Ok? {
      PreparedShape(input);
      NaiveErrorIsNonNegative(Prepare(input).value);
    }
    ChoiceGuarantees(naive, holt, divergenceThreshold, minimumImprovement);
  }

  lemma NaiveErrorIsNonNegative(p: Prepared)
    requires p.horizonPoints >= 1 && p.seasonPoints >= 1 && Enough(p)
    ensures NaiveResult(p).validation.meanAbsoluteErr >= 0.0
  {
    hide ForecastPoints, NaiveForecast, Values, DeriveReliability, ConfidenceFrom, ValidationOf;
    var x := Values(p.series);
    ValuesSlice(p.series, 0);
    var split := |x| - p.horizonPoints;
    ErrorIsNonNegative(x[split..], NaiveForecast(x[..split], p.seasonPoints, p.horizonPoints));
  }

  // ---- periodic demand ----

  lemma {:induction false} NoDivergence(points: seq<Point>, n: nat)
    requires n <= |points|
    ensures Divergence(points, points, n) == 0.0
  {
    if n > 0 {
      NoDivergence(points, n - 1);
    }
  }

  /** Both models forecast periodic demand with the same points, whatever the parameters. */
  lemma ModelsAgree(p: Prepared, w: Params)
    requires Shaped(p) && Enough(p) && RequiredSamples(p) <= |p.series|
    requires Periodic(Values(p.series), p.seasonPoints) && NonNegativeDemand(Values(p.series))
    ensures HoltResult(p, w).points == NaiveResult(p).points
  {
    HoltWintersEqualsNaive(Values(p.series), p.seasonPoints, p.horizonPoints, w);
  }

  /**
   * On exactly periodic non-negative demand with a season before the holdout, the selection is
   * seasonal naive, unmodified, with confidence 1, whatever thresholds and parameters are set.
   */
  lemma PeriodicDemandSelectsNaive(p: Prepared, holt: Result<ForecastResult, Error>, w: Params,
                                   divergenceThreshold: real, minimumImprovement: real)
    requires Shaped(p) && Enough(p)
    requires Periodic(Values(p.series), p.seasonPoints) && NonNegativeDemand(Values(p.series))
    requires holt.Ok? ==> RequiredSamples(p) <= |p.series| && holt.value == HoltResult(p, w)
    ensures Choose(Ok(NaiveResult(p)), holt, divergenceThreshold, minimumImprovement) ==
            Ok(Selection(true, NaiveResult(p), NoFallback))
    ensures NaiveResult(p).confidence == 1.0
    ensures holt.Ok? ==> Divergence(NaiveResult(p).points, holt.value.points, |NaiveResult(p).points|) == 0.0
  {
    NaiveOnPeriodicDemand(p);
    if holt.Ok? {
      ModelsAgree(p, w);
      NoDivergence(NaiveResult(p).points, |NaiveResult(p).points|);
    }
    hide NaiveResult, HoltResult, Divergence;
  }

  /** So on such an input the automatic model returns the seasonal naive forecast, unmodified, with confidence 1. */
  lemma AutoOnPeriodicDemand(m: HoltWintersModel, divergenceThreshold: real, minimumImprovement: real, input: Input,
                             r: Result<Selection, Error>)
    requires IsSelection(m, divergenceThreshold, minimumImprovement, input, r)
    requires Prepare(input).Ok? && Enough(Prepare(input).value)
    requires Periodic(Values(input.series), Prepare(input).value.seasonPoints)
    ensures Shaped(Prepare(input).value)
    ensures r == Ok(Selection(true, NaiveResult(Prepare(input).value), NoFallback)) && r.value.result.confidence == 1.0
  {
    PreparedShape(input);
    DemandIsNonNegative(input);
    hide Prepare, NaiveResult, HoltResult, Choose, Periodic, Fitted, NonNegativeDemand;
    var naive, holt :| IsNaiveOutcome(input, naive) && IsHoltOutcome(m, input, holt)
                       && r == Choose(naive, holt, divergenceThreshold, minimumImprovement);
    var p := Prepare(input).value;
    if holt.Ok? {
      var w :| Fitted(m, p, w) && holt.value == HoltResult(p, w);
      PeriodicDemandSelectsNaive(p, holt, w, divergenceThreshold, minimumImprovement);
    } else {
      PeriodicDemandSelectsNaive(p, holt, Params(0.0, 0.0, 0.0), divergenceThreshold, minimumImprovement);
    }
  }

  lemma DemandIsNonNegative(input: Input)
    requires Prepare(input).Ok?
    ensures NonNegativeDemand(Values(input.series))
  {
  }

  /** `y` starts with the series and has period `p` throughout. */
  predicate Continues(y: seq<real>, series: seq<Point>, p: nat) {
    |series| <= |y| && Values(series) == y[..|series|] && Periodic(y, p)
  }

  /** The points carry the samples of `y` from index `n` on, as far as `y` goes. */
  predicate Foretells(points: seq<Point>, y: seq<real>, n: nat) {
    forall i :: 0 <= i < |points| && n + i < |y| ==> points[i].value == y[n + i]
  }

  /** The selected points carry, in order, the values that follow in every longer series with their period. */
  lemma SelectedPointsContinueDemand(p: Prepared, y: seq<real>)
    requires Shaped(p) && Enough(p) && Continues(y, p.series, p.seasonPoints)
    ensures |NaiveResult(p).points| == p.horizonPoints
    ensures Foretells(NaiveResult(p).points, y, |p.series|)
  {
    forall i | 0 <= i < |NaiveResult(p).points| && |p.series| + i < |y|
      ensures NaiveResult(p).points[i].value == y[|p.series| + i]
    {
      NaiveIsContinuation(y, |p.series|, p.seasonPoints, i);
    }
  }
}
