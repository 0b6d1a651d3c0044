/** Seasonality detection by lag autocorrelation. */
module Seasonality {
  import opened Core
  import opened Points
  import opened Forecasting
  import opened SeasonalNaive
  import opened HoltWinters

  /** The square root of non-negative reals, which Dafny does not provide. */
  ghost predicate IsSquareRoot(root: real -> real) {
    forall v :: v >= 0.0 ==> root(v) >= 0.0 && root(v) * root(v) == v
  }

  // ---- centred sums ----

  function Product(u: real, v: real): real { u * v }

  /** Sum of the products of the first `n` deviations from the two means. */
  function CrossSum(a: seq<real>, b: seq<real>, ma: real, mb: real, n: nat): real
    requires n <= |a| && n <= |b|
  {
    if n == 0 then 0.0 else CrossSum(a, b, ma, mb, n - 1) + Product(a[n - 1] - ma, b[n - 1] - mb)
  }

  lemma SquarePositive(u: real)
    ensures Product(u, u) >= 0.0 && (Product(u, u) == 0.0 ==> u == 0.0)
  {
    hide Product;
    if u == 0.0 {
      ZeroSquare();
    } else if u > 0.0 {
      ProductSigns(u, u);
    } else {
      ProductSigns(-u, -u);
    }
  }

  function Quadratic(l: real, c: real, r: real, t: real): real { l * (t * t) + 2.0 * (c * t) + r }

  function Combined(u: real, v: real, t: real): real { u * t + v }

  lemma Regroup(u: real, v: real, t: real)
    ensures (u * t + v) * (u * t + v) == (u * u) * (t * t) + 2.0 * ((u * v) * t) + v * v
  {
    var w := u * t;
    assert (w + v) * (w + v) == w * w + 2.0 * (w * v) + v * v;
    assert w * w == (u * u) * (t * t);
    assert w * v == (u * v) * t;
  }

  /** One more term of the expansion behind `CauchySchwarz`. */
  lemma ExpandStep(u: real, v: real, t: real, l: real, c: real, r: real)
    ensures Quadratic(l + Product(u, u), c + Product(u, v), r + Product(v, v), t) ==
            Quadratic(l, c, r, t) + Product(Combined(u, v, t), Combined(u, v, t))
    ensures Product(Combined(u, v, t), Combined(u, v, t)) >= 0.0
    ensures Product(Combined(u, v, t), Combined(u, v, t)) == 0.0 ==> Combined(u, v, t) == 0.0
  {
    SquarePositive(Combined(u, v, t));
    Regroup(u, v, t);
    DistributeReal(l, u * u, t * t);
    DistributeReal(c, u * v, t);
  }

  /**
   * The sum of the squares of `t` times one deviation plus the other is never negative, and it is
   * zero only when each of those terms is.
   */
  lemma {:induction false} CombinedSquares(a: seq<real>, b: seq<real>, ma: real, mb: real, t: real, n: nat)
    requires n <= |a| && n <= |b|
    ensures var q := Quadratic(CrossSum(a, a, ma, ma, n), CrossSum(a, b, ma, mb, n), CrossSum(b, b, mb, mb, n), t);
            q >= 0.0 && (q == 0.0 ==> forall i :: 0 <= i < n ==> Combined(a[i] - ma, b[i] - mb, t) == 0.0)
  {
    if n > 0 {
      hide Quadratic, Product, Combined;
      CombinedSquares(a, b, ma, mb, t, n - 1);
      ExpandStep(a[n - 1] - ma, b[n - 1] - mb, t, CrossSum(a, a, ma, ma, n - 1),
                 CrossSum(a, b, ma, mb, n - 1), CrossSum(b, b, mb, mb, n - 1));
    } else {
      EmptyQuadratic(t);
    }
  }

  lemma EmptyQuadratic(t: real)
    ensures Quadratic(0.0, 0.0, 0.0, t) == 0.0
  {
  }

  lemma {:induction false} SquaresNonNegative(a: seq<real>, ma: real, n: nat)
    requires n <= |a|
    ensures CrossSum(a, a, ma, ma, n) >= 0.0
    ensures CrossSum(a, a, ma, ma, n) == 0.0 ==> forall i :: 0 <= i < n ==> a[i] == ma
  {
    hide Product;
    if n > 0 {
      SquaresNonNegative(a, ma, n - 1);
      SquarePositive(a[n - 1] - ma);
    }
  }

  lemma {:induction false} ConstantSide(a: seq<real>, b: seq<real>, ma: real, mb: real, n: nat)
    requires n <= |a| && n <= |b| && forall i :: 0 <= i < n ==> a[i] == ma
    ensures CrossSum(a, b, ma, mb, n) == 0.0
  {
    if n > 0 {
      ConstantSide(a, b, ma, mb, n - 1);
    }
  }

  lemma DivideOut(l: real, c: real) returns (t: real)
    requires l > 0.0
    ensures l * t == -c
  {
    t := -c / l;
  }

  /** A quadratic that is not negative at its lowest point has no positive discriminant. */
  lemma LowestPoint(l: real, c: real, r: real, t: real)
    requires l > 0.0 && l * t == -c && Quadratic(l, c, r, t) >= 0.0
    ensures Product(c, c) <= Product(l, r)
  {
    assert l * (t * t) == (l * t) * t;
    var s := c * t + r;
    assert s >= 0.0;
    assert l * s >= 0.0;
    assert l * s == c * (l * t) + l * r;
  }

  /** Cauchy-Schwarz: the squared lag numerator never exceeds the product of the centred sums of squares. */
  lemma CauchySchwarz(a: seq<real>, b: seq<real>, ma: real, mb: real, n: nat)
    requires n <= |a| && n <= |b|
    ensures var c := CrossSum(a, b, ma, mb, n);
            Product(c, c) <= Product(CrossSum(a, a, ma, ma, n), CrossSum(b, b, mb, mb, n))
  {
    var l, c, r := CrossSum(a, a, ma, ma, n), CrossSum(a, b, ma, mb, n), CrossSum(b, b, mb, mb, n);
    hide CrossSum;
    SquaresNonNegative(a, ma, n);
    if l == 0.0 {
      ConstantSide(a, b, ma, mb, n);
    } else {
      var t := DivideOut(l, c);
      hide Quadratic, Product, Combined;
      CombinedSquares(a, b, ma, mb, t, n);
      LowestPoint(l, c, r, t);
    }
  }

  // ---- the two lag statistics ----

  /** Mean absolute difference to the sample `lag` places earlier. */
  function LagError(x: seq<real>, lag: int): real {
    if lag <= 0 || |x| <= lag then 0.0
    else SumAbsError(x[lag..], x[..|x| - lag], |x| - lag) / (|x| - lag) as real
  }

  method LagMeanAbsoluteError(x: seq<real>, lag: int) returns (e: real)
    ensures e == LagError(x, lag)
  {
    if lag <= 0 || |x| <= lag {
      return 0.0;
    }
    var sum, count := 0.0, 0;
    for index := lag to |x|
      invariant count == index - lag && sum == SumAbsError(x[lag..], x[..|x| - lag], index - lag)
    {
      sum := sum + AbsReal(x[index] - x[index - lag]);
      count := count + 1;
    }
    return sum / count as real;
  }

  /** Correlation of the series with itself `lag` samples earlier; zero when a side is constant. */
  function Correlation(x: seq<real>, lag: int, root: real -> real): real {
    if lag <= 0 || |x| <= lag then 0.0
    else
      var n := |x| - lag;
      var left, right := x[lag..], x[..n];
      var ml, mr := Average(left), Average(right);
      Normalised(CrossSum(left, right, ml, mr, n), CrossSum(left, left, ml, ml, n), CrossSum(right, right, mr, mr, n), root)
  }

  function Normalised(numerator: real, left: real, right: real, root: real -> real): real {
    var denominator := root(Product(left, right));
    if denominator <= 0.0 then 0.0 else numerator / denominator
  }

  method LagCorrelation(x: seq<real>, lag: int, root: real -> real) returns (c: real)
    ensures c == Correlation(x, lag, root)
  {
    hide Average, Product, Normalised;
    if lag <= 0 || |x| <= lag {
      return 0.0;
    }
    var left, right := x[lag..], x[..|x| - lag];
    var leftMean := AverageOf(left);
    var rightMean := AverageOf(right);
    var numerator, leftDenominator, rightDenominator := 0.0, 0.0, 0.0;
    for i := 0 to |left|
      invariant numerator == CrossSum(left, right, leftMean, rightMean, i)
      invariant leftDenominator == CrossSum(left, left, leftMean, leftMean, i)
      invariant rightDenominator == CrossSum(right, right, rightMean, rightMean, i)
    {
      var leftCentered, rightCentered := left[i] - leftMean, right[i] - rightMean;
      numerator := numerator + Product(leftCentered, rightCentered);
      leftDenominator := leftDenominator + Product(leftCentered, leftCentered);
      rightDenominator := rightDenominator + Product(rightCentered, rightCentered);
    }
    return Normalised(numerator, leftDenominator, rightDenominator, root);
  }

  lemma SquaresGrow(c: real, d: real)
    requires c > d > 0.0
    ensures Product(c, c) > Product(d, d)
  {
    PositiveProduct(c - d, c + d);
    DistributeReal(c - d, d, c);
    DistributeReal(c - d, d, d);
  }

  lemma QuotientRange(c: real, d: real)
    requires d > 0.0 && -d <= c <= d
    ensures -1.0 <= c / d <= 1.0
  {
    var q := c / d;
    assert q * d == c;
    assert q > 1.0 ==> (q - 1.0) * d > 0.0;
    assert q < -1.0 ==> (-1.0 - q) * d > 0.0;
  }

  lemma ProductSigns(a: real, b: real)
    ensures a >= 0.0 && b >= 0.0 ==> Product(a, b) >= 0.0
    ensures a > 0.0 && b > 0.0 ==> Product(a, b) > 0.0
    ensures Product(-a, -a) == Product(a, a)
  {
  }

  lemma NormalisedRange(c: real, l: real, r: real, root: real -> real)
    requires IsSquareRoot(root) && l >= 0.0 && r >= 0.0 && Product(c, c) <= Product(l, r)
    ensures -1.0 <= Normalised(c, l, r, root) <= 1.0
  {
    ProductSigns(l, r);
    ProductSigns(c, c);
    var d := root(Product(l, r));
    assert d >= 0.0 && Product(d, d) == Product(l, r);
    if d > 0.0 {
      hide IsSquareRoot, Product;
      assert c <= d by {
        if c > d { SquaresGrow(c, d); }
      }
      assert -d <= c by {
        if -c > d { SquaresGrow(-c, d); }
      }
      QuotientRange(c, d);
    }
  }

  /** Every lag correlation lies between -1 and 1. */
  lemma CorrelationRange(x: seq<real>, lag: int, root: real -> real)
    requires IsSquareRoot(root)
    ensures -1.0 <= Correlation(x, lag, root) <= 1.0
  {
    if 0 < lag < |x| {
      var n := |x| - lag;
      var left, right := x[lag..], x[..n];
      var ml, mr := Average(left), Average(right);
      hide Average, CrossSum, Product, Normalised, IsSquareRoot;
      SquaresNonNegative(left, ml, n);
      SquaresNonNegative(right, mr, n);
      CauchySchwarz(left, right, ml, mr, n);
      NormalisedRange(CrossSum(left, right, ml, mr, n), CrossSum(left, left, ml, ml, n),
                      CrossSum(right, right, mr, mr, n), root);
    }
  }

  // ---- detection ----

  datatype Options = Options(minPeriod: Duration, maxPeriod: Duration, minCycles: int, minCorrelation: real)

  /** A confidence of None is the undefined quotient left by a minimum correlation of exactly 1. */
  datatype Detection = Detection(detected: bool, period: Duration, confidence: Option<real>, correlation: real)

  const NOTHING := Detection(false, 0, Some(0.0), 0.0)

  function MinPeriod(o: Options, step: Duration): Duration {
    if o.minPeriod <= 0 then 2 * step else o.minPeriod
  }

  function MaxPeriod(o: Options, step: Duration, n: nat): Duration {
    if o.maxPeriod <= 0 then n / 3 * step else o.maxPeriod
  }

  function MinLag(o: Options, step: Duration): int
    requires step > 0
  {
    var p := MinPeriod(o, step);
    Max(2, if p <= 0 then 0 else CeilDiv(p, step))
  }

  function MinCycles(o: Options): int { if o.minCycles < 2 then 3 else o.minCycles }

  function MaxLag(o: Options, step: Duration, n: nat): int
    requires step > 0
  {
    Min(MaxPeriod(o, step, n) / step, n / MinCycles(o))
  }

  function MinCorrelation(o: Options): real { if o.minCorrelation <= 0.0 then 0.75 else o.minCorrelation }

  /** Whether the history is long and regular enough to try any lag at all. */
  predicate Searches(series: seq<Point>, o: Options) {
    var step := InferStep(series);
    && |series| >= 6 && step > 0
    && MinPeriod(o, step) <= MaxPeriod(o, step, |series|)
    && MinLag(o, step) <= MaxLag(o, step, |series|)
  }

  /** A lag is tried when repeating the sample from `lag` earlier clearly beats repeating the last one. */
  predicate Tried(x: seq<real>, lag: int) {
    LagError(x, 1) > 0.0 ==> LagError(x, lag) < LagError(x, 1) * 0.8
  }

  /** `lag` is the first tried lag in the range with the largest correlation above -1; 0 when there is none. */
  ghost predicate IsFirstBestLag(x: seq<real>, lo: int, hi: int, root: real -> real, lag: int, best: real) {
    && (forall k :: lo <= k <= hi && Tried(x, k) ==> Correlation(x, k, root) <= best)
    && if lag == 0 then best == -1.0
       else lo <= lag <= hi && Tried(x, lag) && best == Correlation(x, lag, root) && best > -1.0
            && forall k :: lo <= k < lag && Tried(x, k) ==> Correlation(x, k, root) < best
  }

  method SearchLags(x: seq<real>, minLag: int, maxLag: int, root: real -> real) returns (bestLag: int, best: real)
    requires 2 <= minLag
    requires IsSquareRoot(root)
    ensures IsFirstBestLag(x, minLag, maxLag, root, bestLag, best)
  {
    hide LagError, Correlation, IsSquareRoot;
    var persistence := LagMeanAbsoluteError(x, 1);
    bestLag, best := 0, -1.0;
    var lag := minLag;
    while lag <= maxLag
      invariant minLag <= lag <= Max(minLag, maxLag + 1)
      invariant IsFirstBestLag(x, minLag, lag - 1, root, bestLag, best)
    {
      var lagError := LagMeanAbsoluteError(x, lag);
      if !(persistence > 0.0 && lagError >= persistence * 0.8) {
        var correlation := LagCorrelation(x, lag, root);
        if correlation > best {
          best := correlation;
          bestLag := lag;
        }
      }
      lag := lag + 1;
    }
  }

  /** What is reported for the lag the search settled on. */
  function Report(bestLag: int, best: real, minCorrelation: real, step: Duration): Detection {
    if bestLag == 0 || best < minCorrelation then Detection(false, 0, Some(0.0), best)
    else
      Detection(true, bestLag * step,
                if minCorrelation == 1.0 then None
                else Some(ClampReal((best - minCorrelation) / (1.0 - minCorrelation), 0.0, 1.0)), best)
  }

  /** What a detection over a history ends in: the lag the search settled on, and the report on it. */
  ghost predicate Detects(series: seq<Point>, o: Options, root: real -> real, bestLag: int, d: Detection) {
    && Searches(series, o)
    && var step := InferStep(series);
       && IsFirstBestLag(Values(series), MinLag(o, step), MaxLag(o, step, |series|), root, bestLag, d.correlation)
       && d == Report(bestLag, d.correlation, MinCorrelation(o), step)
  }

  /** Nothing when no lag can be searched, and otherwise the report of the search. */
  ghost predicate IsDetection(series: seq<Point>, o: Options, root: real -> real, d: Detection) {
    && (!Searches(series, o) ==> d == NOTHING)
    && (Searches(series, o) ==> exists lag :: Detects(series, o, root, lag, d))
  }

  method DetectSeasonality(series: seq<Point>, o: Options, root: real -> real)
    returns (d: Detection)
    requires IsSquareRoot(root)
    ensures IsDetection(series, o, root, d)
  {
    hide IsSquareRoot, IsFirstBestLag, InferStep;
    var step := MeasureStep(series);
    if |series| < 6 || step <= 0 {
      return NOTHING;
    }
    var minPeriod := if o.minPeriod <= 0 then 2 * step else o.minPeriod;
    var maxPeriod := if o.maxPeriod <= 0 then |series| / 3 * step else o.maxPeriod;
    if maxPeriod < minPeriod {
      return NOTHING;
    }
    var minCycles := if o.minCycles < 2 then 3 else o.minCycles;
    var minCorrelation := if o.minCorrelation <= 0.0 then 0.75 else o.minCorrelation;
    var minLag := CeilDiv(minPeriod, step);
    if minLag < 2 {
      minLag := 2;
    }
    var maxLag := maxPeriod / step;
    maxLag := Min(maxLag, |series| / minCycles);
    if maxLag < minLag {
      return NOTHING;
    }
    var bestLag, best := SearchLags(Values(series), minLag, maxLag, root);
    d := Report(bestLag, best, minCorrelation, step);
    assert Detects(series, o, root, bestLag, d);
  }

  // ---- when a season is detected ----

  /** The lags that fit the options: two or more samples, within the periods asked for, with enough cycles in the history. */
  predicate LagAllowed(o: Options, step: Duration, n: nat, lag: int) {
    && lag >= 2
    && lag * step >= (if o.minPeriod > 0 then o.minPeriod else 2 * step)
    && lag * step <= (if o.maxPeriod > 0 then o.maxPeriod else n / 3 * step)
    && lag * (if o.minCycles >= 2 then o.minCycles else 3) <= n
  }

  lemma QuotientAtLeast(lag: nat, a: nat, b: nat)
    requires b > 0
    ensures lag <= a / b <==> lag * b <= a
    ensures CeilDiv(a, b) <= lag <==> a <= lag * b
  {
    var q := a / b;
    assert q * b <= a < (q + 1) * b;
    if lag <= q {
      ScaleLe(lag, q, b);
    } else {
      ScaleLe(q + 1, lag, b);
    }
    var c := CeilDiv(a, b);
    if c <= lag {
      ScaleLe(c, lag, b);
    } else {
      ScaleLe(lag, c - 1, b);
    }
  }

  lemma LagAllowedIff(o: Options, step: Duration, n: nat, lag: int)
    requires step > 0
    ensures MinLag(o, step) <= lag <= MaxLag(o, step, n) <==> LagAllowed(o, step, n, lag)
  {
    if lag >= 2 {
      QuotientAtLeast(lag, MinPeriod(o, step), step);
      ScaleLe(0, n / 3, step);
      QuotientAtLeast(lag, MaxPeriod(o, step, n), step);
      QuotientAtLeast(lag, n, MinCycles(o));
    }
  }

  /** A history is searched when it has six samples, an inferred step and some allowed lag. */
  lemma SearchesIff(series: seq<Point>, o: Options)
    ensures Searches(series, o) <==>
              && |series| >= 6 && InferStep(series) > 0
              && exists lag :: LagAllowed(o, InferStep(series), |series|, lag)
  {
    hide InferStep, LagAllowed, MinLag, MaxLag;
    var step := InferStep(series);
    if step > 0 {
      forall lag: int
        ensures MinLag(o, step) <= lag <= MaxLag(o, step, |series|) <==> LagAllowed(o, step, |series|, lag)
      {
        LagAllowedIff(o, step, |series|, lag);
      }
      if lag :| LagAllowed(o, step, |series|, lag) {
        AllowedPeriods(o, step, |series|, lag);
      }
      if MinLag(o, step) <= MaxLag(o, step, |series|) {
        assert LagAllowed(o, step, |series|, MinLag(o, step));
      }
    }
  }

  lemma AllowedPeriods(o: Options, step: Duration, n: nat, lag: int)
    requires step > 0 && LagAllowed(o, step, n, lag)
    ensures MinPeriod(o, step) <= MaxPeriod(o, step, n)
  {
  }

  /** Repeating the sample `lag` places back misses less than four fifths of what repeating the last one misses, if that misses at all. */
  predicate BeatsPersistence(x: seq<real>, lag: int) {
    LagError(x, 1) == 0.0 || LagError(x, lag) < 0.8 * LagError(x, 1)
  }

  ghost predicate IsEvidence(series: seq<Point>, o: Options, root: real -> real, lag: int) {
    && LagAllowed(o, InferStep(series), |series|, lag) && BeatsPersistence(Values(series), lag)
    && Correlation(Values(series), lag, root) >= (if o.minCorrelation > 0.0 then o.minCorrelation else 0.75)
  }

  lemma LagErrorNonNegative(x: seq<real>, lag: int)
    ensures LagError(x, lag) >= 0.0
  {
    hide SumAbsError;
    if 0 < lag < |x| && SumAbsError(x[lag..], x[..|x| - lag], |x| - lag) > 0.0 {
      PositiveQuotient(SumAbsError(x[lag..], x[..|x| - lag], |x| - lag), (|x| - lag) as real);
    }
  }

  /**
   * A season is detected exactly when some allowed lag beats persistence with at least the minimum
   * correlation; its period is the first such lag of the largest correlation, in steps.
   */
  lemma DetectedIff(series: seq<Point>, o: Options, root: real -> real, d: Detection)
    requires IsSquareRoot(root) && IsDetection(series, o, root, d)
    ensures d.detected <==> |series| >= 6 && InferStep(series) > 0 && exists lag :: IsEvidence(series, o, root, lag)
    ensures d.detected ==>
              exists lag :: IsEvidence(series, o, root, lag) && d.period == lag * InferStep(series)
                            && d.correlation == Correlation(Values(series), lag, root)
                            && (forall k :: IsEvidence(series, o, root, k) ==>
                                  Correlation(Values(series), k, root) <= d.correlation
                                  && (k < lag ==> Correlation(Values(series), k, root) < d.correlation))
    ensures !d.detected ==> d.period == 0 && d.confidence == Some(0.0)
  {
    hide IsSquareRoot, InferStep, LagError, Correlation, LagAllowed, MinLag, MaxLag, Searches;
    var x, step := Values(series), InferStep(series);
    SearchesIff(series, o);
    if Searches(series, o) {
      SearchesStep(series, o);
      var best :| Detects(series, o, root, best, d);
      LagErrorNonNegative(x, 1);
      forall lag: int
        ensures MinLag(o, step) <= lag <= MaxLag(o, step, |series|) <==> LagAllowed(o, step, |series|, lag)
      {
        LagAllowedIff(o, step, |series|, lag);
      }
      MinLagPositive(o, step);
      assert d.detected ==> IsEvidence(series, o, root, best);
      if lag :| IsEvidence(series, o, root, lag) {
        assert Tried(x, lag);
        assert Correlation(x, lag, root) <= d.correlation;
      }
    }
  }

  lemma SearchesStep(series: seq<Point>, o: Options)
    requires Searches(series, o)
    ensures InferStep(series) > 0
  {
    hide InferStep;
  }

  lemma MinLagPositive(o: Options, step: Duration)
    requires step > 0
    ensures MinLag(o, step) >= 2
  {
  }

  /** The confidence of a detection is where its correlation lies on the way from the minimum to 1. */
  lemma ConfidenceMeaning(series: seq<Point>, o: Options, root: real -> real, d: Detection)
    requires IsSquareRoot(root) && IsDetection(series, o, root, d) && d.detected && o.minCorrelation != 1.0
    ensures var minimum := if o.minCorrelation > 0.0 then o.minCorrelation else 0.75;
            && minimum <= d.correlation <= 1.0 && minimum < 1.0 && d.confidence.Some?
            && d.confidence.value * (1.0 - minimum) == d.correlation - minimum
            && 0.0 <= d.confidence.value <= 1.0
            && (d.confidence.value == 0.0 <==> d.correlation == minimum)
            && (d.confidence.value == 1.0 <==> d.correlation == 1.0)
  {
    hide IsSquareRoot, InferStep, Correlation, IsFirstBestLag, Searches;
    var best :| Detects(series, o, root, best, d);
    BestLagCorrelates(Values(series), MinLag(o, InferStep(series)), MaxLag(o, InferStep(series), |series|), root, best,
                      d.correlation) by { SearchesStep(series, o); }
    CorrelationRange(Values(series), best, root);
    ShareOfWay(MinCorrelation(o), d.correlation);
  }

  lemma ShareOfWay(minimum: real, c: real)
    requires minimum <= c <= 1.0 && minimum != 1.0
    ensures var q := (c - minimum) / (1.0 - minimum);
            && q * (1.0 - minimum) == c - minimum && 0.0 <= q <= 1.0
            && (q == 0.0 <==> c == minimum) && (q == 1.0 <==> c == 1.0)
  {
    QuotientRange(c - minimum, 1.0 - minimum);
    if c > minimum {
      PositiveQuotient(c - minimum, 1.0 - minimum);
    }
  }

  predicate RaisedAt(x: seq<real>, lag: nat, c: real, i: int)
    requires 0 <= i < |x| - lag
  {
    x[i + lag] == x[i] + c
  }

  /** A series that repeats itself `lag` samples later, raised by `c`, misses exactly that much at the lag. */
  lemma LagErrorMeaning(x: seq<real>, lag: nat, c: real)
    requires 1 <= lag < |x| && forall i :: 0 <= i < |x| - lag ==> RaisedAt(x, lag, c, i)
    ensures LagError(x, lag) == AbsReal(c)
  {
    hide SumAbsError;
    var n := |x| - lag;
    var later, earlier := x[lag..], x[..n];
    forall i | 0 <= i < n
      ensures earlier[i] == later[i] + -c
    {
      assert RaisedAt(x, lag, c, i);
    }
    ConstantMiss(later, earlier, -c, n);
    WholeShare(AbsReal(c), n as real);
  }

  lemma WholeShare(v: real, n: real)
    requires n > 0.0
    ensures (n * v) / n == v
  {
  }

  // ---- what the correlation measures ----

  /** The square of the correlation is the squared numerator over the product of the two spreads; the signs agree. */
  lemma CorrelationMeaning(x: seq<real>, lag: int, root: real -> real)
    requires IsSquareRoot(root) && 0 < lag < |x|
    ensures var n := |x| - lag;
            var left, right := x[lag..], x[..n];
            var c, l, r := CrossSum(left, right, Average(left), Average(right), n),
                           CrossSum(left, left, Average(left), Average(left), n),
                           CrossSum(right, right, Average(right), Average(right), n);
            var q := Correlation(x, lag, root);
            && (Product(l, r) == 0.0 ==> q == 0.0)
            && Product(q, q) * Product(l, r) == Product(c, c)
            && (c > 0.0 ==> q > 0.0) && (c < 0.0 ==> q < 0.0)
  {
    hide Average, CrossSum, Product, Normalised, IsSquareRoot;
    var n := |x| - lag;
    var left, right := x[lag..], x[..n];
    var ml, mr := Average(left), Average(right);
    SquaresNonNegative(left, ml, n);
    SquaresNonNegative(right, mr, n);
    CauchySchwarz(left, right, ml, mr, n);
    NormalisedMeaning(CrossSum(left, right, ml, mr, n), CrossSum(left, left, ml, ml, n), CrossSum(right, right, mr, mr, n), root);
  }

  lemma NormalisedMeaning(c: real, l: real, r: real, root: real -> real)
    requires IsSquareRoot(root) && l >= 0.0 && r >= 0.0 && Product(c, c) <= Product(l, r)
    ensures var q := Normalised(c, l, r, root);
            && (Product(l, r) == 0.0 ==> q == 0.0)
            && Product(q, q) * Product(l, r) == Product(c, c)
            && (c > 0.0 ==> q > 0.0) && (c < 0.0 ==> q < 0.0)
  {
    ProductSigns(l, r);
    var d := root(Product(l, r));
    assert d >= 0.0 && Product(d, d) == Product(l, r);
    hide IsSquareRoot, Product;
    SquarePositive(d);
    SquarePositive(c);
    if d == 0.0 {
      ZeroSquare();
      ZeroTimes(Product(0.0, 0.0));
    } else {
      SquareOfQuotient(c, d);
      QuotientSign(c, d);
    }
  }

  lemma ZeroTimes(v: real)
    ensures v * 0.0 == 0.0
  {
  }

  lemma SquareOfQuotient(c: real, d: real)
    requires d > 0.0
    ensures Product(c / d, c / d) * Product(d, d) == Product(c, c)
  {
    var q := c / d;
    assert q * d == c;
    assert (q * q) * (d * d) == (q * d) * (q * d);
  }

  lemma QuotientSign(c: real, d: real)
    requires d > 0.0
    ensures c > 0.0 ==> c / d > 0.0
    ensures c < 0.0 ==> c / d < 0.0
  {
    var q := c / d;
    assert q * d == c;
  }

  /** Sum of the products of the samples themselves. */
  function ProductSum(a: seq<real>, b: seq<real>, n: nat): real
    requires n <= |a| && n <= |b|
  {
    if n == 0 then 0.0 else ProductSum(a, b, n - 1) + Product(a[n - 1], b[n - 1])
  }

  /** One more term, with `s`, `t` the sums so far of the two sides. */
  lemma ExpandTerm(u: real, v: real, mu: real, mv: real, s: real, t: real, k: real)
    ensures Product(u - mu, v - mv) - Product(mu, t) - Product(mv, s) + Product(k, Product(mu, mv)) ==
            Product(u, v) - Product(mu, t + v) - Product(mv, s + u) + Product(k + 1.0, Product(mu, mv))
  {
    ExpandProduct(u, v, mu, mv);
    DistributeReal(t, v, mu);
    DistributeReal(s, u, mv);
    DistributeReal(k, 1.0, Product(mu, mv));
  }

  lemma ExpandProduct(u: real, v: real, mu: real, mv: real)
    ensures Product(u - mu, v - mv) == Product(u, v) - Product(mu, v) - Product(mv, u) + Product(mu, mv)
  {
  }

  /** The centred sum in terms of plain sums. */
  lemma {:induction false} CrossSumExpands(a: seq<real>, b: seq<real>, ma: real, mb: real, n: nat)
    requires n <= |a| && n <= |b|
    ensures CrossSum(a, b, ma, mb, n) ==
            ProductSum(a, b, n) - Product(ma, Sum(b[..n])) - Product(mb, Sum(a[..n])) + Product(n as real, Product(ma, mb))
  {
    if n > 0 {
      hide Product;
      CrossSumExpands(a, b, ma, mb, n - 1);
      assert a[..n][..n - 1] == a[..n - 1] && b[..n][..n - 1] == b[..n - 1];
      assert Sum(a[..n]) == Sum(a[..n - 1]) + a[n - 1] && Sum(b[..n]) == Sum(b[..n - 1]) + b[n - 1];
      ExpandTerm(a[n - 1], b[n - 1], ma, mb, Sum(a[..n - 1]), Sum(b[..n - 1]), (n - 1) as real);
      assert n as real == (n - 1) as real + 1.0;
    } else {
      NothingYet(ma, mb);
    }
  }

  lemma NothingYet(ma: real, mb: real)
    ensures Product(ma, 0.0) == Product(mb, 0.0) == Product(0.0, Product(ma, mb)) == 0.0
  {
  }

  // ---- periodic demand ----

  /** Every sample equals the one before it. */
  predicate Constant(x: seq<real>) { forall i :: 0 < i < |x| ==> x[i] == x[i - 1] }

  /** A series that is not constant has a positive persistence error. */
  lemma PersistenceErrs(x: seq<real>)
    requires |x| >= 2 && !Constant(x)
    ensures LagError(x, 1) > 0.0
  {
    var n := |x| - 1;
    ZeroErrors(x[1..], x[..n], n);
    var i :| 0 < i < |x| && x[i] != x[i - 1];
    assert x[1..][i - 1] != x[..n][i - 1];
    PositiveQuotient(SumAbsError(x[1..], x[..n], n), n as real);
  }

  lemma PeriodicHalves(x: seq<real>, p: nat)
    requires 1 <= p <= |x| && Periodic(x, p)
    ensures x[p..] == x[..|x| - p]
  {
    assert forall i :: 0 <= i < |x| - p ==> x[p..][i] == x[i + p];
  }

  lemma NoErrorAtPeriod(x: seq<real>, p: nat)
    requires 1 <= p < |x| && Periodic(x, p)
    ensures LagError(x, p) == 0.0
  {
    PeriodicHalves(x, p);
    NoErrorSum(x[p..], |x| - p);
  }

  /** When the first `|x| - p` samples are all equal, so are the remaining ones. */
  lemma ConstantStartSpreads(x: seq<real>, p: nat, m: real)
    requires 1 <= p && 2 * p <= |x| && Periodic(x, p)
    requires forall i :: 0 <= i < |x| - p ==> x[i] == m
    ensures Constant(x)
  {
    forall i | 0 <= i < |x|
      ensures x[i] == m
    {
      if i >= p {
        assert x[i - p + p] == x[i - p];
      }
    }
  }

  lemma NormalisedPerfect(l: real, root: real -> real)
    requires IsSquareRoot(root) && l > 0.0
    ensures Normalised(l, l, l, root) == 1.0
  {
    ProductSigns(l, l);
    var d := root(Product(l, l));
    assert d >= 0.0 && Product(d, d) == Product(l, l);
    hide IsSquareRoot, Product;
    SquarePositive(l);
    SquarePositive(d);
    assert d == 0.0 ==> Product(d, d) == 0.0 by { ZeroSquare(); }
    assert d == l by {
      if d > l { SquaresGrow(d, l); }
      if 0.0 < d < l { SquaresGrow(l, d); }
    }
    SelfQuotient(l);
  }

  lemma SelfQuotient(d: real)
    requires d != 0.0
    ensures d / d == 1.0
  {
  }

  lemma ZeroSquare()
    ensures Product(0.0, 0.0) == 0.0
  {
  }

  /** A non-constant series correlates perfectly with itself one period earlier. */
  lemma PerfectAtPeriod(x: seq<real>, p: nat, root: real -> real)
    requires IsSquareRoot(root)
    requires 1 <= p && 2 * p <= |x| && Periodic(x, p) && !Constant(x)
    ensures Correlation(x, p, root) == 1.0
  {
    hide CrossSum, Average, Product, Normalised, IsSquareRoot;
    PeriodicHalves(x, p);
    var n := |x| - p;
    var half := x[..n];
    var m := Average(half);
    SquaresNonNegative(half, m, n);
    var l := CrossSum(half, half, m, m, n);
    assert l > 0.0 by {
      if l == 0.0 {
        assert forall i :: 0 <= i < n ==> half[i] == x[i];
        ConstantStartSpreads(x, p, m);
      }
    }
    NormalisedPerfect(l, root);
  }

  /** The search over a range holding the period ends with correlation 1 at a lag no longer than it. */
  lemma SearchFindsPeriod(x: seq<real>, lo: int, hi: int, root: real -> real, p: nat, lag: int, best: real)
    requires IsSquareRoot(root) && 2 <= lo <= p <= hi && 2 * p <= |x|
    requires Periodic(x, p) && !Constant(x)
    requires IsFirstBestLag(x, lo, hi, root, lag, best)
    ensures best == 1.0 && lo <= lag <= p
  {
    PersistenceErrs(x);
    NoErrorAtPeriod(x, p);
    PerfectAtPeriod(x, p, root);
    CorrelationRange(x, lag, root);
    hide Correlation, IsSquareRoot, LagError, Periodic, Constant;
    assert Tried(x, p);
  }

  // ---- the detected lag is a period ----

  function Line(slope: real, offset: real, v: real): real { slope * v + offset }

  /** Each sample is the value of one rising line at the sample `k` places later. */
  predicate Affine(x: seq<real>, k: nat, slope: real, offset: real) {
    slope > 0.0 && forall i :: 0 <= i < |x| - k ==> x[i] == Line(slope, offset, x[i + k])
  }

  lemma PerfectMeansEqual(c: real, l: real, r: real, root: real -> real)
    requires IsSquareRoot(root) && l >= 0.0 && r >= 0.0 && Normalised(c, l, r, root) == 1.0
    ensures c > 0.0 && l > 0.0 && Product(c, c) == Product(l, r)
  {
    ProductSigns(l, r);
    var d := root(Product(l, r));
    assert d > 0.0 && c / d == 1.0;
    assert c == c / d * d;
    ProductSigns(d, d);
  }

  lemma LowestIsZero(l: real, c: real, r: real, t: real)
    requires l > 0.0 && l * t == -c && Product(c, c) == Product(l, r)
    ensures Quadratic(l, c, r, t) == 0.0
  {
    assert l * (t * t) == (l * t) * t;
    var s := c * t + r;
    assert l * s == c * (l * t) + l * r;
    assert Quadratic(l, c, r, t) == s;
  }

  lemma NegativeFactor(l: real, t: real)
    requires l > 0.0 && l * t < 0.0
    ensures t < 0.0
  {
  }

  lemma OnLine(u: real, v: real, mu: real, mv: real, t: real)
    requires Combined(u - mu, v - mv, t) == 0.0
    ensures v == Line(-t, mv + mu * t, u)
  {
  }

  /** The equality case of Cauchy-Schwarz: a correlation of 1 puts all pairs of samples on one rising line. */
  lemma PerfectIsAffine(x: seq<real>, k: nat, root: real -> real) returns (slope: real, offset: real)
    requires IsSquareRoot(root) && 0 < k < |x| && Correlation(x, k, root) == 1.0
    ensures Affine(x, k, slope, offset)
  {
    hide Average, CrossSum, Product, Normalised, IsSquareRoot, Quadratic, Line, Combined;
    var n := |x| - k;
    var left, right := x[k..], x[..n];
    var ml, mr := Average(left), Average(right);
    var l, c, r := CrossSum(left, left, ml, ml, n), CrossSum(left, right, ml, mr, n), CrossSum(right, right, mr, mr, n);
    SquaresNonNegative(left, ml, n);
    SquaresNonNegative(right, mr, n);
    PerfectMeansEqual(c, l, r, root);
    var t := DivideOut(l, c);
    LowestIsZero(l, c, r, t);
    CombinedSquares(left, right, ml, mr, t, n);
    NegativeFactor(l, t);
    slope, offset := -t, mr + ml * t;
    forall i | 0 <= i < n
      ensures x[i] == Line(slope, offset, x[i + k])
    {
      assert left[i] == x[i + k] && right[i] == x[i];
      OnLine(left[i], right[i], ml, mr, t);
    }
  }

  lemma {:induction false} Extremes(x: seq<real>) returns (lo: nat, hi: nat)
    requires x != []
    ensures lo < |x| && hi < |x| && forall i :: 0 <= i < |x| ==> x[lo] <= x[i] <= x[hi]
  {
    if |x| == 1 {
      lo, hi := 0, 0;
    } else {
      var n := |x| - 1;
      lo, hi := Extremes(x[..n]);
      assert forall i :: 0 <= i < n ==> x[..n][i] == x[i];
      if x[n] < x[lo] { lo := n; }
      if x[n] > x[hi] { hi := n; }
    }
  }

  /** A value of a periodic series is taken both before the last `k` samples and after the first `k`. */
  lemma TakenOnBothSides(x: seq<real>, p: nat, k: nat, j: nat) returns (early: nat, late: nat)
    requires Periodic(x, p) && k <= p && 2 * p <= |x| && j < |x|
    ensures early < |x| - k && k <= late < |x| && x[early] == x[j] && x[late] == x[j]
  {
    early, late := j, j;
    if j >= |x| - k {
      early := j - p;
      assert x[early + p] == x[early];
    }
    if j < k {
      late := j + p;
      assert x[j + p] == x[j];
    }
  }

  lemma RisingLine(slope: real, offset: real, u: real, v: real)
    requires slope > 0.0 && u <= v
    ensures Line(slope, offset, u) <= Line(slope, offset, v)
  {
  }

  /** The shift maps the values of a periodic series onto themselves, so a rising line keeps the extreme ones. */
  lemma ExtremeIsFixed(x: seq<real>, p: nat, k: nat, slope: real, offset: real, j: nat)
    requires Periodic(x, p) && k <= p && 2 * p <= |x| && j < |x| && Affine(x, k, slope, offset)
    requires (forall i :: 0 <= i < |x| ==> x[i] <= x[j]) || (forall i :: 0 <= i < |x| ==> x[j] <= x[i])
    ensures x[j] == Line(slope, offset, x[j])
  {
    hide Line, Periodic;
    var early, late := TakenOnBothSides(x, p, k, j);
    assert x[early] == Line(slope, offset, x[early + k]);
    assert x[late - k] == Line(slope, offset, x[late - k + k]);
    if x[early + k] <= x[j] {
      RisingLine(slope, offset, x[early + k], x[j]);
    } else {
      RisingLine(slope, offset, x[j], x[early + k]);
    }
  }

  lemma TwoFixedPoints(slope: real, offset: real, u: real, v: real)
    requires u == Line(slope, offset, u) && v == Line(slope, offset, v) && u != v
    ensures slope == 1.0 && offset == 0.0
  {
    DistributeReal(u - v, v, slope);
    NoFactorZero(slope - 1.0, u - v);
  }

  lemma NoFactorZero(a: real, b: real)
    requires b != 0.0 && a * b == 0.0
    ensures a == 0.0
  {
  }

  lemma IdentityLine(v: real)
    ensures Line(1.0, 0.0, v) == v
  {
  }

  /** On periodic demand a perfect correlation at a lag no longer than the period makes the lag a period. */
  lemma PerfectLagIsPeriod(x: seq<real>, p: nat, k: nat, root: real -> real)
    requires IsSquareRoot(root) && Periodic(x, p) && !Constant(x) && 1 <= k <= p && 2 * p <= |x|
    requires Correlation(x, k, root) == 1.0
    ensures Periodic(x, k)
  {
    hide Correlation, IsSquareRoot, Line;
    var slope, offset := PerfectIsAffine(x, k, root);
    var lo, hi := Extremes(x);
    ExtremeIsFixed(x, p, k, slope, offset, lo);
    ExtremeIsFixed(x, p, k, slope, offset, hi);
    TwoFixedPoints(slope, offset, x[lo], x[hi]);
    forall i | 0 <= i < |x| - k
      ensures x[i + k] == x[i]
    {
      IdentityLine(x[i + k]);
    }
  }

  /** A correlation of 1 is found first at the shortest period in the range. */
  lemma FirstPerfectLag(x: seq<real>, lo: int, hi: int, root: real -> real, p: nat, lag: int, q: nat)
    requires IsSquareRoot(root) && 2 <= lo <= p <= hi && 2 * p <= |x|
    requires Periodic(x, p) && !Constant(x)
    requires IsFirstBestLag(x, lo, hi, root, lag, 1.0) && lo <= q < lag <= p
    ensures !Periodic(x, q)
  {
    if Periodic(x, q) {
      PersistenceErrs(x);
      NoErrorAtPeriod(x, q);
      PerfectAtPeriod(x, q, root);
      assert Tried(x, q);
    }
  }

  /** A period of a long enough start of a periodic series is a period of all of it. */
  lemma {:induction false} PeriodSpreads(y: seq<real>, n: nat, p: nat, k: nat, i: nat)
    requires Periodic(y, p) && 1 <= k <= p && 2 * p <= n <= |y| && Periodic(y[..n], k) && i + k < |y|
    ensures y[i + k] == y[i]
    decreases i
  {
    if i < n - k {
      assert y[..n][i + k] == y[..n][i];
    } else {
      PeriodSpreads(y, n, p, k, i - p);
      assert y[i - p + p] == y[i - p] && y[i + k - p + p] == y[i + k - p];
    }
  }

  lemma PeriodOfWhole(y: seq<real>, n: nat, p: nat, k: nat)
    requires Periodic(y, p) && 1 <= k <= p && 2 * p <= n <= |y| && Periodic(y[..n], k)
    ensures Periodic(y, k)
  {
    forall i | 0 <= i < |y| - k
      ensures y[i + k] == y[i]
    {
      PeriodSpreads(y, n, p, k, i);
    }
  }

  /** The demand repeats, not constantly, with a period among the searched lags. */
  ghost predicate HasPeriod(series: seq<Point>, o: Options, p: nat) {
    && Searches(series, o)
    && MinLag(o, InferStep(series)) <= p <= MaxLag(o, InferStep(series), |series|)
    && Periodic(Values(series), p) && !Constant(Values(series))
  }

  /**
   * On every exactly periodic series that is not constant and whose period is among the searched
   * lags, detection succeeds with correlation 1 and confidence 1, at the shortest searched period.
   */
  lemma PeriodicDemandIsDetected(series: seq<Point>, o: Options, root: real -> real, p: nat, bestLag: int, d: Detection)
    requires IsSquareRoot(root) && Detects(series, o, root, bestLag, d) && HasPeriod(series, o, p) && MinCorrelation(o) < 1.0
    ensures d.detected && d.correlation == 1.0 && d.confidence == Some(1.0)
    ensures 2 <= bestLag <= p && d.period == bestLag * InferStep(series)
    ensures HasPeriod(series, o, bestLag)
    ensures forall q :: 1 <= q < bestLag ==> !HasPeriod(series, o, q)
  {
    hide IsSquareRoot, IsFirstBestLag, Periodic, Constant, InferStep, MinCorrelation;
    var x, step := Values(series), InferStep(series);
    var lo, hi := MinLag(o, step), MaxLag(o, step, |series|);
    HalfCoversPeriod(|series|, MinCycles(o), p);
    SearchFindsPeriod(x, lo, hi, root, p, bestLag, d.correlation);
    SelfQuotient(1.0 - MinCorrelation(o));
    BestLagCorrelates(x, lo, hi, root, bestLag, d.correlation);
    PerfectLagIsPeriod(x, p, bestLag, root);
    forall q | 1 <= q < bestLag
      ensures !HasPeriod(series, o, q)
    {
      if HasPeriod(series, o, q) {
        FirstPerfectLag(x, lo, hi, root, p, bestLag, q);
      }
    }
  }

  lemma BestLagCorrelates(x: seq<real>, lo: int, hi: int, root: real -> real, lag: int, best: real)
    requires IsFirstBestLag(x, lo, hi, root, lag, best) && lag != 0
    ensures best == Correlation(x, lag, root)
  {
  }

  lemma HalfCoversPeriod(n: nat, cycles: int, p: nat)
    requires cycles >= 2 && p <= n / cycles
    ensures 2 * p <= n
  {
    var q := n / cycles;
    assert n >= cycles * q;
    assert (cycles - 2) * q >= 0;
  }
}
