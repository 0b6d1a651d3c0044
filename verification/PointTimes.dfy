/** When the points of a forecast carry the demand of the times they are stamped with. */
module PointTimes {
  import opened Core
  import opened Points
  import opened Forecasting
  import opened SeasonalNaive
  import opened HoltWinters
  import opened Periods
  import opened Auto
  import opened DetectedSeason

  /** Samples one step apart. */
  predicate Spaced(y: seq<Point>, step: Duration) {
    forall i :: 0 < i < |y| ==> y[i].at == y[i - 1].at + step
  }

  /** Every forecast point is the demand at its time: it is one of the samples of `y`. */
  predicate OnTime(points: seq<Point>, y: seq<Point>) {
    forall i :: 0 <= i < |points| ==> points[i] in y
  }

  lemma {:induction false} SpacedAt(y: seq<Point>, step: Duration, i: nat, j: nat)
    requires Spaced(y, step) && i <= j < |y|
    ensures y[j].at == y[i].at + (j - i) * step
  {
    if i < j {
      SpacedAt(y, step, i, j - 1);
      Distribute(j - 1 - i, 1, step);
    }
  }

  /** Times on the samples' grid tell the index. */
  lemma IndexOfTime(y: seq<Point>, step: Duration, i: nat, j: nat, d: int)
    requires Spaced(y, step) && step > 0 && i < |y| && j < |y|
    ensures y[j].at == y[i].at + d * step <==> j == i + d
  {
    if i <= j {
      SpacedAt(y, step, i, j);
      SameFactor(j - i, d, step);
    } else {
      SpacedAt(y, step, j, i);
      SameFactor(j - i, d, step);
      assert (j - i) * step == -((i - j) * step);
    }
  }

  lemma SameFactor(a: int, b: int, step: nat)
    requires step > 0
    ensures a * step == b * step <==> a == b
  {
    if a * step == b * step {
      Distribute(a - b, b, step);
      SmallMultiple(a - b, step, 0);
    }
  }

  /** A demand `y` at one sample per step that starts with the series and outlasts the forecast. */
  predicate Outlasts(y: seq<Point>, p: Prepared, spacing: Duration)
    requires p.series != []
  {
    && spacing > 0 && p.step > 0 && Spaced(y, spacing)
    && |p.series| < |y| && p.series == y[..|p.series|]
    && y[|y| - 1].at >= p.generatedAt + p.step * p.horizonPoints
    && p.generatedAt >= p.series[|p.series| - 1].at
  }

  /** How far the forecast starts after the last sample. */
  function Lateness(p: Prepared): Duration
    requires p.series != []
  {
    p.generatedAt - p.series[|p.series| - 1].at
  }

  /** One point per step of the horizon, carrying in order the samples of `y` after the series. */
  predicate Stamped(p: Prepared, points: seq<Point>, y: seq<Point>) {
    && |points| == p.horizonPoints
    && forall i :: 0 <= i < |points| ==>
         && points[i].at == p.generatedAt + p.step * (i + 1)
         && (|p.series| + i < |y| ==> points[i].value == y[|p.series| + i].value)
  }

  lemma NaiveIsStamped(p: Prepared, y: seq<Point>, k: nat)
    requires Shaped(p) && Enough(p) && Outlasts(y, p, p.step)
    requires k >= 1 && Periodic(Values(y), k) && p.seasonPoints % k == 0
    ensures Stamped(p, NaiveResult(p).points, y)
  {
    hide Periodic, NaiveForecast, ValidationOf;
    DividedPeriod(Values(y), k, p.seasonPoints);
    assert Values(p.series) == Values(y)[..|p.series|];
    SelectedPointsContinueDemand(p, Values(y));
  }

  /** A point of a forecast `m` steps late is the sample `m` places after the one whose value it carries, if any. */
  lemma PointOfLateForecast(p: Prepared, points: seq<Point>, y: seq<Point>, m: nat, i: nat)
    requires p.series != [] && Outlasts(y, p, p.step) && Stamped(p, points, y) && i < |points|
    requires Lateness(p) == m * p.step
    ensures |p.series| + m + i < |y|
    ensures points[i] in y <==> y[|p.series| + m + i].value == y[|p.series| + i].value
  {
    var n, step := |p.series|, p.step;
    assert p.series[n - 1] == y[n - 1];
    Distribute(m, i + 1, step);
    Commute(step, i + 1);
    LongEnough(p, y, m + i + 1) by {
      ScaleLe(i + 1, p.horizonPoints, step);
      Commute(step, p.horizonPoints);
    }
    var j := n + m + i;
    IndexOfTime(y, step, n - 1, j, m + i + 1);
    assert y[j].at == points[i].at;
    if points[i] in y {
      var l :| 0 <= l < |y| && y[l] == points[i];
      IndexOfTime(y, step, n - 1, l, m + i + 1);
    } else {
      assert y[j] in y;
    }
  }

  /** A forecast a whole number of periods late is on time. */
  lemma WholePeriodsAreOnTime(p: Prepared, points: seq<Point>, y: seq<Point>, k: nat, c: nat)
    requires p.series != [] && Outlasts(y, p, p.step) && Stamped(p, points, y)
    requires Periodic(Values(y), k) && c * k >= 0 && Lateness(p) == (c * k) * p.step
    ensures OnTime(points, y)
  {
    hide Periodic, Outlasts, Stamped;
    MultipleOfPeriod(Values(y), k, c);
    forall i | 0 <= i < |points|
      ensures points[i] in y
    {
      PointOfLateForecast(p, points, y, c * k, i);
      ShiftValue(Values(y), c * k, |p.series| + i);
    }
  }

  lemma ShiftValue(x: seq<real>, shift: nat, i: nat)
    requires Periodic(x, shift) && i + shift < |x|
    ensures x[i + shift] == x[i]
  {
  }

  lemma LongEnough(p: Prepared, y: seq<Point>, d: nat)
    requires p.series != [] && Outlasts(y, p, p.step)
    requires p.series[|p.series| - 1].at + d * p.step <= p.generatedAt + p.step * p.horizonPoints
    ensures |p.series| - 1 + d < |y|
  {
    var n := |p.series|;
    assert p.series[n - 1] == y[n - 1];
    SpacedAt(y, p.step, n - 1, |y| - 1);
    if d > |y| - n {
      ScaleLe(|y| - n + 1, d, p.step);
      Distribute(|y| - n, 1, p.step);
    }
  }

  /** A forecast that is on time over a whole shortest period is a whole number of periods late. */
  lemma OnTimeMeansWholePeriods(p: Prepared, points: seq<Point>, y: seq<Point>, k: nat)
    requires p.series != [] && Outlasts(y, p, p.step) && Stamped(p, points, y)
    requires Shortest(Values(y), k) && k <= |points| && OnTime(points, y)
    ensures k * p.step > 0 && Lateness(p) % (k * p.step) == 0
  {
    var n := |p.series|;
    var first :| 0 <= first < |y| && y[first] == points[0];
    var m := first - n;
    LatenessInSteps(p, y, first);
    hide Shortest, Outlasts, Stamped;
    PointOfLateForecast(p, points, y, m, k - 1);
    forall i | n <= i < n + k
      ensures Values(y)[i + m] == Values(y)[i]
    {
      PointOfLateForecast(p, points, y, m, i - n);
    }
    MatchingShift(Values(y), k, n, m);
    WholePeriods(m, k, p.step);
  }

  lemma WholePeriods(m: nat, k: nat, step: nat)
    requires k >= 1 && step >= 1 && m % k == 0
    ensures k * step > 0 && (m * step) % (k * step) == 0
  {
    var c := m / k;
    assert m == c * k;
    assert (c * k) * step == c * (k * step);
    PositiveTimes(k, step);
    ModUnique(m * step, k * step, c, 0);
  }

  lemma LatenessInSteps(p: Prepared, y: seq<Point>, first: nat)
    requires p.series != [] && Outlasts(y, p, p.step) && first < |y| && y[first].at == p.generatedAt + p.step
    ensures first >= |p.series| && Lateness(p) == (first - |p.series|) * p.step
  {
    var n := |p.series|;
    assert p.series[n - 1] == y[n - 1];
    if first < n {
      SpacedAt(y, p.step, first, n - 1);
      ScaleLe(0, n - 1 - first, p.step);
    } else {
      SpacedAt(y, p.step, n - 1, first);
      Distribute(first - n, 1, p.step);
    }
  }

  /**
   * On samples one step apart, with a season that is a multiple of the demand's shortest period, a
   * forecast that starts a whole number of those periods after the last sample carries at every time
   * the demand of that time, and none that covers a period does so otherwise.
   */
  lemma PointsOnTimeIff(p: Prepared, y: seq<Point>, k: nat)
    requires Shaped(p) && Enough(p) && Outlasts(y, p, p.step)
    requires Shortest(Values(y), k) && p.seasonPoints % k == 0
    ensures k * p.step > 0 && (Lateness(p) % (k * p.step) == 0 ==> OnTime(NaiveResult(p).points, y))
    ensures k <= p.horizonPoints ==> (OnTime(NaiveResult(p).points, y) <==> Lateness(p) % (k * p.step) == 0)
  {
    hide NaiveResult, Periodic, Outlasts, Stamped, OnTime;
    OutlastsShape(p, y);
    PositiveTimes(k, p.step);
    NaiveIsStamped(p, y, k);
    var points := NaiveResult(p).points;
    NaivePointValues(p);
    if Lateness(p) % (k * p.step) == 0 {
      var c := Lateness(p) / (k * p.step);
      assert c * (k * p.step) == (c * k) * p.step;
      MultipleOfPeriod(Values(y), k, c);
      WholePeriodsAreOnTime(p, points, y, k, c);
    } else if k <= p.horizonPoints && OnTime(points, y) {
      OnTimeMeansWholePeriods(p, points, y, k);
    }
  }

  lemma OutlastsShape(p: Prepared, y: seq<Point>)
    requires p.series != [] && Outlasts(y, p, p.step)
    ensures p.step > 0 && Lateness(p) >= 0
  {
  }

  /** Two points closer together than the samples are never both on time. */
  lemma FinerStepIsNeverOnTime(p: Prepared, y: seq<Point>, spacing: Duration, values: seq<real>)
    requires p.series != [] && Outlasts(y, p, spacing) && p.step < spacing && |values| >= 2
    ensures !OnTime(ForecastPoints(p.generatedAt, p.step, values), y)
  {
    var points := ForecastPoints(p.generatedAt, p.step, values);
    if OnTime(points, y) {
      var i :| 0 <= i < |y| && y[i] == points[0];
      var j :| 0 <= j < |y| && y[j] == points[1];
      if i <= j {
        SpacedAt(y, spacing, i, j);
        SmallMultiple(j - i, spacing, p.step);
      } else {
        SpacedAt(y, spacing, j, i);
        SmallMultiple(i - j, spacing, -p.step);
      }
    }
  }

  // ---- a late evaluation ----

  function LateInput(): Input { Input(Alternation(6), Minutes(35), Minutes(10), Minutes(5), Minutes(10)) }

  lemma LateIsValid()
    ensures ValidInput(LateInput())
  {
    hide Alternation;
    AlternationShape(6);
  }

  lemma LatePrepared()
    ensures Prepare(LateInput()) == Ok(Prepared(Alternation(6), Minutes(35), Minutes(5), 2, 2))
  {
    hide ValidInput, InferStep, Alternation;
    LateIsValid();
    LateLast();
  }

  lemma AlternationForecast()
    ensures NaiveForecast(Values(Alternation(6)), 2, 2) == [1.0, 3.0]
  {
    assert Values(Alternation(6)) == [1.0, 3.0, 1.0, 3.0, 1.0, 3.0];
  }

  lemma LateLast()
    ensures |Alternation(6)| == 6 && Alternation(6)[5].at == Minutes(30)
  {
  }

  lemma AlternationContinues()
    ensures Alternation(6) == Alternation(10)[..6]
    ensures |Alternation(10)| == 10 && Alternation(10)[9].at == Minutes(50)
    ensures Alternation(10)[7..9] == [Point(Minutes(40), 3.0), Point(Minutes(45), 1.0)]
  {
  }

  lemma AlternationOutlasts()
    ensures Outlasts(Alternation(10), Prepared(Alternation(6), Minutes(35), Minutes(5), 2, 2), Minutes(5))
  {
    hide Alternation;
    AlternationShape(10);
    LateLast();
    AlternationContinues();
  }

  /** Evaluated one sample late, the alternating demand is forecast upside down. */
  lemma LateForecastIsOffTime()
    ensures Prepare(LateInput()).Ok?
    ensures var p := Prepare(LateInput()).value;
            && Shaped(p) && Enough(p) && Outlasts(Alternation(10), p, Minutes(5))
            && NaiveResult(p).points == [Point(Minutes(40), 1.0), Point(Minutes(45), 3.0)]
            && Alternation(10)[7..9] == [Point(Minutes(40), 3.0), Point(Minutes(45), 1.0)]
  {
    hide Prepare, NaiveForecast, ValidationOf, Outlasts, ConfidenceFrom, DeriveReliability, Alternation;
    LatePrepared();
    LateLast();
    AlternationContinues();
    AlternationForecast();
    AlternationOutlasts();
  }
}
