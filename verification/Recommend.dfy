/** Sizing a recommendation from a demand forecast, then passing it through the safety evaluator. */
module Recommend {
  import opened Core
  import opened Bounds
  import opened Safety

  const CAPACITY_EPSILON := 0.000000001

  datatype State = Available | Suppressed | Unavailable

  datatype CapacityEstimate = CapacityEstimate(estimated: bool, perReplica: real)

  datatype Demand = Demand(
    at: Time, forecast: real, forecastFor: Time, current: real, replicas: int32, utilization: real,
    warmup: Duration, capacity: Option<CapacityEstimate>)

  datatype Recommendation = Recommendation(
    state: State, perReplica: real, raw: int32, bounds: Bounded, final: int32, delta: int32, reasons: seq<Reason>)

  predicate ValidDemand(d: Demand, g: Gates) {
    && !IsZeroTime(d.at) && !IsZeroTime(d.forecastFor)
    && d.forecast >= 0.0 && d.current >= 0.0 && d.replicas >= 0
    && 0.0 < d.utilization <= 1.0
    && d.warmup >= 0
    && Fraction(g.confidence) && Fraction(g.threshold)
    && ValidLimits(g.limits)
    && g.cooldown >= 0
  }

  // ---- arithmetic ----

  function Ceil(x: real): int { -((-x).Floor) }

  function EffectivePerReplicaCapacity(demand: real, replicas: int32, utilization: real): real
    requires utilization > 0.0
  {
    if demand <= 0.0 then 0.0
    else
      var observed := demand / (Max(1, replicas) as real * utilization);
      if observed < CAPACITY_EPSILON then CAPACITY_EPSILON else observed
  }

  function RequiredReplicas(forecast: real, perReplica: real): int32 {
    if forecast <= 0.0 || perReplica <= 0.0 then 0
    else
      CeilNonNegative(forecast, perReplica);
      var required := Ceil(forecast / perReplica);
      if required > MAX_INT32 then MAX_INT32 else required
  }

  lemma CeilNonNegative(x: real, y: real)
    requires x > 0.0 && y > 0.0
    ensures x / y > 0.0 && Ceil(x / y) >= 1
  {
    PositiveQuotient(x, y);
  }

  lemma ScaleReal(x: real, y: real, k: real)
    requires k > 0.0
    ensures x <= y <==> x * k <= y * k
  {
    if x <= y {
      assert (y - x) * k >= 0.0;
    } else {
      assert (x - y) * k > 0.0;
    }
  }

  /**
   * Below saturation the raw count is the least whose capacity covers the forecast: a count
   * covers it exactly when it is at least the raw one.
   */
  lemma RawIsLeastCover(forecast: real, perReplica: real, n: nat)
    requires perReplica > 0.0 && forecast <= MAX_INT32 as real * perReplica
    ensures n as real * perReplica >= forecast <==> n >= RequiredReplicas(forecast, perReplica)
  {
    if forecast > 0.0 {
      var q := forecast / perReplica;
      Quotient(forecast, perReplica);
      CeilIsLeast(q, n);
      CeilIsLeast(q, MAX_INT32);
      ScaleReal(q, n as real, perReplica);
      ScaleReal(q, MAX_INT32 as real, perReplica);
    } else {
      ScaleReal(0.0, n as real, perReplica);
    }
  }

  /** With one unit of capacity per replica, whole demand needs that many replicas. */
  lemma WholeDemand(n: nat)
    requires n <= MAX_INT32
    ensures RequiredReplicas(n as real, 1.0) == n
  {
    RawIsLeastCover(n as real, 1.0, n);
    if n > 0 {
      RawIsLeastCover(n as real, 1.0, n - 1);
    }
  }

  lemma Quotient(x: real, y: real)
    requires y > 0.0
    ensures (x / y) * y == x
  {
  }

  lemma CeilIsLeast(q: real, n: int)
    ensures n as real >= q <==> n >= Ceil(q)
  {
  }

  // ---- the decision, stated by conditions on the inputs ----

  function ReadyTime(d: Demand): Time { d.at + d.warmup }

  predicate CoversReadyTime(d: Demand) { d.forecastFor >= ReadyTime(d) }

  /** Positive forecast demand can be turned into replicas. */
  predicate HasBaseline(d: Demand) {
    d.forecast > 0.0 ==>
      && d.replicas >= 1
      && (d.capacity.None? ==> d.current > 0.0)
      && (d.capacity.Some? ==> d.capacity.value.estimated && d.capacity.value.perReplica > 0.0)
  }

  function PerReplica(d: Demand): real
    requires d.utilization > 0.0
  {
    if d.current <= 0.0 && d.forecast <= 0.0 then 0.0
    else if d.capacity.Some? then d.capacity.value.perReplica
    else EffectivePerReplicaCapacity(d.current, d.replicas, d.utilization)
  }

  function Raw(d: Demand): int32
    requires d.utilization > 0.0
  {
    RequiredReplicas(d.forecast, PerReplica(d))
  }

  function SafetyInput(d: Demand, g: Gates): Input
    requires d.utilization > 0.0
  {
    Input(d.at, d.replicas, Raw(d), g)
  }

  function Target(d: Demand, g: Gates): int32
    requires d.utilization > 0.0
  {
    Final(Raw(d), d.replicas, g.limits)
  }

  ghost predicate IsAvailable(d: Demand, g: Gates)
    requires d.utilization > 0.0
  {
    CoversReadyTime(d) && HasBaseline(d) && Passes(SafetyInput(d, g))
  }

  /** The calls that return a recommendation rather than an error. */
  predicate Accepts(d: Demand, g: Gates) {
    ValidDemand(d, g) && (CoversReadyTime(d) && HasBaseline(d) ==> Valid(SafetyInput(d, g)))
  }

  /** A sized recommendation is available exactly when its forecast reaches the ready time, it has a baseline and all gates are open. */
  lemma AvailableIff(d: Demand, g: Gates)
    requires d.utilization > 0.0 && Valid(SafetyInput(d, g))
    ensures IsAvailable(d, g) <==>
              && d.forecastFor >= d.at + d.warmup
              && (d.forecast > 0.0 ==>
                    && d.replicas >= 1
                    && (d.capacity.None? ==> d.current > 0.0)
                    && (d.capacity.Some? ==> d.capacity.value.estimated && d.capacity.value.perReplica > 0.0))
              && GatesOpen(g, d.at, d.replicas, Target(d, g))
  {
    hide Final, Raw, Passes, GatesOpen;
    PassesIff(SafetyInput(d, g));
  }

  /**
   * Without a capacity estimate the replicas running now, loaded to the target, stand for the current
   * demand: a count covers the forecast in that proportion exactly when it is at least the raw one.
   */
  lemma RawFromCurrentDemand(d: Demand, n: nat, load: real)
    requires 0.0 < d.utilization && d.capacity.None? && d.current > 0.0 && d.replicas >= 1 && d.forecast >= 0.0
    requires load == d.replicas as real * d.utilization
    requires d.current >= CAPACITY_EPSILON * load && d.forecast * load <= MAX_INT32 as real * d.current
    ensures n >= Raw(d) <==> n as real * d.current >= d.forecast * load
  {
    hide RequiredReplicas, EffectivePerReplicaCapacity;
    PositiveProduct(d.replicas as real, d.utilization);
    var perReplica := d.current / load;
    Quotient(d.current, load);
    ObservedCapacity(d.current, d.replicas, d.utilization, load, perReplica);
    Proportion(MAX_INT32, perReplica, load, d.current, d.forecast);
    RawIsLeastCover(d.forecast, perReplica, n);
    Proportion(n, perReplica, load, d.current, d.forecast);
  }

  lemma ObservedCapacity(demand: real, replicas: int32, utilization: real, load: real, perReplica: real)
    requires utilization > 0.0 && demand > 0.0 && load > 0.0 && replicas >= 1 && load == replicas as real * utilization
    requires CAPACITY_EPSILON * load <= demand && perReplica == demand / load && perReplica * load == demand
    ensures EffectivePerReplicaCapacity(demand, replicas, utilization) == perReplica > 0.0
  {
    ScaleReal(CAPACITY_EPSILON, perReplica, load);
    assert Max(1, replicas) == replicas;
  }

  lemma Proportion(n: nat, perReplica: real, load: real, current: real, forecast: real)
    requires load > 0.0 && perReplica * load == current
    ensures n as real * perReplica >= forecast <==> n as real * current >= forecast * load
  {
    ScaleReal(forecast, n as real * perReplica, load);
    assert (n as real * perReplica) * load == n as real * current;
  }

  // ---- the engine ----

  /** What keeps a recommendation from being sized at all, by the code that reports it. */
  predicate Prevents(d: Demand, c: Code) {
    match c
    case ForecastHorizonTooShort => !CoversReadyTime(d)
    case NoCapacityBaseline =>
      d.forecast > 0.0 && (d.replicas < 1
                           || (d.capacity.Some? && (!d.capacity.value.estimated || d.capacity.value.perReplica <= 0.0)))
    case NoCurrentDemandBaseline => d.forecast > 0.0 && d.current <= 0.0 && d.capacity.None?
    case _ => false
  }

  /** A missing baseline is reported as current demand only when there is no estimate to take its place; nothing else prevents sizing. */
  lemma PreventsMeaning(d: Demand)
    ensures Prevents(d, ForecastHorizonTooShort) <==> d.forecastFor < d.at + d.warmup
    ensures Prevents(d, NoCurrentDemandBaseline) <==> d.forecast > 0.0 && d.capacity.None? && d.current <= 0.0
    ensures Prevents(d, NoCapacityBaseline) <==>
              d.forecast > 0.0
              && (d.replicas < 1 || (d.capacity.Some? && !(d.capacity.value.estimated && d.capacity.value.perReplica > 0.0)))
    ensures forall c :: Prevents(d, c) ==>
              c == ForecastHorizonTooShort || c == NoCurrentDemandBaseline || c == NoCapacityBaseline
    ensures (exists c :: Prevents(d, c)) <==> !(CoversReadyTime(d) && HasBaseline(d))
  {
    assert Prevents(d, ForecastHorizonTooShort) || Prevents(d, NoCurrentDemandBaseline) || Prevents(d, NoCapacityBaseline)
           || (CoversReadyTime(d) && HasBaseline(d));
  }

  /** Reasons that make a recommendation unavailable before any sizing. */
  method AvailabilityReasons(d: Demand) returns (reasons: seq<Reason>)
    ensures reasons == [] <==> CoversReadyTime(d) && HasBaseline(d)
    ensures forall c :: HasCode(reasons, c) <==> Prevents(d, c)
  {
    reasons := [];
    AddIfCodes(reasons, !CoversReadyTime(d), Reason(ForecastHorizonTooShort, Plain));
    reasons := AddIf(reasons, !CoversReadyTime(d), Reason(ForecastHorizonTooShort, Plain));
    var noReplicas := d.replicas < 1 && d.forecast > 0.0;
    AddIfCodes(reasons, noReplicas, Reason(NoCapacityBaseline, Text("replicas")));
    reasons := AddIf(reasons, noReplicas, Reason(NoCapacityBaseline, Text("replicas")));
    var noDemand := d.current <= 0.0 && d.forecast > 0.0 && d.capacity.None?;
    AddIfCodes(reasons, noDemand, Reason(NoCurrentDemandBaseline, Plain));
    reasons := AddIf(reasons, noDemand, Reason(NoCurrentDemandBaseline, Plain));
    var noEstimate := d.forecast > 0.0 && d.capacity.Some?
                      && (!d.capacity.value.estimated || d.capacity.value.perReplica <= 0.0);
    AddIfCodes(reasons, noEstimate, Reason(NoCapacityBaseline, Text("estimate")));
    reasons := AddIf(reasons, noEstimate, Reason(NoCapacityBaseline, Text("estimate")));
  }

  /**
   * Available exactly when the forecast covers the ready time, a capacity baseline exists and
   * every configured gate passes; unavailable exactly when one of the first two fails.
   */
  method Recommend(d: Demand, g: Gates) returns (r: Result<Recommendation, Error>)
    ensures r.Ok? <==> Accepts(d, g)
    ensures r.Ok? ==> (r.value.state == Available <==> IsAvailable(d, g))
    ensures r.Ok? ==> (r.value.state == Unavailable <==> !(CoversReadyTime(d) && HasBaseline(d)))
    ensures r.Ok? && r.value.state != Unavailable ==>
              && r.value.raw == Raw(d) && r.value.perReplica == PerReplica(d)
              && r.value.bounds == ApplyBounds(Raw(d), d.replicas, g.limits)
              && r.value.final == Target(d, g)
              && r.value.delta == r.value.final - d.replicas
              && forall c :: HasCode(r.value.reasons, c) <==> Blocks(SafetyInput(d, g), c)
    ensures r.Ok? && r.value.state == Unavailable ==>
              r.value.final == 0 && r.value.reasons != [] && forall c :: HasCode(r.value.reasons, c) <==> Prevents(d, c)
    ensures r.Ok? ==> (r.value.state == Available <==> r.value.reasons == [])
  {
    if !ValidDemand(d, g) {
      return Err(InvalidInput);
    }
    var reasons := AvailabilityReasons(d);
    if reasons != [] {
      return Ok(Recommendation(Unavailable, 0.0, 0, Bounded(0, 0, false, false, false), 0, 0, reasons));
    }
    var perReplica := EffectivePerReplicaCapacity(d.current, d.replicas, d.utilization);
    if d.capacity.Some? {
      perReplica := d.capacity.value.perReplica;
    }
    var raw := 0;
    if d.current <= 0.0 && d.forecast <= 0.0 {
      perReplica := 0.0;
    } else {
      raw := RequiredReplicas(d.forecast, perReplica);
    }
    assert raw == Raw(d) && perReplica == PerReplica(d);
    var checked := Evaluate(Input(d.at, d.replicas, raw, g));
    if checked.Err? {
      return Err(InvalidInput);
    }
    var bounds := checked.value.bounds;
    FinalInRange(raw, d.replicas, g.limits);
    reasons := Dedupe(checked.value.reasons);
    DedupeKeepsCodes(checked.value.reasons);
    return Ok(Recommendation(if reasons != [] then Suppressed else Available, perReplica, raw, bounds,
                             bounds.final, bounds.final - d.replicas, reasons));
  }

  /**
   * A sized recommendation covers the forecast demand exactly when the limits leave the raw count
   * within reach of the current one.
   */
  lemma CoversDemandIff(forecast: real, perReplica: real, current: int32, l: Limits)
    requires ValidLimits(l) && perReplica > 0.0 && forecast <= MAX_INT32 as real * perReplica
    ensures var raw := RequiredReplicas(forecast, perReplica);
            Final(raw, current, l) as real * perReplica >= forecast <==> WithinReach(raw, current, l)
  {
    hide ApplyBounds, WithinReach, RequiredReplicas;
    var raw := RequiredReplicas(forecast, perReplica);
    FinalInRange(raw, current, l);
    RawIsLeastCover(forecast, perReplica, Final(raw, current, l));
    FinalCoversRaw(raw, current, l);
  }

  /** A correction from below the minimum may leave forecast demand uncovered with no limit reported as step or maximum. */
  lemma CorrectionMayUndersize()
    ensures var l := Limits(3, 10, None, None);
            var b := ApplyBounds(RequiredReplicas(8.0, 1.0), 1, l);
            RequiredReplicas(8.0, 1.0) == 8 <= l.max && !b.stepUpBounded && b.final == 3
  {
    RawIsLeastCover(8.0, 1.0, 8);
    RawIsLeastCover(8.0, 1.0, 7);
  }
}
