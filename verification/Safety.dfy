/** The safety evaluator: replica bounds plus the gates that suppress a recommendation. */
module Safety {
  import opened Core
  import opened Bounds
  import Headroom

  datatype Code =
    | OperatorPaused | OperatorDisabled | TelemetryNotReady | LowConfidence
    | ModelDivergenceTooHigh | ForecastErrorTooHigh | CircuitBreakerOpen
    | BlackoutWindowActive | DependencyHealthFailed | CooldownActive
    | MissingNodeHeadroom | StaleNodeHeadroom | UnsupportedNodeHeadroom
    | UncertainNodeHeadroom | InsufficientNodeHeadroom
    | ForecastHorizonTooShort | NoCapacityBaseline | NoCurrentDemandBaseline | ForecastUnavailable

  /** What distinguishes the messages of two reasons with the same code. */
  datatype Detail = Plain | Text(text: string) | Named(name: string) | Ratio(name: string, ratio: real, minimum: real)

  /** Category and severity are functions of the code. */
  datatype Reason = Reason(code: Code, detail: Detail)

  datatype OperatorMode = UnsetOperator | Enabled | Paused | Disabled | UnrecognisedOperator

  datatype TelemetryLevel = Ready | Degraded | Unsupported | UnrecognisedLevel

  datatype HeadroomMode = UnsetMode | DisabledMode | RequireForScaleUp | UnrecognisedMode

  /** The last surfaced recommendation. */
  datatype Previous = Previous(replicas: int32, changedAt: Time)

  /** A measured value and the most it may be. */
  datatype Ceiling = Ceiling(measured: real, allowed: real)

  datatype Window = Window(name: string, start: Time, end: Time)

  datatype Dependency = Dependency(name: string, healthy: bool, ratio: real, minimum: real, message: string)

  datatype Breaker = Breaker(poorRun: int, maxPoorRun: int, poorFraction: real, maxPoorFraction: real, window: int)

  /** The limits and gate inputs a recommendation carries unchanged into the safety evaluator. */
  datatype Gates = Gates(
    limits: Limits, confidence: real, threshold: real, telemetry: Option<TelemetryLevel>,
    divergence: Option<Ceiling>, forecastError: Option<Ceiling>, blackouts: seq<Window>,
    dependencies: seq<Dependency>, cooldown: Duration, last: Option<Previous>,
    headroomMode: HeadroomMode, headroom: Option<Headroom.Signal>, operator: OperatorMode, breaker: Option<Breaker>)

  datatype Input = Input(at: Time, current: int32, raw: int32, gates: Gates)

  datatype Outcome = Outcome(bounds: Bounded, suppressed: bool, reasons: seq<Reason>, headroom: Option<Headroom.Assessment>)

  datatype Error = InvalidInput

  // ---- validation ----

  predicate Fraction(x: real) { 0.0 <= x <= 1.0 }

  predicate ValidCeiling(c: Ceiling) { c.measured >= 0.0 && c.allowed > 0.0 }

  predicate ValidBreaker(b: Breaker) {
    && b.poorRun >= 0 && b.maxPoorRun >= 0 && b.window >= 0
    && Fraction(b.poorFraction) && Fraction(b.maxPoorFraction)
  }

  predicate ValidGates(g: Gates) {
    && g.operator != UnrecognisedOperator
    && g.headroomMode != UnrecognisedMode
    && ValidLimits(g.limits)
    && Fraction(g.confidence) && Fraction(g.threshold)
    && g.cooldown >= 0
    && (g.last.Some? ==> g.last.value.replicas >= 0)
    && (g.headroom.Some? ==> Headroom.ValidSignal(g.headroom.value))
    && g.telemetry != Some(UnrecognisedLevel)
    && (g.divergence.Some? ==> ValidCeiling(g.divergence.value))
    && (g.forecastError.Some? ==> ValidCeiling(g.forecastError.value))
    && (forall w :: w in g.blackouts ==>
          w.name != "" && !IsZeroTime(w.start) && !IsZeroTime(w.end) && w.start < w.end)
    && (forall d :: d in g.dependencies ==> d.name != "" && Fraction(d.ratio) && Fraction(d.minimum))
    && (g.breaker.Some? ==> ValidBreaker(g.breaker.value))
  }

  predicate Valid(input: Input) {
    && ValidGates(input.gates)
    && !IsZeroTime(input.at)
    && input.current >= 0 && input.raw >= 0
  }

  // ---- what each gate blocks on ----

  predicate Open(b: Breaker) {
    || (b.maxPoorRun > 0 && b.poorRun >= b.maxPoorRun)
    || (b.window > 0 && b.maxPoorFraction > 0.0 && b.poorFraction >= b.maxPoorFraction)
  }

  predicate Healthy(d: Dependency) { d.healthy && (d.minimum > 0.0 ==> d.ratio >= d.minimum) }

  predicate Covers(w: Window, t: Time) { w.start <= t <= w.end }

  function FinalOf(input: Input): int32 { Final(input.raw, input.current, input.gates.limits) }

  /** A different count than last time, inside the cooldown that the last one started. */
  predicate CoolingDown(g: Gates, at: Time, final: int32) {
    && g.cooldown > 0
    && g.last.Some?
    && !IsZeroTime(g.last.value.changedAt)
    && final != g.last.value.replicas
    && at < g.last.value.changedAt + g.cooldown
  }

  predicate NeedsHeadroom(input: Input) {
    input.gates.headroomMode == RequireForScaleUp && FinalOf(input) > input.current
  }

  /** The code that reports a verdict other than sufficient. */
  function HeadroomCode(signal: Option<Headroom.Signal>, status: Headroom.Status): Code {
    if status == Headroom.Insufficient then InsufficientNodeHeadroom
    else if signal.None? then MissingNodeHeadroom
    else
      match Headroom.Normalized(signal.value.state)
      case Missing => MissingNodeHeadroom
      case Stale => StaleNodeHeadroom
      case Unsupported => UnsupportedNodeHeadroom
      case _ => UncertainNodeHeadroom
  }

  /** Scaling up needs headroom for the added pods, and the placement verdict on them is not sufficient. */
  ghost predicate LacksHeadroom(input: Input, c: Code) {
    && NeedsHeadroom(input)
    && FinalOf(input) - input.current >= 0
    && var verdict := Headroom.Verdict(input.gates.headroom, FinalOf(input) - input.current);
       verdict != Headroom.Sufficient && HeadroomCode(input.gates.headroom, verdict) == c
  }

  /** The gate reported by code `c` rejects this input. */
  ghost predicate Blocks(input: Input, c: Code) {
    var g := input.gates;
    match c
    case OperatorPaused => g.operator == Paused
    case OperatorDisabled => g.operator == Disabled
    case TelemetryNotReady => g.telemetry.Some? && g.telemetry.value != Ready
    case LowConfidence => g.confidence < g.threshold
    case ModelDivergenceTooHigh => g.divergence.Some? && g.divergence.value.measured > g.divergence.value.allowed
    case ForecastErrorTooHigh => g.forecastError.Some? && g.forecastError.value.measured > g.forecastError.value.allowed
    case CircuitBreakerOpen => g.breaker.Some? && Open(g.breaker.value)
    case BlackoutWindowActive => exists w :: w in g.blackouts && Covers(w, input.at)
    case DependencyHealthFailed => exists d :: d in g.dependencies && !Healthy(d)
    case CooldownActive => CoolingDown(g, input.at, FinalOf(input))
    case _ => LacksHeadroom(input, c)
  }

  /** Every configured gate lets the input through. */
  ghost predicate Passes(input: Input) { forall c :: !Blocks(input, c) }

  // ---- the gates, told one by one ----

  /** Nothing speaks against surfacing `target` from `current` at the time `at`. */
  ghost predicate GatesOpen(g: Gates, at: Time, current: int32, target: int32) {
    && (g.operator == UnsetOperator || g.operator == Enabled)
    && (g.telemetry.None? || g.telemetry == Some(Ready))
    && g.confidence >= g.threshold
    && (g.divergence.Some? ==> g.divergence.value.measured <= g.divergence.value.allowed)
    && (g.forecastError.Some? ==> g.forecastError.value.measured <= g.forecastError.value.allowed)
    && (g.breaker.Some? ==> BreakerHolds(g.breaker.value))
    && (forall w :: w in g.blackouts ==> at < w.start || w.end < at)
    && (forall d :: d in g.dependencies ==> d.healthy && (d.minimum > 0.0 ==> d.ratio >= d.minimum))
    && (g.cooldown > 0 && g.last.Some? && g.last.value.changedAt != 0 && target != g.last.value.replicas ==>
          at >= g.last.value.changedAt + g.cooldown)
    && (g.headroomMode == RequireForScaleUp && target > current ==> Headroom.HasPlacement(g.headroom, target - current))
  }

  /** Neither too many poor forecasts in a row nor too large a share of them, where these are limited. */
  predicate BreakerHolds(b: Breaker) {
    && (b.maxPoorRun <= 0 || b.poorRun < b.maxPoorRun)
    && (b.window <= 0 || b.maxPoorFraction <= 0.0 || b.poorFraction < b.maxPoorFraction)
  }

  /** A valid input is let through exactly when every gate is open for its bounded count. */
  lemma PassesIff(input: Input)
    requires Valid(input)
    ensures Passes(input) <==>
            GatesOpen(input.gates, input.at, input.current, Final(input.raw, input.current, input.gates.limits))
  {
    hide Final, Headroom.HasPlacement, Headroom.Verdict;
    var g, target := input.gates, FinalOf(input);
    if NeedsHeadroom(input) {
      Headroom.SufficientIff(g.headroom, target - input.current);
      var verdict := Headroom.Verdict(g.headroom, target - input.current);
      if verdict != Headroom.Sufficient {
        assert Blocks(input, HeadroomCode(g.headroom, verdict));
      }
    }
    if GatesOpen(g, input.at, input.current, target) {
      forall c
        ensures !Blocks(input, c)
      {
      }
    }
    if Passes(input) {
      assert !Blocks(input, OperatorPaused) && !Blocks(input, OperatorDisabled) && !Blocks(input, TelemetryNotReady);
      assert !Blocks(input, LowConfidence) && !Blocks(input, ModelDivergenceTooHigh) && !Blocks(input, ForecastErrorTooHigh);
      assert !Blocks(input, CircuitBreakerOpen) && !Blocks(input, BlackoutWindowActive);
      assert !Blocks(input, DependencyHealthFailed) && !Blocks(input, CooldownActive);
    }
  }

  /** Which condition each gate's code reports. */
  lemma BlocksMeaning(input: Input)
    requires Valid(input)
    ensures var g, target := input.gates, Final(input.raw, input.current, input.gates.limits);
            && (Blocks(input, OperatorPaused) <==> g.operator == Paused)
            && (Blocks(input, OperatorDisabled) <==> g.operator == Disabled)
            && (Blocks(input, TelemetryNotReady) <==> g.telemetry == Some(Degraded) || g.telemetry == Some(Unsupported))
            && (Blocks(input, LowConfidence) <==> g.confidence < g.threshold)
            && (Blocks(input, ModelDivergenceTooHigh) <==>
                  g.divergence.Some? && g.divergence.value.allowed < g.divergence.value.measured)
            && (Blocks(input, ForecastErrorTooHigh) <==>
                  g.forecastError.Some? && g.forecastError.value.allowed < g.forecastError.value.measured)
            && (Blocks(input, CircuitBreakerOpen) <==> g.breaker.Some? && !BreakerHolds(g.breaker.value))
            && (Blocks(input, BlackoutWindowActive) <==> exists w :: w in g.blackouts && w.start <= input.at <= w.end)
            && (Blocks(input, DependencyHealthFailed) <==>
                  exists d :: d in g.dependencies && (!d.healthy || (0.0 < d.minimum && d.ratio < d.minimum)))
            && (Blocks(input, CooldownActive) <==>
                  g.cooldown > 0 && g.last.Some? && g.last.value.changedAt != 0 && target != g.last.value.replicas
                  && input.at < g.last.value.changedAt + g.cooldown)
  {
    hide Final;
  }

  /** Which verdict on a gated scale-up each headroom code reports; a check that is not needed reports none. */
  lemma HeadroomBlocksMeaning(input: Input)
    requires Valid(input)
    ensures var g, target := input.gates, Final(input.raw, input.current, input.gates.limits);
            var gated := g.headroomMode == RequireForScaleUp && target > input.current;
            && (Blocks(input, MissingNodeHeadroom) <==>
                  gated && (g.headroom.None? || g.headroom.value.state == Headroom.Unset || g.headroom.value.state == Headroom.Missing))
            && (Blocks(input, StaleNodeHeadroom) <==> gated && g.headroom.Some? && g.headroom.value.state == Headroom.Stale)
            && (Blocks(input, UnsupportedNodeHeadroom) <==>
                  gated && g.headroom.Some? && g.headroom.value.state == Headroom.Unsupported)
            && (Blocks(input, InsufficientNodeHeadroom) <==>
                  gated && Headroom.Verdict(g.headroom, target - input.current) == Headroom.Insufficient)
            && (Blocks(input, UncertainNodeHeadroom) <==>
                  gated && g.headroom.Some? && g.headroom.value.state == Headroom.Ready
                  && Headroom.Verdict(g.headroom, target - input.current) == Headroom.Uncertain)
  {
    hide Final, Headroom.FitInto, Headroom.CanPlace;
  }

  // ---- reasons ----

  predicate HasCode(rs: seq<Reason>, c: Code) { exists r :: r in rs && r.code == c }

  function AddIf(rs: seq<Reason>, blocked: bool, r: Reason): seq<Reason> {
    if blocked then rs + [r] else rs
  }

  lemma AddIfCodes(rs: seq<Reason>, blocked: bool, r: Reason)
    ensures forall c :: HasCode(AddIf(rs, blocked, r), c) <==> HasCode(rs, c) || (blocked && c == r.code)
  {
    forall c
      ensures HasCode(AddIf(rs, blocked, r), c) <==> HasCode(rs, c) || (blocked && c == r.code)
    {
      if blocked && c == r.code {
        assert r in rs + [r];
      }
      if HasCode(rs, c) {
        var x :| x in rs && x.code == c;
        assert x in AddIf(rs, blocked, r);
      }
    }
  }

  function DependencyDetail(d: Dependency): Detail {
    if d.message != "" then Text(d.message)
    else if d.minimum > 0.0 then Ratio(d.name, d.ratio, d.minimum)
    else Named(d.name)
  }

  /** The first listed window that covers the time. */
  method ActiveBlackoutWindow(at: Time, windows: seq<Window>) returns (active: Option<Window>)
    ensures active.None? ==> forall w :: w in windows ==> !Covers(w, at)
    ensures active.Some? ==> exists i :: 0 <= i < |windows| && windows[i] == active.value && Covers(windows[i], at)
                                         && forall j :: 0 <= j < i ==> !Covers(windows[j], at)
  {
    for i := 0 to |windows|
      invariant forall j :: 0 <= j < i ==> !Covers(windows[j], at)
    {
      if Covers(windows[i], at) {
        return Some(windows[i]);
      }
    }
    return None;
  }

  /** One reason for each unhealthy dependency, in the order listed. */
  function DependencyFailures(dependencies: seq<Dependency>): seq<Reason> {
    if dependencies == [] then []
    else
      var d := dependencies[|dependencies| - 1];
      DependencyFailures(dependencies[..|dependencies| - 1]) +
      if Healthy(d) then [] else [Reason(DependencyHealthFailed, DependencyDetail(d))]
  }

  lemma {:induction false} FailureCodes(before: seq<Reason>, dependencies: seq<Dependency>)
    ensures forall c :: HasCode(before + DependencyFailures(dependencies), c) <==>
              HasCode(before, c) || (c == DependencyHealthFailed && exists d :: d in dependencies && !Healthy(d))
  {
    if dependencies == [] {
      assert before + [] == before;
    } else {
      var n := |dependencies| - 1;
      var d := dependencies[n];
      FailureCodes(before, dependencies[..n]);
      assert dependencies == dependencies[..n] + [d];
      var rs := before + DependencyFailures(dependencies[..n]);
      var r := Reason(DependencyHealthFailed, DependencyDetail(d));
      AddIfCodes(rs, !Healthy(d), r);
      assert before + DependencyFailures(dependencies) == AddIf(rs, !Healthy(d), r);
    }
  }

  method DependencyReasons(dependencies: seq<Dependency>, before: seq<Reason>) returns (reasons: seq<Reason>)
    ensures reasons == before + DependencyFailures(dependencies)
    ensures forall c :: HasCode(reasons, c) <==>
              HasCode(before, c) || (c == DependencyHealthFailed && exists d :: d in dependencies && !Healthy(d))
  {
    reasons := before;
    for i := 0 to |dependencies|
      invariant reasons == before + DependencyFailures(dependencies[..i])
    {
      var d := dependencies[i];
      assert dependencies[..i + 1][..i] == dependencies[..i];
      if Healthy(d) {
        continue;
      }
      reasons := reasons + [Reason(DependencyHealthFailed, DependencyDetail(d))];
    }
    assert dependencies[..|dependencies|] == dependencies;
    FailureCodes(before, dependencies);
  }

  predicate IsSurfacingGate(c: Code) {
    c == OperatorPaused || c == OperatorDisabled || c == TelemetryNotReady || c == LowConfidence
  }

  predicate IsQualityGate(c: Code) {
    c == ModelDivergenceTooHigh || c == ForecastErrorTooHigh || c == CircuitBreakerOpen
  }

  /** Operator mode, telemetry and confidence, in the evaluator's order. */
  method SurfacingReasons(input: Input) returns (reasons: seq<Reason>)
    requires Valid(input)
    ensures forall c :: HasCode(reasons, c) <==> IsSurfacingGate(c) && Blocks(input, c)
  {
    var g := input.gates;
    reasons := [];
    var disabled := g.operator != UnsetOperator && g.operator != Enabled;
    var operatorReason := Reason(if g.operator == Paused then OperatorPaused else OperatorDisabled, Plain);
    AddIfCodes(reasons, disabled, operatorReason);
    reasons := AddIf(reasons, disabled, operatorReason);

    var telemetry := g.telemetry.Some? && g.telemetry.value != Ready;
    AddIfCodes(reasons, telemetry, Reason(TelemetryNotReady, Plain));
    reasons := AddIf(reasons, telemetry, Reason(TelemetryNotReady, Plain));

    var unsure := !(g.confidence >= g.threshold);
    AddIfCodes(reasons, unsure, Reason(LowConfidence, Plain));
    reasons := AddIf(reasons, unsure, Reason(LowConfidence, Plain));
  }

  /** Model divergence, recent forecast error and the circuit breaker. */
  method QualityReasons(input: Input, before: seq<Reason>) returns (reasons: seq<Reason>)
    ensures forall c :: HasCode(reasons, c) <==> HasCode(before, c) || (IsQualityGate(c) && Blocks(input, c))
  {
    var g := input.gates;
    var diverged := g.divergence.Some? && !(g.divergence.value.measured <= g.divergence.value.allowed);
    AddIfCodes(before, diverged, Reason(ModelDivergenceTooHigh, Plain));
    reasons := AddIf(before, diverged, Reason(ModelDivergenceTooHigh, Plain));

    var wrong := g.forecastError.Some? && !(g.forecastError.value.measured <= g.forecastError.value.allowed);
    AddIfCodes(reasons, wrong, Reason(ForecastErrorTooHigh, Plain));
    reasons := AddIf(reasons, wrong, Reason(ForecastErrorTooHigh, Plain));

    var open := g.breaker.Some? && Open(g.breaker.value);
    AddIfCodes(reasons, open, Reason(CircuitBreakerOpen, Plain));
    reasons := AddIf(reasons, open, Reason(CircuitBreakerOpen, Plain));
  }

  predicate IsWindowGate(c: Code) {
    c == BlackoutWindowActive || c == DependencyHealthFailed || c == CooldownActive
  }

  method WindowReasons(input: Input, before: seq<Reason>) returns (reasons: seq<Reason>)
    ensures forall c :: HasCode(reasons, c) <==> HasCode(before, c) || (IsWindowGate(c) && Blocks(input, c))
  {
    var g := input.gates;
    var window := ActiveBlackoutWindow(input.at, g.blackouts);
    var blackout := Reason(BlackoutWindowActive, if window.Some? then Named(window.value.name) else Plain);
    AddIfCodes(before, window.Some?, blackout);
    reasons := AddIf(before, window.Some?, blackout);
    assert window.Some? <==> Blocks(input, BlackoutWindowActive);
    reasons := DependencyReasons(g.dependencies, reasons);
    var cooling := CoolingDown(g, input.at, FinalOf(input));
    AddIfCodes(reasons, cooling, Reason(CooldownActive, Plain));
    reasons := AddIf(reasons, cooling, Reason(CooldownActive, Plain));
  }

  /** Validation has already ruled out the estimator's errors, so this step cannot fail. */
  method HeadroomReasons(input: Input, before: seq<Reason>)
    returns (reasons: seq<Reason>, assessment: Option<Headroom.Assessment>)
    requires Valid(input)
    ensures forall c :: HasCode(reasons, c) <==> HasCode(before, c) || LacksHeadroom(input, c)
    ensures assessment.Some? <==> NeedsHeadroom(input)
    ensures assessment.Some? ==>
              && FinalOf(input) >= input.current
              && assessment.value.status == Headroom.Verdict(input.gates.headroom, FinalOf(input) - input.current)
  {
    if !NeedsHeadroom(input) {
      return before, None;
    }
    FinalInRange(input.raw, input.current, input.gates.limits);
    var assessed := Headroom.Assess(input.gates.headroom, FinalOf(input) - input.current);
    var status := assessed.value.status;
    var reason := Reason(HeadroomCode(input.gates.headroom, status), Plain);
    AddIfCodes(before, status != Headroom.Sufficient, reason);
    return AddIf(before, status != Headroom.Sufficient, reason), Some(assessed.value);
  }

  /**
   * A recommendation is suppressed exactly when some configured gate blocks, and each blocking
   * gate is reported by its own code and no other code appears.
   */
  method Evaluate(input: Input) returns (r: Result<Outcome, Error>)
    ensures r.Ok? <==> Valid(input)
    ensures r.Ok? ==> r.value.bounds == ApplyBounds(input.raw, input.current, input.gates.limits)
    ensures r.Ok? ==> forall c :: HasCode(r.value.reasons, c) <==> Blocks(input, c)
    ensures r.Ok? ==> (r.value.suppressed <==> !Passes(input))
    ensures r.Ok? ==> forall i, j :: 0 <= i < j < |r.value.reasons| ==> r.value.reasons[i] != r.value.reasons[j]
    ensures r.Ok? ==> (r.value.suppressed <==> r.value.reasons != [])
    ensures r.Ok? ==> (r.value.headroom.Some? <==> NeedsHeadroom(input))
  {
    if !Valid(input) {
      return Err(InvalidInput);
    }
    var bounds := ApplyBounds(input.raw, input.current, input.gates.limits);
    var reasons := SurfacingReasons(input);
    reasons := QualityReasons(input, reasons);
    reasons := WindowReasons(input, reasons);
    var all, assessment := HeadroomReasons(input, reasons);
    reasons := Dedupe(all);
    DedupeKeepsCodes(all);
    CodesCoverReasons(reasons);
    return Ok(Outcome(bounds, reasons != [], reasons, assessment));
  }

  lemma DedupeKeepsCodes(rs: seq<Reason>)
    ensures forall c :: HasCode(FirstOccurrences(rs), c) <==> HasCode(rs, c)
  {
  }

  lemma CodesCoverReasons(rs: seq<Reason>)
    ensures rs == [] <==> forall c :: !HasCode(rs, c)
  {
    if rs != [] {
      assert HasCode(rs, rs[0].code);
    }
  }
}
