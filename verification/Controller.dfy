/**
 * Reconciling a policy over and over: the status is the only memory, and it carries the previous
 * recommendation to the next cooldown check.
 */
module Controller {
  import opened Core
  import opened Bounds
  import opened Safety
  import opened Recommend
  import opened Status

  datatype TargetOutcome = TargetResolves | TargetMissing | TargetUnsupported | TargetError

  /** What the pipeline finds before it can size a recommendation. */
  datatype Finding =
    | LoadFails
    | StepFails
    | NotReady(blocking: bool, explained: bool)
    | ForecastFails(telemetry: Telemetry)
    | Sized(telemetry: Telemetry, demand: Demand, gates: Gates)

  /** Everything outside the controller during one reconcile. */
  datatype Environment = Environment(
    found: bool, now: Time, generation: int, validSpec: bool, supportedMode: bool,
    target: TargetOutcome, replicas: int32, finding: Finding, writeSucceeds: bool)

  /** The recommendation is sized at the time of the reconcile, with the recovered previous one. */
  function DemandOf(e: Environment): Demand
    requires e.finding.Sized?
  {
    e.finding.demand.(at := e.now, replicas := e.replicas)
  }

  function GatesOf(e: Environment, previous: Option<Previous>): Gates
    requires e.finding.Sized?
  {
    e.finding.gates.(last := previous)
  }

  /** The stage the evaluation reaches and, for a decision, the recommendation; an error of any step fails it. */
  method EvaluatePipeline(e: Environment, previous: Option<Previous>) returns (r: Result<LiveEvaluation, Error>)
    ensures EvaluatesTo(e, previous, r)
  {
    match e.finding {
      case LoadFails =>
        return Ok(LiveEvaluation(TelemetryUnavailable, e.now, 0, NotUsable(false, true), None));
      case StepFails =>
        return Err(InvalidInput);
      case NotReady(blocking, explained) =>
        return Ok(LiveEvaluation(TelemetryUnavailable, e.now, e.replicas, NotUsable(blocking, explained), None));
      case ForecastFails(telemetry) =>
        return Ok(LiveEvaluation(Stage.ForecastUnavailable, e.now, e.replicas, telemetry, None));
      case Sized(telemetry, demand, gates) =>
        var recommendation := Recommend.Recommend(DemandOf(e), GatesOf(e, previous));
        if recommendation.Err? {
          return Err(InvalidInput);
        }
        return Ok(LiveEvaluation(Decision, e.now, e.replicas, telemetry, Some(recommendation.value)));
    }
  }

  ghost predicate EvaluatesTo(e: Environment, previous: Option<Previous>, r: Result<LiveEvaluation, Error>) {
    match e.finding
    case LoadFails => r == Ok(LiveEvaluation(TelemetryUnavailable, e.now, 0, NotUsable(false, true), None))
    case StepFails => r.Err?
    case NotReady(blocking, explained) =>
      r == Ok(LiveEvaluation(TelemetryUnavailable, e.now, e.replicas, NotUsable(blocking, explained), None))
    case ForecastFails(telemetry) => r == Ok(LiveEvaluation(Stage.ForecastUnavailable, e.now, e.replicas, telemetry, None))
    case Sized(telemetry, _, _) =>
      var d, g := DemandOf(e), GatesOf(e, previous);
      && (r.Ok? <==> Accepts(d, g))
      && (r.Ok? ==>
            && r.value.stage == Decision && r.value.at == e.now && r.value.currentReplicas == e.replicas
            && r.value.telemetry == telemetry && r.value.recommendation.Some?
            && var made := r.value.recommendation.value;
               && (made.state == Available <==> IsAvailable(d, g))
               && (made.state == Unavailable <==> !(CoversReadyTime(d) && HasBaseline(d)))
               && made.final == if made.state == Unavailable then 0 else Target(d, g))
  }

  /** The stored object; a reconcile reads it and, when the write goes through, replaces its status. */
  class Policy {
    var status: Content

    constructor ()
      ensures status == EMPTY
    {
      status := EMPTY;
    }

    /** A status that differs is sent to be stored; storing may fail, and keeps times in whole seconds. */
    method WriteStatus(desired: PolicyStatus, succeeds: bool) returns (ok: bool)
      requires Stored(status) == status
      modifies this
      ensures status == if succeeds then Stored(desired.Value()) else old(status)
      ensures ok <==> succeeds || desired.Value() == old(status)
    {
      if status == desired.Value() {
        return true;
      }
      if succeeds {
        status := Stored(desired.Value());
      }
      return succeeds;
    }

    /** One reconcile leaves the status as `Reconciles` says; a missing policy or a failed write leaves it alone. */
    method Reconcile(e: Environment)
      requires Stored(status) == status
      modifies this
      ensures Reconciles(old(status), e, status) && Stored(status) == status
    {
      if !e.found {
        return;
      }
      var desired := new PolicyStatus(status);
      if !e.validSpec {
        desired.MarkInvalidSpec(e.generation);
      } else if !e.supportedMode {
        desired.MarkUnsupportedMode(e.generation);
      } else if e.target != TargetResolves {
        desired.MarkTargetFailure(e.generation, FailureReason(e.target));
      } else {
        desired.ApplyResolvedTarget(e.generation);
        var evaluation := EvaluatePipeline(e, PreviousFromStatus(status, e.generation));
        if evaluation.Err? {
          desired.MarkEvaluationFailure(e.generation);
        } else {
          desired.ApplyEvaluation(e.generation, evaluation.value);
        }
      }
      assert IsDesired(status, e, desired.Value());
      StoringOnlyTruncates(desired.Value());
      var written := WriteStatus(desired, e.writeSucceeds);
    }
  }

  // ---- one reconcile as a relation ----

  function FailureReason(t: TargetOutcome): ConditionReason {
    match t case TargetMissing => TargetNotFound case TargetUnsupported => UnsupportedTarget case _ => TargetResolutionFailed
  }

  ghost predicate IsDesired(before: Content, e: Environment, after: Content) {
    if !e.validSpec then after == Rejected(InvalidSpec, e.generation)
    else if !e.supportedMode then after == Rejected(UnsupportedMode, e.generation)
    else if e.target != TargetResolves then after == TargetFailed(FailureReason(e.target), e.generation)
    else
      exists r :: EvaluatesTo(e, PreviousFromStatus(before, e.generation), r)
                  && after == match r
                              case Err(_) => Failed(Resolved(before, e.generation), e.generation)
                              case Ok(v) => Evaluated(Resolved(before, e.generation), e.generation, v)
  }

  predicate Effective(e: Environment) { e.found && e.writeSucceeds }

  ghost predicate Reconciles(before: Content, e: Environment, after: Content) {
    if Effective(e) then exists desired :: IsDesired(before, e, desired) && after == Stored(desired)
    else after == before
  }

  /** `statuses` is the status before the first reconcile and after each one. */
  ghost predicate IsRun(h: seq<Environment>, statuses: seq<Content>) {
    && |statuses| == |h| + 1 && statuses[0] == EMPTY
    && forall i :: 0 <= i < |h| ==> Reconciles(statuses[i], h[i], statuses[i + 1])
  }

  // ---- what a reconcile surfaces, told without the status ----

  ghost predicate ReachesDecision(e: Environment) {
    e.validSpec && e.supportedMode && e.target == TargetResolves && e.finding.Sized?
  }

  /** The recommendation made available, given the one remembered. */
  ghost function Surfaced(e: Environment, previous: Option<Previous>): Option<Previous> {
    if ReachesDecision(e) && Accepts(DemandOf(e), GatesOf(e, previous)) && IsAvailable(DemandOf(e), GatesOf(e, previous))
    then Some(Previous(Target(DemandOf(e), GatesOf(e, previous)), e.now)) else None
  }

  /** What the last reconcile that took effect surfaced for this generation. */
  ghost function LastSurfaced(h: seq<Environment>, generation: int): Option<Previous> {
    if h == [] then None
    else
      var n := |h| - 1;
      if !Effective(h[n]) then LastSurfaced(h[..n], generation)
      else if h[n].generation != generation then None
      else Surfaced(h[n], Remembered(LastSurfaced(h[..n], generation)))
  }

  /** How far a reconcile gets: the conditions are those of the first thing that goes wrong. */
  lemma ReconcileMeaning(before: Content, e: Environment, after: Content)
    requires IsDesired(before, e, after)
    ensures !e.validSpec ==> Says(after, Reconciled, False, InvalidSpec, e.generation)
    ensures e.validSpec && !e.supportedMode ==> Says(after, Reconciled, False, UnsupportedMode, e.generation)
    ensures e.validSpec && e.supportedMode && e.target == TargetMissing ==>
              Says(after, TargetResolved, False, TargetNotFound, e.generation)
    ensures e.validSpec && e.supportedMode && e.target == TargetUnsupported ==>
              Says(after, TargetResolved, False, UnsupportedTarget, e.generation)
    ensures e.validSpec && e.supportedMode && e.target == TargetError ==>
              Says(after, TargetResolved, False, TargetResolutionFailed, e.generation)
    ensures Says(after, TargetResolved, True, TargetFound, e.generation) <==>
              e.validSpec && e.supportedMode && e.target == TargetResolves
    ensures Says(after, Reconciled, True, Succeeded, e.generation) <==>
              && e.validSpec && e.supportedMode && e.target == TargetResolves && e.finding != StepFails
              && (e.finding.Sized? ==> Accepts(DemandOf(e), GatesOf(e, PreviousFromStatus(before, e.generation))))
    ensures after.last.Some? <==> Says(after, Reconciled, True, Succeeded, e.generation)
  {
    hide Accepts, IsAvailable, Target, PreviousFromStatus, CoversReadyTime, HasBaseline;
  }

  /** What a reconcile that succeeds records, by what its evaluation found. */
  lemma FindingMeaning(before: Content, e: Environment, after: Content)
    requires IsDesired(before, e, after) && Says(after, Reconciled, True, Succeeded, e.generation)
    ensures after.last.Some?
    ensures var last := after.last.value;
            && (e.finding == LoadFails ==>
                  && Says(after, TelemetryReady, False, TelemetryLoadFailed, e.generation)
                  && last == Summary(Unavailable, Some(e.now), 0, 0))
            && (e.finding.NotReady? ==>
                  && Says(after, TelemetryReady, False,
                          if e.finding.explained && !e.finding.blocking then TelemetryLoadFailed else TelemetryUnsupported,
                          e.generation)
                  && last == Summary(Unavailable, Some(e.now), e.replicas, 0))
            && (e.finding.ForecastFails? ==> last == Summary(Unavailable, Some(e.now), e.replicas, 0))
            && (e.finding.Sized? ==>
                  var d, g := DemandOf(e), GatesOf(e, PreviousFromStatus(before, e.generation));
                  && (last.state == Available <==> IsAvailable(d, g))
                  && (last.state == Unavailable <==> !(CoversReadyTime(d) && HasBaseline(d)))
                  && last.recommended == (if last.state == Unavailable then 0 else Target(d, g))
                  && last.evaluatedAt == Some(e.now) && last.baseline == e.replicas)
  {
    hide IsAvailable, Target, PreviousFromStatus, CoversReadyTime, HasBaseline, Valid;
  }

  // ---- what every reachable status guarantees ----

  lemma DesiredIsConsistent(before: Content, e: Environment, after: Content)
    requires IsDesired(before, e, after)
    ensures Consistent(after)
  {
    hide EvaluatesTo, Consistent, Rejected, TargetFailed, Failed, Resolved, Evaluated;
    var any := LiveEvaluation(Decision, 0, 0, IsReady, None);
    if !e.validSpec || !e.supportedMode {
      UpdatesAreConsistent(before, e.generation, if !e.validSpec then InvalidSpec else UnsupportedMode, any);
    } else if e.target != TargetResolves {
      UpdatesAreConsistent(before, e.generation, FailureReason(e.target), any);
    } else {
      var r :| EvaluatesTo(e, PreviousFromStatus(before, e.generation), r)
               && after == match r
                           case Err(_) => Failed(Resolved(before, e.generation), e.generation)
                           case Ok(v) => Evaluated(Resolved(before, e.generation), e.generation, v);
      UpdatesAreConsistent(Resolved(before, e.generation), e.generation, InvalidSpec, if r.Ok? then r.value else any);
    }
  }

  /** In every reachable status the condition is true exactly when the recommendation is available. */
  lemma {:induction false} ReachableStatusIsConsistent(h: seq<Environment>, statuses: seq<Content>, i: nat)
    requires IsRun(h, statuses) && i < |statuses|
    ensures Consistent(statuses[i])
  {
    if i > 0 {
      ReachableStatusIsConsistent(h, statuses, i - 1);
      assert Reconciles(statuses[i - 1], h[i - 1], statuses[i - 1 + 1]);
      hide IsDesired, Consistent, Stored;
      if Effective(h[i - 1]) {
        var desired :| IsDesired(statuses[i - 1], h[i - 1], desired) && statuses[i] == Stored(desired);
        DesiredIsConsistent(statuses[i - 1], h[i - 1], desired);
        StoringOnlyTruncates(desired);
      }
    }
  }

  lemma NothingReadBack(c: Content, generation: int, g: int, reason: ConditionReason)
    ensures PreviousFromStatus(Rejected(reason, generation), g) == None
    ensures PreviousFromStatus(TargetFailed(reason, generation), g) == None
    ensures PreviousFromStatus(Failed(c, generation), g) == None
    ensures PreviousFromStatus(EMPTY, g) == None
  {
  }

  lemma DecisionReadsBack(e: Environment, previous: Option<Previous>, r: Result<LiveEvaluation, Error>, c: Content, g: int)
    requires EvaluatesTo(e, previous, r) && r.Ok?
    requires e.validSpec && e.supportedMode && e.target == TargetResolves
    ensures PreviousFromStatus(Evaluated(c, e.generation, r.value), g) ==
            if g == e.generation then Surfaced(e, previous) else None
  {
    UpdatesAreConsistent(c, e.generation, InvalidSpec, r.value);
    hide Evaluated, PreviousFromStatus, IsAvailable, Target;
    if e.finding.Sized? {
      AcceptedTimeIsSet(DemandOf(e), GatesOf(e, previous));
    }
  }

  lemma AcceptedTimeIsSet(d: Demand, g: Gates)
    requires Accepts(d, g)
    ensures !IsZeroTime(d.at)
  {
  }

  /** What the status to be written reads back is exactly what this reconcile surfaced, for its own generation only. */
  lemma StepReadsBack(before: Content, e: Environment, after: Content, g: int)
    requires IsDesired(before, e, after)
    ensures PreviousFromStatus(after, g) ==
            if g == e.generation then Surfaced(e, PreviousFromStatus(before, e.generation)) else None
  {
    hide PreviousFromStatus, Rejected, TargetFailed, Failed, Resolved, Evaluated, EvaluatesTo;
    var reason := if !e.validSpec then InvalidSpec else if !e.supportedMode then UnsupportedMode else FailureReason(e.target);
    NothingReadBack(Resolved(before, e.generation), e.generation, g, reason);
    if e.validSpec && e.supportedMode && e.target == TargetResolves {
      var previous := PreviousFromStatus(before, e.generation);
      var r :| EvaluatesTo(e, previous, r)
               && after == match r
                           case Err(_) => Failed(Resolved(before, e.generation), e.generation)
                           case Ok(v) => Evaluated(Resolved(before, e.generation), e.generation, v);
      if r.Ok? {
        DecisionReadsBack(e, previous, r, Resolved(before, e.generation), g);
      } else {
        ErrorSurfacesNothing(e, previous, r);
      }
    }
  }

  lemma ErrorSurfacesNothing(e: Environment, previous: Option<Previous>, r: Result<LiveEvaluation, Error>)
    requires EvaluatesTo(e, previous, r) && r.Err?
    ensures Surfaced(e, previous) == None
  {
  }

  /**
   * Over every run, reading the previous recommendation from the status recovers exactly what the
   * last reconcile that took effect surfaced for that generation, its time cut to whole seconds, and
   * nothing otherwise.
   */
  lemma {:induction false} StatusRemembersLastSurfaced(h: seq<Environment>, statuses: seq<Content>, i: nat, g: int)
    requires IsRun(h, statuses) && i <= |h|
    ensures PreviousFromStatus(statuses[i], g) == Remembered(LastSurfaced(h[..i], g))
  {
    if i == 0 {
      NothingReadBack(EMPTY, 0, g, InvalidSpec);
    } else {
      var e := h[i - 1];
      assert Reconciles(statuses[i - 1], e, statuses[i - 1 + 1]);
      assert h[..i][..i - 1] == h[..i - 1];
      StatusRemembersLastSurfaced(h, statuses, i - 1, g);
      StatusRemembersLastSurfaced(h, statuses, i - 1, e.generation);
      hide IsDesired, PreviousFromStatus, Surfaced, Stored;
      if Effective(e) {
        var desired :| IsDesired(statuses[i - 1], e, desired) && statuses[i] == Stored(desired);
        StepReadsBack(statuses[i - 1], e, desired, g);
        StoringOnlyTruncates(desired);
      }
    }
  }

  // ---- cooldown across reconciles ----

  /** A reconcile that surfaces a different count than the one it remembers does so after the cooldown. */
  lemma SurfacedAfterCooldown(e: Environment, previous: Previous)
    requires Surfaced(e, Some(previous)).Some? && previous.changedAt != 0
    requires e.finding.gates.cooldown > 0
    requires Surfaced(e, Some(previous)).value.replicas != previous.replicas
    ensures e.now >= previous.changedAt + e.finding.gates.cooldown
  {
    var d, g := DemandOf(e), GatesOf(e, Some(previous));
    assert !Blocks(SafetyInput(d, g), CooldownActive);
    hide Final;
  }

  lemma SurfacedNow(e: Environment, previous: Option<Previous>)
    ensures Surfaced(e, previous).Some? ==> Surfaced(e, previous).value.changedAt == e.now && ReachesDecision(e)
  {
  }

  /** The history after one more reconcile that takes effect. */
  lemma LastSurfacedGrows(h: seq<Environment>, e: Environment, g: int)
    ensures LastSurfaced(h + [e], g) ==
            if !Effective(e) then LastSurfaced(h, g)
            else if e.generation != g then None
            else Surfaced(e, Remembered(LastSurfaced(h, g)))
  {
    assert (h + [e])[..|h|] == h;
  }

  /**
   * Two adjacent reconciles of the same generation that surface different counts are a cooldown
   * apart, measured from the whole second of the first.
   */
  lemma AdjacentReconcilesRespectCooldown(h: seq<Environment>, e: Environment)
    requires Effective(e)
    requires LastSurfaced(h, e.generation).Some? && LastSurfaced(h + [e], e.generation).Some?
    requires LastSurfaced(h, e.generation).value.changedAt >= SECOND
    requires e.finding.Sized? && e.finding.gates.cooldown > 0
    ensures var p, q := LastSurfaced(h, e.generation).value, LastSurfaced(h + [e], e.generation).value;
            && q.changedAt == e.now
            && (q.replicas != p.replicas ==>
                  q.changedAt >= WholeSeconds(p.changedAt) + e.finding.gates.cooldown
                  > p.changedAt - SECOND + e.finding.gates.cooldown)
  {
    hide Surfaced;
    LastSurfacedGrows(h, e, e.generation);
    var p := LastSurfaced(h, e.generation).value;
    WholeSecondsBounds(p.changedAt, 0);
    SurfacedNow(e, Remembered(Some(p)));
    if LastSurfaced(h + [e], e.generation).value.replicas != p.replicas {
      SurfacedAfterCooldown(e, Remembered(Some(p)).value);
    }
  }

  // ---- when the cooldown survives a reconcile ----

  /** A later reconcile of generation `g` under cooldown `c` at `now` or later. */
  predicate Follows(e: Environment, g: int, c: Duration, now: Time) {
    && Effective(e) && e.generation == g && e.now >= now
    && e.finding.Sized? && e.finding.gates.cooldown == c
  }

  /** Whoever surfaces another count than `p` next does so a cooldown after the whole second of `p`. */
  ghost predicate Enforced(h: seq<Environment>, g: int, p: Previous, c: Duration, now: Time) {
    forall e :: Follows(e, g, c, now) && Surfaced(e, Remembered(LastSurfaced(h, g))).Some?
                && Surfaced(e, Remembered(LastSurfaced(h, g))).value.replicas != p.replicas
                ==> e.now >= WholeSeconds(p.changedAt) + c
  }

  /** The guard: a reconcile keeps the memory of `p` when it has no effect, or recommends again in its generation. */
  ghost predicate KeepsMemory(e: Environment, g: int, p: Previous) {
    || !Effective(e)
    || (e.generation == g && ReachesDecision(e)
        && Accepts(DemandOf(e), GatesOf(e, Remembered(Some(p))))
        && IsAvailable(DemandOf(e), GatesOf(e, Remembered(Some(p)))))
  }

  lemma KeepsMemoryIff(h: seq<Environment>, e: Environment, g: int, p: Previous)
    requires LastSurfaced(h, g) == Some(p)
    ensures KeepsMemory(e, g, p) <==> LastSurfaced(h + [e], g).Some?
  {
    LastSurfacedGrows(h, e, g);
    hide IsAvailable, Accepts, Target, LastSurfaced;
  }

  lemma KeptMemoryEnforces(h: seq<Environment>, e: Environment, g: int, p: Previous, c: Duration)
    requires LastSurfaced(h, g) == Some(p) && p.changedAt >= SECOND && c > 0
    requires p.changedAt <= e.now < WholeSeconds(p.changedAt) + c
    requires Effective(e) && e.finding.Sized? ==> e.finding.gates.cooldown == c
    requires KeepsMemory(e, g, p)
    ensures Enforced(h + [e], g, p, c, e.now)
  {
    hide IsAvailable, Accepts, Target, LastSurfaced;
    KeepsMemoryIff(h, e, g, p);
    LastSurfacedGrows(h, e, g);
    WholeSecondsBounds(p.changedAt, e.now);
    WholeSecondsBounds(e.now, 0);
    var q := LastSurfaced(h + [e], g).value;
    if Effective(e) {
      SurfacedNow(e, Remembered(Some(p)));
      if q.replicas != p.replicas {
        SurfacedAfterCooldown(e, Remembered(Some(p)).value);
      }
    }
    forall later | Follows(later, g, c, e.now) && Surfaced(later, Remembered(Some(q))).Some?
                   && Surfaced(later, Remembered(Some(q))).value.replicas != p.replicas
      ensures later.now >= WholeSeconds(p.changedAt) + c
    {
      SurfacedAfterCooldown(later, Remembered(Some(q)).value);
    }
  }

  // ---- a reconcile at liberty ----

  /** A valid policy's gates, passed by every confident recommendation outside the cooldown. */
  function OpenGates(c: Duration): Gates {
    Gates(Limits(1, 20, None, None), 1.0, 0.7, Some(Ready), None, None, [], [], c, None, DisabledMode, None, Enabled, None)
  }

  /**
   * A reconcile at `now` that forecasts demand for `n` replicas a minute ahead, under a warmup of 45
   * seconds. The five replicas carry demand 4 at a target utilization of 0.8: one unit of capacity each.
   */
  function Sizing(now: Time, g: int, c: Duration, n: nat): Environment {
    var demand := Demand(0, n as real, now + 60 * SECOND, 4.0, 0, 0.8, 45 * SECOND, Some(CapacityEstimate(true, 1.0)));
    Environment(true, now, g, true, true, TargetResolves, 5, Sized(IsReady, demand, OpenGates(c)), true)
  }

  lemma SizingSurfaces(now: Time, g: int, c: Duration, n: nat, previous: Option<Previous>)
    requires now > 0 && c >= 0 && 1 <= n <= 20
    requires previous.Some? ==> previous.value.replicas >= 0
    requires previous.Some? ==> n == previous.value.replicas || now >= previous.value.changedAt + c
    ensures Surfaced(Sizing(now, g, c, n), previous) == Some(Previous(n, now))
  {
    var e := Sizing(now, g, c, n);
    var d, gates := DemandOf(e), GatesOf(e, previous);
    WholeDemand(n);
    assert Raw(d) == n && Target(d, gates) == n;
    forall code
      ensures !Blocks(SafetyInput(d, gates), code)
    {
    }
  }

  lemma LostMemoryEnforcesNothing(h: seq<Environment>, g: int, p: Previous, c: Duration, now: Time)
    requires LastSurfaced(h, g) == None && 0 < now < WholeSeconds(p.changedAt) + c && c > 0
    ensures !Enforced(h, g, p, c, now)
  {
    hide Surfaced, LastSurfaced;
    var n: nat := if p.replicas == 1 then 2 else 1;
    var e := Sizing(now, g, c, n);
    SizingSurfaces(now, g, c, n, None);
    assert Follows(e, g, c, now);
  }

  /**
   * Inside the cooldown that `p` started, the cooldown survives one more reconcile exactly when that
   * reconcile has no effect or surfaces a recommendation for the same generation.
   */
  lemma CooldownSurvivesIff(h: seq<Environment>, e: Environment, g: int, p: Previous, c: Duration)
    requires LastSurfaced(h, g) == Some(p) && p.changedAt >= SECOND && c > 0
    requires p.changedAt <= e.now < WholeSeconds(p.changedAt) + c
    requires Effective(e) && e.finding.Sized? ==> e.finding.gates.cooldown == c
    ensures Enforced(h + [e], g, p, c, e.now) <==> KeepsMemory(e, g, p)
  {
    hide Surfaced, LastSurfaced, Enforced, KeepsMemory;
    if KeepsMemory(e, g, p) {
      KeptMemoryEnforces(h, e, g, p, c);
    } else {
      KeepsMemoryIff(h, e, g, p);
      LostMemoryEnforcesNothing(h + [e], g, p, c, e.now);
    }
  }

  /** Every reconcile from `i` to `j` keeps the memory of generation `g`, in order of time and with one cooldown. */
  ghost predicate Unbroken(h: seq<Environment>, g: int, c: Duration, i: nat, j: nat)
    requires i <= j <= |h|
  {
    && LastSurfaced(h[..i], g).Some? && LastSurfaced(h[..i], g).value.changedAt >= SECOND
    && forall k :: i <= k < j && LastSurfaced(h[..k], g).Some? ==>
         && KeepsMemory(h[k], g, LastSurfaced(h[..k], g).value)
         && (Effective(h[k]) ==> h[k].now >= LastSurfaced(h[..k], g).value.changedAt
                                 && h[k].finding.Sized? && h[k].finding.gates.cooldown == c)
  }

  /**
   * While each reconcile keeps the memory and the clock does not run backwards, any two counts that
   * differ were surfaced at least a cooldown apart, from the whole second of the first, however many
   * reconciles lie between them.
   */
  lemma {:induction false} UnbrokenMemoryKeepsCooldown(h: seq<Environment>, g: int, c: Duration, i: nat, j: nat)
    requires i <= j <= |h| && Unbroken(h, g, c, i, j) && c > 0
    ensures LastSurfaced(h[..i], g).Some? && LastSurfaced(h[..j], g).Some?
    ensures var p, q := LastSurfaced(h[..i], g).value, LastSurfaced(h[..j], g).value;
            && q.changedAt >= p.changedAt
            && (q.replicas != p.replicas ==> q.changedAt >= WholeSeconds(p.changedAt) + c)
    decreases j - i
  {
    if i < j {
      hide Surfaced, KeepsMemory, LastSurfaced;
      UnbrokenMemoryKeepsCooldown(h, g, c, i, j - 1);
      var e, p, r := h[j - 1], LastSurfaced(h[..i], g).value, LastSurfaced(h[..j - 1], g).value;
      assert h[..j] == h[..j - 1] + [e];
      KeepsMemoryIff(h[..j - 1], e, g, r);
      LastSurfacedGrows(h[..j - 1], e, g);
      WholeSecondsBounds(p.changedAt, r.changedAt);
      if Effective(e) {
        AdjacentReconcilesRespectCooldown(h[..j - 1], e);
      }
    }
  }

  /** A reconcile that finds the telemetry not ready. */
  function Unready(now: Time): Environment {
    Environment(true, now, 1, true, true, TargetResolves, 5, NotReady(true, true), true)
  }

  /** One unready reconcile in between, and two different counts are surfaced two seconds apart under a minute of cooldown. */
  lemma BrokenMemoryBreaksCooldown()
    ensures var h := [Sizing(1000 * SECOND, 1, 60 * SECOND, 7), Unready(1001 * SECOND),
                      Sizing(1002 * SECOND, 1, 60 * SECOND, 3)];
            && LastSurfaced(h[..1], 1) == Some(Previous(7, 1000 * SECOND))
            && LastSurfaced(h[..2], 1) == None
            && LastSurfaced(h[..3], 1) == Some(Previous(3, 1002 * SECOND))
  {
    var a, b := Sizing(1000 * SECOND, 1, 60 * SECOND, 7), Unready(1001 * SECOND);
    var c := Sizing(1002 * SECOND, 1, 60 * SECOND, 3);
    SizingSurfaces(1000 * SECOND, 1, 60 * SECOND, 7, None);
    SizingSurfaces(1002 * SECOND, 1, 60 * SECOND, 3, None);
    assert Surfaced(b, Some(Previous(7, 1000 * SECOND))) == None;
    assert LastSurfaced([], 1) == None;
    hide Surfaced, LastSurfaced;
    LastSurfacedGrows([], a, 1);
    LastSurfacedGrows([a], b, 1);
    LastSurfacedGrows([a, b], c, 1);
    var h := [a, b, c];
    assert h[..1] == [] + [a] && h[..2] == [a] + [b] && h[..3] == [a, b] + [c];
  }

  // ---- the part of a second that storing drops ----

  /** Counts surfaced right after `p` in its generation always differ from it only a full cooldown later. */
  ghost predicate FullCooldownKept(p: Previous, g: int, c: Duration) {
    forall e :: Follows(e, g, c, p.changedAt) && Surfaced(e, Remembered(Some(p))).Some?
                && Surfaced(e, Remembered(Some(p))).value.replicas != p.replicas
                ==> e.now >= p.changedAt + c
  }

  /**
   * Of the cooldown everything but the dropped part of a second is kept: all of it exactly when the
   * recommendation was surfaced on a whole second.
   */
  lemma FullCooldownKeptIff(p: Previous, g: int, c: Duration)
    requires p.changedAt >= SECOND && p.replicas >= 0 && c > 0
    ensures FullCooldownKept(p, g, c) <==> p.changedAt % SECOND == 0
  {
    hide Surfaced;
    var stored := Remembered(Some(p)).value;
    WholeSecondsBounds(p.changedAt, 0);
    if p.changedAt % SECOND == 0 {
      forall e | Follows(e, g, c, p.changedAt) && Surfaced(e, Some(stored)).Some?
                 && Surfaced(e, Some(stored)).value.replicas != p.replicas
        ensures e.now >= p.changedAt + c
      {
        SurfacedAfterCooldown(e, stored);
      }
    } else {
      var n: nat := if p.replicas == 1 then 2 else 1;
      var now := Max(stored.changedAt + c, p.changedAt);
      SizingSurfaces(now, g, c, n, Some(stored));
      assert Follows(Sizing(now, g, c, n), g, c, p.changedAt);
    }
  }
}
