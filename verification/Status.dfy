/** The policy status: its conditions, the last recommendation, and the updates each outcome makes. */
module Status {
  import opened Core
  import opened Safety
  import opened Recommend

  datatype ConditionType = Reconciled | TargetResolved | TelemetryReady | RecommendationAvailable

  datatype Truth = True | False | Unknown

  datatype ConditionReason =
    | Succeeded | InvalidSpec | UnsupportedMode
    | TargetFound | TargetNotFound | UnsupportedTarget | TargetResolutionFailed
    | TelemetryIsReady | TelemetryDegraded | TelemetryUnsupported | TelemetryLoadFailed
    | EvaluationFailed
    | RecommendationSurfaced | RecommendationSuppressed | RecommendationUnavailable
    | NotEvaluated

  datatype Condition = Condition(truth: Truth, reason: ConditionReason, generation: int)

  datatype Summary = Summary(state: State, evaluatedAt: Option<Time>, baseline: int32, recommended: int32)

  /** Everything the status holds, as a value. */
  datatype Content = Content(conditions: map<ConditionType, Condition>, last: Option<Summary>)

  const EMPTY := Content(map[], None)

  datatype Stage = TelemetryUnavailable | ForecastUnavailable | Decision

  datatype Telemetry = IsReady | IsDegraded | NotUsable(blocking: bool, explained: bool)

  /** What the evaluation pipeline reports. */
  datatype LiveEvaluation = LiveEvaluation(
    stage: Stage, at: Time, currentReplicas: int32, telemetry: Telemetry, recommendation: Option<Recommendation>)

  function TelemetryCondition(t: Telemetry, generation: int): Condition {
    match t
    case IsReady => Condition(True, TelemetryIsReady, generation)
    case IsDegraded => Condition(False, TelemetryDegraded, generation)
    case NotUsable(blocking, explained) =>
      Condition(False, if !blocking && explained then TelemetryLoadFailed else TelemetryUnsupported, generation)
  }

  function StampOf(at: Time): Option<Time> { if IsZeroTime(at) then None else Some(at) }

  function Projected(at: Time, baseline: int32, r: Recommendation): Summary {
    Summary(r.state, StampOf(at), baseline, r.final)
  }

  function UnavailableSummary(at: Time, baseline: int32): Summary {
    Summary(Unavailable, Some(at), baseline, 0)
  }

  /** The recommendation an evaluation leaves in the status. */
  function RecordedSummary(e: LiveEvaluation): Option<Summary> {
    match e.stage
    case Decision => if e.recommendation.Some? then Some(Projected(e.at, e.currentReplicas, e.recommendation.value)) else None
    case _ => Some(UnavailableSummary(e.at, e.currentReplicas))
  }

  /** The condition that goes with it: true exactly for an available recommendation, unknown when there is none. */
  predicate ConditionMatches(c: Option<Condition>, last: Option<Summary>) {
    match last
    case None => c.None? || (c.value.truth == Unknown && c.value.reason == NotEvaluated)
    case Some(s) =>
      && c.Some?
      && c.value.truth == (if s.state == Available then True else False)
      && c.value.reason == match s.state
                           case Available => RecommendationSurfaced
                           case Suppressed => RecommendationSuppressed
                           case Unavailable => RecommendationUnavailable
  }

  function Find(conditions: map<ConditionType, Condition>, t: ConditionType): Option<Condition> {
    if t in conditions then Some(conditions[t]) else None
  }

  predicate Consistent(c: Content) {
    ConditionMatches(Find(c.conditions, RecommendationAvailable), c.last)
  }

  // ---- the outcomes, as values ----

  function Rejected(reason: ConditionReason, generation: int): Content {
    Content(map[Reconciled := Condition(False, reason, generation),
                TargetResolved := Condition(Unknown, NotEvaluated, generation),
                TelemetryReady := Condition(Unknown, NotEvaluated, generation),
                RecommendationAvailable := Condition(Unknown, NotEvaluated, generation)], None)
  }

  function TargetFailed(reason: ConditionReason, generation: int): Content {
    Content(map[Reconciled := Condition(False, reason, generation),
                TargetResolved := Condition(False, reason, generation),
                TelemetryReady := Condition(Unknown, NotEvaluated, generation),
                RecommendationAvailable := Condition(Unknown, NotEvaluated, generation)], None)
  }

  function Resolved(c: Content, generation: int): Content {
    c.(conditions := c.conditions[TargetResolved := Condition(True, TargetFound, generation)])
  }

  function Failed(c: Content, generation: int): Content {
    Content(c.conditions[Reconciled := Condition(False, EvaluationFailed, generation)]
            [TelemetryReady := Condition(Unknown, NotEvaluated, generation)]
            [RecommendationAvailable := Condition(Unknown, NotEvaluated, generation)], None)
  }

  function ConditionFor(s: Option<Summary>, generation: int): Condition {
    if s.None? then Condition(Unknown, NotEvaluated, generation)
    else
      match s.value.state
      case Available => Condition(True, RecommendationSurfaced, generation)
      case Suppressed => Condition(False, RecommendationSuppressed, generation)
      case Unavailable => Condition(False, RecommendationUnavailable, generation)
  }

  function Evaluated(c: Content, generation: int, e: LiveEvaluation): Content {
    Content(c.conditions[TelemetryReady := TelemetryCondition(e.telemetry, generation)]
            [RecommendationAvailable := ConditionFor(RecordedSummary(e), generation)]
            [Reconciled := Condition(True, Succeeded, generation)], RecordedSummary(e))
  }

  // ---- what storing keeps ----

  /** A stored time is written in whole seconds. */
  function WholeSeconds(t: Time): Time { t - t % SECOND }

  lemma WholeSecondsBounds(t: Time, u: Time)
    ensures t - SECOND < WholeSeconds(t) <= t
    ensures WholeSeconds(WholeSeconds(t)) == WholeSeconds(t)
    ensures t <= u ==> WholeSeconds(t) <= WholeSeconds(u)
    ensures t >= SECOND ==> WholeSeconds(t) >= SECOND
    ensures WholeSeconds(t) % SECOND == 0
  {
  }

  /** The status as the next reconcile reads it. */
  function Stored(c: Content): Content {
    if c.last.None? || c.last.value.evaluatedAt.None? then c
    else c.(last := Some(c.last.value.(evaluatedAt := Some(WholeSeconds(c.last.value.evaluatedAt.value)))))
  }

  /** A recommendation as it is remembered: its count, and its time in whole seconds. */
  function Remembered(p: Option<Previous>): Option<Previous> {
    if p.None? then None else Some(p.value.(changedAt := WholeSeconds(p.value.changedAt)))
  }

  lemma StoringOnlyTruncates(c: Content)
    ensures Stored(Stored(c)) == Stored(c)
    ensures Consistent(Stored(c)) <==> Consistent(c)
    ensures forall g :: PreviousFromStatus(Stored(c), g) == Remembered(PreviousFromStatus(c, g))
  {
    if c.last.Some? && c.last.value.evaluatedAt.Some? {
      WholeSecondsBounds(c.last.value.evaluatedAt.value, 0);
    }
  }

  // ---- reading the previous recommendation back ----

  /** Only a recommendation surfaced for the current generation counts as the previous one. */
  function PreviousFromStatus(c: Content, generation: int): Option<Previous> {
    if c.last.None? || c.last.value.state != Available || c.last.value.evaluatedAt.None? then None
    else
      var condition := Find(c.conditions, RecommendationAvailable);
      if condition.None? || condition.value.generation != generation || condition.value.truth != True
         || condition.value.reason != RecommendationSurfaced then None
      else Some(Previous(c.last.value.recommended, c.last.value.evaluatedAt.value))
  }

  /** Every update leaves the condition in step with the recommendation, and reads back for its own generation only. */
  lemma UpdatesAreConsistent(c: Content, generation: int, reason: ConditionReason, e: LiveEvaluation)
    ensures Consistent(Rejected(reason, generation)) && Consistent(TargetFailed(reason, generation))
    ensures Consistent(Failed(c, generation)) && Consistent(Evaluated(c, generation, e))
    ensures Consistent(Resolved(c, generation)) <==> Consistent(c)
    ensures forall g :: PreviousFromStatus(Evaluated(c, generation, e), g) ==
                        if g == generation && e.stage == Decision && e.recommendation.Some?
                           && e.recommendation.value.state == Available && !IsZeroTime(e.at)
                        then Some(Previous(e.recommendation.value.final, e.at)) else None
  {
  }

  // ---- what each outcome says ----

  /** What a status says of condition `t`: that it was judged at this generation, with this truth and reason. */
  predicate Says(c: Content, t: ConditionType, truth: Truth, reason: ConditionReason, generation: int) {
    t in c.conditions && c.conditions[t] == Condition(truth, reason, generation)
  }

  /** A refused policy: not reconciled for the given reason, everything else unknown, nothing recommended. */
  lemma RejectedMeaning(reason: ConditionReason, generation: int)
    ensures var c := Rejected(reason, generation);
            && Says(c, Reconciled, False, reason, generation)
            && Says(c, TargetResolved, Unknown, NotEvaluated, generation)
            && Says(c, TelemetryReady, Unknown, NotEvaluated, generation)
            && Says(c, RecommendationAvailable, Unknown, NotEvaluated, generation) && c.last == None
  {
  }

  /** A missing or unusable target: neither reconciled nor resolved, the rest unknown, nothing recommended. */
  lemma TargetFailedMeaning(reason: ConditionReason, generation: int)
    ensures var c := TargetFailed(reason, generation);
            && Says(c, Reconciled, False, reason, generation)
            && Says(c, TargetResolved, False, reason, generation)
            && Says(c, TelemetryReady, Unknown, NotEvaluated, generation)
            && Says(c, RecommendationAvailable, Unknown, NotEvaluated, generation) && c.last == None
  {
  }

  /** A failed evaluation of a resolved target: not reconciled, the rest unknown, nothing recommended. */
  lemma FailedMeaning(before: Content, generation: int)
    ensures var c := Failed(Resolved(before, generation), generation);
            && Says(c, Reconciled, False, EvaluationFailed, generation)
            && Says(c, TargetResolved, True, TargetFound, generation)
            && Says(c, TelemetryReady, Unknown, NotEvaluated, generation)
            && Says(c, RecommendationAvailable, Unknown, NotEvaluated, generation) && c.last == None
  {
  }

  /**
   * An evaluation of a resolved target: reconciled, with the telemetry and the recommendation it made;
   * an evaluation that stopped before the decision records an unavailable recommendation.
   */
  lemma EvaluatedMeaning(before: Content, generation: int, e: LiveEvaluation)
    requires e.stage == Decision ==> e.recommendation.Some?
    ensures var c := Evaluated(Resolved(before, generation), generation, e);
            && Says(c, Reconciled, True, Succeeded, generation)
            && Says(c, TargetResolved, True, TargetFound, generation)
            && (e.telemetry == IsReady <==> Says(c, TelemetryReady, True, TelemetryIsReady, generation))
            && (e.telemetry == IsDegraded <==> Says(c, TelemetryReady, False, TelemetryDegraded, generation))
            && (e.telemetry == NotUsable(false, true) <==> Says(c, TelemetryReady, False, TelemetryLoadFailed, generation))
            && c.last.Some? && c.last.value.baseline == e.currentReplicas
            && (if e.stage == Decision
                then c.last.value.state == e.recommendation.value.state
                     && c.last.value.recommended == e.recommendation.value.final
                     && c.last.value.evaluatedAt == (if e.at == 0 then None else Some(e.at))
                else c.last.value.state == Unavailable && c.last.value.recommended == 0
                     && c.last.value.evaluatedAt == Some(e.at))
            && (c.last.value.state == Available <==> Says(c, RecommendationAvailable, True, RecommendationSurfaced, generation))
            && (c.last.value.state == Suppressed <==>
                  Says(c, RecommendationAvailable, False, RecommendationSuppressed, generation))
            && (c.last.value.state == Unavailable <==>
                  Says(c, RecommendationAvailable, False, RecommendationUnavailable, generation))
  {
  }

  // ---- the status object ----

  lemma AllTypes(m: map<ConditionType, Condition>)
    requires Reconciled in m && TargetResolved in m && TelemetryReady in m && RecommendationAvailable in m
    ensures m.Keys == {Reconciled, TargetResolved, TelemetryReady, RecommendationAvailable}
  {
    forall t | t in m.Keys
      ensures t in {Reconciled, TargetResolved, TelemetryReady, RecommendationAvailable}
    {
      match t { case Reconciled => case TargetResolved => case TelemetryReady => case RecommendationAvailable => }
    }
  }

  class PolicyStatus {
    var conditions: map<ConditionType, Condition>
    var last: Option<Summary>

    function Value(): Content
      reads this
    {
      Content(conditions, last)
    }

    constructor (c: Content)
      ensures Value() == c
    {
      conditions, last := c.conditions, c.last;
    }

    method SetCondition(t: ConditionType, truth: Truth, reason: ConditionReason, generation: int)
      modifies this`conditions
      ensures conditions == old(conditions)[t := Condition(truth, reason, generation)]
    {
      conditions := conditions[t := Condition(truth, reason, generation)];
    }

    method MarkRejected(generation: int, reason: ConditionReason)
      modifies this
      ensures Value() == Rejected(reason, generation)
    {
      last := None;
      SetCondition(Reconciled, False, reason, generation);
      SetCondition(TargetResolved, Unknown, NotEvaluated, generation);
      SetCondition(TelemetryReady, Unknown, NotEvaluated, generation);
      SetCondition(RecommendationAvailable, Unknown, NotEvaluated, generation);
      AllTypes(conditions);
      assert conditions == Rejected(reason, generation).conditions;
    }

    method MarkInvalidSpec(generation: int)
      modifies this
      ensures Value() == Rejected(InvalidSpec, generation)
    {
      MarkRejected(generation, InvalidSpec);
    }

    method MarkUnsupportedMode(generation: int)
      modifies this
      ensures Value() == Rejected(UnsupportedMode, generation)
    {
      MarkRejected(generation, UnsupportedMode);
    }

    method MarkTargetFailure(generation: int, reason: ConditionReason)
      modifies this
      ensures Value() == TargetFailed(reason, generation)
    {
      last := None;
      SetCondition(Reconciled, False, reason, generation);
      SetCondition(TargetResolved, False, reason, generation);
      SetCondition(TelemetryReady, Unknown, NotEvaluated, generation);
      SetCondition(RecommendationAvailable, Unknown, NotEvaluated, generation);
      AllTypes(conditions);
      assert conditions == TargetFailed(reason, generation).conditions;
    }

    method MarkEvaluationFailure(generation: int)
      modifies this
      ensures Value() == Failed(old(Value()), generation)
    {
      last := None;
      SetCondition(Reconciled, False, EvaluationFailed, generation);
      SetCondition(TelemetryReady, Unknown, NotEvaluated, generation);
      SetCondition(RecommendationAvailable, Unknown, NotEvaluated, generation);
    }

    method ApplyResolvedTarget(generation: int)
      modifies this
      ensures Value() == Resolved(old(Value()), generation)
    {
      SetCondition(TargetResolved, True, TargetFound, generation);
    }

    method ApplyEvaluation(generation: int, e: LiveEvaluation)
      modifies this
      ensures Value() == Evaluated(old(Value()), generation, e)
    {
      last := None;
      match e.telemetry {
        case IsReady => SetCondition(TelemetryReady, True, TelemetryIsReady, generation);
        case IsDegraded => SetCondition(TelemetryReady, False, TelemetryDegraded, generation);
        case NotUsable(blocking, explained) =>
          var reason := TelemetryUnsupported;
          if !blocking && explained {
            reason := TelemetryLoadFailed;
          }
          SetCondition(TelemetryReady, False, reason, generation);
      }
      match e.stage {
        case TelemetryUnavailable =>
          last := Some(UnavailableSummary(e.at, e.currentReplicas));
          SetCondition(RecommendationAvailable, False, RecommendationUnavailable, generation);
        case ForecastUnavailable =>
          last := Some(UnavailableSummary(e.at, e.currentReplicas));
          SetCondition(RecommendationAvailable, False, RecommendationUnavailable, generation);
        case Decision =>
          if e.recommendation.Some? {
            var r := e.recommendation.value;
            last := Some(Projected(e.at, e.currentReplicas, r));
            var truth, reason := True, RecommendationSurfaced;
            if r.state != Available {
              truth := False;
              if r.state == Suppressed {
                reason := RecommendationSuppressed;
              } else {
                reason := RecommendationUnavailable;
              }
            }
            SetCondition(RecommendationAvailable, truth, reason, generation);
          } else {
            SetCondition(RecommendationAvailable, Unknown, NotEvaluated, generation);
          }
      }
      SetCondition(Reconciled, True, Succeeded, generation);
    }
  }
}
