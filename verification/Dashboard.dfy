/** The dashboard's replica overlay, computed by its own bound and step functions. */
module Dashboard {
  import opened Core
  import opened Bounds

  function BoundDashboardReplicas(replicas: int32, min: int32, max: int32): int32 {
    var raised := if min > 0 && replicas < min then min else replicas;
    if max > 0 && raised > max then max else raised
  }

  /** Unlike the safety policy, these sums use plain int32 arithmetic and may wrap. */
  function StepBoundDashboardReplicas(replicas: int32, current: int32, l: Limits): int32 {
    if l.stepUp.Some? && l.stepUp.value > 0 && replicas > Wrap32(current + l.stepUp.value)
    then Wrap32(current + l.stepUp.value)
    else if l.stepDown.Some? && l.stepDown.value > 0 && replicas < Wrap32(current - l.stepDown.value)
    then Wrap32(current - l.stepDown.value)
    else replicas
  }

  function DashboardReplicas(raw: int32, current: int32, l: Limits): int32 {
    StepBoundDashboardReplicas(BoundDashboardReplicas(raw, l.min, l.max), current, l)
  }

  lemma WrapOverflow(x: int)
    requires MAX_INT32 < x <= 2 * MAX_INT32
    ensures Wrap32(x) == x - 0x1_0000_0000 < 0
  {
  }

  /**
   * For an in-range count the overlay and the safety policy agree on every raw count exactly when
   * adding the step-up limit stays within int32; past that the overlay wraps to a negative count.
   */
  lemma OverlayAgreesIffStepFits(raw: int32, current: int32, l: Limits)
    requires ValidLimits(l) && InRange(l, current)
    ensures DashboardReplicas(raw, current, l) == Final(raw, current, l) <==>
            (l.stepUp.None? || current + l.stepUp.value <= MAX_INT32)
  {
    if l.stepUp.Some? && current + l.stepUp.value > MAX_INT32 {
      WrapOverflow(current + l.stepUp.value);
      FinalInRange(raw, current, l);
    }
  }

  /** Out of range the two may disagree: the overlay has no forced correction to the nearest bound. */
  lemma OverlayIgnoresOutOfRangeCorrection()
    ensures var l := Limits(3, 10, None, None);
            DashboardReplicas(8, 1, l) == 8 && Final(8, 1, l) == 3
  {
  }

  /** The overlay and the safety policy show the same count whatever raw count is asked for. */
  ghost predicate AgreeEverywhere(current: int32, l: Limits) {
    forall raw: int32 :: DashboardReplicas(raw, current, l) == Final(raw, current, l)
  }

  /**
   * Below the minimum they agree on every raw count exactly when one step up lands on the minimum,
   * or when the range is that single count and a step up reaches it without overflow.
   */
  lemma AgreeBelowMinimumIff(current: int32, l: Limits)
    requires ValidLimits(l) && 0 <= current < l.min
    ensures AgreeEverywhere(current, l) <==>
            || (l.stepUp.Some? && current + l.stepUp.value == l.min)
            || (l.min == l.max && (l.stepUp.None? || l.min <= current + l.stepUp.value <= MAX_INT32))
  {
    if AgreeEverywhere(current, l) {
      assert DashboardReplicas(l.min, current, l) == Final(l.min, current, l);
      assert DashboardReplicas(l.max, current, l) == Final(l.max, current, l);
    }
  }

  /**
   * Above the maximum they agree on every raw count exactly when the step-up sum does not overflow
   * and one step down lands on the maximum, or the range is that single count and a step down
   * reaches it.
   */
  lemma AgreeAboveMaximumIff(current: int32, l: Limits)
    requires ValidLimits(l) && current > l.max
    ensures AgreeEverywhere(current, l) <==>
            && (l.stepUp.None? || current + l.stepUp.value <= MAX_INT32)
            && (|| (l.stepDown.Some? && current - l.stepDown.value == l.max)
                || (l.min == l.max && (l.stepDown.None? || current - l.stepDown.value <= l.max)))
  {
    if AgreeEverywhere(current, l) {
      assert DashboardReplicas(l.min, current, l) == Final(l.min, current, l);
      assert DashboardReplicas(l.max, current, l) == Final(l.max, current, l);
    }
  }
}
