/** Replica bounds of the safety policy: clamping, step limits and repeated application. */
module Bounds {
  import opened Core

  /** Replica limits of one policy. */
  datatype Limits = Limits(min: int32, max: int32, stepUp: Option<int32>, stepDown: Option<int32>)

  /** What the validators of the safety and recommendation inputs demand of the limits. */
  predicate ValidLimits(l: Limits) {
    && 1 <= l.min <= l.max
    && (l.stepUp.Some? ==> 1 <= l.stepUp.value)
    && (l.stepDown.Some? ==> 1 <= l.stepDown.value)
  }

  predicate InRange(l: Limits, replicas: int) { l.min <= replicas <= l.max }

  function Clamp(value: int32, lo: int32, hi: int32): int32 {
    if value < lo then lo else if value > hi then hi else value
  }

  function SaturatingAdd(a: int32, b: int32): int32 {
    if a + b > MAX_INT32 then MAX_INT32 else Wrap32(a + b)
  }

  function SaturatingSub(a: int32, b: int32): int32 {
    if a - b < MIN_INT32 then MIN_INT32 else Wrap32(a - b)
  }

  function ApplyStepBounds(target: int32, current: int32, l: Limits): int32 {
    if current < l.min then l.min
    else if current > l.max then l.max
    else
      var raised :=
        if target > current && l.stepUp.Some? && target > SaturatingAdd(current, l.stepUp.value)
        then SaturatingAdd(current, l.stepUp.value) else target;
      var bounded :=
        if target < current && l.stepDown.Some? && raised < SaturatingSub(current, l.stepDown.value)
        then SaturatingSub(current, l.stepDown.value) else raised;
      Clamp(bounded, l.min, l.max)
  }

  /** Outcome of bounding one raw recommendation, with the flags the explanation reports. */
  datatype Bounded = Bounded(
    policyBound: int32, final: int32, minMaxBounded: bool, stepUpBounded: bool, stepDownBounded: bool)

  function ApplyBounds(raw: int32, current: int32, l: Limits): Bounded {
    var policyBound := Clamp(raw, l.min, l.max);
    var final := ApplyStepBounds(policyBound, current, l);
    Bounded(policyBound, final,
            raw < l.min || raw > l.max || current < l.min || current > l.max,
            InRange(l, current) && policyBound > current && final < policyBound,
            InRange(l, current) && policyBound < current && final > policyBound)
  }

  function Final(raw: int32, current: int32, l: Limits): int32 { ApplyBounds(raw, current, l).final }

  // ---- what one bounded recommendation means ----

  /** The counts one recommendation may move to from an in-range count. */
  predicate Reachable(l: Limits, current: int32, x: int) {
    && InRange(l, x)
    && (l.stepUp.Some? ==> x <= current + l.stepUp.value)
    && (l.stepDown.Some? ==> x >= current - l.stepDown.value)
  }

  /** From an in-range count the final recommendation is the reachable count nearest to the raw one. */
  lemma FinalIsNearestReachable(raw: int32, current: int32, l: Limits, x: int)
    requires ValidLimits(l) && InRange(l, current)
    ensures Reachable(l, current, Final(raw, current, l))
    ensures Reachable(l, current, x) ==> Abs(Final(raw, current, l) - raw) <= Abs(x - raw)
  {
    assert Reachable(l, current, current);
  }

  /** From an out-of-range count the recommendation is the nearest end of the range, whatever was asked. */
  lemma OutOfRangeIsCorrected(raw: int32, current: int32, l: Limits)
    requires ValidLimits(l) && !InRange(l, current)
    ensures Final(raw, current, l) == Clamp(current, l.min, l.max)
  {
  }

  lemma FinalInRange(raw: int32, current: int32, l: Limits)
    requires ValidLimits(l)
    ensures InRange(l, Final(raw, current, l))
  {
  }

  /** A step limit is reported exactly when without it the recommendation would have gone further. */
  lemma StepFlagsMeaning(raw: int32, current: int32, l: Limits)
    requires ValidLimits(l)
    ensures var b := ApplyBounds(raw, current, l);
            && (b.stepUpBounded <==> Final(raw, current, l.(stepUp := None)) > b.final)
            && (b.stepDownBounded <==> Final(raw, current, l.(stepDown := None)) < b.final)
  {
  }

  /** The range is reported exactly when it kept the raw count or the current one out; the count it allows is the nearest to the raw one. */
  lemma RangeFlagMeaning(raw: int32, current: int32, l: Limits, x: int)
    requires ValidLimits(l)
    ensures var b := ApplyBounds(raw, current, l);
            && (b.minMaxBounded <==> !InRange(l, raw) || !InRange(l, current))
            && InRange(l, b.policyBound) && (InRange(l, x) ==> Abs(b.policyBound - raw) <= Abs(x - raw))
  {
  }

  /** Asking for more never recommends less. */
  lemma FinalIsMonotone(low: int32, high: int32, current: int32, l: Limits)
    requires ValidLimits(l) && low <= high
    ensures Final(low, current, l) <= Final(high, current, l)
  {
  }

  /** The limits leave the raw count within reach: asked of the inputs, before anything is bounded. */
  predicate WithinReach(raw: int32, current: int32, l: Limits) {
    if current < l.min then raw <= l.min
    else raw <= l.max && (l.stepUp.None? || current > l.max || raw <= current + l.stepUp.value)
  }

  /**
   * The bounded count reaches the raw one exactly when the maximum and one step up from the current
   * count do, or, below the minimum, when no more than the minimum is asked for.
   */
  lemma FinalCoversRaw(raw: int32, current: int32, l: Limits)
    requires ValidLimits(l)
    ensures Final(raw, current, l) >= raw <==> WithinReach(raw, current, l)
  {
  }

  // ---- repeating a recommendation with a fixed raw target ----

  /** The count after `rounds` recommendations with the same raw target were each adopted. */
  function Iterate(raw: int32, current: int32, l: Limits, rounds: nat): int32
    decreases rounds
  {
    if rounds == 0 then current else Iterate(raw, Final(raw, current, l), l, rounds - 1)
  }

  /** Rounds needed from an in-range count: the distance in steps, rounded up. */
  function RoundsNeeded(raw: int32, current: int32, l: Limits): (n: nat)
  {
    var target := Clamp(raw, l.min, l.max);
    if target == current then 0
    else if target > current then
      if l.stepUp.Some? && l.stepUp.value >= 1 then CeilDiv(target - current, l.stepUp.value) else 1
    else
      if l.stepDown.Some? && l.stepDown.value >= 1 then CeilDiv(current - target, l.stepDown.value) else 1
  }

  lemma CeilDivStep(d: nat, s: nat)
    requires d > s > 0
    ensures CeilDiv(d, s) == CeilDiv(d - s, s) + 1
  {
    var q := CeilDiv(d - s, s);
    CeilDivUnique(d, s, q + 1);
  }

  lemma OneRoundFewer(raw: int32, current: int32, l: Limits)
    requires ValidLimits(l) && InRange(l, current)
    requires current != Clamp(raw, l.min, l.max)
    ensures RoundsNeeded(raw, current, l) == RoundsNeeded(raw, Final(raw, current, l), l) + 1
  {
    var target := Clamp(raw, l.min, l.max);
    var next := Final(raw, current, l);
    if target > current {
      if l.stepUp.Some? && target - current > l.stepUp.value {
        CeilDivStep(target - current, l.stepUp.value);
      } else if l.stepUp.Some? {
        CeilDivWithin(target - current, l.stepUp.value);
      }
    } else {
      if l.stepDown.Some? && current - target > l.stepDown.value {
        CeilDivStep(current - target, l.stepDown.value);
      } else if l.stepDown.Some? {
        CeilDivWithin(current - target, l.stepDown.value);
      }
    }
  }

  lemma CeilDivWithin(d: nat, s: nat)
    requires 0 < d <= s
    ensures CeilDiv(d, s) == 1
  {
    CeilDivUnique(d, s, 1);
  }

  /** One round moves towards the clamped target and never past it. */
  lemma RoundMovesTowardsTarget(raw: int32, current: int32, l: Limits)
    requires ValidLimits(l) && InRange(l, current)
    ensures var target := Clamp(raw, l.min, l.max);
            var next := Final(raw, current, l);
            && (current < target ==> current < next <= target)
            && (current > target ==> target <= next < current)
            && (current == target ==> next == target)
  {
  }

  /**
   * Convergence: the iterates move monotonically to the clamped target, arrive after exactly
   * `RoundsNeeded` rounds and not before, and then stay.
   */
  lemma {:induction false} IterateConverges(raw: int32, current: int32, l: Limits, rounds: nat)
    requires ValidLimits(l) && InRange(l, current)
    ensures var target := Clamp(raw, l.min, l.max);
            var reached := Iterate(raw, current, l, rounds);
            && InRange(l, reached)
            && (reached == target <==> rounds >= RoundsNeeded(raw, current, l))
            && (current <= target ==> current <= reached <= target)
            && (current >= target ==> target <= reached <= current)
    decreases rounds
  {
    var target := Clamp(raw, l.min, l.max);
    if rounds > 0 {
      var next := Final(raw, current, l);
      RoundMovesTowardsTarget(raw, current, l);
      IterateConverges(raw, next, l, rounds - 1);
      if current != target {
        OneRoundFewer(raw, current, l);
      }
    } else if current != target {
      OneRoundFewer(raw, current, l);
    }
  }
}
