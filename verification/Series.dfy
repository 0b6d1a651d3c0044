/** Sample series: the tiered merge, the lookup at an instant, and the capacity estimate built on it. */
module Series {
  import opened Core
  import opened Sorting

  datatype Sample = Sample(at: Time, value: real)

  function SampleKey(s: Sample): real { s.at as real }

  predicate Increasing(xs: seq<Sample>) {
    forall i, j :: 0 <= i < j < |xs| ==> xs[i].at < xs[j].at
  }

  // ---- the merge of two tiers ----

  /** The value of the last listed sample at exactly `t`. */
  function LastAt(xs: seq<Sample>, t: Time): Option<real> {
    if xs == [] then None
    else if xs[|xs| - 1].at == t then Some(xs[|xs| - 1].value)
    else LastAt(xs[..|xs| - 1], t)
  }

  /** Whichever sample at `t` is listed last is the one found. */
  lemma {:induction false} LastAtIsLast(xs: seq<Sample>, t: Time, i: nat)
    requires i < |xs| && xs[i].at == t && forall j :: i < j < |xs| ==> xs[j].at != t
    ensures LastAt(xs, t) == Some(xs[i].value)
  {
    if i < |xs| - 1 {
      LastAtIsLast(xs[..|xs| - 1], t, i);
    }
  }

  /** Right-biased union: the recent tier's value at `t`, else the base tier's. */
  function UnionAt(base: seq<Sample>, recent: seq<Sample>, t: Time): Option<real> {
    if LastAt(recent, t).Some? then LastAt(recent, t) else LastAt(base, t)
  }

  function Lookup(m: map<Time, real>, t: Time): Option<real> {
    if t in m then Some(m[t]) else None
  }

  method Overwrite(xs: seq<Sample>, m: map<Time, real>) returns (r: map<Time, real>)
    ensures forall t :: Lookup(r, t) == if LastAt(xs, t).Some? then LastAt(xs, t) else Lookup(m, t)
  {
    r := m;
    for i := 0 to |xs|
      invariant forall t :: Lookup(r, t) == if LastAt(xs[..i], t).Some? then LastAt(xs[..i], t) else Lookup(m, t)
    {
      assert xs[..i + 1][..i] == xs[..i];
      r := r[xs[i].at := xs[i].value];
    }
    assert xs[..|xs|] == xs;
  }

  method AnyOf(times: set<Time>) returns (t: Time)
    requires times != {}
    ensures t in times
  {
    assert (forall s :: s !in times) ==> times == {};
    t :| t in times;
  }

  /** The samples listed once each, in no particular order. */
  method Listed(m: map<Time, real>) returns (out: seq<Sample>)
    ensures forall s: Sample :: s in out <==> Lookup(m, s.at) == Some(s.value)
    ensures forall i, j :: 0 <= i < j < |out| ==> out[i].at != out[j].at
  {
    out := [];
    var left: set<Time> := m.Keys;
    while left != {}
      invariant left <= m.Keys
      invariant forall s: Sample :: s in out <==> s.at !in left && Lookup(m, s.at) == Some(s.value)
      invariant forall i, j :: 0 <= i < j < |out| ==> out[i].at != out[j].at
      decreases |left|
    {
      var t := AnyOf(left);
      assert forall i :: 0 <= i < |out| ==> out[i] in out;
      out := out + [Sample(t, m[t])];
      left := left - {t};
    }
  }

  /** The merge is strictly increasing in time and holds exactly the right-biased union. */
  method MergeSeries(base: seq<Sample>, recent: seq<Sample>) returns (out: seq<Sample>)
    ensures IsMerge(base, recent, out)
  {
    var byTime := Overwrite(base, map[]);
    byTime := Overwrite(recent, byTime);
    var samples := Listed(byTime);
    out := Sort(samples, SampleKey);
    SortAscends(samples, SampleKey);
    DistinctSort(samples);
    hide LastAt;
    assert forall s: Sample :: s in samples <==> UnionAt(base, recent, s.at) == Some(s.value);
  }

  ghost predicate IsMerge(base: seq<Sample>, recent: seq<Sample>, out: seq<Sample>) {
    && Increasing(out)
    && forall s: Sample :: s in out <==> UnionAt(base, recent, s.at) == Some(s.value)
  }

  lemma {:induction false} CountOnce(xs: seq<Sample>, s: Sample)
    requires forall i, j :: 0 <= i < j < |xs| ==> xs[i].at != xs[j].at
    ensures multiset(xs)[s] <= 1
  {
    if xs != [] {
      var n := |xs| - 1;
      CountOnce(xs[..n], s);
      assert xs == xs[..n] + [xs[n]];
      assert s == xs[n] ==> s !in xs[..n];
    }
  }

  lemma CountTwice(xs: seq<Sample>, i: nat, j: nat)
    requires i < j < |xs| && xs[i] == xs[j]
    ensures multiset(xs)[xs[i]] >= 2
  {
    assert xs == xs[..j] + xs[j..];
    assert xs[..j][i] in multiset(xs[..j]);
    assert xs[j..][0] in multiset(xs[j..]);
  }

  /** Sorting samples at distinct instants leaves them strictly increasing. */
  lemma DistinctSort(xs: seq<Sample>)
    requires forall i, j :: 0 <= i < j < |xs| ==> xs[i].at != xs[j].at
    ensures Increasing(Sort(xs, SampleKey))
    ensures forall s :: s in Sort(xs, SampleKey) <==> s in xs
  {
    hide Sort;
    var out := Sort(xs, SampleKey);
    SortAscends(xs, SampleKey);
    SortKeeps(xs, SampleKey);
    assert forall s :: s in out <==> s in multiset(out);
    assert forall s :: s in xs <==> s in multiset(xs);
    forall i, j | 0 <= i < j < |out|
      ensures out[i].at < out[j].at
    {
      assert SampleKey(out[i]) <= SampleKey(out[j]);
      if out[i].at == out[j].at {
        assert out[i] in xs && out[j] in xs;
        assert out[i] == out[j];
        CountTwice(out, i, j);
        CountOnce(xs, out[i]);
      }
    }
  }

  // ---- lookup ----

  /** The newest sample at or before `t`, scanning back from the end. */
  function Newest(xs: seq<Sample>, t: Time): Option<Sample> {
    if xs == [] then None
    else if xs[|xs| - 1].at <= t then Some(xs[|xs| - 1])
    else Newest(xs[..|xs| - 1], t)
  }

  /** `r` is the sample at the latest instant not after `t`, or nothing when every sample is later. */
  ghost predicate IsNewest(xs: seq<Sample>, t: Time, r: Option<Sample>) {
    match r
    case None => forall s :: s in xs ==> s.at > t
    case Some(n) => n in xs && n.at <= t && forall s :: s in xs && s.at <= t ==> s.at <= n.at
  }

  lemma {:induction false} NewestIsNewest(xs: seq<Sample>, t: Time)
    requires Increasing(xs)
    ensures IsNewest(xs, t, Newest(xs, t))
  {
    if xs != [] {
      var n := |xs| - 1;
      assert xs == xs[..n] + [xs[n]];
      if xs[n].at > t {
        NewestIsNewest(xs[..n], t);
      }
    }
  }

  lemma NewestIsUnique(xs: seq<Sample>, t: Time, r: Option<Sample>)
    requires Increasing(xs) && IsNewest(xs, t, r)
    ensures r == Newest(xs, t)
  {
    NewestIsNewest(xs, t);
    hide Newest;
    if r.Some? {
      var i :| 0 <= i < |xs| && xs[i] == r.value;
      var j :| 0 <= j < |xs| && xs[j] == Newest(xs, t).value;
      assert i == j;
    }
  }

  /** The binary search agrees with the scan on the ordered series the collectors produce. */
  method ValueAtOrBefore(samples: seq<Sample>, at: Time) returns (r: Option<real>)
    requires Increasing(samples)
    ensures r == if Newest(samples, at).Some? then Some(Newest(samples, at).value.value) else None
  {
    if |samples| == 0 {
      return None;
    }
    var lo, hi := 0, |samples|;
    while lo < hi
      invariant 0 <= lo <= hi <= |samples|
      invariant forall i :: 0 <= i < lo ==> samples[i].at < at
      invariant forall i :: hi <= i < |samples| ==> samples[i].at >= at
    {
      var mid := lo + (hi - lo) / 2;
      if samples[mid].at < at {
        lo := mid + 1;
      } else {
        hi := mid;
      }
    }
    if lo < |samples| && samples[lo].at == at {
      NewestIsUnique(samples, at, Some(samples[lo]));
      return Some(samples[lo].value);
    } else if lo == 0 {
      NewestIsUnique(samples, at, None);
      return None;
    } else {
      NewestIsUnique(samples, at, Some(samples[lo - 1]));
      return Some(samples[lo - 1].value);
    }
  }

  /** The later of the newest recent and the newest base sample; ties go to the recent tier. */
  function Later(recent: Option<Sample>, base: Option<Sample>): Option<Sample> {
    if recent.None? || (base.Some? && base.value.at > recent.value.at) then base else recent
  }

  lemma {:induction false} LastAtOfIncreasing(xs: seq<Sample>, s: Sample)
    requires Increasing(xs)
    ensures s in xs <==> LastAt(xs, s.at) == Some(s.value)
  {
    if xs != [] {
      var n := |xs| - 1;
      LastAtOfIncreasing(xs[..n], s);
      assert xs == xs[..n] + [xs[n]];
    }
  }

  lemma {:induction false} LastAtNone(xs: seq<Sample>, t: Time)
    ensures LastAt(xs, t).Some? <==> exists s :: s in xs && s.at == t
  {
    if xs != [] {
      var n := |xs| - 1;
      LastAtNone(xs[..n], t);
      assert xs == xs[..n] + [xs[n]];
    }
  }

  /** Looking up an instant in the merge finds the later of what the two tiers hold; ties to the recent tier. */
  lemma MergeLookup(base: seq<Sample>, recent: seq<Sample>, out: seq<Sample>, t: Time)
    requires Increasing(base) && Increasing(recent) && IsMerge(base, recent, out)
    ensures Newest(out, t) == Later(Newest(recent, t), Newest(base, t))
  {
    NewestIsNewest(base, t);
    NewestIsNewest(recent, t);
    var r := Later(Newest(recent, t), Newest(base, t));
    hide Newest, LastAt;
    forall s: Sample | s in out
      ensures s in recent || s in base
    {
      LastAtOfIncreasing(recent, s);
      LastAtOfIncreasing(base, s);
    }
    if r.Some? {
      LastAtOfIncreasing(recent, r.value);
      LastAtOfIncreasing(base, r.value);
      LastAtNone(recent, r.value.at);
      assert UnionAt(base, recent, r.value.at) == Some(r.value.value);
    }
    NewestIsUnique(out, t, r);
  }

  // ---- the capacity estimate ----

  const DEFAULT_LOOKBACK: Duration := 900_000_000_000
  const DEFAULT_MINIMUM_SAMPLES: int := 3

  datatype Estimate = Estimate(windowStart: Time, windowEnd: Time, estimated: bool, capacity: real, sampleCount: nat)

  /** Demand in the window while at least one replica is known to run. */
  predicate Usable(d: Sample, replicas: seq<Sample>, start: Time, end: Time) {
    && start <= d.at <= end && d.value > 0.0
    && Newest(replicas, d.at).Some? && Newest(replicas, d.at).value.value >= 1.0
  }

  function PerReplica(d: Sample, replicas: seq<Sample>, target: real): real
    requires Newest(replicas, d.at).Some? && Newest(replicas, d.at).value.value >= 1.0 && target > 0.0
  {
    PositiveProduct(Newest(replicas, d.at).value.value, target);
    d.value / (Newest(replicas, d.at).value.value * target)
  }

  /** The capacity observed at each usable demand sample. */
  function Capacities(demand: seq<Sample>, replicas: seq<Sample>, start: Time, end: Time, target: real): seq<real>
    requires target > 0.0
  {
    if demand == [] then []
    else
      var n := |demand| - 1;
      var before := Capacities(demand[..n], replicas, start, end, target);
      if Usable(demand[n], replicas, start, end) then before + [PerReplica(demand[n], replicas, target)] else before
  }

  method CollectCapacities(demand: seq<Sample>, replicas: seq<Sample>, start: Time, end: Time, target: real)
    returns (capacities: seq<real>)
    requires Increasing(replicas) && target > 0.0
    ensures capacities == Capacities(demand, replicas, start, end, target)
  {
    hide Newest, Increasing;
    capacities := [];
    for i := 0 to |demand|
      invariant capacities == Capacities(demand[..i], replicas, start, end, target)
    {
      assert demand[..i + 1][..i] == demand[..i];
      var d := demand[i];
      if start <= d.at <= end {
        var running := ValueAtOrBefore(replicas, d.at);
        if running.Some? && running.value >= 1.0 && d.value > 0.0 {
          PositiveProduct(running.value, target);
          capacities := capacities + [d.value / (running.value * target)];
          assert PerReplica(d, replicas, target) == d.value / (running.value * target);
        }
      }
      assert capacities == Capacities(demand[..i + 1], replicas, start, end, target);
    }
    assert demand[..|demand|] == demand;
  }

  method CapacityEstimateFromSeries(demand: seq<Sample>, replicas: seq<Sample>, evaluatedAt: Time, lookback: Duration,
                                    minimumSamples: int, target: real) returns (e: Estimate)
    requires Increasing(replicas)
    ensures e == EstimateOf(demand, replicas, evaluatedAt, lookback, minimumSamples, target)
  {
    hide Median, Capacities, Increasing;
    var span := if lookback <= 0 then DEFAULT_LOOKBACK else lookback;
    var needed := if minimumSamples < 1 then DEFAULT_MINIMUM_SAMPLES else minimumSamples;
    e := Estimate(evaluatedAt - span, evaluatedAt, false, 0.0, 0);
    if target <= 0.0 || target > 1.0 {
      return;
    }
    var capacities := CollectCapacities(demand, replicas, e.windowStart, e.windowEnd, target);
    e := e.(sampleCount := |capacities|);
    if |capacities| < needed {
      return;
    }
    var capacity := Median(capacities);
    CapacitiesPositive(demand, replicas, e.windowStart, e.windowEnd, target);
    MedianPositive(capacities);
    if capacity <= 0.0 {
      return;
    }
    e := e.(estimated := true, capacity := capacity);
  }

  function Span(lookback: Duration): Duration { if lookback <= 0 then DEFAULT_LOOKBACK else lookback }

  function Needed(minimumSamples: int): int { if minimumSamples < 1 then DEFAULT_MINIMUM_SAMPLES else minimumSamples }

  /** An estimate is made exactly when the utilization target is sensible and enough samples are usable. */
  function EstimateOf(demand: seq<Sample>, replicas: seq<Sample>, evaluatedAt: Time, lookback: Duration,
                      minimumSamples: int, target: real): Estimate {
    var start := evaluatedAt - Span(lookback);
    if target <= 0.0 || target > 1.0 then Estimate(start, evaluatedAt, false, 0.0, 0)
    else
      var cs := Capacities(demand, replicas, start, evaluatedAt, target);
      if |cs| < Needed(minimumSamples) then Estimate(start, evaluatedAt, false, 0.0, |cs|)
      else Estimate(start, evaluatedAt, true, Median(cs), |cs|)
  }

  lemma {:induction false} CapacitiesPositive(demand: seq<Sample>, replicas: seq<Sample>, start: Time, end: Time, target: real)
    requires target > 0.0
    ensures forall c :: c in Capacities(demand, replicas, start, end, target) ==> c > 0.0
  {
    hide Newest;
    if demand != [] {
      var n := |demand| - 1;
      CapacitiesPositive(demand[..n], replicas, start, end, target);
      if Usable(demand[n], replicas, start, end) {
        var running := Newest(replicas, demand[n].at).value.value;
        PositiveProduct(running, target);
        PositiveQuotient(demand[n].value, running * target);
      }
    }
  }

  lemma {:induction false} CapacitiesAreTrue(demand: seq<Sample>, replicas: seq<Sample>, start: Time, end: Time,
                                             target: real, capacity: real)
    requires target > 0.0
    requires forall d :: d in demand && Usable(d, replicas, start, end) ==>
               d.value == capacity * (Newest(replicas, d.at).value.value * target)
    ensures forall c :: c in Capacities(demand, replicas, start, end, target) ==> c == capacity
  {
    hide Newest;
    if demand != [] {
      var n := |demand| - 1;
      CapacitiesAreTrue(demand[..n], replicas, start, end, target, capacity);
      if Usable(demand[n], replicas, start, end) {
        assert demand[n] in demand;
        var running := Newest(replicas, demand[n].at).value.value;
        PositiveProduct(running, target);
        DivideBack(capacity, running * target);
      }
    }
  }

  lemma DivideBack(c: real, d: real)
    requires d != 0.0
    ensures (c * d) / d == c
  {
  }

  /**
   * When every usable sample was taken with the replicas loaded to the target and a fixed true
   * capacity, an estimate that is made recovers that capacity exactly.
   */
  lemma EstimateRecoversCapacity(demand: seq<Sample>, replicas: seq<Sample>, evaluatedAt: Time, lookback: Duration,
                                 minimumSamples: int, target: real, capacity: real)
    requires 0.0 < target <= 1.0
    requires forall d :: d in demand && Usable(d, replicas, evaluatedAt - Span(lookback), evaluatedAt) ==>
               d.value == capacity * (Newest(replicas, d.at).value.value * target)
    ensures var e := EstimateOf(demand, replicas, evaluatedAt, lookback, minimumSamples, target);
            e.estimated ==> e.capacity == capacity
  {
    hide Median, Newest, Usable;
    var cs := Capacities(demand, replicas, evaluatedAt - Span(lookback), evaluatedAt, target);
    CapacitiesAreTrue(demand, replicas, evaluatedAt - Span(lookback), evaluatedAt, target, capacity);
    if |cs| >= Needed(minimumSamples) {
      MedianBetween(cs, capacity, capacity);
    }
  }

  // ---- the estimate, told by the samples ----

  /** Demand in the window at `d` while `running` was the newest replica sample and counted at least one. */
  ghost predicate IsUsableWith(d: Sample, replicas: seq<Sample>, start: Time, end: Time, running: Sample) {
    start <= d.at <= end && d.value > 0.0 && IsNewest(replicas, d.at, Some(running)) && running.value >= 1.0
  }

  /** At capacity `c` the replicas running then carry exactly the demand of `d` when loaded to the target. */
  ghost predicate IsObservedAt(d: Sample, replicas: seq<Sample>, start: Time, end: Time, target: real, c: real) {
    exists running :: IsUsableWith(d, replicas, start, end, running) && c * (running.value * target) == d.value
  }

  ghost predicate IsObserved(demand: seq<Sample>, replicas: seq<Sample>, start: Time, end: Time, target: real, c: real) {
    exists d :: d in demand && IsObservedAt(d, replicas, start, end, target, c)
  }

  /** Where the usable demand samples stand. */
  ghost function UsablePlaces(demand: seq<Sample>, replicas: seq<Sample>, start: Time, end: Time): set<int> {
    set i | 0 <= i < |demand| && exists running :: IsUsableWith(demand[i], replicas, start, end, running)
  }

  lemma UsableIff(d: Sample, replicas: seq<Sample>, start: Time, end: Time, target: real)
    requires Increasing(replicas) && target > 0.0
    ensures Usable(d, replicas, start, end) <==> exists running :: IsUsableWith(d, replicas, start, end, running)
    ensures forall c :: IsObservedAt(d, replicas, start, end, target, c) <==>
              Usable(d, replicas, start, end) && c == PerReplica(d, replicas, target)
  {
    NewestIsNewest(replicas, d.at);
    hide Newest, Increasing, IsNewest;
    if Usable(d, replicas, start, end) {
      assert IsUsableWith(d, replicas, start, end, Newest(replicas, d.at).value);
    }
    forall running | IsUsableWith(d, replicas, start, end, running)
      ensures Newest(replicas, d.at) == Some(running)
    {
      NewestIsUnique(replicas, d.at, Some(running));
    }
    forall c
      ensures IsObservedAt(d, replicas, start, end, target, c) <==>
              Usable(d, replicas, start, end) && c == PerReplica(d, replicas, target)
    {
      if Usable(d, replicas, start, end) {
        PositiveProduct(Newest(replicas, d.at).value.value, target);
        QuotientIs(d.value, Newest(replicas, d.at).value.value * target, c);
      }
    }
  }

  lemma QuotientIs(a: real, b: real, c: real)
    requires b > 0.0
    ensures c * b == a <==> c == a / b
  {
    DivideBack(c, b);
  }

  /** The capacities are those of the usable samples, one for each. */
  lemma {:induction false} CapacitiesAreObserved(demand: seq<Sample>, replicas: seq<Sample>, start: Time, end: Time, target: real)
    requires Increasing(replicas) && target > 0.0
    ensures forall c :: c in Capacities(demand, replicas, start, end, target) <==>
              IsObserved(demand, replicas, start, end, target, c)
    ensures |Capacities(demand, replicas, start, end, target)| == |UsablePlaces(demand, replicas, start, end)|
  {
    hide Newest, Increasing, Usable, IsUsableWith, IsObservedAt, PerReplica;
    if demand == [] {
      assert UsablePlaces(demand, replicas, start, end) == {};
    } else {
      var n := |demand| - 1;
      var before, d := demand[..n], demand[n];
      CapacitiesAreObserved(before, replicas, start, end, target);
      UsableIff(d, replicas, start, end, target);
      assert demand == before + [d];
      assert forall i :: 0 <= i < n ==> before[i] == demand[i];
      assert UsablePlaces(demand, replicas, start, end) ==
             UsablePlaces(before, replicas, start, end) + if Usable(d, replicas, start, end) then {n} else {};
      forall c
        ensures c in Capacities(demand, replicas, start, end, target) <==>
                IsObserved(demand, replicas, start, end, target, c)
      {
        ObservedGrows(before, d, replicas, start, end, target, c);
      }
    }
  }

  lemma ObservedGrows(before: seq<Sample>, d: Sample, replicas: seq<Sample>, start: Time, end: Time, target: real, c: real)
    requires Increasing(replicas) && target > 0.0
    ensures IsObserved(before + [d], replicas, start, end, target, c) <==>
            || IsObserved(before, replicas, start, end, target, c)
            || (Usable(d, replicas, start, end) && c == PerReplica(d, replicas, target))
  {
    hide Newest, Increasing, PerReplica, IsObservedAt;
    UsableIff(d, replicas, start, end, target);
    assert IsObservedAt(d, replicas, start, end, target, c) ==> d in before + [d];
    if x :| x in before && IsObservedAt(x, replicas, start, end, target, c) {
      assert x in before + [d];
    }
  }

  /** Half of the observed capacities are at most the estimate and half at least; it is one of them or the mean of the middle two. */
  ghost predicate IsMedianOf(m: real, cs: seq<real>) {
    && 2 * Below(cs, Identity, m) <= |cs| && 2 * Above(cs, Identity, m) <= |cs|
    && (|cs| % 2 == 1 ==> m in cs)
    && (|cs| % 2 == 0 ==> exists a, b :: AreMiddle(cs, Identity, a, b) && 2.0 * m == a + b)
  }

  /**
   * An estimate is made exactly for a sensible target and enough usable samples, and it splits the
   * capacities observed at them in half.
   */
  lemma EstimateSplitsCapacities(demand: seq<Sample>, replicas: seq<Sample>, evaluatedAt: Time, lookback: Duration,
                                 minimumSamples: int, target: real)
    requires Increasing(replicas)
    ensures var e := EstimateOf(demand, replicas, evaluatedAt, lookback, minimumSamples, target);
            && e.windowEnd == evaluatedAt
            && e.windowStart == (if lookback > 0 then evaluatedAt - lookback else evaluatedAt - 15 * 60 * SECOND)
            && (e.estimated <==>
                  && 0.0 < target <= 1.0
                  && |UsablePlaces(demand, replicas, e.windowStart, evaluatedAt)| >= (if minimumSamples >= 1 then minimumSamples else 3))
            && (0.0 < target <= 1.0 ==> e.sampleCount == |UsablePlaces(demand, replicas, e.windowStart, evaluatedAt)|)
            && (e.estimated ==>
                  exists cs :: |cs| == |UsablePlaces(demand, replicas, e.windowStart, evaluatedAt)| && IsMedianOf(e.capacity, cs)
                               && forall c :: c in cs <==> IsObserved(demand, replicas, e.windowStart, evaluatedAt, target, c))
  {
    hide Median, Capacities, Increasing, UsablePlaces, IsObserved, AreMiddle;
    if 0.0 < target <= 1.0 {
      CapacitiesAreObserved(demand, replicas, evaluatedAt - Span(lookback), evaluatedAt, target);
      var cs := Capacities(demand, replicas, evaluatedAt - Span(lookback), evaluatedAt, target);
      if cs != [] {
        MedianSplits(cs);
        assert IsMedianOf(Median(cs), cs);
      }
    }
  }
}
