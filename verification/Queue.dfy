/** The warmup queue: applying matured activations and keeping the rest in time order. */
module Queue {
  import opened Core
  import opened Timeline
  import opened RunProperties

  function Due(pending: seq<Activation>, at: Time): seq<Activation> {
    if pending == [] then []
    else
      var last := pending[|pending| - 1];
      if last.at > at then Due(pending[..|pending| - 1], at) else Due(pending[..|pending| - 1], at) + [last]
  }

  function NotDue(pending: seq<Activation>, at: Time): seq<Activation> {
    if pending == [] then []
    else
      var last := pending[|pending| - 1];
      if last.at > at then NotDue(pending[..|pending| - 1], at) + [last] else NotDue(pending[..|pending| - 1], at)
  }

  function Replicas(activations: seq<Activation>): seq<int32> {
    seq(|activations|, i requires 0 <= i < |activations| => activations[i].replicas)
  }

  function LastCount(current: int32, activations: seq<Activation>): int32 {
    if activations == [] then current else activations[|activations| - 1].replicas
  }

  predicate Sorted(xs: seq<Activation>) {
    forall i, j :: 0 <= i < j < |xs| ==> xs[i].at <= xs[j].at
  }

  /** Every due activation is adopted in turn, and each that changes the count is counted once. */
  method ApplyScheduledActivations(current: int32, pending: seq<Activation>, at: Time, scaleUps: nat, scaleDowns: nat)
    returns (updated: int32, ups: nat, downs: nat)
    ensures updated == LastCount(current, Due(pending, at))
    ensures ups == scaleUps + Rises([current] + Replicas(Due(pending, at)))
    ensures downs == scaleDowns + Falls([current] + Replicas(Due(pending, at)))
  {
    updated, ups, downs := current, scaleUps, scaleDowns;
    for i := 0 to |pending|
      invariant updated == LastCount(current, Due(pending[..i], at))
      invariant ups == scaleUps + Rises([current] + Replicas(Due(pending[..i], at)))
      invariant downs == scaleDowns + Falls([current] + Replicas(Due(pending[..i], at)))
    {
      assert pending[..i + 1][..i] == pending[..i];
      if pending[i].at > at {
        continue;
      }
      AdoptOne(current, Due(pending[..i], at), pending[i]);
      if pending[i].replicas > updated {
        ups := ups + 1;
      }
      if pending[i].replicas < updated {
        downs := downs + 1;
      }
      updated := pending[i].replicas;
    }
    assert pending[..|pending|] == pending;
  }

  lemma AdoptOne(current: int32, due: seq<Activation>, a: Activation)
    ensures var was := [current] + Replicas(due);
            var now := [current] + Replicas(due + [a]);
            && Rises(now) == Rises(was) + (if a.replicas > LastCount(current, due) then 1 else 0)
            && Falls(now) == Falls(was) + (if a.replicas < LastCount(current, due) then 1 else 0)
  {
    var chain := [current] + Replicas(due);
    assert [current] + Replicas(due + [a]) == chain + [a.replicas];
    assert chain[|chain| - 1] == LastCount(current, due);
    AppendCount(chain, a.replicas);
  }

  method InsertByTime(xs: seq<Activation>, a: Activation) returns (out: seq<Activation>)
    requires Sorted(xs)
    ensures Sorted(out) && multiset(out) == multiset(xs) + multiset{a}
    ensures (forall i :: 0 <= i < |xs| ==> xs[i].at <= a.at) ==> out == xs + [a]
  {
    var j := |xs|;
    while j > 0 && xs[j - 1].at > a.at
      invariant 0 <= j <= |xs|
      invariant forall k :: j <= k < |xs| ==> xs[k].at > a.at
    {
      j := j - 1;
    }
    InsertAt(xs, a, j);
    out := xs[..j] + [a] + xs[j..];
  }

  lemma InsertAt(xs: seq<Activation>, a: Activation, j: nat)
    requires Sorted(xs) && j <= |xs|
    requires j > 0 ==> xs[j - 1].at <= a.at
    requires forall k :: j <= k < |xs| ==> xs[k].at > a.at
    ensures Sorted(xs[..j] + [a] + xs[j..])
    ensures multiset(xs[..j] + [a] + xs[j..]) == multiset(xs) + multiset{a}
    ensures j == |xs| ==> xs[..j] + [a] + xs[j..] == xs + [a]
  {
    SortedSplit(xs, j);
    SortedConcat(xs[..j], [a]);
    SortedConcat(xs[..j] + [a], xs[j..]);
    MultisetInsert(xs, a, j);
  }

  lemma MultisetInsert(xs: seq<Activation>, a: Activation, j: nat)
    requires j <= |xs|
    ensures multiset(xs[..j] + [a] + xs[j..]) == multiset(xs) + multiset{a}
  {
    assert xs == xs[..j] + xs[j..];
  }

  lemma SortedSplit(xs: seq<Activation>, j: nat)
    requires Sorted(xs) && j <= |xs|
    ensures Sorted(xs[..j]) && Sorted(xs[j..])
    ensures j > 0 ==> forall i :: 0 <= i < j ==> xs[..j][i].at <= xs[j - 1].at
  {
  }

  lemma SortedConcat(left: seq<Activation>, right: seq<Activation>)
    requires Sorted(left) && Sorted(right)
    requires forall i, j :: 0 <= i < |left| && 0 <= j < |right| ==> left[i].at <= right[j].at
    ensures Sorted(left + right)
  {
  }

  /** What sorting by time leaves: the same activations, ordered; an ordered list is left alone. */
  method SortByTime(xs: seq<Activation>) returns (out: seq<Activation>)
    ensures Sorted(out) && multiset(out) == multiset(xs)
    ensures Sorted(xs) ==> out == xs
  {
    out := [];
    for i := 0 to |xs|
      invariant Sorted(out) && multiset(out) == multiset(xs[..i])
      invariant Sorted(xs) ==> out == xs[..i]
    {
      assert xs[..i + 1] == xs[..i] + [xs[i]];
      out := InsertByTime(out, xs[i]);
    }
    assert xs[..|xs|] == xs;
  }

  method PendingAfter(pending: seq<Activation>, at: Time) returns (remaining: seq<Activation>)
    ensures Sorted(remaining) && multiset(remaining) == multiset(NotDue(pending, at))
    ensures Sorted(NotDue(pending, at)) ==> remaining == NotDue(pending, at)
  {
    remaining := [];
    for i := 0 to |pending|
      invariant remaining == NotDue(pending[..i], at)
    {
      assert pending[..i + 1][..i] == pending[..i];
      if pending[i].at > at {
        remaining := remaining + [pending[i]];
      }
    }
    assert pending[..|pending|] == pending;
    remaining := SortByTime(remaining);
  }

  /** What the two filters do with the last activation. */
  lemma FilterLast(rest: seq<Activation>, last: Activation, at: Time)
    ensures Due(rest + [last], at) == if last.at <= at then Due(rest, at) + [last] else Due(rest, at)
    ensures NotDue(rest + [last], at) == if last.at > at then NotDue(rest, at) + [last] else NotDue(rest, at)
  {
    assert (rest + [last])[..|rest|] == rest;
  }

  lemma {:induction false} AllDue(pending: seq<Activation>, at: Time)
    requires forall i :: 0 <= i < |pending| ==> pending[i].at <= at
    ensures Due(pending, at) == pending && NotDue(pending, at) == []
  {
    if pending != [] {
      hide Due, NotDue;
      var n := |pending| - 1;
      AllDue(pending[..n], at);
      FilterLast(pending[..n], pending[n], at);
      assert pending == pending[..n] + [pending[n]];
    }
  }

  /** On a queue whose due activations come first, the two filters split it there. */
  lemma {:induction false} SplitAt(due: seq<Activation>, rest: seq<Activation>, at: Time)
    requires forall i :: 0 <= i < |due| ==> due[i].at <= at
    requires forall i :: 0 <= i < |rest| ==> rest[i].at > at
    ensures Due(due + rest, at) == due && NotDue(due + rest, at) == rest
  {
    if rest == [] {
      AllDue(due, at);
      assert due + rest == due;
    } else {
      var n := |rest| - 1;
      SplitAt(due, rest[..n], at);
      assert (due + rest)[..|due + rest| - 1] == due + rest[..n];
    }
  }

  lemma ScheduledSorted(events: seq<Event>, warmup: Duration, k: nat)
    requires ByTime(events) && k <= |events|
    ensures Sorted(Scheduled(events[k..], warmup))
  {
    forall i, j | k <= i < j < |events|
      ensures events[i].at < events[j].at
    {
      ByTimeTransitive(events, i, j);
    }
  }

  /** Advancing the clock moves exactly the newly matured events out of the queue. */
  lemma AdvanceQueue(events: seq<Event>, warmup: Duration, t: Time, u: Time)
    requires ByTime(events) && t <= u
    ensures var k := RipeCount(events, warmup, t);
            var m := RipeCount(events, warmup, u);
            var queue := InFlight(events, warmup, t);
            && k <= m
            && Due(queue, u) == Scheduled(events[k..m], warmup)
            && NotDue(queue, u) == InFlight(events, warmup, u)
            && Sorted(InFlight(events, warmup, u))
  {
    var k := RipeCount(events, warmup, t);
    var m := RipeCount(events, warmup, u);
    RipeCountMonotone(events, warmup, t, u);
    var due := Scheduled(events[k..m], warmup);
    var rest := Scheduled(events[m..], warmup);
    SplitSchedule(events, warmup, k, m);
    ScheduledSorted(events, warmup, m);
    forall i | 0 <= i < |rest|
      ensures rest[i].at > u
    {
      RipeIffCounted(events, warmup, u, m + i);
    }
    SplitAt(due, rest, u);
  }

  lemma SplitSchedule(events: seq<Event>, warmup: Duration, k: nat, m: nat)
    requires k <= m <= |events|
    ensures Scheduled(events[k..], warmup) == Scheduled(events[k..m], warmup) + Scheduled(events[m..], warmup)
  {
  }

  /** Adopting the due activations brings the count to what is simulated at the new time. */
  lemma AdvanceCount(start: int32, events: seq<Event>, warmup: Duration, t: Time, u: Time)
    requires ByTime(events) && t <= u
    ensures LastCount(SimulatedAt(start, events, warmup, t), Due(InFlight(events, warmup, t), u)) ==
            SimulatedAt(start, events, warmup, u)
  {
    AdvanceQueue(events, warmup, t, u);
  }
}
