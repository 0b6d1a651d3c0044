/** The replay's evaluation times and the intervals between them. */
module Grid {
  import opened Core

  /**
   * `start`, then one point per step, then `end`: every gap is one step except possibly the last,
   * which is shorter when the window is not a whole number of steps.
   */
  predicate IsGrid(grid: seq<Time>, start: Time, end: Time, step: Duration) {
    && |grid| >= 2
    && grid[0] == start && grid[|grid| - 1] == end
    && (forall i :: 0 < i < |grid| - 1 ==> grid[i] == grid[i - 1] + step)
    && grid[|grid| - 2] < end <= grid[|grid| - 2] + step
  }

  method BuildStepGrid(start: Time, end: Time, step: Duration) returns (grid: seq<Time>)
    ensures grid == [] <==> step <= 0 || end <= start
    ensures step > 0 && end > start ==> IsGrid(grid, start, end, step)
  {
    grid := [];
    if step <= 0 || !(end > start) {
      return;
    }
    var current := start;
    while current < end
      invariant forall i :: 0 < i < |grid| ==> grid[i] == grid[i - 1] + step
      invariant if grid == [] then current == start else grid[0] == start
      invariant grid != [] ==> grid[|grid| - 1] < end && current == grid[|grid| - 1] + step
      decreases end - current
    {
      grid := grid + [current];
      current := current + step;
    }
    grid := grid + [end];
    assert NoRepeats(grid);
    grid := DedupeTimes(grid);
  }

  predicate NoRepeats(times: seq<Time>) {
    forall i :: 0 < i < |times| ==> times[i - 1] != times[i]
  }

  /** Drops a time equal to the one kept before it; the grid never has one. */
  method DedupeTimes(values: seq<Time>) returns (out: seq<Time>)
    ensures NoRepeats(out)
    ensures NoRepeats(values) ==> out == values
    ensures forall t :: t in out <==> t in values
  {
    out := [];
    for i := 0 to |values|
      invariant NoRepeats(out)
      invariant i > 0 ==> out != [] && out[|out| - 1] == values[i - 1]
      invariant i == 0 ==> out == []
      invariant NoRepeats(values) ==> out == values[..i]
      invariant forall t :: t in out <==> t in values[..i]
    {
      assert values[..i + 1] == values[..i] + [values[i]];
      if |out| > 0 && values[i] == out[|out| - 1] {
        continue;
      }
      out := out + [values[i]];
    }
    assert values[..|values|] == values;
  }

  /** Times that a replay can evaluate at: increasing, one step apart, with a shorter last gap allowed. */
  predicate Paced(times: seq<Time>, step: Duration) {
    && step > 0
    && (forall i :: 0 < i < |times| ==> times[i - 1] < times[i] <= times[i - 1] + step)
    && (forall i :: 0 < i < |times| - 1 ==> times[i] == times[i - 1] + step)
  }

  lemma GridIsPaced(grid: seq<Time>, start: Time, end: Time, step: Duration)
    requires step > 0 && IsGrid(grid, start, end, step)
    ensures Paced(grid, step)
  {
  }

  lemma PacedSuffix(times: seq<Time>, step: Duration, from: nat)
    requires Paced(times, step) && from <= |times|
    ensures Paced(times[from..], step)
  {
  }

  lemma {:induction false} PacedIncreasing(times: seq<Time>, step: Duration, i: nat, j: nat)
    requires Paced(times, step) && i < j < |times|
    ensures times[i] < times[j]
    ensures j < |times| - 1 ==> times[i] + step <= times[j]
    decreases j
  {
    if i + 1 < j {
      PacedIncreasing(times, step, i, j - 1);
    }
  }

  // ---- intervals ----

  /** Time from one grid point to the next, cut at the end of the window. */
  function StepInterval(times: seq<Time>, index: int, end: Time): Duration {
    if index < 0 || index >= |times| then 0
    else
      var next := if index + 1 < |times| && times[index + 1] <= end then times[index + 1] else end;
      if next > times[index] then next - times[index] else 0
  }

  /** The sum of the intervals of points `lo` up to but not including `hi`. */
  function Elapsed(times: seq<Time>, end: Time, lo: nat, hi: nat): Duration
    requires lo <= hi
  {
    if lo == hi then 0 else Elapsed(times, end, lo, hi - 1) + StepInterval(times, hi - 1, end)
  }

  /** On a grid the intervals tile the time from any point to the end of the window. */
  lemma {:induction false} IntervalsTile(grid: seq<Time>, start: Time, end: Time, step: Duration, lo: nat, hi: nat)
    requires step > 0 && IsGrid(grid, start, end, step) && lo <= hi <= |grid|
    ensures hi < |grid| ==> Elapsed(grid, end, lo, hi) == grid[hi] - grid[lo]
    ensures hi == |grid| && lo < hi ==> Elapsed(grid, end, lo, hi) == end - grid[lo]
    decreases hi
  {
    GridIsPaced(grid, start, end, step);
    if lo < hi {
      IntervalsTile(grid, start, end, step, lo, hi - 1);
      if hi < |grid| - 1 {
        PacedIncreasing(grid, step, hi, |grid| - 1);
      }
    }
  }

  /** Only the last point of a grid covers no time. */
  lemma LastIntervalIsEmpty(grid: seq<Time>, start: Time, end: Time, step: Duration, i: nat)
    requires step > 0 && IsGrid(grid, start, end, step) && i < |grid|
    ensures StepInterval(grid, i, end) >= 0
    ensures StepInterval(grid, i, end) == 0 <==> i == |grid| - 1
  {
    GridIsPaced(grid, start, end, step);
    if i < |grid| - 1 {
      PacedIncreasing(grid, step, i, |grid| - 1);
      if i + 1 < |grid| - 1 {
        PacedIncreasing(grid, step, i + 1, |grid| - 1);
      }
    }
  }
}
