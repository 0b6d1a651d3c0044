/** Periods of a series: their sums and multiples, and when a shift must be one. */
module Periods {
  import opened Core
  import opened SeasonalNaive
  import opened HoltWinters

  predicate Shortest(y: seq<real>, k: nat) {
    k >= 1 && Periodic(y, k) && forall q :: 1 <= q < k ==> !Periodic(y, q)
  }

  lemma SumOfPeriods(y: seq<real>, p: nat, q: nat)
    requires Periodic(y, p) && Periodic(y, q)
    ensures Periodic(y, p + q)
  {
    forall i | 0 <= i < |y| - (p + q)
      ensures y[i + (p + q)] == y[i]
    {
      assert y[i + p] == y[i] && y[i + p + q] == y[i + p];
    }
  }

  lemma {:induction false} MultipleOfPeriod(y: seq<real>, k: nat, f: nat)
    requires Periodic(y, k)
    ensures f * k >= 0 && Periodic(y, f * k)
  {
    if f > 0 {
      hide Periodic;
      MultipleOfPeriod(y, k, f - 1);
      SumOfPeriods(y, (f - 1) * k, k);
      Distribute(f - 1, 1, k);
    } else {
      NoShift(y);
    }
  }

  lemma NoShift(y: seq<real>)
    ensures Periodic(y, 0)
  {
  }

  lemma DividedPeriod(y: seq<real>, k: nat, q: nat)
    requires k >= 1 && Periodic(y, k) && q % k == 0
    ensures Periodic(y, q)
  {
    MultipleOfPeriod(y, k, q / k);
  }

  /** Only the remainder of a shift matters. */
  lemma ShiftByRemainder(y: seq<real>, k: nat, i: nat, m: nat)
    requires k >= 1 && Periodic(y, k) && i + m < |y|
    ensures 0 <= m % k <= m && y[i + m] == y[i + m % k]
  {
    var f := m / k;
    assert m == f * k + m % k;
    MultipleOfPeriod(y, k, f);
    assert y[i + m % k + f * k] == y[i + m % k];
  }

  /** A shift that matches one whole period matches everywhere. */
  lemma {:induction false} WindowShift(y: seq<real>, k: nat, n: nat, r: nat, j: nat)
    requires k >= 1 && Periodic(y, k) && n + k + r <= |y| && j + r < |y|
    requires forall i :: n <= i < n + k ==> y[i + r] == y[i]
    ensures y[j + r] == y[j]
    decreases if j < n then |y| + n - j else j
  {
    if j < n {
      WindowShift(y, k, n, r, j + k);
      assert y[j + r + k] == y[j + r] && y[j + k] == y[j];
    } else if j >= n + k {
      WindowShift(y, k, n, r, j - k);
      assert y[j - k + r + k] == y[j - k + r] && y[j - k + k] == y[j - k];
    }
  }

  /** A shift that matches one whole period is a multiple of the shortest period. */
  lemma MatchingShift(y: seq<real>, k: nat, n: nat, m: nat)
    requires Shortest(y, k) && n + k + m <= |y|
    requires forall i :: n <= i < n + k ==> y[i + m] == y[i]
    ensures m % k == 0
  {
    var r := m % k;
    ModBound(m, k);
    forall i | n <= i < n + k
      ensures y[i + r] == y[i]
    {
      ShiftByRemainder(y, k, i, m);
    }
    forall j | 0 <= j < |y| - r
      ensures y[j + r] == y[j]
    {
      WindowShift(y, k, n, r, j);
    }
    assert Periodic(y, r);
  }

  /** The first season, repeated. */
  function Repeated(x: seq<real>, p: nat, i: nat): real
    requires 1 <= p <= |x|
  {
    ModBound(i, p);
    x[i % p]
  }

  lemma RepeatedRepeats(x: seq<real>, p: nat, i: nat)
    requires 1 <= p <= |x|
    ensures Repeated(x, p, i + p) == Repeated(x, p, i)
    ensures i < |x| && Periodic(x, p) ==> Repeated(x, p, i) == x[i]
  {
    ModShift(i, p);
    if i < |x| && Periodic(x, p) {
      ShiftByRemainder(x, p, 0, i);
    }
  }

  lemma PeriodOfStart(y: seq<real>, n: nat, q: nat)
    requires n <= |y|
    ensures Periodic(y, q) ==> Periodic(y[..n], q)
  {
    if Periodic(y, q) {
      forall i | 0 <= i < n - q
        ensures y[..n][i + q] == y[..n][i]
      {
        assert y[i + q] == y[i];
      }
    }
  }
}
