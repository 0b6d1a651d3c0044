/** Shared vocabulary: optional values, results, machine integers and time. */
module Core {

  datatype Option<+T> = None | Some(value: T)

  datatype Result<+T, +E> = Ok(value: T) | Err(error: E)

  const MAX_INT32: int := 0x7fff_ffff
  const MIN_INT32: int := -0x8000_0000
  const MAX_INT64: int := 0x7fff_ffff_ffff_ffff
  const MIN_INT64: int := -0x8000_0000_0000_0000

  type int32 = x: int | MIN_INT32 <= x <= MAX_INT32
  type int64 = x: int | MIN_INT64 <= x <= MAX_INT64

  /** Instants and durations are nanosecond counts; instant 0 is Go's zero time. */
  type Time = int
  type Duration = int

  const SECOND: Duration := 1_000_000_000

  predicate IsZeroTime(t: Time) { t == 0 }

  /** The value Go's int32 arithmetic leaves behind when the exact result is `x`. */
  function Wrap32(x: int): (r: int32)
    ensures MIN_INT32 <= x <= MAX_INT32 ==> r == x
  {
    (x - MIN_INT32) % 0x1_0000_0000 + MIN_INT32
  }

  /** The value Go's int64 arithmetic leaves behind when the exact result is `x`. */
  function Wrap64(x: int): (r: int64)
    ensures MIN_INT64 <= x <= MAX_INT64 ==> r == x
  {
    (x - MIN_INT64) % 0x1_0000_0000_0000_0000 + MIN_INT64
  }

  /** Wrapping early or late makes no difference to a running 64-bit sum. */
  lemma WrapAccumulates(x: int, y: int)
    ensures Wrap64(Wrap64(x) + y) == Wrap64(x + y)
  {
    var m := 0x1_0000_0000_0000_0000;
    var a := x - MIN_INT64;
    assert a == m * (a / m) + a % m;
    assert Wrap64(x) + y - MIN_INT64 == a % m + y;
    assert x + y - MIN_INT64 == a % m + y + m * (a / m);
  }

  function Min(a: int, b: int): int { if a < b then a else b }

  function Max(a: int, b: int): int { if a > b then a else b }

  function Abs(x: int): nat { if x < 0 then -x else x }

  /** Ceiling of the quotient of a non-negative and a positive integer. */
  function CeilDiv(a: nat, b: nat): (q: nat)
    requires b > 0
    ensures (q as int - 1) * b < a || a == 0 == q
    ensures a <= q * b
  {
    (a + b - 1) / b
  }

  /** Only one quotient satisfies the bounds of `CeilDiv`. */
  lemma CeilDivUnique(a: nat, b: nat, q: nat)
    requires b > 0 && (q - 1) * b < a <= q * b
    ensures CeilDiv(a, b) == q
  {
    var c: int := CeilDiv(a, b);
    CancelFactor(c - 1, q, b);
    CancelFactor(q - 1, c, b);
  }

  lemma CancelFactor(x: int, y: int, b: nat)
    requires x * b < y * b
    ensures x < y
  {
    assert x >= y ==> (x - y) * b >= 0;
  }

  // ---- arithmetic ----

  function AbsReal(x: real): real { if x < 0.0 then -x else x }

  lemma ScaleLe(x: int, y: int, k: nat)
    requires x <= y
    ensures x * k <= y * k
  {
    assert (y - x) * k >= 0;
  }

  lemma Commute(a: int, b: int)
    ensures a * b == b * a
  {
  }

  lemma Distribute(x: int, y: int, k: int)
    ensures (x + y) * k == x * k + y * k
  {
  }

  lemma DistributeReal(x: real, y: real, k: real)
    ensures (x + y) * k == x * k + y * k
  {
  }

  lemma PositiveProduct(a: real, b: real)
    requires a > 0.0 && b > 0.0
    ensures a * b > 0.0
  {
  }

  lemma PositiveQuotient(a: real, b: real)
    requires a > 0.0 && b > 0.0
    ensures a / b > 0.0
  {
    assert (a / b) * b == a;
  }

  // ---- lists ----

  /** Elements in order of first appearance, each once. */
  function FirstOccurrences<T(==, !new)>(xs: seq<T>): (out: seq<T>)
    ensures forall x :: x in out <==> x in xs
    ensures forall i, j :: 0 <= i < j < |out| ==> out[i] != out[j]
    ensures out == [] <==> xs == []
  {
    if xs == [] then []
    else
      var before := FirstOccurrences(xs[..|xs| - 1]);
      var last := xs[|xs| - 1];
      assert xs == xs[..|xs| - 1] + [last];
      if last in before then before else before + [last]
  }

  method Dedupe<T(==, !new)>(xs: seq<T>) returns (out: seq<T>)
    ensures out == FirstOccurrences(xs)
  {
    var seen: set<T> := {};
    out := [];
    for i := 0 to |xs|
      invariant out == FirstOccurrences(xs[..i])
      invariant forall r :: r in seen <==> r in out
    {
      assert xs[..i + 1][..i] == xs[..i];
      if xs[i] in seen {
        continue;
      }
      seen := seen + {xs[i]};
      out := out + [xs[i]];
    }
    assert xs[..|xs|] == xs;
  }
}
