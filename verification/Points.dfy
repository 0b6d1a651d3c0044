/** Forecast points and the choice of the one a recommendation is sized for. */
module Points {
  import opened Core

  datatype Point = Point(at: Time, value: real)

  /** `p` is the earliest listed point at or after `target`, or the last point when there is none. */
  predicate IsSelected(points: seq<Point>, target: Time, p: Point) {
    if points == [] then p == Point(0, 0.0)
    else if forall i :: 0 <= i < |points| ==> points[i].at < target then p == points[|points| - 1]
    else exists i :: 0 <= i < |points| && points[i] == p && p.at >= target
                     && forall j :: 0 <= j < i ==> points[j].at < target
  }

  /** The selected point as a function: the search from the front. */
  function Selected(points: seq<Point>, target: Time): Point {
    if points == [] then Point(0, 0.0)
    else if points[0].at >= target || |points| == 1 then points[0]
    else Selected(points[1..], target)
  }

  lemma {:induction false} SelectedIsSelected(points: seq<Point>, target: Time)
    ensures IsSelected(points, target, Selected(points, target))
  {
    if |points| > 1 && points[0].at < target {
      var rest := points[1..];
      SelectedIsSelected(rest, target);
      if exists i :: 0 <= i < |points| && points[i].at >= target {
        var k :| 0 <= k < |points| && points[k].at >= target;
        assert rest[k - 1] == points[k];
        var i :| 0 <= i < |rest| && rest[i] == Selected(rest, target) && rest[i].at >= target
                 && forall j :: 0 <= j < i ==> rest[j].at < target;
        assert points[i + 1] == rest[i];
        assert forall j :: 0 < j < i + 1 ==> points[j] == rest[j - 1];
      } else {
        assert forall i :: 0 <= i < |rest| ==> rest[i] == points[i + 1];
      }
    }
  }

  lemma SelectedIsUnique(points: seq<Point>, target: Time, p: Point)
    requires IsSelected(points, target, p)
    ensures p == Selected(points, target)
  {
    SelectedIsSelected(points, target);
  }

  method SelectForecastPoint(points: seq<Point>, target: Time) returns (p: Point)
    ensures IsSelected(points, target, p)
    ensures p == Selected(points, target)
  {
    if |points| == 0 {
      return Point(0, 0.0);
    }
    for i := 0 to |points|
      invariant forall j :: 0 <= j < i ==> points[j].at < target
    {
      if points[i].at == target || points[i].at > target {
        SelectedIsUnique(points, target, points[i]);
        return points[i];
      }
    }
    SelectedIsUnique(points, target, points[|points| - 1]);
    return points[|points| - 1];
  }
}
