/** Pointer samples, smoothed points and the smoothing arithmetic of the drawing engine:
    the moving average of the sample window and the jitter (minimum distance) test. */
module Points {

  datatype Option<T> = None | Some(value: T)

  /** A raw pointer sample or a smoothed point: surface coordinates and a time in milliseconds. */
  datatype Point = Point(x: real, y: real, timestamp: real)

  /** A sample closer than this to the last point of the active path is dropped as jitter. */
  const MinDistance: real := 2.0

  /** Left-to-right sum, in the order the source accumulates it. */
  function Sum(xs: seq<real>): real
  {
    if xs == [] then 0.0 else Sum(xs[..|xs| - 1]) + xs[|xs| - 1]
  }

  function Mean(xs: seq<real>): real
    requires xs != []
  {
    Sum(xs) / (|xs| as real)
  }

  function Xs(ps: seq<Point>): seq<real> { seq(|ps|, i requires 0 <= i < |ps| => ps[i].x) }
  function Ys(ps: seq<Point>): seq<real> { seq(|ps|, i requires 0 <= i < |ps| => ps[i].y) }
  function Times(ps: seq<Point>): seq<real> { seq(|ps|, i requires 0 <= i < |ps| => ps[i].timestamp) }

  /** The average point of a window: the mean of each coordinate and of the timestamps;
      there is no average of an empty window. */
  function Average(ps: seq<Point>): (r: Option<Point>)
    ensures r.None? <==> ps == []
  {
    if ps == [] then None
    else Some(Point(Mean(Xs(ps)), Mean(Ys(ps)), Mean(Times(ps))))
  }

  /** The sums run by `getAveragePoint`, one pass over the window. */
  method GetAveragePoint(points: seq<Point>) returns (r: Option<Point>)
    ensures r == Average(points)
  {
    var len := |points|;
    if len == 0 {
      return None;
    }
    var sumX, sumY, sumTime := 0.0, 0.0, 0.0;
    for i := 0 to len
      invariant sumX == Sum(Xs(points)[..i])
      invariant sumY == Sum(Ys(points)[..i])
      invariant sumTime == Sum(Times(points)[..i])
    {
      assert Xs(points)[..i + 1][..i] == Xs(points)[..i];
      assert Ys(points)[..i + 1][..i] == Ys(points)[..i];
      assert Times(points)[..i + 1][..i] == Times(points)[..i];
      sumX := sumX + points[i].x;
      sumY := sumY + points[i].y;
      sumTime := sumTime + points[i].timestamp;
    }
    assert Xs(points)[..len] == Xs(points);
    assert Ys(points)[..len] == Ys(points);
    assert Times(points)[..len] == Times(points);
    return Some(Point(sumX / len as real, sumY / len as real, sumTime / len as real));
  }

  /** A sum of values that all lie in [lo, hi] lies in [n * lo, n * hi]. */
  lemma {:induction false} SumWithinBounds(xs: seq<real>, lo: real, hi: real)
    requires forall i :: 0 <= i < |xs| ==> lo <= xs[i] <= hi
    ensures (|xs| as real) * lo <= Sum(xs) <= (|xs| as real) * hi
  {
    if xs != [] {
      SumWithinBounds(xs[..|xs| - 1], lo, hi);
    }
  }

  lemma MeanWithinBounds(xs: seq<real>, lo: real, hi: real)
    requires xs != []
    requires forall i :: 0 <= i < |xs| ==> lo <= xs[i] <= hi
    ensures lo <= Mean(xs) <= hi
  {
    var n := |xs| as real;
    SumWithinBounds(xs, lo, hi);
    assert Mean(xs) * n == Sum(xs);
  }

  /** `lo` and `hi` bound `p` coordinate by coordinate, timestamp included. */
  predicate InBox(p: Point, lo: Point, hi: Point)
  {
    lo.x <= p.x <= hi.x && lo.y <= p.y <= hi.y && lo.timestamp <= p.timestamp <= hi.timestamp
  }

  /** A smoothed point never leaves the box spanned by the samples it averages: each of its
      coordinates and its timestamp lie between the window's least and greatest. */
  lemma AverageInBox(ps: seq<Point>, lo: Point, hi: Point)
    requires ps != []
    requires forall i :: 0 <= i < |ps| ==> InBox(ps[i], lo, hi)
    ensures Average(ps).Some? && InBox(Average(ps).value, lo, hi)
  {
    MeanWithinBounds(Xs(ps), lo.x, hi.x);
    MeanWithinBounds(Ys(ps), lo.y, hi.y);
    MeanWithinBounds(Times(ps), lo.timestamp, hi.timestamp);
  }

  /** Square of the Euclidean distance between the positions of two points. */
  function SqDistance(p: Point, q: Point): (d: real)
    ensures 0.0 <= d
    ensures p.x == q.x && p.y == q.y ==> d == 0.0
  {
    (q.x - p.x) * (q.x - p.x) + (q.y - p.y) * (q.y - p.y)
  }

  /** The jitter test of `mousemove`, on squared distances. A sample at the position of
      the last point, whatever its time, is always rejected. */
  predicate TooClose(last: Point, sample: Point)
    ensures last.x == sample.x && last.y == sample.y ==> TooClose(last, sample)
  {
    SqDistance(last, sample) < MinDistance * MinDistance
  }

  /** The squared test agrees with comparing the distance itself (the non-negative root of
      the squared distance) against MinDistance, as the source does. */
  lemma TooCloseIffDistanceBelow(last: Point, sample: Point, d: real)
    requires 0.0 <= d && d * d == SqDistance(last, sample)
    ensures TooClose(last, sample) <==> d < MinDistance
  {
    if d < MinDistance {
      MulNonNegative(d, MinDistance - d);
      assert d * d <= 2.0 * d < 4.0;
    } else {
      MulNonNegative(d, d - MinDistance);
      assert d * d >= 2.0 * d >= 4.0;
    }
  }

  lemma MulNonNegative(a: real, b: real)
    requires 0.0 <= a && 0.0 <= b
    ensures 0.0 <= a * b
  {
  }
}
