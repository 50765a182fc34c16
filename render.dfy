/** The curve renderer: what `drawPaths` draws for each live path, as values instead of
    canvas calls. A path is one canvas path (`beginPath`, `moveTo` its first point, a run of
    `quadraticCurveTo` calls, one `stroke`), so the whole path is stroked with the single
    stroke style in effect when `stroke` runs. That style is canvas state: it is set by each
    visible segment of the index loop and otherwise carries over from earlier paths and frames. */
module Render {
  import opened Points
  import opened Fade
  import opened Hex
  import opened Paths

  /** One `quadraticCurveTo(cx, cy, x, y)`. */
  datatype Curve = Curve(cx: real, cy: real, x: real, y: real)

  /** One stroked canvas path: its `moveTo` point, its curves and its stroke style. */
  datatype PathStroke = PathStroke(startX: real, startY: real, curves: seq<Curve>, style: string)

  /** What drawing one path produces, and the canvas stroke style it leaves behind. */
  datatype Traced = Traced(stroke: Option<PathStroke>, style: string)

  /** What drawing all paths produces, and the canvas stroke style left behind. */
  datatype Rendered = Rendered(strokes: seq<PathStroke>, style: string)

  /** Path opacity times point opacity for point `i`. */
  function FinalOpacity(path: Path, now: real, i: nat): (op: real)
    requires 2 <= |path.points| && i < |path.points|
    ensures 0.0 <= op <= 1.0
  {
    PathOpacity(now - path.startTime)
      * PointOpacity(now - path.points[i].timestamp, Progress(i, |path.points|))
  }

  /** The loop's inline product is `FinalOpacity`; kept apart so the loop body's proof stays small. */
  lemma FinalOpacityOf(path: Path, now: real, i: nat, pathOpacity: real, pointOpacity: real)
    requires 2 <= |path.points| && i < |path.points|
    requires pathOpacity == PathOpacity(now - path.startTime)
    requires pointOpacity == PointOpacity(now - path.points[i].timestamp, Progress(i, |path.points|))
    ensures FinalOpacity(path, now, i) == pathOpacity * pointOpacity
  {
  }

  /** A loop index is drawn when its final opacity is positive, which takes both the path
      and the point to be younger than FadeTimeout + FadeDuration. */
  predicate Visible(path: Path, now: real, i: nat)
    requires 2 <= |path.points| && i < |path.points|
    ensures Visible(path, now, i) ==> now - path.startTime < FadeTimeout + FadeDuration
    ensures Visible(path, now, i) ==> now - path.points[i].timestamp < FadeTimeout + FadeDuration
  {
    FinalOpacity(path, now, i) > 0.0
  }

  /** The curve for interior point `i`: controlled by the point, ending at the midpoint of
      the point and its successor. */
  function InteriorCurve(pts: seq<Point>, i: nat): (c: Curve)
    requires i + 1 < |pts|
    ensures c.cx == pts[i].x && c.cy == pts[i].y
    ensures pts[i].x <= c.x <= pts[i + 1].x || pts[i + 1].x <= c.x <= pts[i].x
    ensures pts[i].y <= c.y <= pts[i + 1].y || pts[i + 1].y <= c.y <= pts[i].y
    ensures c.x - pts[i].x == pts[i + 1].x - c.x && c.y - pts[i].y == pts[i + 1].y - c.y
  {
    Curve(pts[i].x, pts[i].y, (pts[i].x + pts[i + 1].x) / 2.0, (pts[i].y + pts[i + 1].y) / 2.0)
  }

  /** The curve that joins the last two points directly: controlled by the second-to-last
      point, it ends on the last sample. */
  function ClosingCurve(pts: seq<Point>): (c: Curve)
    requires 2 <= |pts|
    ensures c.cx == pts[|pts| - 2].x && c.cy == pts[|pts| - 2].y
    ensures c.x == pts[|pts| - 1].x && c.y == pts[|pts| - 1].y
  {
    Curve(pts[|pts| - 2].x, pts[|pts| - 2].y, pts[|pts| - 1].x, pts[|pts| - 1].y)
  }

  /** The interior curves emitted for indices 1 .. n - 1, in order: only visible ones. */
  function Emitted(path: Path, now: real, n: nat): (cs: seq<Curve>)
    requires 2 <= |path.points| && n < |path.points|
    ensures n <= 1 ==> cs == []
    ensures n >= 1 ==> |cs| <= n - 1
  {
    if n <= 1 then []
    else
      var prev := Emitted(path, now, n - 1);
      if Visible(path, now, n - 1) then prev + [InteriorCurve(path.points, n - 1)] else prev
  }

  /** Every emitted interior curve is the curve of a visible loop index. */
  lemma {:induction false} EmittedAreVisible(path: Path, now: real, n: nat, c: Curve)
    requires 2 <= |path.points| && n < |path.points|
    requires c in Emitted(path, now, n)
    ensures exists j :: 1 <= j < n && Visible(path, now, j) && c == InteriorCurve(path.points, j)
  {
    if n > 1 && c in Emitted(path, now, n - 1) {
      EmittedAreVisible(path, now, n - 1, c);
    }
  }

  /** Every visible visited loop index does get its curve. */
  lemma {:induction false} VisibleIsEmitted(path: Path, now: real, n: nat, j: nat)
    requires 2 <= |path.points| && n < |path.points|
    requires 1 <= j < n && Visible(path, now, j)
    ensures InteriorCurve(path.points, j) in Emitted(path, now, n)
  {
    if j < n - 1 {
      VisibleIsEmitted(path, now, n - 1, j);
    }
  }

  /** The loop indices 1 .. n - 1 whose final opacity is positive, in the order the loop
      visits them. */
  function VisibleIndices(path: Path, now: real, n: nat): (js: seq<nat>)
    requires 2 <= |path.points| && n < |path.points|
    ensures forall k :: 0 <= k < |js| ==> 1 <= js[k] < n && Visible(path, now, js[k])
    ensures forall k, l :: 0 <= k < l < |js| ==> js[k] < js[l]
  {
    if n <= 1 then []
    else
      var prev := VisibleIndices(path, now, n - 1);
      if Visible(path, now, n - 1) then prev + [n - 1] else prev
  }

  /** Every visible loop index is listed. */
  lemma {:induction false} VisibleIndicesComplete(path: Path, now: real, n: nat, j: nat)
    requires 2 <= |path.points| && n < |path.points|
    requires 1 <= j < n && Visible(path, now, j)
    ensures j in VisibleIndices(path, now, n)
  {
    if j < n - 1 {
      VisibleIndicesComplete(path, now, n - 1, j);
    }
  }

  /** The interior curves come out once each, in increasing index order: the k-th emitted
      curve belongs to the k-th visible loop index. */
  lemma {:induction false} EmittedInIndexOrder(path: Path, now: real, n: nat)
    requires 2 <= |path.points| && n < |path.points|
    ensures var js := VisibleIndices(path, now, n);
      |Emitted(path, now, n)| == |js|
      && forall k :: 0 <= k < |js| ==> Emitted(path, now, n)[k] == InteriorCurve(path.points, js[k])
  {
    if n > 1 {
      EmittedInIndexOrder(path, now, n - 1);
      var prev := VisibleIndices(path, now, n - 1);
      if Visible(path, now, n - 1) {
        LoopStepVisible(path, now, n - 1, "");
        assert VisibleIndices(path, now, n) == prev + [n - 1];
      } else {
        LoopStepHidden(path, now, n - 1, "");
        assert VisibleIndices(path, now, n) == prev;
      }
    }
  }

  /** The canvas stroke style after the loop has visited indices 1 .. n - 1, starting from `style`. */
  function StyleAfter(path: Path, now: real, n: nat, style: string): string
    requires 2 <= |path.points| && n < |path.points|
  {
    if n <= 1 then style
    else if Visible(path, now, n - 1) then path.color + AlphaHex(FinalOpacity(path, now, n - 1))
    else StyleAfter(path, now, n - 1, style)
  }

  /** The style the loop leaves is either still the inherited one or the path's own colour
      followed by a two-digit alpha; no other colour can appear. */
  lemma {:induction false} StyleInheritedOrOwn(path: Path, now: real, n: nat, style: string)
    requires 2 <= |path.points| && n < |path.points|
    ensures var s := StyleAfter(path, now, n, style);
      s == style || (|s| == |path.color| + 2 && s[..|path.color|] == path.color)
  {
    if n > 1 {
      if Visible(path, now, n - 1) {
        AlphaHexIsByte(FinalOpacity(path, now, n - 1));
        LoopStepVisible(path, now, n - 1, style);
      } else {
        StyleInheritedOrOwn(path, now, n - 1, style);
        LoopStepHidden(path, now, n - 1, style);
      }
    }
  }

  /** When no visited loop index is visible the path is stroked with the inherited style. */
  lemma {:induction false} StyleInheritedWhenNoneVisible(path: Path, now: real, n: nat, style: string)
    requires 2 <= |path.points| && n < |path.points|
    requires forall k :: 1 <= k < n ==> !Visible(path, now, k)
    ensures StyleAfter(path, now, n, style) == style
  {
    if n > 1 {
      StyleInheritedWhenNoneVisible(path, now, n - 1, style);
    }
  }

  /** Otherwise the style is the path colour with the alpha of the LAST visible visited loop
      index, whatever the earlier ones were. */
  lemma {:induction false} StyleFromLastVisible(path: Path, now: real, n: nat, style: string, j: nat)
    requires 2 <= |path.points| && n < |path.points|
    requires 1 <= j < n && Visible(path, now, j)
    requires forall k :: j < k < n ==> !Visible(path, now, k)
    ensures StyleAfter(path, now, n, style) == path.color + AlphaHex(FinalOpacity(path, now, j))
    ensures |StyleAfter(path, now, n, style)| == |path.color| + 2
  {
    AlphaHexIsByte(FinalOpacity(path, now, j));
    if j < n - 1 {
      StyleFromLastVisible(path, now, n - 1, style, j);
      LoopStepHidden(path, now, n - 1, style);
    } else {
      LoopStepVisible(path, now, j, style);
    }
  }

  /** The curves of a path with at least two points: the visible interior curves for
      indices 1 .. count - 3, then the closing curve when there are more than two points. */
  function PathCurves(path: Path, now: real): (cs: seq<Curve>)
    requires 2 <= |path.points|
    ensures |cs| <= |path.points| - 2
    ensures |path.points| == 2 ==> cs == []
    ensures |path.points| > 2 ==> cs != [] && cs[|cs| - 1] == ClosingCurve(path.points)
  {
    var count := |path.points|;
    Emitted(path, now, count - 2) + (if count > 2 then [ClosingCurve(path.points)] else [])
  }

  /** What drawing one path produces; a path with fewer than two points draws nothing and
      leaves the stroke style alone. */
  function DrawPath(path: Path, now: real, style: string): (r: Traced)
    ensures r.stroke.None? <==> |path.points| < 2
    ensures r.stroke.None? ==> r.style == style
    ensures r.stroke.Some? ==> r.stroke.value.style == r.style
    ensures r.stroke.Some? ==>
      r.stroke.value.startX == path.points[0].x && r.stroke.value.startY == path.points[0].y
  {
    if |path.points| < 2 then Traced(None, style)
    else
      var st := StyleAfter(path, now, |path.points| - 2, style);
      Traced(Some(PathStroke(path.points[0].x, path.points[0].y, PathCurves(path, now), st)), st)
  }

  /** A stroke whose path opacity has reached 0 while its last point is still young is kept by
      eviction but has no visible loop index: it is drawn as the closing curve alone, from
      point 0 through point n - 2 to point n - 1, in whatever style the canvas already holds. */
  lemma FadedStrokeKeepsClosingCurve(color: string, style: string)
    ensures var path := Path([Point(0.0, 0.0, 0.0), Point(10.0, 0.0, 1000.0), Point(20.0, 0.0, 2000.0),
                              Point(30.0, 0.0, 3000.0), Point(40.0, 0.0, 9000.0)], color, 1.0, 0.0);
      IsLive(path, 10000.0) &&
      DrawPath(path, 10000.0, style)
        == Traced(Some(PathStroke(0.0, 0.0, [Curve(30.0, 0.0, 40.0, 0.0)], style)), style)
  {
    var path := Path([Point(0.0, 0.0, 0.0), Point(10.0, 0.0, 1000.0), Point(20.0, 0.0, 2000.0),
                      Point(30.0, 0.0, 3000.0), Point(40.0, 0.0, 9000.0)], color, 1.0, 0.0);
    assert PathOpacity(10000.0 - path.startTime) == 0.0;
    assert !Visible(path, 10000.0, 1) && !Visible(path, 10000.0, 2);
    LoopStepHidden(path, 10000.0, 1, style);
    LoopStepHidden(path, 10000.0, 2, style);
    assert Emitted(path, 10000.0, 3) == [];
    assert StyleAfter(path, 10000.0, 3, style) == style;
    assert PathCurves(path, 10000.0) == [ClosingCurve(path.points)];
  }

  /** One more loop index visited, when the point is visible: its curve is emitted and it
      sets the stroke style. */
  lemma LoopStepVisible(path: Path, now: real, i: nat, style: string)
    requires 2 <= |path.points| && 1 <= i && i + 1 < |path.points|
    requires Visible(path, now, i)
    ensures Emitted(path, now, i + 1) == Emitted(path, now, i) + [InteriorCurve(path.points, i)]
    ensures StyleAfter(path, now, i + 1, style) == path.color + AlphaHex(FinalOpacity(path, now, i))
  {
  }

  /** One more loop index visited, when the point is not visible: nothing changes. */
  lemma LoopStepHidden(path: Path, now: real, i: nat, style: string)
    requires 2 <= |path.points| && 1 <= i && i + 1 < |path.points|
    requires !Visible(path, now, i)
    ensures Emitted(path, now, i + 1) == Emitted(path, now, i)
    ensures StyleAfter(path, now, i + 1, style) == StyleAfter(path, now, i, style)
  {
  }

  /** The opacity statements of one loop iteration: the point's progress and age, its
      opacity, and the product with the path opacity. */
  method FinalOpacityAt(path: Path, now: real, pathOpacity: real, i: nat) returns (finalOpacity: real)
    requires 2 <= |path.points| && 1 <= i && i + 3 <= |path.points|
    requires pathOpacity == PathOpacity(now - path.startTime)
    ensures finalOpacity == FinalOpacity(path, now, i)
  {
    var points := path.points;
    LoopProgressBelowOne(i, |points|);
    var pointProgress := Progress(i, |points|);
    var pointAge := now - points[i].timestamp;
    var pointOpacity := PointOpacityAt(pointAge, pointProgress);
    finalOpacity := pathOpacity * pointOpacity;
    FinalOpacityOf(path, now, i, pathOpacity, pointOpacity);
  }

  /** One iteration of the index loop at loop index `i`: the midpoint curve is emitted and the
      stroke style set only when the final opacity is positive. */
  method TraceStep(path: Path, now: real, pathOpacity: real, style: string, i: nat,
                   curves: seq<Curve>, current: string)
    returns (curves': seq<Curve>, current': string)
    requires 2 <= |path.points| && 1 <= i && i + 3 <= |path.points|
    requires pathOpacity == PathOpacity(now - path.startTime)
    requires curves == Emitted(path, now, i) && current == StyleAfter(path, now, i, style)
    ensures curves' == Emitted(path, now, i + 1)
    ensures current' == StyleAfter(path, now, i + 1, style)
  {
    var points := path.points;
    var xc := (points[i].x + points[i + 1].x) / 2.0;
    var yc := (points[i].y + points[i + 1].y) / 2.0;
    var finalOpacity := FinalOpacityAt(path, now, pathOpacity, i);
    if finalOpacity > 0.0 {
      LoopStepVisible(path, now, i, style);
      assert Curve(points[i].x, points[i].y, xc, yc) == InteriorCurve(points, i);
      curves' := curves + [Curve(points[i].x, points[i].y, xc, yc)];
      current' := path.color + AlphaHex(finalOpacity);
    } else {
      LoopStepHidden(path, now, i, style);
      curves', current' := curves, current;
    }
  }

  /** The index loop of `drawPaths` for one path: visits 1 .. |points| - 3, emitting the
      curve of every visible point and setting the stroke style from it. */
  method TraceCurves(path: Path, now: real, pathOpacity: real, style: string)
    returns (curves: seq<Curve>, current: string)
    requires 2 <= |path.points|
    requires pathOpacity == PathOpacity(now - path.startTime)
    ensures curves == Emitted(path, now, |path.points| - 2)
    ensures current == StyleAfter(path, now, |path.points| - 2, style)
  {
    curves := [];
    current := style;
    var i := 1;
    while i < |path.points| - 2
      invariant 1 <= i < |path.points|
      invariant i <= |path.points| - 2 || i == 1
      invariant curves == Emitted(path, now, i)
      invariant current == StyleAfter(path, now, i, style)
    {
      curves, current := TraceStep(path, now, pathOpacity, style, i, curves, current);
      i := i + 1;
    }
  }

  /** The body of `drawPaths`' `forEach` for one path. */
  method TracePath(path: Path, now: real, style: string) returns (r: Traced)
    ensures r == DrawPath(path, now, style)
  {
    var points := path.points;
    if |points| < 2 {
      return Traced(None, style);
    }
    var pathAge := now - path.startTime;
    var pathOpacity := PathOpacityAt(pathAge);
    var curves, current := TraceCurves(path, now, pathOpacity, style);
    if |points| > 2 {
      curves := curves + [ClosingCurve(points)];
    }
    return Traced(Some(PathStroke(points[0].x, points[0].y, curves, current)), current);
  }

  /** The `forEach` of `drawPaths` over the (already evicted) paths, threading the canvas
      stroke style from one path to the next. */
  function RenderPaths(paths: seq<Path>, now: real, style: string): (r: Rendered)
    ensures |r.strokes| <= |paths|
    ensures (forall k :: 0 <= k < |paths| ==> |paths[k].points| < 2) ==> r == Rendered([], style)
  {
    if paths == [] then Rendered([], style)
    else
      var prev := RenderPaths(paths[..|paths| - 1], now, style);
      var t := DrawPath(paths[|paths| - 1], now, prev.style);
      Rendered(prev.strokes + (if t.stroke.Some? then [t.stroke.value] else []), t.style)
  }

  /** The number of paths with at least two points. */
  function Drawable(paths: seq<Path>): nat
  {
    if paths == [] then 0
    else Drawable(paths[..|paths| - 1]) + (if |paths[|paths| - 1].points| >= 2 then 1 else 0)
  }

  /** Every path with at least two points gives exactly one stroke, and no other path does. */
  lemma {:induction false} OneStrokePerDrawablePath(paths: seq<Path>, now: real, style: string)
    ensures |RenderPaths(paths, now, style).strokes| == Drawable(paths)
  {
    if paths != [] {
      OneStrokePerDrawablePath(paths[..|paths| - 1], now, style);
    }
  }

  /** Rendering two runs of paths one after the other is rendering the first, then the second
      starting from the style the first left behind: strokes keep path order and the stroke
      style carries over from path to path. */
  lemma {:induction false} RenderPathsConcat(a: seq<Path>, b: seq<Path>, now: real, style: string)
    ensures var ra := RenderPaths(a, now, style);
      var rb := RenderPaths(b, now, ra.style);
      RenderPaths(a + b, now, style) == Rendered(ra.strokes + rb.strokes, rb.style)
  {
    if b == [] {
      assert a + b == a;
    } else {
      var init := b[..|b| - 1];
      assert (a + b)[..|a + b| - 1] == a + init;
      assert (a + b)[|a + b| - 1] == b[|b| - 1];
      RenderPathsConcat(a, init, now, style);
    }
  }

  /** One more path rendered after the first `k`. */
  lemma RenderPathsStep(paths: seq<Path>, k: nat, now: real, style: string)
    requires k < |paths|
    ensures var prev := RenderPaths(paths[..k], now, style);
      var t := DrawPath(paths[k], now, prev.style);
      RenderPaths(paths[..k + 1], now, style)
        == Rendered(prev.strokes + (if t.stroke.Some? then [t.stroke.value] else []), t.style)
  {
    assert paths[..k + 1][..k] == paths[..k];
  }
}
