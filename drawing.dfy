/** The drawing manager: the pointer handlers that build strokes, the smoothing window they
    share, the particle collection, and one animation frame. */
module Drawing {
  import opened Points
  import opened Fade
  import opened Paths
  import opened Render
  import opened Particles

  /** Capacity of the smoothing window. */
  const MaxPoints: nat := 5
  /** Stroke colour before any colour is picked. */
  const InitialColor: string := "#FF69B4"
  /** A canvas context's `strokeStyle` before anything sets it. */
  const DefaultStrokeStyle: string := "#000000"

  /** What one `mousemove` did. `NoCurrentPath` is the case where the pointer is held but
      eviction has removed every path: the source then reads `points` of `undefined` and the
      handler throws before changing anything. */
  datatype MoveOutcome = NotDrawing | NoCurrentPath | Jitter | Appended

  /** What one animation frame draws. */
  datatype Frame = Frame(strokes: seq<PathStroke>, discs: seq<Disc>)

  /** The smoothing window after an accepted sample: pushed at the back, and the oldest
      sample shifted out when the window would exceed MaxPoints. */
  function Slide(window: seq<Point>, sample: Point): (w: seq<Point>)
    requires |window| <= MaxPoints
    ensures 1 <= |w| <= MaxPoints
    ensures |w| == if |window| < MaxPoints then |window| + 1 else MaxPoints
    ensures w == (window + [sample])[|window| + 1 - |w|..]
  {
    var pushed := window + [sample];
    if |pushed| > MaxPoints then pushed[1..] else pushed
  }

  /** The window after a press with `samples[0]` and accepted moves with the rest. */
  function WindowAfter(samples: seq<Point>): (w: seq<Point>)
    requires samples != []
    ensures |w| <= MaxPoints
  {
    if |samples| == 1 then [samples[0]]
    else Slide(WindowAfter(samples[..|samples| - 1]), samples[|samples| - 1])
  }

  /** A suffix is its last element appended to the rest; used by the induction step of
      `WindowIsLatestSamples` below. */
  lemma SliceSnoc(s: seq<Point>, a: nat)
    requires a < |s|
    ensures s[a..] == s[a..|s| - 1] + [s[|s| - 1]]
  {
  }

  /** The last `m` elements of the prefix without the final element are `s[|s| - 1 - m..|s| - 1]`. */
  lemma InitSuffix(s: seq<Point>, m: nat)
    requires m < |s|
    ensures s[..|s| - 1][|s| - 1 - m..] == s[|s| - 1 - m..|s| - 1]
  {
  }

  /** Dropping the first element of a suffix gives the next suffix. */
  lemma SuffixTail(s: seq<Point>, a: nat)
    requires a < |s|
    ensures s[a..][1..] == s[a + 1..]
  {
  }

  /** The window is always exactly the most recent min(n, MaxPoints) samples of the stroke,
      oldest first, with the newest sample last. */
  lemma {:induction false} WindowIsLatestSamples(samples: seq<Point>)
    requires samples != []
    ensures var n := if |samples| < MaxPoints then |samples| else MaxPoints;
      WindowAfter(samples) == samples[|samples| - n..]
  {
    if |samples| > 1 {
      var last := |samples| - 1;
      var init := samples[..last];
      WindowIsLatestSamples(init);
      var m := if |init| < MaxPoints then |init| else MaxPoints;
      var w := WindowAfter(init);
      assert WindowAfter(samples) == Slide(w, samples[last]);
      InitSuffix(samples, m);
      assert w == samples[last - m..last];
      SliceSnoc(samples, last - m);
      assert w + [samples[last]] == samples[last - m..];
      if m == MaxPoints {
        SuffixTail(samples, last - m);
      }
    }
  }

  /** Live particles: positive life of at most 1, losing at least MinDecay per frame. */
  predicate LiveParticles(ps: seq<Particle>)
  {
    LifeCapped(ps, 1.0) && forall k :: 0 <= k < |ps| ==> 0.0 < ps[k].life
  }

  /** Appending a point to the last path keeps every path non-empty. */
  lemma ExtendLastKeepsPoints(paths: seq<Path>, p: Point)
    requires paths != [] && AllHavePoints(paths)
    ensures var last := paths[|paths| - 1];
      AllHavePoints(paths[..|paths| - 1] + [last.(points := last.points + [p])])
  {
  }

  class DrawingManager {
    var isDrawing: bool
    var paths: seq<Path>
    var particles: seq<Particle>
    var currentColor: string
    /** The `pointsBuffer` shared by the pointer handlers: the smoothing window. */
    var pointsBuffer: seq<Point>
    /** The canvas context's `strokeStyle`, which persists from one path and one frame to the next. */
    var strokeStyle: string

    ghost predicate Valid()
      reads this
    {
      AllHavePoints(paths)
      && |pointsBuffer| <= MaxPoints
      && (isDrawing <==> pointsBuffer != [])
      && LiveParticles(particles)
    }

    constructor ()
      ensures Valid()
      ensures !isDrawing && paths == [] && particles == [] && pointsBuffer == []
      ensures currentColor == InitialColor && strokeStyle == DefaultStrokeStyle
    {
      isDrawing := false;
      paths := [];
      particles := [];
      currentColor := InitialColor;
      pointsBuffer := [];
      strokeStyle := DefaultStrokeStyle;
    }

    /** The colour picker's effect: the colour used for strokes started from now on. */
    method SelectColor(color: string)
      requires Valid()
      modifies this
      ensures Valid()
      ensures currentColor == color
      ensures isDrawing == old(isDrawing) && paths == old(paths) && particles == old(particles)
      ensures pointsBuffer == old(pointsBuffer) && strokeStyle == old(strokeStyle)
    {
      currentColor := color;
    }

    /** `mousedown` at (x, y); `pointTime` and `startTime` are the two clock readings the
      handler takes (for the sample and for the path). */
    method MouseDown(x: real, y: real, pointTime: real, startTime: real)
      requires Valid()
      modifies this
      ensures Valid()
      ensures isDrawing && pointsBuffer == [Point(x, y, pointTime)]
      ensures paths == old(paths) + [Path([Point(x, y, pointTime)], currentColor, 1.0, startTime)]
      ensures particles == old(particles) && currentColor == old(currentColor)
      ensures strokeStyle == old(strokeStyle)
    {
      isDrawing := true;
      var newPoint := Point(x, y, pointTime);
      pointsBuffer := [newPoint];
      paths := paths + [Path([newPoint], currentColor, 1.0, startTime)];
    }

    /** `mousemove` to (x, y) at time `now`. */
    method MouseMove(x: real, y: real, now: real) returns (outcome: MoveOutcome)
      requires Valid()
      modifies this
      ensures Valid()
      ensures outcome == NotDrawing <==> !old(isDrawing)
      ensures outcome == NoCurrentPath <==> old(isDrawing) && old(paths) == []
      ensures outcome == Jitter <==> (old(isDrawing) && old(paths) != []
        && TooClose(LastPoint(old(paths)[|old(paths)| - 1]), Point(x, y, now)))
      ensures outcome != Appended ==> unchanged(this)
      ensures outcome == Appended ==>
        pointsBuffer == Slide(old(pointsBuffer), Point(x, y, now))
        && paths == old(paths)[..|old(paths)| - 1]
          + [old(paths)[|old(paths)| - 1].(points := old(paths)[|old(paths)| - 1].points
                                                      + [Average(pointsBuffer).value])]
      ensures isDrawing == old(isDrawing) && particles == old(particles)
      ensures currentColor == old(currentColor) && strokeStyle == old(strokeStyle)
    {
      if !isDrawing {
        return NotDrawing;
      }
      var newPoint := Point(x, y, now);
      if paths == [] {
        return NoCurrentPath;
      }
      var currentPath := paths[|paths| - 1];
      var lastPoint := currentPath.points[|currentPath.points| - 1];
      assert lastPoint == LastPoint(currentPath);
      if TooClose(lastPoint, newPoint) {
        return Jitter;
      }
      AppendSample(newPoint);
      return Appended;
    }

    /** The accepting half of `mousemove`: slide the window over the new sample and extend
      the current path by the window's average. */
    method AppendSample(newPoint: Point)
      requires Valid() && isDrawing && paths != []
      modifies this
      ensures Valid()
      ensures pointsBuffer == Slide(old(pointsBuffer), newPoint)
      ensures paths == old(paths)[..|old(paths)| - 1]
          + [old(paths)[|old(paths)| - 1].(points := old(paths)[|old(paths)| - 1].points
                                                      + [Average(pointsBuffer).value])]
      ensures isDrawing == old(isDrawing) && particles == old(particles)
      ensures currentColor == old(currentColor) && strokeStyle == old(strokeStyle)
    {
      var currentPath := paths[|paths| - 1];
      ghost var window := pointsBuffer;
      pointsBuffer := pointsBuffer + [newPoint];
      if |pointsBuffer| > MaxPoints {
        pointsBuffer := pointsBuffer[1..];
      }
      assert pointsBuffer == Slide(window, newPoint);
      var avgPoint := GetAveragePoint(pointsBuffer);
      if avgPoint.Some? {
        ExtendLastKeepsPoints(paths, avgPoint.value);
        paths := paths[..|paths| - 1] + [currentPath.(points := currentPath.points + [avgPoint.value])];
      }
    }

    /** `mouseup`: stop drawing and forget the window; the strokes stay. */
    method MouseUp()
      requires Valid()
      modifies this
      ensures Valid()
      ensures !isDrawing && pointsBuffer == []
      ensures paths == old(paths) && particles == old(particles)
      ensures currentColor == old(currentColor) && strokeStyle == old(strokeStyle)
    {
      isDrawing := false;
      pointsBuffer := [];
    }

    /** `mouseleave`: the same as releasing the button. */
    method MouseLeave()
      requires Valid()
      modifies this
      ensures Valid()
      ensures !isDrawing && pointsBuffer == []
      ensures paths == old(paths) && particles == old(particles)
      ensures currentColor == old(currentColor) && strokeStyle == old(strokeStyle)
    {
      isDrawing := false;
      pointsBuffer := [];
    }

    /** `resizeCanvas` (at construction and on every window `resize`): assigning the canvas
      size resets the context, so the stroke style is back to its default and the next path
      with no visible loop point is stroked in it; the manager's own state is untouched. */
    method Resize()
      requires Valid()
      modifies this
      ensures Valid()
      ensures strokeStyle == DefaultStrokeStyle
      ensures isDrawing == old(isDrawing) && paths == old(paths) && particles == old(particles)
      ensures pointsBuffer == old(pointsBuffer) && currentColor == old(currentColor)
    {
      strokeStyle := DefaultStrokeStyle;
    }

    /** `createFirework(x, y)` (the double-click handler), given the random draws and the
      host's cosine and sine of each particle's angle. */
    method CreateFirework(x: real, y: real, colorDraw: real, speedDraws: seq<real>, decayDraws: seq<real>,
                          cosines: seq<real>, sines: seq<real>)
      requires Valid()
      requires IsDraw(colorDraw) && BurstInputs(speedDraws, decayDraws, cosines, sines)
      modifies this
      ensures Valid()
      ensures particles == old(particles) + Burst(x, y, colorDraw, speedDraws, decayDraws, cosines, sines)
      ensures isDrawing == old(isDrawing) && paths == old(paths) && pointsBuffer == old(pointsBuffer)
      ensures currentColor == old(currentColor) && strokeStyle == old(strokeStyle)
    {
      ghost var burst := Burst(x, y, colorDraw, speedDraws, decayDraws, cosines, sines);
      var color := RandomPastelColor(colorDraw);
      for i := 0 to ParticleCount
        invariant particles == old(particles) + burst[..i]
        invariant LiveParticles(particles)
        invariant isDrawing == old(isDrawing) && paths == old(paths) && pointsBuffer == old(pointsBuffer)
        invariant currentColor == old(currentColor) && strokeStyle == old(strokeStyle)
      {
        var randomVelocity := BaseVelocity * (0.8 + speedDraws[i] * 0.6);
        var particle := Particle(x, y, cosines[i] * randomVelocity, sines[i] * randomVelocity,
                                 ParticleRadius, color, 1.0, 0.01 + decayDraws[i] * 0.01);
        assert particle == burst[i];
        assert burst[..i + 1] == burst[..i] + [burst[i]];
        particles := particles + [particle];
      }
      assert burst[..ParticleCount] == burst;
    }

    /** `updateParticles`: one physics step for every particle, dropping the dead. */
    method UpdateParticles()
      requires Valid()
      modifies this
      ensures Valid()
      ensures particles == Advance(old(particles))
      ensures isDrawing == old(isDrawing) && paths == old(paths) && pointsBuffer == old(pointsBuffer)
      ensures currentColor == old(currentColor) && strokeStyle == old(strokeStyle)
    {
      var kept: seq<Particle> := [];
      for i := 0 to |particles|
        invariant unchanged(this)
        invariant kept == Advance(particles[..i])
      {
        var particle := particles[i];
        particle := particle.(x := particle.x + particle.vx);
        particle := particle.(y := particle.y + particle.vy);
        particle := particle.(vy := particle.vy + Gravity);
        particle := particle.(vx := particle.vx * AirResistance);
        particle := particle.(life := particle.life - particle.decay);
        assert particle == Step(particles[i]);
        assert particles[..i + 1][..i] == particles[..i];
        if particle.life > 0.0 {
          kept := kept + [particle];
        }
      }
      assert particles[..|particles|] == particles;
      AdvanceLowersCap(particles, 1.0);
      particles := kept;
    }

    /** `drawPaths` at time `now`: evict expired paths, then draw the rest in order. */
    method DrawPaths(now: real) returns (strokes: seq<PathStroke>)
      requires Valid()
      modifies this
      ensures Valid()
      ensures paths == Evict(old(paths), now)
      ensures Rendered(strokes, strokeStyle) == RenderPaths(paths, now, old(strokeStyle))
      ensures isDrawing == old(isDrawing) && particles == old(particles) && pointsBuffer == old(pointsBuffer)
      ensures currentColor == old(currentColor)
    {
      paths := Evict(paths, now);
      strokes := [];
      var style := strokeStyle;
      for k := 0 to |paths|
        invariant paths == Evict(old(paths), now) && strokeStyle == old(strokeStyle)
        invariant isDrawing == old(isDrawing) && particles == old(particles) && pointsBuffer == old(pointsBuffer)
        invariant currentColor == old(currentColor)
        invariant Rendered(strokes, style) == RenderPaths(paths[..k], now, strokeStyle)
      {
        RenderPathsStep(paths, k, now, strokeStyle);
        var traced := TracePath(paths[k], now, style);
        if traced.stroke.Some? {
          strokes := strokes + [traced.stroke.value];
        }
        style := traced.style;
      }
      assert paths[..|paths|] == paths;
      strokeStyle := style;
    }

    /** One frame of `animate`: draw the paths (evicting first), then advance and draw the
      particles. The surface clear and the rescheduling are not modelled. */
    method Animate(now: real) returns (frame: Frame)
      requires Valid()
      modifies this
      ensures Valid()
      ensures paths == Evict(old(paths), now)
      ensures particles == Advance(old(particles))
      ensures Rendered(frame.strokes, strokeStyle) == RenderPaths(paths, now, old(strokeStyle))
      ensures frame.discs == Discs(particles)
      ensures isDrawing == old(isDrawing) && pointsBuffer == old(pointsBuffer)
      ensures currentColor == old(currentColor)
    {
      var strokes := DrawPaths(now);
      UpdateParticles();
      frame := Frame(strokes, Discs(particles));
    }
  }

  lemma SumOfThree(a: real, b: real, c: real)
    ensures Sum([a]) == a && Sum([a, b]) == a + b && Sum([a, b, c]) == a + b + c
  {
    assert [a, b, c][..2] == [a, b];
    assert [a, b][..1] == [a];
    assert [a][..0] == [];
  }

  lemma ScenarioAverages(p0: Point, p1: Point, p2: Point)
    requires p0 == Point(100.0, 100.0, 0.0) && p1 == Point(103.0, 100.0, 10.0) && p2 == Point(104.0, 100.0, 20.0)
    ensures Average([p0, p1]) == Some(Point(101.5, 100.0, 5.0))
    ensures Average([p0, p1, p2]) == Some(Point(307.0 / 3.0, 100.0, 10.0))
  {
    assert Xs([p0, p1]) == [100.0, 103.0] && Ys([p0, p1]) == [100.0, 100.0] && Times([p0, p1]) == [0.0, 10.0];
    assert Xs([p0, p1, p2]) == [100.0, 103.0, 104.0] && Ys([p0, p1, p2]) == [100.0, 100.0, 100.0];
    assert Times([p0, p1, p2]) == [0.0, 10.0, 20.0];
    SumOfThree(100.0, 103.0, 104.0);
    SumOfThree(100.0, 100.0, 100.0);
    SumOfThree(0.0, 10.0, 20.0);
  }

  /** Press at (100, 100), move to (103, 100) 10 ms later, then to (104, 100) 10 ms after
      that. Both moves are accepted: the second is 2.5 from the last smoothed point
      (101.5, 100), not 1 from the raw sample. */
  method PressAndMoveScenario() returns (first: MoveOutcome, second: MoveOutcome, trail: seq<Point>)
    ensures first == Appended && second == Appended
    ensures trail == [Point(100.0, 100.0, 0.0), Point(101.5, 100.0, 5.0), Point(307.0 / 3.0, 100.0, 10.0)]
  {
    var p0, p1, p2 := Point(100.0, 100.0, 0.0), Point(103.0, 100.0, 10.0), Point(104.0, 100.0, 20.0);
    var a1, a2 := Point(101.5, 100.0, 5.0), Point(307.0 / 3.0, 100.0, 10.0);
    ScenarioAverages(p0, p1, p2);
    assert !TooClose(a1, p2);
    assert [p0, p1] + [p2] == [p0, p1, p2] && [p0, a1] + [a2] == [p0, a1, a2];
    var m;
    m, first := PressAndFirstMove();
    assert LastPoint(m.paths[0]) == a1;
    second := m.MouseMove(104.0, 100.0, 20.0);
    assert m.pointsBuffer == [p0, p1, p2];
    assert Average(m.pointsBuffer) == Some(a2);
    trail := m.paths[0].points;
    assert trail == [p0, a1] + [a2];
  }

  /** The first half of the scenario above: the press at (100, 100) and the move to (103, 100). */
  method PressAndFirstMove() returns (m: DrawingManager, first: MoveOutcome)
    ensures fresh(m) && m.Valid() && m.isDrawing
    ensures first == Appended
    ensures m.pointsBuffer == [Point(100.0, 100.0, 0.0), Point(103.0, 100.0, 10.0)]
    ensures m.paths == [Path([Point(100.0, 100.0, 0.0), Point(101.5, 100.0, 5.0)], InitialColor, 1.0, 0.0)]
  {
    var p0, p1, p2 := Point(100.0, 100.0, 0.0), Point(103.0, 100.0, 10.0), Point(104.0, 100.0, 20.0);
    var a1 := Point(101.5, 100.0, 5.0);
    var start := Path([p0], InitialColor, 1.0, 0.0);
    ScenarioAverages(p0, p1, p2);
    assert !TooClose(p0, p1);
    assert [p0] + [p1] == [p0, p1] && [p0] + [a1] == [p0, a1] && [start][..0] == [];
    m := new DrawingManager();
    m.MouseDown(100.0, 100.0, 0.0, 0.0);
    assert m.paths == [start];
    first := m.MouseMove(103.0, 100.0, 10.0);
    assert m.pointsBuffer == [p0, p1];
    assert Average(m.pointsBuffer) == Some(a1);
    assert m.paths[0].points == [p0, a1];
  }

  /** A move 1 unit from the only point of a fresh stroke is jitter and changes nothing. */
  method JitterScenario() returns (outcome: MoveOutcome, trail: seq<Point>, window: seq<Point>)
    ensures outcome == Jitter
    ensures trail == [Point(100.0, 100.0, 0.0)] && window == [Point(100.0, 100.0, 0.0)]
  {
    var m := new DrawingManager();
    m.MouseDown(100.0, 100.0, 0.0, 0.0);
    outcome := m.MouseMove(101.0, 100.0, 10.0);
    trail := m.paths[0].points;
    window := m.pointsBuffer;
  }

  /** Holding the button still for FadeTimeout + FadeDuration lets eviction remove the only
      stroke; the next move then finds no current path. */
  method HeldPastEvictionScenario() returns (outcome: MoveOutcome)
    ensures outcome == NoCurrentPath
  {
    var m := new DrawingManager();
    m.MouseDown(0.0, 0.0, 0.0, 0.0);
    var frame := m.Animate(FadeTimeout + FadeDuration);
    outcome := m.MouseMove(5.0, 5.0, FadeTimeout + FadeDuration);
  }
}
