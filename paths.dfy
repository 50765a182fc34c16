/** The path store: strokes as values and the eviction filter that reclaims them. */
module Paths {
  import opened Points
  import opened Fade

  /** One stroke: its smoothed points, its `#RRGGBB` colour, the `opacity` field the source
      sets to 1 and never reads, and the time the stroke was started. */
  datatype Path = Path(points: seq<Point>, color: string, opacity: real, startTime: real)

  /** Every path the engine creates starts with one point and only ever grows. */
  predicate HasPoints(path: Path)
  {
    |path.points| >= 1
  }

  predicate AllHavePoints(paths: seq<Path>)
  {
    forall k :: 0 <= k < |paths| ==> HasPoints(paths[k])
  }

  function LastPoint(path: Path): Point
    requires HasPoints(path)
  {
    path.points[|path.points| - 1]
  }

  /** The eviction test: a path stays while its last point is younger than
      FadeTimeout + FadeDuration, so no path is evicted before its last point starts to fade. */
  predicate IsLive(path: Path, now: real)
    requires HasPoints(path)
    ensures now - LastPoint(path).timestamp <= FadeTimeout ==> IsLive(path, now)
  {
    now - LastPoint(path).timestamp < FadeTimeout + FadeDuration
  }

  /** `paths.filter(...)` with the eviction test. */
  function Evict(paths: seq<Path>, now: real): (kept: seq<Path>)
    requires AllHavePoints(paths)
    ensures |kept| <= |paths|
    ensures AllHavePoints(kept)
    ensures forall k :: 0 <= k < |kept| ==> IsLive(kept[k], now)
    ensures forall k :: 0 <= k < |kept| ==> kept[k] in paths
  {
    if paths == [] then []
    else
      var rest := Evict(paths[..|paths| - 1], now);
      var last := paths[|paths| - 1];
      if IsLive(last, now) then rest + [last] else rest
  }

  /** A path survives eviction if and only if it is live: eviction never happens early and
      never misses an expired path. */
  lemma {:induction false} EvictKeepsExactlyLive(paths: seq<Path>, now: real, p: Path)
    requires AllHavePoints(paths)
    ensures p in Evict(paths, now) <==> p in paths && HasPoints(p) && IsLive(p, now)
  {
    if paths != [] {
      var init := paths[..|paths| - 1];
      EvictKeepsExactlyLive(init, now, p);
      assert paths == init + [paths[|paths| - 1]];
    }
  }

  /** Eviction distributes over concatenation, so it keeps the survivors in their original order. */
  lemma {:induction false} EvictConcat(a: seq<Path>, b: seq<Path>, now: real)
    requires AllHavePoints(a) && AllHavePoints(b)
    ensures AllHavePoints(a + b)
    ensures Evict(a + b, now) == Evict(a, now) + Evict(b, now)
  {
    if b != [] {
      var init := b[..|b| - 1];
      assert (a + b)[..|a + b| - 1] == a + init;
      EvictConcat(a, init, now);
    } else {
      assert a + b == a;
    }
  }

  /** Evicting twice at the same instant removes nothing more. */
  lemma {:induction false} EvictIdempotent(paths: seq<Path>, now: real)
    requires AllHavePoints(paths)
    ensures Evict(Evict(paths, now), now) == Evict(paths, now)
  {
    if paths != [] {
      var init := paths[..|paths| - 1];
      var last := paths[|paths| - 1];
      EvictIdempotent(init, now);
      if IsLive(last, now) {
        var rest := Evict(init, now);
        assert (rest + [last])[..|rest|] == rest;
      }
    }
  }

  /** A path with a single point at T is gone once FadeTimeout + FadeDuration have elapsed. */
  lemma SinglePointPathEvicted(x: real, y: real, t: real, color: string)
    ensures Evict([Path([Point(x, y, t)], color, 1.0, t)], t + FadeTimeout + FadeDuration + 1.0) == []
  {
    var paths := [Path([Point(x, y, t)], color, 1.0, t)];
    assert paths[..0] == [];
  }
}
