/** The fade policy: how opaque a path, and a point within it, is at a given age. */
module Fade {

  /** Milliseconds before a path or point starts to fade. */
  const FadeTimeout: real := 3000.0
  /** Milliseconds over which a path fades out once fading has begun. */
  const FadeDuration: real := 7000.0

  /** `Math.max(0, Math.min(1, v))`. */
  function Clamp01(v: real): (r: real)
    ensures 0.0 <= r <= 1.0
    ensures 0.0 <= v <= 1.0 ==> r == v
    ensures v <= 0.0 ==> r == 0.0
    ensures 1.0 <= v ==> r == 1.0
  {
    if v < 0.0 then 0.0 else if v > 1.0 then 1.0 else v
  }

  lemma ClampMonotone(a: real, b: real)
    requires a <= b
    ensures Clamp01(a) <= Clamp01(b)
  {
  }

  /** Path-level opacity for a path whose start lies `age` milliseconds in the past. */
  function PathOpacity(age: real): (r: real)
    ensures 0.0 <= r <= 1.0
    ensures age <= FadeTimeout ==> r == 1.0
    ensures FadeTimeout + FadeDuration <= age ==> r == 0.0
  {
    if age > FadeTimeout then Clamp01(1.0 - (age - FadeTimeout) / FadeDuration) else 1.0
  }

  /** The time over which a point fades: the whole FadeDuration for the first point of a
      path (progress 0), shrinking linearly to half of it for the last (progress 1). */
  function EffectiveDuration(progress: real): (d: real)
    requires 0.0 <= progress <= 1.0
    ensures FadeDuration / 2.0 <= d <= FadeDuration
  {
    FadeDuration * (1.0 - progress * 0.5)
  }

  /** Point-level opacity for a point `age` milliseconds old at fractional position
      `progress` within its path. */
  function PointOpacity(age: real, progress: real): (r: real)
    requires 0.0 <= progress <= 1.0
    ensures 0.0 <= r <= 1.0
    ensures age <= FadeTimeout ==> r == 1.0
    ensures FadeTimeout + EffectiveDuration(progress) <= age ==> r == 0.0
  {
    if age > FadeTimeout then
      Clamp01(1.0 - (age - FadeTimeout) / EffectiveDuration(progress))
    else 1.0
  }

  /** Dividing a non-negative amount by a larger positive divisor gives no more. */
  lemma DivAntitone(a: real, d1: real, d2: real)
    requires 0.0 <= a && 0.0 < d1 <= d2
    ensures a / d2 <= a / d1
  {
    var q1, q2 := a / d1, a / d2;
    assert q1 * d1 == a && q2 * d2 == a;
    assert q2 * d1 <= q2 * d2;
  }

  /** Dividing by a fixed positive divisor preserves order. */
  lemma DivMonotone(a: real, b: real, d: real)
    requires a <= b && 0.0 < d
    ensures a / d <= b / d
  {
    var qa, qb := a / d, b / d;
    assert qa * d == a && qb * d == b;
  }

  lemma PathOpacityNonIncreasing(age1: real, age2: real)
    requires age1 <= age2
    ensures PathOpacity(age2) <= PathOpacity(age1)
  {
    if age2 > FadeTimeout && age1 > FadeTimeout {
      DivMonotone(age1 - FadeTimeout, age2 - FadeTimeout, FadeDuration);
      ClampMonotone(1.0 - (age2 - FadeTimeout) / FadeDuration, 1.0 - (age1 - FadeTimeout) / FadeDuration);
    }
  }

  /** A point only loses opacity as it ages. */
  lemma PointOpacityNonIncreasing(age1: real, age2: real, progress: real)
    requires 0.0 <= progress <= 1.0
    requires age1 <= age2
    ensures PointOpacity(age2, progress) <= PointOpacity(age1, progress)
  {
    if age2 > FadeTimeout && age1 > FadeTimeout {
      var d := EffectiveDuration(progress);
      DivMonotone(age1 - FadeTimeout, age2 - FadeTimeout, d);
      ClampMonotone(1.0 - (age2 - FadeTimeout) / d, 1.0 - (age1 - FadeTimeout) / d);
    }
  }

  /** Of two points of the same age, the one later in its path (larger progress) has the
      shorter effective duration and so is no more opaque than the earlier one. */
  lemma LaterPointsFadeNoSlower(age: real, progress1: real, progress2: real)
    requires 0.0 <= progress1 <= progress2 <= 1.0
    ensures PointOpacity(age, progress2) <= PointOpacity(age, progress1)
  {
    if age > FadeTimeout {
      var d1, d2 := EffectiveDuration(progress1), EffectiveDuration(progress2);
      DivAntitone(age - FadeTimeout, d2, d1);
      ClampMonotone(1.0 - (age - FadeTimeout) / d2, 1.0 - (age - FadeTimeout) / d1);
    }
  }

  /** The ordering is strict, at positions the curve loop visits: in a five-point path,
      5250 ms into the fade, point 1 still has a seventh of its opacity while point 2 is
      already transparent. */
  lemma EarlierPointOutlastsLaterAtEqualAge()
    ensures PointOpacity(FadeTimeout + 5250.0, Progress(1, 5)) == 1.0 / 7.0
    ensures PointOpacity(FadeTimeout + 5250.0, Progress(2, 5)) == 0.0
  {
    assert Progress(1, 5) == 0.25 && Progress(2, 5) == 0.5;
    assert EffectiveDuration(0.25) == 6125.0;
    assert EffectiveDuration(0.5) == 5250.0;
  }

  /** Position of point `i` in a path of `count` points, `i / (count - 1)`. */
  function Progress(i: nat, count: nat): (p: real)
    requires 2 <= count && i < count
    ensures 0.0 <= p <= 1.0
  {
    (i as real) / ((count - 1) as real)
  }

  /** For the indices the curve loop visits, 1 <= i <= count - 3, the progress is strictly
      between 0 and 1, so the fade duration is at least half of FadeDuration and never zero. */
  lemma LoopProgressBelowOne(i: nat, count: nat)
    requires 1 <= i && i + 3 <= count
    ensures 0.0 < Progress(i, count) < 1.0
    ensures EffectiveDuration(Progress(i, count)) >= FadeDuration / 2.0 > 0.0
  {
    var n := (count - 1) as real;
    assert Progress(i, count) * n == i as real;
  }

  /** The path-opacity statements of `drawPaths` as the code runs them: start at 1 and, past
      the timeout, fade linearly and clamp. The method only mirrors those statements for
      `TracePath`; the properties are proved about the function `PathOpacity`. */
  method PathOpacityAt(pathAge: real) returns (pathOpacity: real)
    ensures pathOpacity == PathOpacity(pathAge)
  {
    pathOpacity := 1.0;
    if pathAge > FadeTimeout {
      pathOpacity := 1.0 - (pathAge - FadeTimeout) / FadeDuration;
      pathOpacity := Clamp01(pathOpacity);
    }
  }

  /** The point-opacity statements of the curve loop as the code runs them. The method only
      mirrors those statements for `FinalOpacityAt`; the properties are proved about the
      function `PointOpacity`. */
  method PointOpacityAt(pointAge: real, pointProgress: real) returns (pointOpacity: real)
    requires 0.0 <= pointProgress <= 1.0
    ensures pointOpacity == PointOpacity(pointAge, pointProgress)
  {
    pointOpacity := 1.0;
    if pointAge > FadeTimeout {
      pointOpacity := 1.0 - (pointAge - FadeTimeout) / (FadeDuration * (1.0 - pointProgress * 0.5));
      pointOpacity := Clamp01(pointOpacity);
    }
  }
}
