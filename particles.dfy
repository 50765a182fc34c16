/** The particle simulator: the firework burst, the per-frame physics step with its filter,
    and the discs the particle renderer fills. */
module Particles {
  import opened Hex

  datatype Particle = Particle(
    x: real, y: real, vx: real, vy: real, radius: real, color: string, life: real, decay: real)

  /** Particles per burst. */
  const ParticleCount: nat := 100
  /** Speed before the random factor, in surface units per frame. */
  const BaseVelocity: real := 10.0
  const ParticleRadius: real := 3.0
  /** Added to the vertical velocity every frame. */
  const Gravity: real := 0.1
  /** Factor applied to the horizontal velocity every frame. */
  const AirResistance: real := 0.99
  /** The least life a particle loses per frame. */
  const MinDecay: real := 0.01

  const PastelColors: seq<string> :=
    ["#FFB3BA", "#BAFFC9", "#BAE1FF", "#FFFFBA", "#FFB3F7", "#E0B3FF", "#B3FFE0", "#FFD1BA"]

  /** A value of `Math.random()`. */
  predicate IsDraw(r: real)
  {
    0.0 <= r < 1.0
  }

  predicate AllDraws(rs: seq<real>)
  {
    forall i :: 0 <= i < |rs| ==> IsDraw(rs[i])
  }

  /** `getRandomPastelColor` for the draw `r`. */
  function RandomPastelColor(r: real): (c: string)
    requires IsDraw(r)
    ensures c in PastelColors
  {
    PastelColors[(r * (|PastelColors| as real)).Floor]
  }

  /** The randomised speed of one particle: BaseVelocity times a factor in [0.8, 1.4). */
  function Speed(r: real): (v: real)
    requires IsDraw(r)
    ensures 0.8 * BaseVelocity <= v < 1.4 * BaseVelocity
  {
    BaseVelocity * (0.8 + r * 0.6)
  }

  /** The randomised decay of one particle, in [0.01, 0.02). */
  function Decay(r: real): (d: real)
    requires IsDraw(r)
    ensures MinDecay <= d < 2.0 * MinDecay
  {
    0.01 + r * 0.01
  }

  /** Inputs of one burst: a draw per particle for speed and for decay, and the host's
      cosine and sine of each particle's angle 2 * pi * i / ParticleCount. */
  predicate BurstInputs(speedDraws: seq<real>, decayDraws: seq<real>, cosines: seq<real>, sines: seq<real>)
  {
    |speedDraws| == ParticleCount && |decayDraws| == ParticleCount && AllDraws(speedDraws) && AllDraws(decayDraws)
    && |cosines| == ParticleCount && |sines| == ParticleCount
  }

  /** Particle `i` of a burst at (x, y). */
  function BurstParticle(x: real, y: real, color: string, speedDraw: real, decayDraw: real, c: real, s: real): (q: Particle)
    requires IsDraw(speedDraw) && IsDraw(decayDraw)
    ensures q.x == x && q.y == y && q.color == color
    ensures q.radius == ParticleRadius && q.life == 1.0
    ensures MinDecay <= q.decay < 2.0 * MinDecay
  {
    var v := Speed(speedDraw);
    Particle(x, y, c * v, s * v, ParticleRadius, color, 1.0, Decay(decayDraw))
  }

  /** The particles one `createFirework(x, y)` appends. */
  function Burst(x: real, y: real, colorDraw: real, speedDraws: seq<real>, decayDraws: seq<real>,
                 cosines: seq<real>, sines: seq<real>): (ps: seq<Particle>)
    requires IsDraw(colorDraw) && BurstInputs(speedDraws, decayDraws, cosines, sines)
    ensures |ps| == ParticleCount
    ensures forall i :: 0 <= i < |ps| ==>
      ps[i].x == x && ps[i].y == y && ps[i].radius == ParticleRadius && ps[i].life == 1.0
      && ps[i].color == ps[0].color && ps[i].color in PastelColors
      && MinDecay <= ps[i].decay < 2.0 * MinDecay
    ensures forall i :: 0 <= i < |ps| ==>
      ps[i].vx == cosines[i] * Speed(speedDraws[i]) && ps[i].vy == sines[i] * Speed(speedDraws[i])
  {
    var color := RandomPastelColor(colorDraw);
    seq(ParticleCount, i requires 0 <= i < ParticleCount =>
      BurstParticle(x, y, color, speedDraws[i], decayDraws[i], cosines[i], sines[i]))
  }

  /** Where the host's cosine and sine of an angle are a unit vector, each particle of a
      burst starts with a speed in [8, 14): its squared speed lies in [64, 196). */
  lemma BurstSpeedRange(x: real, y: real, colorDraw: real, speedDraws: seq<real>, decayDraws: seq<real>,
                        cosines: seq<real>, sines: seq<real>, i: nat)
    requires IsDraw(colorDraw) && BurstInputs(speedDraws, decayDraws, cosines, sines)
    requires i < ParticleCount && cosines[i] * cosines[i] + sines[i] * sines[i] == 1.0
    ensures var p := Burst(x, y, colorDraw, speedDraws, decayDraws, cosines, sines)[i];
      64.0 <= p.vx * p.vx + p.vy * p.vy < 196.0
  {
    var p := Burst(x, y, colorDraw, speedDraws, decayDraws, cosines, sines)[i];
    var v := Speed(speedDraws[i]);
    var c, s := cosines[i], sines[i];
    assert p.vx == c * v && p.vy == s * v;
    assert (c * v) * (c * v) == (c * c) * (v * v);
    assert (s * v) * (s * v) == (s * s) * (v * v);
    assert (c * c) * (v * v) + (s * s) * (v * v) == (c * c + s * s) * (v * v);
    assert 8.0 * 8.0 <= v * v by {
      assert 8.0 * 8.0 <= 8.0 * v <= v * v;
    }
    assert v * v < 14.0 * 14.0 by {
      assert v * v <= v * 14.0 < 14.0 * 14.0;
    }
  }

  /** One frame of physics for one particle, as the filter callback of `updateParticles`
      applies it: position moves by the velocity of the previous frame, then gravity and air
      resistance act, then the particle loses `decay` life. */
  function Step(p: Particle): (q: Particle)
    ensures q.radius == p.radius && q.color == p.color && q.decay == p.decay
    ensures q.life < p.life <==> 0.0 < p.decay
  {
    p.(x := p.x + p.vx, y := p.y + p.vy, vy := p.vy + Gravity, vx := p.vx * AirResistance,
       life := p.life - p.decay)
  }

  /** Undoes one frame: the partner of Step. */
  function Unstep(q: Particle): Particle
  {
    var vx := q.vx / AirResistance;
    var vy := q.vy - Gravity;
    q.(x := q.x - vx, y := q.y - vy, vx := vx, vy := vy, life := q.life + q.decay)
  }

  /** Step loses no information, and it moves the particle by its velocity from BEFORE
      gravity and air resistance (Unstep subtracts exactly that velocity). */
  lemma UnstepStep(p: Particle)
    ensures Unstep(Step(p)) == p
  {
    assert (p.vx * AirResistance) / AirResistance == p.vx;
  }

  function StepN(p: Particle, n: nat): Particle
  {
    if n == 0 then p else Step(StepN(p, n - 1))
  }

  function Pow(b: real, n: nat): real
  {
    if n == 0 then 1.0 else Pow(b, n - 1) * b
  }

  /** After `n` frames a particle has lost exactly `n * decay` life, gravity has added
      `n * Gravity` to its vertical velocity and air resistance has scaled its horizontal
      velocity by AirResistance^n; radius, colour and decay never change. */
  lemma {:induction false} StepNClosedForm(p: Particle, n: nat)
    ensures StepN(p, n).life == p.life - (n as real) * p.decay
    ensures StepN(p, n).vy == p.vy + (n as real) * Gravity
    ensures StepN(p, n).vx == p.vx * Pow(AirResistance, n)
    ensures StepN(p, n).radius == p.radius && StepN(p, n).color == p.color && StepN(p, n).decay == p.decay
  {
    if n > 0 {
      StepNClosedForm(p, n - 1);
    }
  }

  /** `particles.filter(...)` with the mutating callback: each particle takes one Step and
      only those with positive life remain, in their original order. */
  function Advance(ps: seq<Particle>): (qs: seq<Particle>)
    ensures |qs| <= |ps|
    ensures forall k :: 0 <= k < |qs| ==> qs[k].life > 0.0
    ensures forall k :: 0 <= k < |qs| ==> exists j :: 0 <= j < |ps| && qs[k] == Step(ps[j])
  {
    if ps == [] then []
    else
      var prev := Advance(ps[..|ps| - 1]);
      var q := Step(ps[|ps| - 1]);
      if q.life > 0.0 then prev + [q] else prev
  }

  /** Advance keeps the stepped particle of every input whose life stays positive. */
  lemma {:induction false} AdvanceKeepsSurvivors(ps: seq<Particle>, j: nat)
    requires j < |ps| && Step(ps[j]).life > 0.0
    ensures Step(ps[j]) in Advance(ps)
  {
    if j < |ps| - 1 {
      AdvanceKeepsSurvivors(ps[..|ps| - 1], j);
    }
  }

  /** Advance distributes over concatenation, so survivors keep their relative order. */
  lemma {:induction false} AdvanceConcat(a: seq<Particle>, b: seq<Particle>)
    ensures Advance(a + b) == Advance(a) + Advance(b)
  {
    if b == [] {
      assert a + b == a;
    } else {
      assert (a + b)[..|a + b| - 1] == a + b[..|b| - 1];
      AdvanceConcat(a, b[..|b| - 1]);
    }
  }

  /** No particle has more than `cap` life and each loses at least MinDecay per frame. */
  predicate LifeCapped(ps: seq<Particle>, cap: real)
  {
    forall k :: 0 <= k < |ps| ==> ps[k].life <= cap && MinDecay <= ps[k].decay
  }

  lemma AdvanceLowersCap(ps: seq<Particle>, cap: real)
    requires LifeCapped(ps, cap)
    ensures LifeCapped(Advance(ps), cap - MinDecay)
  {
    var qs := Advance(ps);
    forall k | 0 <= k < |qs|
      ensures qs[k].life <= cap - MinDecay && MinDecay <= qs[k].decay
    {
      var j :| 0 <= j < |ps| && qs[k] == Step(ps[j]);
    }
  }

  function AdvanceN(ps: seq<Particle>, n: nat): seq<Particle>
  {
    if n == 0 then ps else Advance(AdvanceN(ps, n - 1))
  }

  lemma {:induction false} AdvanceNLowersCap(ps: seq<Particle>, cap: real, n: nat)
    requires LifeCapped(ps, cap)
    ensures LifeCapped(AdvanceN(ps, n), cap - (n as real) * MinDecay)
  {
    if n > 0 {
      AdvanceNLowersCap(ps, cap, n - 1);
      AdvanceLowersCap(AdvanceN(ps, n - 1), cap - ((n - 1) as real) * MinDecay);
    }
  }

  /** Particles that cannot survive one more decay all disappear in the next frame. */
  lemma {:induction false} AdvanceEmptiesSpentParticles(ps: seq<Particle>, cap: real)
    requires LifeCapped(ps, cap) && cap <= MinDecay
    ensures Advance(ps) == []
  {
    if ps != [] {
      AdvanceEmptiesSpentParticles(ps[..|ps| - 1], cap);
    }
  }

  /** Particles with at most full life and at least MinDecay per frame, such as those of a
      burst, are all gone after 100 frames: the live set cannot grow without bound. */
  lemma AllGoneAfterHundredFrames(ps: seq<Particle>)
    requires LifeCapped(ps, 1.0)
    ensures AdvanceN(ps, 100) == []
  {
    AdvanceNLowersCap(ps, 1.0, 99);
    AdvanceEmptiesSpentParticles(AdvanceN(ps, 99), 1.0 - 99.0 * MinDecay);
  }

  /** One filled `arc`: centre, radius and fill style `color + alphaHex`. */
  datatype Disc = Disc(x: real, y: real, radius: real, fill: string)

  /** What `drawParticles` fills: one disc per live particle, in order, at the particle's
      position and radius, its alpha taken from its remaining life. */
  function Discs(ps: seq<Particle>): (ds: seq<Disc>)
    requires forall k :: 0 <= k < |ps| ==> 0.0 <= ps[k].life
    ensures |ds| == |ps|
    ensures forall k :: 0 <= k < |ds| ==>
      ds[k].x == ps[k].x && ds[k].y == ps[k].y && ds[k].radius == ps[k].radius
      && |ps[k].color| <= |ds[k].fill| && ds[k].fill[..|ps[k].color|] == ps[k].color
  {
    seq(|ps|, k requires 0 <= k < |ps| =>
      Disc(ps[k].x, ps[k].y, ps[k].radius, ps[k].color + AlphaHex(ps[k].life)))
  }

  /** A particle with life in [0, 1] is filled with its colour followed by exactly two hex
      digits worth floor(life * 255): it fades in opacity, never in size. */
  lemma DiscFill(ps: seq<Particle>, k: nat)
    requires forall j :: 0 <= j < |ps| ==> 0.0 <= ps[j].life
    requires k < |ps| && ps[k].life <= 1.0
    ensures var f := Discs(ps)[k].fill; var n := |ps[k].color|;
      |f| == n + 2 && f[..n] == ps[k].color
      && (forall i :: n <= i < n + 2 ==> IsHexDigit(f[i]))
      && ParseHex(f[n..]) == (ps[k].life * 255.0).Floor
  {
    var f := Discs(ps)[k].fill;
    AlphaHexIsByte(ps[k].life);
    assert f[|ps[k].color|..] == AlphaHex(ps[k].life);
  }
}
