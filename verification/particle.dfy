/**
 The particle overlay of `renderCombined`: a cell brighter than the
 highlight cutoff may spawn a glowing disc, with a chance and a radius that
 grow with how far its brightness exceeds the cutoff. The random draw
 `Math.random()` is a parameter u.
 */
module Particle {

  /** How far v lies from the cutoff t towards 255, as a fraction. */
  function BrightnessFactor(v: real, t: real): (f: real)
    requires t < v <= 255.0
    ensures 0.0 < f <= 1.0
    ensures v == 255.0 ==> f == 1.0
  {
    (v - t) / (255.0 - t)
  }

  /** A brighter cell has at least as large a factor. */
  lemma BrightnessFactorMonotone(v: real, v': real, t: real)
    requires t < v <= v' <= 255.0
    ensures BrightnessFactor(v, t) <= BrightnessFactor(v', t)
  {
    var d := 255.0 - t;
    assert (v - t) / d <= (v' - t) / d by {
      DivMonotone(v - t, v' - t, d);
    }
  }

  lemma DivMonotone(a: real, b: real, d: real)
    requires a <= b && d > 0.0
    ensures a / d <= b / d
  {
    assert b / d - a / d == (b - a) / d;
  }

  /** `brightness > particleThreshold` and then
      `Math.random() < particleChance + brightnessFactor * 0.5`. The factor
      is only computed for eligible cells, whose brightness lies above the
      cutoff and at most 255, so its denominator is positive. */
  predicate ParticleDrawn(v: real, t: real, chance: real, u: real)
    requires 0.0 <= v <= 255.0
  {
    v > t && u < chance + BrightnessFactor(v, t) * 0.5
  }

  /** `(step / 3) * (0.8 + brightnessFactor)`. */
  function Radius(step: nat, f: real): (rad: real)
    requires step >= 1 && 0.0 < f <= 1.0
    ensures 0.8 * step as real / 3.0 < rad <= 1.8 * step as real / 3.0
  {
    (step as real / 3.0) * (0.8 + f)
  }

  /** A larger brightness factor gives a disc at least as large, so with
      `BrightnessFactorMonotone` a brighter cell's particle is never smaller. */
  lemma RadiusMonotone(step: nat, f: real, f': real)
    requires step >= 1 && 0.0 < f <= f' <= 1.0
    ensures Radius(step, f) <= Radius(step, f')
  {
    var k := step as real / 3.0;
    ScaleMonotone(k, 0.8 + f, 0.8 + f');
    assert Radius(step, f) == k * (0.8 + f);
    assert Radius(step, f') == k * (0.8 + f');
  }

  lemma ScaleMonotone(k: real, a: real, b: real)
    requires k >= 0.0 && a <= b
    ensures k * a <= k * b
  {
  }

  /** For a draw u uniform on [0, 1): a cell at or below the cutoff never
      spawns (in particular every cell when the cutoff is 255 or more); an
      eligible cell spawns exactly when u falls below the chance plus half
      the factor, so always when that sum reaches 1; a full-brightness cell
      spawns exactly when u < chance + 0.5. */
  lemma DrawProbability(v: real, t: real, chance: real, u: real)
    requires 0.0 <= v <= 255.0 && 0.0 <= u < 1.0
    ensures v <= t ==> !ParticleDrawn(v, t, chance, u)
    ensures t >= 255.0 ==> !ParticleDrawn(v, t, chance, u)
    ensures v > t && chance + BrightnessFactor(v, t) * 0.5 >= 1.0 ==> ParticleDrawn(v, t, chance, u)
    ensures v == 255.0 && t < 255.0 ==> (ParticleDrawn(v, t, chance, u) <==> u < chance + 0.5)
  {
  }

  /** A brighter eligible cell is at least as likely to spawn: any draw that
      spawns a particle for v also spawns one for a brighter v'. */
  lemma DrawMonotone(v: real, v': real, t: real, chance: real, u: real)
    requires 0.0 <= v <= v' <= 255.0
    requires ParticleDrawn(v, t, chance, u)
    ensures ParticleDrawn(v', t, chance, u)
  {
    BrightnessFactorMonotone(v, v', t);
  }
}
