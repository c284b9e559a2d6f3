/**
 * Multi-octave height synthesis (src/main.cpp:225-250).
 *
 * The height of a grid point is the weighted sum of several noise samples:
 * octave j samples the noise field at the point scaled by
 * baseFrequency * lacunarity^j and weighs the sample by
 * baseAmplitude * persistence^j.  The noise field itself is a parameter.
 */
module Octaves {

  /**
   * A noise field.  It stands for `perlin.noise(x, z, numOctaves, persistence)`
   * with the last two arguments fixed, as every call in the builder passes the
   * same two values; the field's own implementation is not part of this model.
   */
  type Noise = (real, real) -> real

  datatype NoiseParams = NoiseParams(
    numOctaves: nat,
    persistence: real,
    lacunarity: real,
    baseAmplitude: real,
    baseFrequency: real)

  /** The constants the builder uses (src/main.cpp:225-229). */
  const SourceParams: NoiseParams := NoiseParams(4, 0.5, 2.0, 0.5, 0.4)

  function Pow(b: real, k: nat): real
  {
    if k == 0 then 1.0 else Pow(b, k - 1) * b
  }

  /** The amplitude of octave j: baseAmplitude * persistence^j. */
  function Amplitude(p: NoiseParams, j: nat): real
  {
    p.baseAmplitude * Pow(p.persistence, j)
  }

  /** The frequency of octave j: baseFrequency * lacunarity^j. */
  function Frequency(p: NoiseParams, j: nat): real
  {
    p.baseFrequency * Pow(p.lacunarity, j)
  }

  /** The field sampled at (xPos, zPos) scaled by `frequency`. */
  function Sample(noise: Noise, xPos: real, zPos: real, frequency: real): real
  {
    noise(xPos * frequency, zPos * frequency)
  }

  lemma SampleAt(noise: Noise, xPos: real, zPos: real, frequency: real)
    ensures Sample(noise, xPos, zPos, frequency) == noise(xPos * frequency, zPos * frequency)
  {
  }

  /** The sum of the first k octaves' weighted samples at (xPos, zPos). */
  function OctaveSum(p: NoiseParams, noise: Noise, xPos: real, zPos: real, k: nat): real
  {
    if k == 0 then 0.0
    else OctaveSum(p, noise, xPos, zPos, k - 1) + Amplitude(p, k - 1) * Sample(noise, xPos, zPos, Frequency(p, k - 1))
  }

  /** The sum of the first k octaves' amplitudes. */
  function AmplitudeSum(p: NoiseParams, k: nat): real
  {
    if k == 0 then 0.0 else AmplitudeSum(p, k - 1) + Amplitude(p, k - 1)
  }

  /** Every sample of the field lies in [-1, 1]. */
  ghost predicate UnitBounded(noise: Noise)
  {
    forall a: real, b: real :: -1.0 <= noise(a, b) <= 1.0
  }

  /**
   * The octave loop of src/main.cpp:241-250: after `octave` rounds the
   * amplitude is baseAmplitude * persistence^octave, the frequency is
   * baseFrequency * lacunarity^octave, and the height is the sum of the
   * first `octave` weighted samples.
   */
  method OctaveHeight(p: NoiseParams, noise: Noise, xPos: real, zPos: real) returns (heightValue: real)
    ensures heightValue == OctaveSum(p, noise, xPos, zPos, p.numOctaves)
  {
    heightValue := 0.0;
    var amplitude := p.baseAmplitude;
    var frequency := p.baseFrequency;
    var octave := 0;
    while octave < p.numOctaves
      invariant 0 <= octave <= p.numOctaves
      invariant amplitude == Amplitude(p, octave)
      invariant frequency == Frequency(p, octave)
      invariant heightValue == OctaveSum(p, noise, xPos, zPos, octave)
    {
      SampleAt(noise, xPos, zPos, frequency);
      NextOctave(p, octave, amplitude, frequency);
      heightValue := heightValue + amplitude * noise(xPos * frequency, zPos * frequency);
      amplitude := amplitude * p.persistence;
      frequency := frequency * p.lacunarity;
      octave := octave + 1;
    }
  }

  /** Each octave's amplitude and frequency are the previous ones times persistence and lacunarity. */
  lemma NextOctave(p: NoiseParams, j: nat, amplitude: real, frequency: real)
    requires amplitude == Amplitude(p, j) && frequency == Frequency(p, j)
    ensures amplitude * p.persistence == Amplitude(p, j + 1)
    ensures frequency * p.lacunarity == Frequency(p, j + 1)
  {
    assert Pow(p.persistence, j + 1) == Pow(p.persistence, j) * p.persistence;
    assert Pow(p.lacunarity, j + 1) == Pow(p.lacunarity, j) * p.lacunarity;
  }

  lemma {:induction false} PowNonNegative(b: real, k: nat)
    requires 0.0 <= b
    ensures 0.0 <= Pow(b, k)
  {
    if k > 0 {
      PowNonNegative(b, k - 1);
    }
  }

  lemma WeightedSampleBound(a: real, s: real)
    requires 0.0 <= a && -1.0 <= s <= 1.0
    ensures -a <= a * s <= a
  {
  }

  lemma DivideBack(sum: real, d: real, total: real)
    requires d != 0.0 && sum * d == total
    ensures sum == total / d
  {
  }

  /**
   * With samples in [-1, 1] and non-negative amplitudes, the height after k
   * octaves is bounded by the sum of the first k amplitudes.
   */
  lemma {:induction false} OctaveSumBounded(p: NoiseParams, noise: Noise, xPos: real, zPos: real, k: nat)
    requires UnitBounded(noise)
    requires 0.0 <= p.baseAmplitude && 0.0 <= p.persistence
    ensures -AmplitudeSum(p, k) <= OctaveSum(p, noise, xPos, zPos, k) <= AmplitudeSum(p, k)
  {
    if k > 0 {
      OctaveSumBounded(p, noise, xPos, zPos, k - 1);
      PowNonNegative(p.persistence, k - 1);
      var a := Amplitude(p, k - 1);
      var f := Frequency(p, k - 1);
      var s := Sample(noise, xPos, zPos, f);
      SampleAt(noise, xPos, zPos, f);
      assert -1.0 <= s <= 1.0;
      WeightedSampleBound(a, s);
      assert OctaveSum(p, noise, xPos, zPos, k) == OctaveSum(p, noise, xPos, zPos, k - 1) + a * s;
      assert AmplitudeSum(p, k) == AmplitudeSum(p, k - 1) + a;
    }
  }

  /** The amplitudes form a geometric series: S_k * (1 - r) == a * (1 - r^k). */
  lemma {:induction false} AmplitudeSumGeometric(p: NoiseParams, k: nat)
    ensures AmplitudeSum(p, k) * (1.0 - p.persistence)
            == p.baseAmplitude * (1.0 - Pow(p.persistence, k))
  {
    if k > 0 {
      AmplitudeSumGeometric(p, k - 1);
      var r := p.persistence;
      var q := Pow(r, k - 1);
      GeometricStep(AmplitudeSum(p, k - 1), p.baseAmplitude, q, r, AmplitudeSum(p, k), Pow(r, k));
    }
  }

  /**
   * One step of the geometric series: from s (1 - r) == a (1 - q), the next
   * partial sum s + a q and power q r satisfy the same relation.
   */
  lemma GeometricStep(s: real, a: real, q: real, r: real, next: real, power: real)
    requires s * (1.0 - r) == a * (1.0 - q)
    requires next == s + a * q && power == q * r
    ensures next * (1.0 - r) == a * (1.0 - power)
  {
    calc {
      next * (1.0 - r);
      (s + a * q) * (1.0 - r);
      s * (1.0 - r) + a * q * (1.0 - r);
      a * (1.0 - q) + a * q * (1.0 - r);
    }
  }

  /** The closed form a * (1 - r^n) / (1 - r) of the amplitude series. */
  function GeometricBound(p: NoiseParams): real
    requires p.persistence != 1.0
  {
    p.baseAmplitude * (1.0 - Pow(p.persistence, p.numOctaves)) / (1.0 - p.persistence)
  }

  /** For a persistence other than 1 the amplitudes sum to the closed form. */
  lemma AmplitudeSumClosedForm(p: NoiseParams)
    requires p.persistence != 1.0
    ensures AmplitudeSum(p, p.numOctaves) == GeometricBound(p)
  {
    AmplitudeSumGeometric(p, p.numOctaves);
    var total := p.baseAmplitude * (1.0 - Pow(p.persistence, p.numOctaves));
    DivideBack(AmplitudeSum(p, p.numOctaves), 1.0 - p.persistence, total);
    assert GeometricBound(p) == total / (1.0 - p.persistence);
  }

  /**
   * The height bound of the geometric series: for a non-negative persistence
   * other than 1, a non-negative base amplitude and samples in [-1, 1],
   * |height| <= a * (1 - r^n) / (1 - r).
   */
  lemma HeightGeometricBound(p: NoiseParams, noise: Noise, xPos: real, zPos: real)
    requires UnitBounded(noise)
    requires 0.0 <= p.baseAmplitude && 0.0 <= p.persistence && p.persistence != 1.0
    ensures -GeometricBound(p) <= OctaveSum(p, noise, xPos, zPos, p.numOctaves) <= GeometricBound(p)
  {
    OctaveSumBounded(p, noise, xPos, zPos, p.numOctaves);
    AmplitudeSumClosedForm(p);
  }

  /**
   * With the builder's constants (four octaves, amplitudes 0.5, 0.25, 0.125,
   * 0.0625) every height lies in [-0.9375, 0.9375].
   */
  lemma SourceHeightBound(noise: Noise, xPos: real, zPos: real)
    requires UnitBounded(noise)
    ensures -0.9375 <= OctaveSum(SourceParams, noise, xPos, zPos, SourceParams.numOctaves) <= 0.9375
  {
    OctaveSumBounded(SourceParams, noise, xPos, zPos, 4);
    assert Pow(0.5, 3) == 0.125 by {
      assert Pow(0.5, 1) == 0.5;
      assert Pow(0.5, 2) == 0.25;
    }
    assert AmplitudeSum(SourceParams, 4) == 0.9375;
  }
}
