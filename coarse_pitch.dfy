/** The coarse pitch code shared by conversion (`VC.get_f0`) and training
    preprocessing (`DataPreprocessor.coarse_f0`): F0 in Hz goes to the mel
    scale, is rescaled affinely so that the mel value of the lower F0 bound
    maps to 1 and that of the upper bound to 255, is clipped to [1, 255] and
    rounded to the nearest integer. */
module CoarsePitch {
  import opened Numerics

  /** Number of coarse pitch bins (`f0_bin`); codes run from 1 to F0Bins - 1. */
  const F0Bins: int := 256

  /** `np.rint`: the nearest integer, ties going to the even neighbour. */
  function RoundHalfEven(x: real): (r: int)
    ensures x - 0.5 <= r as real <= x + 0.5
    ensures (r as real - x == 0.5 || x - r as real == 0.5) ==> r % 2 == 0
  {
    var f := x.Floor;
    var d := x - f as real;
    if d < 0.5 then f
    else if d > 0.5 then f + 1
    else if f % 2 == 0 then f else f + 1
  }

  /** Rounding never reverses the order of two values. */
  lemma RoundHalfEvenMonotone(x: real, y: real)
    requires x <= y
    ensures RoundHalfEven(x) <= RoundHalfEven(y)
  {
    if x.Floor < y.Floor {
      assert RoundHalfEven(x) <= x.Floor + 1 <= y.Floor <= RoundHalfEven(y);
    }
  }

  /** `1127 * np.log(1 + f / 700)`. */
  function Mel(t: Transcendentals, f: real): real
  {
    1127.0 * t.ln(1.0 + f / 700.0)
  }

  /** The mel value after the masked updates: positive values rescaled so
      that melMin goes to 1 and melMax to F0Bins - 1, then everything at or
      below 1 set to 1 and everything above F0Bins - 1 set to F0Bins - 1. */
  function ClippedMel(mel: real, melMin: real, melMax: real): (v: real)
    requires melMin != melMax
    ensures 1.0 <= v <= (F0Bins - 1) as real
  {
    var scaled := if mel > 0.0 then (mel - melMin) * (F0Bins - 2) as real / (melMax - melMin) + 1.0 else mel;
    if scaled <= 1.0 then 1.0
    else if scaled > (F0Bins - 1) as real then (F0Bins - 1) as real
    else scaled
  }

  /** The coarse code of one frame, from its mel value. */
  function CoarseOfMel(mel: real, melMin: real, melMax: real): (code: int)
    requires melMin != melMax
    ensures 1 <= code <= F0Bins - 1
  {
    RoundHalfEven(ClippedMel(mel, melMin, melMax))
  }

  /** A non-positive mel value (an unvoiced frame, F0 = 0) gets code 1. */
  lemma NonPositiveMelIsCodeOne(mel: real, melMin: real, melMax: real)
    requires melMin != melMax && mel <= 0.0
    ensures CoarseOfMel(mel, melMin, melMax) == 1
  {
  }

  /** Mel values at or beyond melMax saturate at the top code instead of wrapping. */
  lemma HighMelClipsToTop(mel: real, melMin: real, melMax: real)
    requires 0.0 <= melMin < melMax <= mel
    ensures CoarseOfMel(mel, melMin, melMax) == F0Bins - 1
  {
    var range := melMax - melMin;
    ScaleAtLeast(mel - melMin, range, 254.0);
  }

  /** The rescaling keeps the order of the mel values. */
  lemma ClippedMelMonotone(m1: real, m2: real, melMin: real, melMax: real)
    requires melMin < melMax && m1 <= m2
    ensures ClippedMel(m1, melMin, melMax) <= ClippedMel(m2, melMin, melMax)
  {
    if m1 > 0.0 {
      ScaleMonotone(m1 - melMin, m2 - melMin, 254.0, melMax - melMin);
    }
  }

  /** `a * k / r` is at least k when a is at least r. */
  lemma ScaleAtLeast(a: real, r: real, k: real)
    requires 0.0 < r <= a && k >= 0.0
    ensures a * k / r >= k
  {
    assert a * k >= r * k;
    assert r * k / r == k;
    DivideMonotone(r * k, a * k, r);
  }

  /** `a * k / r <= b * k / r` when a <= b, for k >= 0 and r > 0. */
  lemma ScaleMonotone(a: real, b: real, k: real, r: real)
    requires a <= b && k >= 0.0 && r > 0.0
    ensures a * k / r <= b * k / r
  {
    assert a * k <= b * k;
    DivideMonotone(a * k, b * k, r);
  }

  lemma DivideMonotone(a: real, b: real, r: real)
    requires a <= b && r > 0.0
    ensures a / r <= b / r
  {
  }

  /** A higher mel value never gets a lower code. */
  lemma CoarseOfMelMonotone(m1: real, m2: real, melMin: real, melMax: real)
    requires melMin < melMax && m1 <= m2
    ensures CoarseOfMel(m1, melMin, melMax) <= CoarseOfMel(m2, melMin, melMax)
  {
    ClippedMelMonotone(m1, m2, melMin, melMax);
    RoundHalfEvenMonotone(ClippedMel(m1, melMin, melMax), ClippedMel(m2, melMin, melMax));
  }

  /** The coarse code of one F0 value in Hz. */
  function CoarseCode(t: Transcendentals, f: real, melMin: real, melMax: real): (code: int)
    requires melMin != melMax
  {
    CoarseOfMel(Mel(t, f), melMin, melMax)
  }

  /** The element-wise quantiser: one code in [1, 255] per F0 frame. */
  function Quantise(t: Transcendentals, f0: seq<real>, melMin: real, melMax: real): (codes: seq<int>)
    requires melMin != melMax
    ensures |codes| == |f0|
    ensures forall i :: 0 <= i < |codes| ==> 1 <= codes[i] <= F0Bins - 1
  {
    seq(|f0|, i requires 0 <= i < |f0| => CoarseCode(t, f0[i], melMin, melMax))
  }

  /** The mel scale is strictly increasing wherever `np.log` is defined,
      that is above -700 Hz. */
  lemma MelIncreasing(t: Transcendentals, f: real, g: real)
    requires Lawful(t) && -700.0 < f < g
    ensures Mel(t, f) < Mel(t, g)
  {
    assert 0.0 < 1.0 + f / 700.0 < 1.0 + g / 700.0;
  }

  /** Distinct F0 bounds give distinct mel bounds, in the same order. */
  lemma MelBoundsOrdered(t: Transcendentals, fMin: real, fMax: real)
    requires Lawful(t) && 0.0 <= fMin < fMax
    ensures 0.0 <= Mel(t, fMin) < Mel(t, fMax)
  {
    MelIncreasing(t, fMin, fMax);
    if fMin > 0.0 {
      MelIncreasing(t, 0.0, fMin);
    }
  }

  /** An unvoiced frame (F0 = 0 Hz) is quantised to code 1. */
  lemma UnvoicedIsCodeOne(t: Transcendentals, melMin: real, melMax: real)
    requires Lawful(t) && melMin != melMax
    ensures CoarseCode(t, 0.0, melMin, melMax) == 1
  {
    assert Mel(t, 0.0) == 0.0;
    NonPositiveMelIsCodeOne(0.0, melMin, melMax);
  }

  /** The quantiser is non-decreasing in F0 over non-negative frequencies. */
  lemma CoarseCodeMonotone(t: Transcendentals, f: real, g: real, melMin: real, melMax: real)
    requires Lawful(t) && melMin < melMax && 0.0 <= f <= g
    ensures CoarseCode(t, f, melMin, melMax) <= CoarseCode(t, g, melMin, melMax)
  {
    if f < g {
      assert 0.0 < 1.0 + f / 700.0 < 1.0 + g / 700.0;
    }
    CoarseOfMelMonotone(Mel(t, f), Mel(t, g), melMin, melMax);
  }

  /** A frequency at or above the upper F0 bound gets the top code. */
  lemma HighF0ClipsToTop(t: Transcendentals, f: real, fMin: real, fMax: real)
    requires Lawful(t) && 0.0 <= fMin < fMax <= f
    ensures CoarseCode(t, f, Mel(t, fMin), Mel(t, fMax)) == F0Bins - 1
  {
    MelBoundsOrdered(t, fMin, fMax);
    if fMax < f {
      assert 1.0 + fMax / 700.0 < 1.0 + f / 700.0;
    }
    HighMelClipsToTop(Mel(t, f), Mel(t, fMin), Mel(t, fMax));
  }

  /** With the bounds inverted the rescale factor is negative, so among
      voiced frames a higher mel value gets a lower (clipped) value. */
  lemma ClippedMelReversed(m1: real, m2: real, melMin: real, melMax: real)
    requires melMax < melMin && 0.0 < m1 <= m2
    ensures ClippedMel(m2, melMin, melMax) <= ClippedMel(m1, melMin, melMax)
  {
    assert (m1 - melMin) * 254.0 <= (m2 - melMin) * 254.0;
    DivideByNegative((m1 - melMin) * 254.0, (m2 - melMin) * 254.0, melMax - melMin);
  }

  lemma DivideByNegative(a: real, b: real, r: real)
    requires a <= b && r < 0.0
    ensures b / r <= a / r
  {
    assert b / r == -(b / -r) && a / r == -(a / -r);
    DivideMonotone(a, b, -r);
  }

  // ---------------------------------------------------------------------------
  // Bounds outside the usable range
  // ---------------------------------------------------------------------------

  /** A mel bound as numpy computes it: `1127 * np.log(1 + f / 700)` is
      finite above -700 Hz, minus infinity at -700 Hz and NaN below. */
  datatype MelBound = Finite(mel: real) | MinusInfinity | NotANumber

  function MelBoundOf(t: Transcendentals, f: real): (b: MelBound)
    ensures b.Finite? <==> f > -700.0
    ensures b.Finite? ==> b.mel == Mel(t, f)
  {
    if f > -700.0 then Finite(Mel(t, f))
    else if f == -700.0 then MinusInfinity
    else NotANumber
  }

  /** `np.rint(nan).astype(np.int32)` as x86 computes it: the cast of a NaN
      gives the most negative 32-bit integer. */
  const NaNCode: int := -0x8000_0000

  /** The code of one frame whatever the bounds, following IEEE arithmetic
      where the rescale divides by zero or by an infinity: equal finite
      bounds turn the rescale into a threshold (minus infinity below the
      bound, clipped to 1, plus infinity above it, clipped to 255, and
      0 / 0 exactly at it); an upper bound of minus infinity makes every
      rescaled value 1; every other bound outside the range gives NaN.
      Unvoiced frames skip the rescale and always get 1. */
  function CoarseOfMelBounds(mel: real, lo: MelBound, hi: MelBound): (code: int)
    ensures code == NaNCode || 1 <= code <= F0Bins - 1
  {
    if mel <= 0.0 then 1
    else match (lo, hi)
      case (Finite(a), Finite(b)) =>
        if a != b then CoarseOfMel(mel, a, b)
        else if mel < a then 1
        else if mel > a then F0Bins - 1
        else NaNCode
      case (Finite(_), MinusInfinity) => 1
      case _ => NaNCode
  }

  /** The quantiser of `get_f0` for bounds given in Hz, whatever they are. */
  function QuantiseBounds(t: Transcendentals, f0: seq<real>, fMin: real, fMax: real): (codes: seq<int>)
    ensures |codes| == |f0|
    ensures forall i :: 0 <= i < |codes| ==> codes[i] == NaNCode || 1 <= codes[i] <= F0Bins - 1
  {
    seq(|f0|, i requires 0 <= i < |f0| => CoarseOfMelBounds(Mel(t, f0[i]), MelBoundOf(t, fMin), MelBoundOf(t, fMax)))
  }

  /** Bounds that give the rescale a finite, non-zero range. */
  predicate UsableBounds(fMin: real, fMax: real)
  {
    -700.0 < fMin && -700.0 < fMax && fMin != fMax
  }

  /** With usable bounds, ordered or inverted, the general quantiser is the
      ordinary one on the mel bounds, so every code lies in [1, 255]. */
  lemma QuantiseBoundsUsable(t: Transcendentals, f0: seq<real>, fMin: real, fMax: real)
    requires Lawful(t) && UsableBounds(fMin, fMax)
    ensures Mel(t, fMin) != Mel(t, fMax)
    ensures QuantiseBounds(t, f0, fMin, fMax) == Quantise(t, f0, Mel(t, fMin), Mel(t, fMax))
  {
    if fMin < fMax {
      MelIncreasing(t, fMin, fMax);
    } else {
      MelIncreasing(t, fMax, fMin);
    }
    var q := QuantiseBounds(t, f0, fMin, fMax);
    forall i | 0 <= i < |f0|
      ensures q[i] == CoarseCode(t, f0[i], Mel(t, fMin), Mel(t, fMax))
    {
      NonPositiveIsOne(Mel(t, f0[i]), Mel(t, fMin), Mel(t, fMax));
    }
  }

  lemma NonPositiveIsOne(mel: real, melMin: real, melMax: real)
    requires melMin != melMax
    ensures mel <= 0.0 ==> CoarseOfMel(mel, melMin, melMax) == 1
  {
  }

  /** Equal bounds divide by zero: a voiced frame gets 1 below the bound,
      255 above it, and the cast of NaN exactly at it. */
  lemma EqualBoundsThreshold(t: Transcendentals, f0: seq<real>, f: real, i: nat)
    requires Lawful(t) && f > -700.0 && i < |f0| && f0[i] > 0.0
    ensures f0[i] < f ==> QuantiseBounds(t, f0, f, f)[i] == 1
    ensures f0[i] > f ==> QuantiseBounds(t, f0, f, f)[i] == F0Bins - 1
    ensures f0[i] == f ==> QuantiseBounds(t, f0, f, f)[i] == NaNCode
  {
    MelIncreasing(t, 0.0, f0[i]);
    if f0[i] < f {
      MelIncreasing(t, f0[i], f);
    } else if f0[i] > f {
      MelIncreasing(t, f, f0[i]);
    }
  }

  /** Whatever the bounds, an unvoiced frame (0 Hz) gets code 1. */
  lemma UnvoicedIsCodeOneAnyBounds(t: Transcendentals, f0: seq<real>, fMin: real, fMax: real, i: nat)
    requires Lawful(t) && i < |f0| && f0[i] == 0.0
    ensures QuantiseBounds(t, f0, fMin, fMax)[i] == 1
  {
    assert Mel(t, f0[i]) == 0.0;
  }
}
