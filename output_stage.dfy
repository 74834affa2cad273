/** What happens to the vocoder's output: each chunk loses its context margin
    (`[t_pad_tgt : -t_pad_tgt]`), the joined waveform optionally takes on the
    loudness envelope of the input (`AudioProcessor.change_rms`), and it is
    finally attenuated so that its peak does not exceed 0.99. */
module OutputStage {
  import opened Util
  import opened Numerics

  // ---------------------------------------------------------------------------
  // Trimming the context margin
  // ---------------------------------------------------------------------------

  /** Python's `out[p:-p]`. A margin of 0 reads as `out[0:0]`, which is empty;
      a positive margin larger than half the output also leaves nothing. */
  function Trim(out: seq<real>, p: nat): (r: seq<real>)
    ensures |r| == if p > 0 && |out| > 2 * p then |out| - 2 * p else 0
    ensures forall i :: 0 <= i < |r| ==> r[i] == out[p + i]
  {
    if p == 0 then [] else PySlice(out, p, if |out| >= p then |out| - p else 0)
  }

  /** Trimming removes exactly the two margins the chunk was padded with. */
  lemma TrimRemovesMargins(before: seq<real>, middle: seq<real>, after: seq<real>)
    requires |before| == |after| > 0
    ensures Trim(before + middle + after, |before|) == middle
  {
    var whole := before + middle + after;
    var r := Trim(whole, |before|);
    assert |r| == |middle|;
    forall i | 0 <= i < |middle| ensures r[i] == middle[i] {
      assert whole[|before| + i] == middle[i];
    }
  }

  // ---------------------------------------------------------------------------
  // Loudness envelope
  // ---------------------------------------------------------------------------

  /** Floor applied to the converted signal's envelope before it divides. */
  const RmsFloor: real := 0.000001

  /** `librosa.feature.rms(y, frame_length = sr // 2 * 2, hop_length = sr // 2)`
      linearly interpolated to n points, for a signal at rate sr. */
  type EnvelopeOf = (seq<real>, nat, nat) -> seq<real>

  ghost predicate EnvelopeShaped(envelope: EnvelopeOf)
  {
    forall y, sr, n :: |envelope(y, sr, n)| == n
  }

  /** The per-sample gain `rms1^(1 - rate) · max(rms2, 1e-6)^(rate - 1)`. */
  function Gain(t: Transcendentals, rms1: real, rms2: real, rate: real): real
  {
    t.pow(rms1, 1.0 - rate) * t.pow(if rms2 >= RmsFloor then rms2 else RmsFloor, rate - 1.0)
  }

  /** `change_rms`: every target sample scaled by the gain of its position,
      the envelopes being those of the 16 kHz source and of the target. */
  function ChangeRms(t: Transcendentals, envelope: EnvelopeOf, source: seq<real>, target: seq<real>,
                     targetRate: nat, rate: real): (r: seq<real>)
    requires EnvelopeShaped(envelope)
    ensures |r| == |target|
  {
    var rms1 := envelope(source, 16000, |target|);
    var rms2 := envelope(target, targetRate, |target|);
    seq(|target|, i requires 0 <= i < |target| => target[i] * Gain(t, rms1[i], rms2[i], rate))
  }

  /** At rate 1 the gain is 1 everywhere, so `change_rms` would return its
      input: skipping it when `volume_envelope == 1` changes nothing. */
  lemma ChangeRmsAtOneIsIdentity(t: Transcendentals, envelope: EnvelopeOf, source: seq<real>, target: seq<real>, targetRate: nat)
    requires Lawful(t) && EnvelopeShaped(envelope)
    ensures ChangeRms(t, envelope, source, target, targetRate, 1.0) == target
  {
    var r := ChangeRms(t, envelope, source, target, targetRate, 1.0);
    forall i | 0 <= i < |target| ensures r[i] == target[i] {
      var rms1 := envelope(source, 16000, |target|);
      var rms2 := envelope(target, targetRate, |target|);
      var floored := if rms2[i] >= RmsFloor then rms2[i] else RmsFloor;
      assert t.pow(rms1[i], 0.0) == 1.0 && t.pow(floored, 0.0) == 1.0;
    }
  }

  /** At rate 0 each sample is scaled by the ratio of the source envelope to
      the (floored) target envelope, i.e. the output takes the source's loudness. */
  lemma ChangeRmsAtZeroMatchesSource(t: Transcendentals, envelope: EnvelopeOf, source: seq<real>, target: seq<real>,
                                     targetRate: nat, i: nat)
    requires Lawful(t) && EnvelopeShaped(envelope) && i < |target|
    requires envelope(source, 16000, |target|)[i] >= 0.0
    ensures var rms1 := envelope(source, 16000, |target|)[i];
            var rms2 := envelope(target, targetRate, |target|)[i];
            ChangeRms(t, envelope, source, target, targetRate, 0.0)[i]
              == target[i] * (rms1 * (1.0 / (if rms2 >= RmsFloor then rms2 else RmsFloor)))
  {
    var rms1 := envelope(source, 16000, |target|)[i];
    var rms2 := envelope(target, targetRate, |target|)[i];
    var floored := if rms2 >= RmsFloor then rms2 else RmsFloor;
    assert t.pow(rms1, 1.0) == rms1;
    assert t.pow(floored, -1.0) == 1.0 / floored;
  }

  // ---------------------------------------------------------------------------
  // Peak normalisation
  // ---------------------------------------------------------------------------

  /** The output ceiling. */
  const Ceiling: real := 0.99

  /** `np.abs(x).max()`. */
  function MaxAbs(s: seq<real>): (m: real)
    requires s != []
    ensures forall i :: 0 <= i < |s| ==> Abs(s[i]) <= m
    ensures exists i :: 0 <= i < |s| && Abs(s[i]) == m
  {
    if |s| == 1 then Abs(s[0])
    else
      var m := MaxAbs(s[..|s| - 1]);
      assert forall i :: 0 <= i < |s| - 1 ==> s[..|s| - 1][i] == s[i];
      if Abs(s[|s| - 1]) > m then Abs(s[|s| - 1]) else m
  }

  /** `audio_max = max|x| / 0.99`; when it exceeds 1 every sample is divided by it. */
  function PeakNormalised(s: seq<real>): (r: seq<real>)
    requires s != []
    ensures |r| == |s|
  {
    var peak := MaxAbs(s) / Ceiling;
    if peak > 1.0 then seq(|s|, i requires 0 <= i < |s| => s[i] / peak) else s
  }

  lemma Cancel(a: real, b: real, p: real)
    requires p > 0.0
    ensures a * p <= b * p ==> a <= b
    ensures a * p == b * p ==> a == b
  {
  }

  lemma DivideByPeak(x: real, m: real)
    requires Abs(x) <= m && m > Ceiling
    ensures Abs(x / (m / Ceiling)) <= Ceiling
    ensures Abs(x / (m / Ceiling)) <= Abs(x)
    ensures Abs(x) == m ==> Abs(x / (m / Ceiling)) == Ceiling
  {
    CeilingQuotient(m);
    ScaledDown(x, m / Ceiling, Ceiling);
  }

  /** Dividing by a factor over 1 keeps a magnitude bounded by c·factor
      within c, never raises it, and takes c·factor exactly to c. */
  lemma ScaledDown(x: real, factor: real, c: real)
    requires factor > 1.0 && c > 0.0 && Abs(x) <= factor * c
    ensures Abs(x / factor) <= c && Abs(x / factor) <= Abs(x)
    ensures Abs(x) == factor * c ==> Abs(x / factor) == c
  {
    var a := Abs(x / factor);
    AbsQuotient(x, factor);
    Cancel(a, c, factor);
    GrowsByFactor(a, factor);
  }

  /** A peak over the ceiling divided by the ceiling exceeds 1 and gives the peak back. */
  lemma CeilingQuotient(m: real)
    requires m > Ceiling
    ensures m / Ceiling > 1.0 && m / Ceiling * Ceiling == m
  {
  }

  /** Dividing by a positive number divides the magnitude by it. */
  lemma AbsQuotient(x: real, p: real)
    requires p > 0.0
    ensures Abs(x / p) >= 0.0 && Abs(x / p) * p == Abs(x)
  {
    var q := x / p;
    assert q * p == x;
    if x < 0.0 {
      assert q < 0.0;
    } else {
      assert q >= 0.0;
    }
  }

  lemma GrowsByFactor(a: real, p: real)
    requires a >= 0.0 && p >= 1.0
    ensures a <= a * p
  {
    assert a * p - a == a * (p - 1.0);
  }

  /** Normalisation never makes a sample louder and leaves every sample at
      most 0.99 in magnitude; a signal already within the ceiling is left
      unchanged, and a louder one is scaled so its peak is exactly 0.99. */
  lemma PeakNormalisedBounds(s: seq<real>)
    requires s != []
    ensures forall i :: 0 <= i < |s| ==> Abs(PeakNormalised(s)[i]) <= Abs(s[i])
    ensures forall i :: 0 <= i < |s| ==> Abs(PeakNormalised(s)[i]) <= Ceiling
    ensures MaxAbs(s) <= Ceiling ==> PeakNormalised(s) == s
    ensures MaxAbs(s) > Ceiling ==> MaxAbs(PeakNormalised(s)) == Ceiling
  {
    var m := MaxAbs(s);
    var r := PeakNormalised(s);
    if m > Ceiling {
      forall i | 0 <= i < |s|
        ensures Abs(r[i]) <= Abs(s[i]) && Abs(r[i]) <= Ceiling && (Abs(s[i]) == m ==> Abs(r[i]) == Ceiling)
      {
        DivideByPeak(s[i], m);
      }
      var k :| 0 <= k < |s| && Abs(s[k]) == m;
      assert Abs(r[k]) == Ceiling;
      assert MaxAbs(r) == Ceiling by {
        var j :| 0 <= j < |r| && Abs(r[j]) == MaxAbs(r);
        assert Abs(r[k]) <= MaxAbs(r);
      }
    }
  }

  /** Normalising twice is the same as normalising once. */
  lemma PeakNormalisedIdempotent(s: seq<real>)
    requires s != []
    ensures PeakNormalised(PeakNormalised(s)) == PeakNormalised(s)
  {
    PeakNormalisedBounds(s);
    var r := PeakNormalised(s);
    var j :| 0 <= j < |r| && Abs(r[j]) == MaxAbs(r);
    PeakNormalisedBounds(r);
  }

  /** `audio_opt /= audio_max` when the peak is over the ceiling, in place. */
  method NormalisePeak(a: array<real>)
    requires a.Length > 0
    modifies a
    ensures a[..] == PeakNormalised(old(a[..]))
  {
    var peak := MaxAbs(a[..]) / Ceiling;
    if peak > 1.0 {
      forall i | 0 <= i < a.Length {
        a[i] := a[i] / peak;
      }
    }
  }
}
