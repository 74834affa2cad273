/** `VC.get_f0`: the F0 curve of the padded input from the selected back-end,
    optionally autotuned, shifted by a number of semitones (optionally raised
    by the automatic pitch estimate), and quantised to coarse codes. */
module F0Track {
  import opened Util
  import opened Numerics
  import opened CoarsePitch
  import opened PitchMethods
  import VC = VoiceConversion

  /** The external estimators: a back-end run that may produce no curve
      (`None`), `AutoTune.autotune_f0`, and `calc_pitch_shift(f0, threshold, 12)`. */
  datatype PitchOracles = PitchOracles(
    estimate: BackendCall -> Option<seq<real>>,
    autotune: (seq<real>, real) -> seq<real>,
    autoShift: (seq<real>, real) -> int)

  /** The user's pitch settings. */
  datatype PitchSettings = PitchSettings(
    semitones: real, f0Min: real, f0Max: real, f0Method: string,
    autopitch: bool, autopitchThreshold: real, autotune: bool, autotuneStrength: real)

  /** `f0 * 2^(semitones / 12)`, frame by frame. */
  function Transpose(t: Transcendentals, f0: seq<real>, semitones: real): (r: seq<real>)
    ensures |r| == |f0|
  {
    Scale(f0, t.exp2(semitones / 12.0))
  }

  /** The curve after the optional autotune and the (possibly raised) shift. */
  function Shifted(t: Transcendentals, o: PitchOracles, raw: seq<real>, s: PitchSettings): seq<real>
  {
    var tuned := if s.autotune then o.autotune(raw, s.autotuneStrength) else raw;
    var semitones := if s.autopitch then s.semitones + o.autoShift(tuned, s.autopitchThreshold) as real else s.semitones;
    Transpose(t, tuned, semitones)
  }

  /** Without autotune and autopitch the curve is only transposed by the
      requested shift; autopitch adds the estimated whole number of
      semitones to it. */
  lemma ShiftedOptions(t: Transcendentals, o: PitchOracles, raw: seq<real>, s: PitchSettings)
    requires !s.autotune
    ensures !s.autopitch ==> Shifted(t, o, raw, s) == Transpose(t, raw, s.semitones)
    ensures s.autopitch ==> Shifted(t, o, raw, s) == Transpose(t, raw, s.semitones + o.autoShift(raw, s.autopitchThreshold) as real)
    ensures |Shifted(t, o, raw, s)| == |raw|
  {
  }

  /** The coarse codes and the F0 curve, or the `ValueError` raised when the
      name is not recognised or the back-end yields nothing. The bounds are
      taken as they come: with usable ones (ordered or inverted) every code
      lies in [1, 255]; equal bounds or bounds at or below -700 Hz can give
      the cast of NaN. */
  function GetF0(t: Transcendentals, o: PitchOracles, audio: seq<real>, pLen: nat, s: PitchSettings): (r: Result<VC.Pitch, VC.ConversionError>)
    requires Lawful(t)
    ensures r.Err? ==> r.error == VC.F0MethodUnrecognised
    ensures r.Ok? ==> |r.value.codes| == |r.value.f0|
    ensures r.Ok? ==> forall i :: 0 <= i < |r.value.codes| ==> r.value.codes[i] == NaNCode || 1 <= r.value.codes[i] <= F0Bins - 1
    ensures r.Ok? && UsableBounds(s.f0Min, s.f0Max) ==> forall i :: 0 <= i < |r.value.codes| ==> 1 <= r.value.codes[i] <= F0Bins - 1
  {
    var m := ParseF0Method(s.f0Method);
    if m.None? then Err(VC.F0MethodUnrecognised)
    else
      var raw := o.estimate(CallFor(m.value, audio, s.f0Min, s.f0Max, Some(pLen)));
      if raw.None? then Err(VC.F0MethodUnrecognised)
      else
        var f0 := Shifted(t, o, raw.value, s);
        var codes := QuantiseBounds(t, f0, s.f0Min, s.f0Max);
        assert UsableBounds(s.f0Min, s.f0Max) ==> codes == Quantise(t, f0, Mel(t, s.f0Min), Mel(t, s.f0Max)) by {
          if UsableBounds(s.f0Min, s.f0Max) {
            QuantiseBoundsUsable(t, f0, s.f0Min, s.f0Max);
          }
        }
        Ok(VC.Pitch(codes, f0))
  }

  /** The raw curve the back-end of a recognised method returns. */
  function RawF0(o: PitchOracles, audio: seq<real>, pLen: nat, s: PitchSettings, m: F0Method): Option<seq<real>>
  {
    o.estimate(CallFor(m, audio, s.f0Min, s.f0Max, Some(pLen)))
  }

  /** The call succeeds exactly when the name is one of the five methods and
      that back-end produces a curve; the returned curve is that curve after
      autotune and shift, and the codes are its quantisation with the bounds
      as given (the ordinary quantiser when they are usable). */
  lemma GetF0Outcome(t: Transcendentals, o: PitchOracles, audio: seq<real>, pLen: nat, s: PitchSettings)
    requires Lawful(t)
    ensures var r := GetF0(t, o, audio, pLen, s);
            && (r.Ok? <==> s.f0Method in KnownNames && RawF0(o, audio, pLen, s, ParseF0Method(s.f0Method).value).Some?)
            && (r.Ok? ==> var raw := RawF0(o, audio, pLen, s, ParseF0Method(s.f0Method).value).value;
                          && r.value.f0 == Shifted(t, o, raw, s)
                          && r.value.codes == QuantiseBounds(t, r.value.f0, s.f0Min, s.f0Max)
                          && (UsableBounds(s.f0Min, s.f0Max) ==>
                                r.value.codes == Quantise(t, r.value.f0, Mel(t, s.f0Min), Mel(t, s.f0Max))))
  {
    var r := GetF0(t, o, audio, pLen, s);
    if r.Ok? && UsableBounds(s.f0Min, s.f0Max) {
      QuantiseBoundsUsable(t, r.value.f0, s.f0Min, s.f0Max);
    }
  }

  /** A zero shift leaves the curve as it is. */
  lemma ZeroShiftKeepsF0(t: Transcendentals, f0: seq<real>)
    requires Lawful(t)
    ensures Transpose(t, f0, 0.0) == f0
  {
    assert t.exp2(0.0 / 12.0) == 1.0;
  }

  /** Twelve semitones up is one octave: every frequency doubles. */
  lemma OctaveDoublesF0(t: Transcendentals, f0: seq<real>)
    requires Lawful(t)
    ensures forall i :: 0 <= i < |f0| ==> Transpose(t, f0, 12.0)[i] == 2.0 * f0[i]
  {
    assert t.exp2(12.0 / 12.0) == 2.0;
  }

  /** Transposition never turns an unvoiced frame (0 Hz) voiced, so such a
      frame keeps code 1 whatever the shift. */
  lemma UnvoicedStaysUnvoiced(t: Transcendentals, f0: seq<real>, semitones: real, melMin: real, melMax: real, i: nat)
    requires Lawful(t) && melMin != melMax && i < |f0| && f0[i] == 0.0
    ensures Transpose(t, f0, semitones)[i] == 0.0
    ensures Quantise(t, Transpose(t, f0, semitones), melMin, melMax)[i] == 1
  {
    UnvoicedIsCodeOne(t, melMin, melMax);
  }

  lemma ScaleMonotone(x: real, a: real, b: real)
    requires x >= 0.0 && a <= b
    ensures x * a <= x * b
  {
  }

  /** Transposition keeps a non-negative frequency non-negative and is
      non-decreasing in the shift. */
  lemma TransposeMonotone(t: Transcendentals, f0: seq<real>, lower: real, higher: real, i: nat)
    requires Lawful(t) && lower <= higher && i < |f0| && f0[i] >= 0.0
    ensures 0.0 <= Transpose(t, f0, lower)[i] <= Transpose(t, f0, higher)[i]
  {
    var a, b := t.exp2(lower / 12.0), t.exp2(higher / 12.0);
    assert a <= b by {
      if lower < higher {
        assert lower / 12.0 < higher / 12.0;
      }
    }
    ScaleMonotone(f0[i], a, b);
    ScaleMonotone(f0[i], 0.0, a);
  }

  /** Raising the shift never lowers the code of a frame. */
  lemma HigherShiftNeverLowersCode(t: Transcendentals, f0: seq<real>, lower: real, higher: real,
                                   melMin: real, melMax: real, i: nat)
    requires Lawful(t) && melMin < melMax && lower <= higher && i < |f0| && f0[i] >= 0.0
    ensures Quantise(t, Transpose(t, f0, lower), melMin, melMax)[i]
            <= Quantise(t, Transpose(t, f0, higher), melMin, melMax)[i]
  {
    var x, y := Transpose(t, f0, lower)[i], Transpose(t, f0, higher)[i];
    TransposeMonotone(t, f0, lower, higher, i);
    CoarseCodeMonotone(t, x, y, melMin, melMax);
  }
}
