/** `VC.pipeline`: high-pass the input, plan cut points on its energy, pad it
    by the context margin, track its pitch, convert it chunk by chunk with the
    chunks overlapping by the margins, trim each chunk's margins, join, match
    loudness, and normalise the peak. */
module Pipeline {
  import opened Util
  import opened Numerics
  import ChunkPlanner
  import VC = VoiceConversion
  import F0Track
  import OutputStage

  /** The analysis rate and hop of the whole pipeline. */
  const SampleRate: nat := 16000
  const Window: nat := 160

  /** `signal.filtfilt` rejects inputs of at most 3 · max(len(a), len(b))
      samples; the order-5 Butterworth filter has 6 coefficients on each side. */
  const FilterPadLength: nat := 18

  // ---------------------------------------------------------------------------
  // Timing constants
  // ---------------------------------------------------------------------------

  /** The configuration in seconds: context margin, search half-width,
      distance between cut centres, and the length that triggers cutting. */
  datatype Config = Config(xPad: nat, xQuery: nat, xCenter: nat, xMax: nat)

  /** The same quantities in samples, as `VC.__init__` derives them. */
  datatype Vc = Vc(tgtSr: nat, tPad: nat, tPadTgt: nat, tPad2: nat, tQuery: nat, tCenter: nat, tMax: nat)

  lemma ScaledDuration(seconds: nat, rate: nat)
    ensures (rate * seconds) * SampleRate == (SampleRate * seconds) * rate
  {
  }

  function NewVc(tgtSr: nat, c: Config): (vc: Vc)
    ensures vc.tPad % Window == 0 && vc.tPad2 == 2 * vc.tPad && vc.tPad2 % Window == 0
    ensures vc.tPadTgt * SampleRate == vc.tPad * tgtSr
    ensures vc.tQuery <= vc.tCenter <==> c.xQuery <= c.xCenter
    ensures vc.tQuery > 0 <==> c.xQuery > 0
    ensures vc.tgtSr == tgtSr
  {
    ScaledDuration(c.xPad, tgtSr);
    Vc(tgtSr, SampleRate * c.xPad, tgtSr * c.xPad, SampleRate * c.xPad * 2,
       SampleRate * c.xQuery, SampleRate * c.xCenter, SampleRate * c.xMax)
  }

  /** The constants the pipeline relies on: a positive search half-width no
      wider than the centre spacing, and whole-frame margins. */
  predicate ValidVc(vc: Vc)
  {
    && 0 < vc.tQuery <= vc.tCenter
    && vc.tPad2 == 2 * vc.tPad
    && vc.tPad2 % Window == 0
  }

  // ---------------------------------------------------------------------------
  // Chunk windows
  // ---------------------------------------------------------------------------

  /** `t // 160 * 160`. */
  function Rounded(t: nat): (r: nat)
    ensures r % Window == 0 && r <= t < r + Window
  {
    t / Window * Window
  }

  /** One chunk of the padded input: from `start` to the rounded cut plus the
      margins and one hop, or to the end for the trailing chunk. */
  datatype ChunkWindow = ChunkWindow(start: nat, cut: Option<nat>)

  /** The windows the chunk loop visits: one per cut point and the trailing one. */
  function ChunkWindows(cuts: seq<nat>): (ws: seq<ChunkWindow>)
    ensures |ws| == |cuts| + 1
  {
    seq(|cuts| + 1, i requires 0 <= i <= |cuts| =>
      ChunkWindow(if i == 0 then 0 else Rounded(cuts[i - 1]), if i < |cuts| then Some(Rounded(cuts[i])) else None))
  }

  /** `audio_pad[s : t + t_pad2 + 160]`, or `audio_pad[t:]` for the trailing chunk. */
  function ChunkAudio(pad: seq<real>, w: ChunkWindow, tPad2: nat): seq<real>
  {
    if w.cut.Some? then PySlice(pad, w.start, w.cut.value + tPad2 + Window) else PySuffix(pad, w.start)
  }

  /** Frames `[s // 160, (t + t_pad2) // 160)` of a curve, or from `t // 160` on. */
  function ChunkFrames<T>(curve: seq<T>, w: ChunkWindow, tPad2: nat): seq<T>
  {
    if w.cut.Some? then PySlice(curve, w.start / Window, (w.cut.value + tPad2) / Window)
    else PySuffix(curve, w.start / Window)
  }

  function ChunkPitch(pitch: Option<VC.Pitch>, w: ChunkWindow, tPad2: nat): Option<VC.Pitch>
  {
    if pitch.None? then None
    else Some(VC.Pitch(ChunkFrames(pitch.value.codes, w, tPad2), ChunkFrames(pitch.value.f0, w, tPad2)))
  }

  /** The chunks start at 0, each chunk after the first starts at the rounded
      cut where the previous one's body ends, every boundary is a whole
      number of frames, and only the last chunk runs to the end. */
  lemma ChunkWindowsShareBoundaries(cuts: seq<nat>, i: nat)
    requires i <= |cuts|
    ensures ChunkWindows(cuts)[0].start == 0
    ensures ChunkWindows(cuts)[i].start % Window == 0
    ensures ChunkWindows(cuts)[i].cut.None? <==> i == |cuts|
    ensures i < |cuts| ==> ChunkWindows(cuts)[i].cut == Some(Rounded(cuts[i]))
                           && ChunkWindows(cuts)[i + 1].start == ChunkWindows(cuts)[i].cut.value
  {
  }

  /** Cut k + 1 is not below cut k. */
  predicate NextNotBelow(cuts: seq<nat>, k: nat)
    requires k + 1 < |cuts|
  {
    cuts[k] <= cuts[k + 1]
  }

  /** Cuts in non-decreasing order give chunks whose starts never go backwards. */
  lemma ChunkStartsNonDecreasing(cuts: seq<nat>, i: nat, j: nat)
    requires forall k :: 0 <= k < |cuts| - 1 ==> NextNotBelow(cuts, k)
    requires i <= j <= |cuts|
    ensures ChunkWindows(cuts)[i].start <= ChunkWindows(cuts)[j].start
  {
    var ws := ChunkWindows(cuts);
    if 0 < i {
      SortedPair(cuts, i - 1, j - 1);
      RoundedMonotone(cuts[i - 1], cuts[j - 1]);
      assert ws[i].start == Rounded(cuts[i - 1]);
      assert ws[j].start == Rounded(cuts[j - 1]);
    } else {
      assert ws[i].start == 0;
    }
  }

  /** In a list whose neighbours are in order, any two entries are. */
  lemma {:induction false} SortedPair(cuts: seq<nat>, a: nat, b: nat)
    requires forall k :: 0 <= k < |cuts| - 1 ==> NextNotBelow(cuts, k)
    requires a <= b < |cuts|
    ensures cuts[a] <= cuts[b]
    decreases b - a
  {
    if a < b {
      SortedPair(cuts, a, b - 1);
      assert NextNotBelow(cuts, b - 1);
    }
  }

  lemma RoundedMonotone(a: nat, b: nat)
    requires a <= b
    ensures Rounded(a) <= Rounded(b)
  {
  }

  /** Inside the padded input, a chunk's pitch slice has exactly one frame
      per hop of its audio except the final hop: the curves are cut on the
      same frame grid as the audio. */
  lemma ChunkPitchCoversChunk<T>(pad: seq<real>, curve: seq<T>, w: ChunkWindow, tPad2: nat)
    requires w.cut.Some? && w.start % Window == 0 && w.cut.value % Window == 0 && tPad2 % Window == 0
    requires w.start <= w.cut.value
    requires w.cut.value + tPad2 + Window <= |pad| && (w.cut.value + tPad2) / Window <= |curve|
    ensures |ChunkFrames(curve, w, tPad2)| * Window + Window == |ChunkAudio(pad, w, tPad2)|
  {
    var s, e := w.start / Window, (w.cut.value + tPad2) / Window;
    assert s * Window == w.start && e * Window == w.cut.value + tPad2;
    if s < e {
      assert (e - s) * Window == e * Window - s * Window;
    } else {
      assert w.start == w.cut.value + tPad2;
    }
  }

  /** Without cut points there is a single chunk: the whole padded input
      with the whole pitch track. */
  lemma NoCutsSingleChunk(pad: seq<real>, pitch: Option<VC.Pitch>, tPad2: nat)
    ensures ChunkWindows([]) == [ChunkWindow(0, None)]
    ensures ChunkAudio(pad, ChunkWindow(0, None), tPad2) == pad
    ensures ChunkPitch(pitch, ChunkWindow(0, None), tPad2) == pitch
  {
    assert ChunkWindows([])[0] == ChunkWindow(0, None);
  }

  /** A signal whose 80-sample reflect padding is not longer than `t_max`
      gets no cut points and is converted as one chunk. */
  lemma ShortSignalIsOneChunk(x: seq<real>, vc: Vc)
    requires |x| >= 1 && ValidVc(vc) && |x| + Window <= vc.tMax
    ensures ChunkWindows(ChunkPlanner.PlannedCuts(x, vc.tMax, vc.tCenter, vc.tQuery)) == [ChunkWindow(0, None)]
  {
    assert |ChunkPlanner.ReflectPad(x, Window / 2)| == |x| + Window;
    assert ChunkPlanner.PlannedCuts(x, vc.tMax, vc.tCenter, vc.tQuery) == [];
    NoCutsSingleChunk([], None, vc.tPad2);
  }

  /** The chunks of the planned cut points start in order, whatever the
      overlap of the search windows. */
  lemma PlannedChunksInOrder(x: seq<real>, vc: Vc, i: nat, j: nat)
    requires |x| >= 1 && ValidVc(vc)
    requires i <= j <= |ChunkPlanner.PlannedCuts(x, vc.tMax, vc.tCenter, vc.tQuery)|
    ensures var ws := ChunkWindows(ChunkPlanner.PlannedCuts(x, vc.tMax, vc.tCenter, vc.tQuery));
            ws[i].start <= ws[j].start
  {
    var cuts := ChunkPlanner.PlannedCuts(x, vc.tMax, vc.tCenter, vc.tQuery);
    forall k | 0 <= k < |cuts| - 1
      ensures NextNotBelow(cuts, k)
    {
      ChunkPlanner.CutsNonDecreasing(x, vc.tMax, vc.tCenter, vc.tQuery, k);
    }
    ChunkStartsNonDecreasing(cuts, i, j);
  }

  // ---------------------------------------------------------------------------
  // The whole conversion
  // ---------------------------------------------------------------------------

  /** The arguments of one `pipeline` call that are plain values. */
  datatype Request = Request(
    sid: int, pitch: F0Track.PitchSettings, indexRate: real, pitchGuidance: bool,
    volumeEnvelope: real, isV1: bool, protect: real)

  /** Everything the pipeline calls but does not define: transcendental
      functions, the high-pass filter, the networks, the pitch estimators and
      the loudness envelope. */
  datatype Externals = Externals(
    t: Transcendentals,
    highpass: seq<real> -> seq<real>,
    nets: VC.Networks,
    f0: F0Track.PitchOracles,
    envelope: OutputStage.EnvelopeOf)

  /** The filter keeps the length, the envelope has the requested length, and
      the transcendental functions obey their laws. */
  ghost predicate Sound(ext: Externals)
  {
    && Lawful(ext.t)
    && (forall s :: |ext.highpass(s)| == |s|)
    && OutputStage.EnvelopeShaped(ext.envelope)
  }

  /** The index the pipeline searches: loaded only when a path is given, the
      file exists and the rate is non-zero; a failed read (`read` is None)
      is reported and leaves no index. */
  function LoadedIndex(fileIndex: string, fileExists: bool, read: Option<VC.Index>, indexRate: real): (r: Option<VC.Index>)
    ensures r.Some? <==> fileIndex != "" && fileExists && indexRate != 0.0 && read.Some?
    ensures r.Some? ==> r == read
  {
    if fileIndex != "" && fileExists && indexRate != 0.0 then read else None
  }

  /** The pitch track of the padded input, cut to its frame count, or none
      without pitch guidance. */
  function PitchTrack(ext: Externals, req: Request, pad: seq<real>): Result<Option<VC.Pitch>, VC.ConversionError>
    requires Sound(ext)
  {
    if !req.pitchGuidance then Ok(None)
    else
      var pLen := |pad| / Window;
      var p :- F0Track.GetF0(ext.t, ext.f0, pad, pLen, req.pitch);
      Ok(Some(VC.TruncatePitch(p, pLen)))
  }

  /** One chunk converted and trimmed. */
  function ConvertWindow(ext: Externals, vc: Vc, req: Request, index: Option<VC.Index>,
                         pad: seq<real>, pitch: Option<VC.Pitch>, w: ChunkWindow): Result<seq<real>, VC.ConversionError>
  {
    var out :- VC.ConvertChunk(ext.nets, req.sid, ChunkAudio(pad, w, vc.tPad2), ChunkPitch(pitch, w, vc.tPad2),
                               index, req.indexRate, req.isV1, req.protect);
    Ok(OutputStage.Trim(out, vc.tPadTgt))
  }

  /** The trimmed outputs of the windows in order; the first failure wins. */
  function ConvertWindows(ext: Externals, vc: Vc, req: Request, index: Option<VC.Index>,
                          pad: seq<real>, pitch: Option<VC.Pitch>, ws: seq<ChunkWindow>): (r: Result<seq<seq<real>>, VC.ConversionError>)
    ensures r.Ok? ==> |r.value| == |ws|
  {
    if ws == [] then Ok([])
    else
      var done :- ConvertWindows(ext, vc, req, index, pad, pitch, ws[..|ws| - 1]);
      var out :- ConvertWindow(ext, vc, req, index, pad, pitch, ws[|ws| - 1]);
      Ok(done + [out])
  }

  /** Loudness matching when asked for, then the peak ceiling; `np.max` of
      an empty waveform raises. */
  function Finish(ext: Externals, vc: Vc, req: Request, filtered: seq<real>, joined: seq<real>): (r: Result<seq<real>, VC.ConversionError>)
    requires Sound(ext)
    ensures r.Ok? ==> forall i :: 0 <= i < |r.value| ==> Abs(r.value[i]) <= OutputStage.Ceiling
  {
    var shaped := if req.volumeEnvelope != 1.0
                  then OutputStage.ChangeRms(ext.t, ext.envelope, filtered, joined, vc.tgtSr, req.volumeEnvelope)
                  else joined;
    if shaped == [] then Err(VC.EmptyOutput)
    else
      OutputStage.PeakNormalisedBounds(shaped);
      Ok(OutputStage.PeakNormalised(shaped))
  }

  /** `VC.pipeline` from the raw input to the output waveform. */
  function Convert(ext: Externals, vc: Vc, req: Request, index: Option<VC.Index>, audio: seq<real>): (r: Result<seq<real>, VC.ConversionError>)
    requires Sound(ext) && ValidVc(vc)
    ensures r.Ok? ==> forall i :: 0 <= i < |r.value| ==> Abs(r.value[i]) <= OutputStage.Ceiling
  {
    if |audio| <= FilterPadLength then Err(VC.InputTooShort)
    else
      var x := ext.highpass(audio);
      var cuts := ChunkPlanner.PlannedCuts(x, vc.tMax, vc.tCenter, vc.tQuery);
      var pad := ChunkPlanner.ReflectPad(x, vc.tPad);
      var pitch :- PitchTrack(ext, req, pad);
      var outs :- ConvertWindows(ext, vc, req, index, pad, pitch, ChunkWindows(cuts));
      Finish(ext, vc, req, x, Flatten(outs))
  }

  /** Inputs too short for the high-pass filter raise before anything else. */
  lemma ShortInputRaises(ext: Externals, vc: Vc, req: Request, index: Option<VC.Index>, audio: seq<real>)
    requires Sound(ext) && ValidVc(vc) && |audio| <= FilterPadLength
    ensures Convert(ext, vc, req, index, audio) == Err(VC.InputTooShort)
  {
  }

  /** At rate 0 the index is never consulted: the result is the same with
      any index or none. */
  lemma {:induction false} WindowsIgnoreIndexAtRateZero(ext: Externals, vc: Vc, req: Request, index: Option<VC.Index>,
                                                        pad: seq<real>, pitch: Option<VC.Pitch>, ws: seq<ChunkWindow>)
    requires req.indexRate == 0.0
    ensures ConvertWindows(ext, vc, req, index, pad, pitch, ws) == ConvertWindows(ext, vc, req, None, pad, pitch, ws)
  {
    if ws != [] {
      WindowsIgnoreIndexAtRateZero(ext, vc, req, index, pad, pitch, ws[..|ws| - 1]);
    }
  }

  lemma IndexIgnoredAtRateZero(ext: Externals, vc: Vc, req: Request, index: Option<VC.Index>, audio: seq<real>)
    requires Sound(ext) && ValidVc(vc) && req.indexRate == 0.0
    ensures Convert(ext, vc, req, index, audio) == Convert(ext, vc, req, None, audio)
  {
    if |audio| > FilterPadLength {
      var x := ext.highpass(audio);
      var cuts := ChunkPlanner.PlannedCuts(x, vc.tMax, vc.tCenter, vc.tQuery);
      var pad := ChunkPlanner.ReflectPad(x, vc.tPad);
      var pitch := PitchTrack(ext, req, pad);
      if pitch.Ok? {
        WindowsIgnoreIndexAtRateZero(ext, vc, req, index, pad, pitch.value, ChunkWindows(cuts));
      }
    }
  }

  /** The index selection joined to the conversion: running on the index
      `LoadedIndex` selects gives the result of running on the index as read
      whenever a path is given and the file exists, whatever the rate (at
      rate 0 the read index is dropped, which changes nothing), and the
      result without an index otherwise. */
  lemma ConvertWithLoadedIndex(ext: Externals, vc: Vc, req: Request, fileIndex: string, fileExists: bool,
                               read: Option<VC.Index>, audio: seq<real>)
    requires Sound(ext) && ValidVc(vc)
    ensures Convert(ext, vc, req, LoadedIndex(fileIndex, fileExists, read, req.indexRate), audio)
            == Convert(ext, vc, req, if fileIndex != "" && fileExists then read else None, audio)
  {
    if fileIndex != "" && fileExists && req.indexRate == 0.0 {
      IndexIgnoredAtRateZero(ext, vc, req, read, audio);
    }
  }


  /** A failure in the first i windows is the failure of the whole run. */
  lemma {:induction false} EarlyFailureFinal(ext: Externals, vc: Vc, req: Request, index: Option<VC.Index>,
                                             pad: seq<real>, pitch: Option<VC.Pitch>, ws: seq<ChunkWindow>, i: nat)
    requires i <= |ws| && ConvertWindows(ext, vc, req, index, pad, pitch, ws[..i]).Err?
    ensures ConvertWindows(ext, vc, req, index, pad, pitch, ws) == ConvertWindows(ext, vc, req, index, pad, pitch, ws[..i])
  {
    if i < |ws| {
      assert ws[..|ws| - 1][..i] == ws[..i];
      EarlyFailureFinal(ext, vc, req, index, pad, pitch, ws[..|ws| - 1], i);
      assert ws[..|ws|] == ws;
    } else {
      assert ws[..i] == ws;
    }
  }

  /** The imperative pipeline: the cut points, the pitch track, the chunk
      loop, the join, and the in-place peak normalisation. */
  method RunPipeline(ext: Externals, vc: Vc, req: Request, index: Option<VC.Index>, audio: seq<real>)
    returns (r: Result<seq<real>, VC.ConversionError>)
    requires Sound(ext) && ValidVc(vc)
    ensures r == Convert(ext, vc, req, index, audio)
  {
    if |audio| <= FilterPadLength {
      return Err(VC.InputTooShort);
    }
    var x := ext.highpass(audio);
    var cuts := ChunkPlanner.PlanCuts(x, vc.tMax, vc.tCenter, vc.tQuery);
    var pad := ChunkPlanner.ReflectPad(x, vc.tPad);
    var pitch := PitchTrack(ext, req, pad);
    if pitch.Err? {
      return Err(pitch.error);
    }
    var outs := RunChunks(ext, vc, req, index, pad, pitch.value, cuts);
    if outs.Err? {
      return Err(outs.error);
    }
    r := FinishInPlace(ext, vc, req, x, Flatten(outs.value));
  }

  /** The chunk loop, carrying the start `s` from one rounded cut to the
      next, then the trailing chunk from the last rounded cut (or from 0
      without cuts); the first failing chunk ends the run. */
  method RunChunks(ext: Externals, vc: Vc, req: Request, index: Option<VC.Index>,
                   pad: seq<real>, pitch: Option<VC.Pitch>, cuts: seq<nat>)
    returns (r: Result<seq<seq<real>>, VC.ConversionError>)
    ensures r == ConvertWindows(ext, vc, req, index, pad, pitch, ChunkWindows(cuts))
  {
    ghost var ws := ChunkWindows(cuts);
    var s: nat := 0;
    var outs: seq<seq<real>> := [];
    for i := 0 to |cuts|
      invariant s == ws[i].start
      invariant ConvertWindows(ext, vc, req, index, pad, pitch, ws[..i]) == Ok(outs)
    {
      var t := Rounded(cuts[i]);
      ChunkWindowsShareBoundaries(cuts, i);
      var out := ConvertWindow(ext, vc, req, index, pad, pitch, ChunkWindow(s, Some(t)));
      WindowsStep(ext, vc, req, index, pad, pitch, ws, i);
      if out.Err? {
        EarlyFailureFinal(ext, vc, req, index, pad, pitch, ws, i + 1);
        return Err(out.error);
      }
      outs := outs + [out.value];
      s := t;
    }
    ChunkWindowsShareBoundaries(cuts, |cuts|);
    var last := ConvertWindow(ext, vc, req, index, pad, pitch, ChunkWindow(s, None));
    WindowsStep(ext, vc, req, index, pad, pitch, ws, |cuts|);
    assert ws[..|cuts| + 1] == ws;
    if last.Err? {
      return Err(last.error);
    }
    r := Ok(outs + [last.value]);
  }

  /** One more window extends a successful prefix of the run, or ends it. */
  lemma WindowsStep(ext: Externals, vc: Vc, req: Request, index: Option<VC.Index>,
                    pad: seq<real>, pitch: Option<VC.Pitch>, ws: seq<ChunkWindow>, i: nat)
    requires i < |ws|
    ensures var done, out := ConvertWindows(ext, vc, req, index, pad, pitch, ws[..i]),
                             ConvertWindow(ext, vc, req, index, pad, pitch, ws[i]);
            done.Ok? ==> ConvertWindows(ext, vc, req, index, pad, pitch, ws[..i + 1])
                         == if out.Ok? then Ok(done.value + [out.value]) else Err(out.error)
  {
    assert ws[..i + 1][..i] == ws[..i];
  }

  /** Loudness matching when asked for, then `audio_opt /= audio_max` on an
      array holding the joined output. */
  method FinishInPlace(ext: Externals, vc: Vc, req: Request, filtered: seq<real>, joined: seq<real>)
    returns (r: Result<seq<real>, VC.ConversionError>)
    requires Sound(ext)
    ensures r == Finish(ext, vc, req, filtered, joined)
  {
    var shaped := if req.volumeEnvelope != 1.0
                  then OutputStage.ChangeRms(ext.t, ext.envelope, filtered, joined, vc.tgtSr, req.volumeEnvelope)
                  else joined;
    if shaped == [] {
      return Err(VC.EmptyOutput);
    }
    var a := new real[|shaped|](k requires 0 <= k < |shaped| => shaped[k]);
    assert a[..] == shaped;
    OutputStage.NormalisePeak(a);
    r := Ok(a[..]);
  }
}
