/** The feature stage of one chunk conversion (`VC.vc`): content features
    from the external encoder are optionally blended toward the target voice
    by nearest-neighbour retrieval, upsampled ×2 to the pitch frame rate,
    aligned in frame count with the pitch curves, and protected in unvoiced
    frames before the external vocoder turns them into audio. */
module VoiceConversion {
  import opened Util

  /** Analysis hop in samples at 16 kHz. */
  const Hop: nat := 160

  /** Number of neighbours asked of the index per frame. */
  const Neighbours: nat := 8

  type Frame = seq<real>
  type Frames = seq<Frame>

  /** The failures one conversion can end in. */
  datatype ConversionError =
    | InputTooShort         // the high-pass filter's minimum length is not met
    | F0MethodUnrecognised  // `ValueError` from get_f0
    | IndexAnswerMalformed  // a neighbour row, dimension or distance the blend cannot use
    | FrameMismatch         // protection weights and features disagree in frame count
    | EmptyOutput           // the maximum of an empty output array

  /** Element-wise `w · a + (1 - w) · b`. */
  function Mix(w: real, a: Frame, b: Frame): (r: Frame)
    requires |a| == |b|
    ensures |r| == |a|
  {
    seq(|a|, k requires 0 <= k < |a| => w * a[k] + (1.0 - w) * b[k])
  }

  // ---------------------------------------------------------------------------
  // Retrieval blend
  // ---------------------------------------------------------------------------

  /** One answer of the index: a distance and the row of the stored features. */
  datatype Neighbour = Neighbour(score: real, row: nat)

  /** A loaded voice-print index: its search and all its stored vectors
      (`index.search`, `index.reconstruct_n(0, ntotal)`). */
  datatype Index = Index(search: Frame -> seq<Neighbour>, stored: Frames)

  /** The index answers a frame with 8 neighbours at positive distance, each
      naming a stored vector of the frame's dimension. */
  predicate AnswersFrame(index: Index, f: Frame)
  {
    var ns := index.search(f);
    && |ns| == Neighbours
    && forall j :: 0 <= j < |ns| ==>
         ns[j].score > 0.0 && ns[j].row < |index.stored| && |index.stored[ns[j].row]| == |f|
  }

  predicate AnswersAll(index: Index, feats: Frames)
  {
    forall i :: 0 <= i < |feats| ==> AnswersFrame(index, feats[i])
  }

  /** `np.square(1 / score)`. */
  function InverseSquare(score: real): (r: real)
    requires score > 0.0
    ensures r > 0.0
  {
    var q := 1.0 / score;
    assert q > 0.0;
    q * q
  }

  /** The normalised inverse-square weights of one frame's neighbours. */
  function Weights(ns: seq<Neighbour>): (w: seq<real>)
    requires ns != [] && forall j :: 0 <= j < |ns| ==> ns[j].score > 0.0
    ensures |w| == |ns|
    ensures forall j :: 0 <= j < |w| ==> w[j] > 0.0
    ensures Sum(w) == 1.0
  {
    var raw := seq(|ns|, j requires 0 <= j < |ns| => InverseSquare(ns[j].score));
    SumPositive(raw);
    Normalise(raw);
    Scale(raw, 1.0 / Sum(raw))
  }

  /** Dividing positive values by their (positive) total keeps them
      positive and makes them sum to 1. */
  lemma Normalise(raw: seq<real>)
    requires Sum(raw) > 0.0 && forall j :: 0 <= j < |raw| ==> raw[j] > 0.0
    ensures var w := Scale(raw, 1.0 / Sum(raw));
            && (forall j :: 0 <= j < |w| ==> w[j] > 0.0)
            && Sum(w) == 1.0
  {
    var total := Sum(raw);
    var c := 1.0 / total;
    assert c > 0.0;
    SumScale(raw, c);
    assert total * c == 1.0;
    forall j | 0 <= j < |raw|
      ensures raw[j] * c > 0.0
    {
      PositiveProduct(raw[j], c);
    }
  }

  lemma PositiveProduct(a: real, b: real)
    requires a > 0.0 && b > 0.0
    ensures a * b > 0.0
  {
  }

  /** Coordinate k of the weighted combination of the neighbours' vectors. */
  function Combined(index: Index, f: Frame, k: nat): real
    requires AnswersFrame(index, f) && k < |f|
  {
    var ns := index.search(f);
    Sum(WeightedTerms(index, ns, Weights(ns), k))
  }

  /** `weight[j] * big_npy[ix[j]][k]` for every neighbour j. */
  function WeightedTerms(index: Index, ns: seq<Neighbour>, w: seq<real>, k: nat): (terms: seq<real>)
    requires |w| == |ns|
    requires forall j :: 0 <= j < |ns| ==> ns[j].row < |index.stored| && k < |index.stored[ns[j].row]|
    ensures |terms| == |ns|
  {
    seq(|ns|, j requires 0 <= j < |ns| => w[j] * index.stored[ns[j].row][k])
  }

  /** The retrieved vector for one frame. */
  function Retrieved(index: Index, f: Frame): (r: Frame)
    requires AnswersFrame(index, f)
    ensures |r| == |f|
  {
    seq(|f|, k requires 0 <= k < |f| => Combined(index, f, k))
  }

  /** `rate · retrieved + (1 - rate) · feats`, frame by frame. */
  function Retrieve(feats: Frames, index: Index, rate: real): (r: Frames)
    requires AnswersAll(index, feats)
    ensures |r| == |feats|
    ensures forall i :: 0 <= i < |r| ==> |r[i]| == |feats[i]|
  {
    seq(|feats|, i requires 0 <= i < |feats| => Mix(rate, Retrieved(index, feats[i]), feats[i]))
  }

  /** The retrieval step is skipped without an index or with rate 0. */
  function MaybeRetrieve(feats: Frames, index: Option<Index>, rate: real): (r: Frames)
    requires index.Some? && rate != 0.0 ==> AnswersAll(index.value, feats)
  {
    if index.Some? && rate != 0.0 then Retrieve(feats, index.value, rate) else feats
  }

  /** With no index or a zero rate the features pass through untouched. */
  lemma NoRetrievalIsIdentity(feats: Frames, index: Option<Index>, rate: real)
    requires index.None? || rate == 0.0
    ensures MaybeRetrieve(feats, index, rate) == feats
  {
  }

  /** Blending at rate 0 is the identity, so the gate's rate test changes nothing. */
  lemma RateZeroIsIdentity(feats: Frames, index: Index)
    requires AnswersAll(index, feats)
    ensures Retrieve(feats, index, 0.0) == feats
  {
    forall i | 0 <= i < |feats|
      ensures Retrieve(feats, index, 0.0)[i] == feats[i]
    {
      assert Mix(0.0, Retrieved(index, feats[i]), feats[i]) == feats[i];
    }
  }

  /** All neighbours of f name the stored vector v. */
  ghost predicate AllNeighboursAre(index: Index, f: Frame, v: Frame)
  {
    var ns := index.search(f);
    forall j :: 0 <= j < |ns| ==> ns[j].row < |index.stored| && index.stored[ns[j].row] == v
  }

  /** One coordinate of the weighted combination of copies of v is v's. */
  lemma CombinedOfIdentical(index: Index, f: Frame, v: Frame, k: nat)
    requires AnswersFrame(index, f) && k < |f| && AllNeighboursAre(index, f, v)
    ensures k < |v| && Combined(index, f, k) == v[k]
  {
    var ns := index.search(f);
    var w := Weights(ns);
    assert index.stored[ns[0].row] == v;
    var terms := WeightedTerms(index, ns, w, k);
    var scaled := Scale(w, v[k]);
    forall j | 0 <= j < |ns|
      ensures terms[j] == scaled[j]
    {
      assert index.stored[ns[j].row] == v;
    }
    assert terms == scaled;
    SumScale(w, v[k]);
    assert Sum(w) * v[k] == v[k];
  }

  /** When every neighbour of a frame is the same stored vector v, retrieval
      returns v exactly (the weights sum to 1), and the blend moves the frame
      `rate` of the way to v. */
  lemma IdenticalNeighboursGiveThatVector(index: Index, feats: Frames, rate: real, i: nat, v: Frame)
    requires AnswersAll(index, feats) && i < |feats|
    requires AllNeighboursAre(index, feats[i], v)
    ensures Retrieved(index, feats[i]) == v
    ensures Retrieve(feats, index, rate)[i] == Mix(rate, v, feats[i])
  {
    var f := feats[i];
    assert AnswersFrame(index, f);
    assert |v| == |f| by {
      assert index.stored[index.search(f)[0].row] == v;
    }
    forall k | 0 <= k < |f|
      ensures Retrieved(index, f)[k] == v[k]
    {
      CombinedOfIdentical(index, f, v, k);
    }
  }

  // ---------------------------------------------------------------------------
  // Upsampling and alignment
  // ---------------------------------------------------------------------------

  /** `F.interpolate(..., scale_factor=2)` in nearest mode along time: output
      frame i is input frame i / 2. */
  function Upsample2(feats: Frames): (r: Frames)
    ensures |r| == 2 * |feats|
  {
    seq(2 * |feats|, i requires 0 <= i < 2 * |feats| => feats[i / 2])
  }

  /** Every other frame, starting with the first. */
  function EvenFrames(feats: Frames): (r: Frames)
  {
    seq(|feats| / 2, i requires 0 <= i < |feats| / 2 => feats[2 * i])
  }

  /** Upsampling repeats each frame exactly twice: both copies equal the
      original, and dropping every second frame recovers the input. */
  lemma UpsampleRepeatsFrames(feats: Frames)
    ensures EvenFrames(Upsample2(feats)) == feats
    ensures forall i :: 0 <= i < |feats| ==> Upsample2(feats)[2 * i] == Upsample2(feats)[2 * i + 1] == feats[i]
  {
    var up := Upsample2(feats);
    forall i | 0 <= i < |feats|
      ensures up[2 * i] == up[2 * i + 1] == feats[i]
    {
      assert (2 * i) / 2 == i && (2 * i + 1) / 2 == i;
    }
  }

  /** The pitch inputs of one chunk: the coarse codes and the F0 curve. */
  datatype Pitch = Pitch(codes: seq<int>, f0: seq<real>)

  /** `pitch[:, :n]` and `pitchf[:, :n]`. */
  function TruncatePitch(p: Pitch, n: nat): Pitch
  {
    Pitch(PySlice(p.codes, 0, n), PySlice(p.f0, 0, n))
  }

  /** `p_len = len(audio0) // 160`, lowered to the feature frame count when
      there are fewer feature frames, in which case the pitch is cut to it. */
  function Align(audioLen: nat, featFrames: nat, pitch: Option<Pitch>): (nat, Option<Pitch>)
  {
    var pLen := audioLen / Hop;
    if featFrames < pLen then
      (featFrames, if pitch.Some? then Some(TruncatePitch(pitch.value, featFrames)) else None)
    else (pLen, pitch)
  }

  /** The frame count handed to the vocoder is the smaller of the audio's
      frame count and the feature frame count; pitch curves are cut to it
      only when the features are the shorter, and are never lengthened. */
  lemma AlignTakesMinimum(audioLen: nat, featFrames: nat, pitch: Option<Pitch>)
    ensures Align(audioLen, featFrames, pitch).0 == Min(audioLen / Hop, featFrames)
    ensures Align(audioLen, featFrames, pitch).1.Some? == pitch.Some?
    ensures pitch.Some? && featFrames < audioLen / Hop ==>
              var p := Align(audioLen, featFrames, pitch).1.value;
              p.f0 == pitch.value.f0[..Min(featFrames, |pitch.value.f0|)]
              && p.codes == pitch.value.codes[..Min(featFrames, |pitch.value.codes|)]
    ensures featFrames >= audioLen / Hop ==> Align(audioLen, featFrames, pitch).1 == pitch
  {
  }

  // ---------------------------------------------------------------------------
  // Consonant protection
  // ---------------------------------------------------------------------------

  /** `pitchff[pitchf > 0] = 1; pitchff[pitchf < 1] = protect`: the second
      assignment wins, so frames below 1 Hz get `protect`, all others 1. */
  function ProtectWeight(pf: real, protect: real): (w: real)
  {
    if pf < 1.0 then protect else 1.0
  }

  /** `feats * pitchff + feats0 * (1 - pitchff)`. */
  function Protect(feats: Frames, feats0: Frames, pitchf: seq<real>, protect: real): (r: Frames)
    requires |feats| == |feats0| == |pitchf|
    requires forall i :: 0 <= i < |feats| ==> |feats[i]| == |feats0[i]|
    ensures |r| == |feats|
  {
    seq(|feats|, i requires 0 <= i < |feats| => Mix(ProtectWeight(pitchf[i], protect), feats[i], feats0[i]))
  }

  /** Voiced frames (F0 of at least 1 Hz) keep the blended features; unvoiced
      frames take `protect` of them and the rest from the unretrieved
      features, so with protect = 0 they are exactly the unretrieved ones. */
  lemma ProtectFrames(feats: Frames, feats0: Frames, pitchf: seq<real>, protect: real, i: nat)
    requires |feats| == |feats0| == |pitchf| && i < |feats|
    requires forall j :: 0 <= j < |feats| ==> |feats[j]| == |feats0[j]|
    ensures pitchf[i] >= 1.0 ==> Protect(feats, feats0, pitchf, protect)[i] == feats[i]
    ensures pitchf[i] < 1.0 ==> Protect(feats, feats0, pitchf, protect)[i] == Mix(protect, feats[i], feats0[i])
    ensures pitchf[i] < 1.0 && protect == 0.0 ==> Protect(feats, feats0, pitchf, protect)[i] == feats0[i]
  {
    var r := Protect(feats, feats0, pitchf, protect);
    if pitchf[i] >= 1.0 {
      assert r[i] == Mix(1.0, feats[i], feats0[i]);
      assert Mix(1.0, feats[i], feats0[i]) == feats[i];
    } else if protect == 0.0 {
      assert Mix(0.0, feats[i], feats0[i]) == feats0[i];
    }
  }

  // ---------------------------------------------------------------------------
  // One chunk
  // ---------------------------------------------------------------------------

  /** The external networks: the content encoder (`extract_features`, output
      layer 9 with the final projection for v1 models, layer 12 otherwise)
      and the vocoder (`net_g.infer`, given features, frame count, optional
      pitch and the speaker id). */
  datatype Networks = Networks(
    encode: (seq<real>, bool) -> Frames,
    infer: (Frames, nat, Option<Pitch>, int) -> seq<real>)

  /** What the vocoder is called with for one chunk, or the failure on the way. */
  datatype VocoderInput = VocoderInput(feats: Frames, pLen: nat, pitch: Option<Pitch>)

  function PrepareVocoderInput(feats: Frames, audioLen: nat, pitch: Option<Pitch>, index: Option<Index>,
                               indexRate: real, protect: real): (r: Result<VocoderInput, ConversionError>)
  {
    var protecting := protect < 0.5 && pitch.Some?;
    if index.Some? && indexRate != 0.0 && !AnswersAll(index.value, feats) then Err(IndexAnswerMalformed) else
    var blended := MaybeRetrieve(feats, index, indexRate);
    var up := Upsample2(blended);
    var up0 := Upsample2(feats);
    var (pLen, aligned) := Align(audioLen, |up|, pitch);
    if !protecting then Ok(VocoderInput(up, pLen, aligned))
    else if |aligned.value.f0| != |up| then Err(FrameMismatch)
    else
      assert forall i :: 0 <= i < |up| ==> |up[i]| == |up0[i]| by {
        forall i | 0 <= i < |up| ensures |up[i]| == |up0[i]| {
          assert up[i] == blended[i / 2] && up0[i] == feats[i / 2];
        }
      }
      Ok(VocoderInput(Protect(up, up0, aligned.value.f0, protect), pLen, aligned))
  }

  /** With protect at or above 0.5 (or no pitch) the vocoder gets the blended,
      upsampled features unchanged; and the frame count is the aligned one. */
  lemma ProtectOffPassesFeatures(feats: Frames, audioLen: nat, pitch: Option<Pitch>, index: Option<Index>,
                                 indexRate: real, protect: real)
    requires index.Some? && indexRate != 0.0 ==> AnswersAll(index.value, feats)
    requires protect >= 0.5 || pitch.None?
    ensures var r := PrepareVocoderInput(feats, audioLen, pitch, index, indexRate, protect);
            && r.Ok?
            && r.value.feats == Upsample2(MaybeRetrieve(feats, index, indexRate))
            && r.value.pLen == Min(audioLen / Hop, 2 * |feats|)
  {
    AlignTakesMinimum(audioLen, 2 * |feats|, pitch);
  }

  /** With protection on, the call fails exactly when the aligned F0 curve and
      the upsampled features differ in frame count; otherwise voiced frames
      carry the blended features and unvoiced ones the protected mix. */
  lemma ProtectOnMixesFrames(feats: Frames, audioLen: nat, pitch: Option<Pitch>, index: Option<Index>,
                             indexRate: real, protect: real, i: nat)
    requires index.Some? && indexRate != 0.0 ==> AnswersAll(index.value, feats)
    requires protect < 0.5 && pitch.Some?
    ensures var r := PrepareVocoderInput(feats, audioLen, pitch, index, indexRate, protect);
            var up := Upsample2(MaybeRetrieve(feats, index, indexRate));
            var pf := Align(audioLen, |up|, pitch).1.value.f0;
            && (r.Err? <==> |pf| != |up|)
            && (r.Ok? && i < |up| && pf[i] >= 1.0 ==> r.value.feats[i] == up[i])
            && (r.Ok? && i < |up| && pf[i] < 1.0 ==> r.value.feats[i] == Mix(protect, up[i], Upsample2(feats)[i]))
  {
    var r := PrepareVocoderInput(feats, audioLen, pitch, index, indexRate, protect);
    var up := Upsample2(MaybeRetrieve(feats, index, indexRate));
    var pf := Align(audioLen, |up|, pitch).1.value.f0;
    if r.Ok? && i < |up| {
      ProtectFrames(up, Upsample2(feats), pf, protect, i);
    }
  }

  /** `VC.vc`: one chunk of 16 kHz audio to target-rate audio. */
  function ConvertChunk(nets: Networks, sid: int, audio0: seq<real>, pitch: Option<Pitch>, index: Option<Index>,
                        indexRate: real, isV1: bool, protect: real): Result<seq<real>, ConversionError>
  {
    var input :- PrepareVocoderInput(nets.encode(audio0, isV1), |audio0|, pitch, index, indexRate, protect);
    Ok(nets.infer(input.feats, input.pLen, input.pitch, sid))
  }

  /** At index rate 0 a chunk converts the same with or without an index:
      the retrieval is skipped and nothing the index answers is looked at. */
  lemma ChunkIgnoresIndexAtRateZero(nets: Networks, sid: int, audio0: seq<real>, pitch: Option<Pitch>, index: Option<Index>,
                                    isV1: bool, protect: real)
    ensures ConvertChunk(nets, sid, audio0, pitch, index, 0.0, isV1, protect)
            == ConvertChunk(nets, sid, audio0, pitch, None, 0.0, isV1, protect)
  {
    var feats := nets.encode(audio0, isV1);
    NoRetrievalIsIdentity(feats, index, 0.0);
    NoRetrievalIsIdentity(feats, None, 0.0);
  }
}
