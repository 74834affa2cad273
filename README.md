# Nooshell-RVC voice conversion: a verified model of the bookkeeping around the networks

This project models, in Dafny, the logic of the Nooshell-RVC voice
conversion tool that surrounds its neural networks, and proves what that
logic promises.

- **Conversion pipeline** (`VC` in `rvc/infer/pipeline.py`):
  - the timing constants;
  - the cut-point search on the running energy of the high-passed input;
  - the chunk schedule, with overlapping audio and pitch slices and a trailing chunk;
  - the F0 track and its coarse pitch codes;
  - the nearest-neighbour feature blend, the ×2 upsampling, the frame alignment and the consonant protection;
  - the trimming of each chunk's margins, the loudness matching and the peak normalisation.
- **RMVPE predictor** (`rvc/lib/predictors/RMVPE.py`):
  - the cents table;
  - the chunked `mel2hidden`;
  - the local weighted average of cents around the salience peak, and `decode`;
  - the F0 range mask;
  - the channel and size arithmetic of the U-Net constructors.
- **Training preprocessing** (`rvc/train/preprocess/preparing_data.py`):
  - the coarse F0 quantiser;
  - the choice of F0 back-end;
  - the assembly of `filelist.txt`.
- **Web front end** (`web_app.py`):
  - the extension and size checks on uploads, and the order of the checks in `save_uploaded_file`;
  - the unique upload name;
  - the `--lang` command-line scan and the language endpoint.

The neural networks and the other foreign computations are parameters of the model:

- the content encoder and the vocoder;
- the RMVPE network and the mel extractor;
- the pitch back-ends, autotune and the automatic pitch shift;
- the FAISS index;
- the high-pass and median filters;
- the RMS envelope;
- `ln`/`exp2`, with the laws the proofs need.

Samples and frequencies are `real`.

Modules, one per file:

| module | file |
|---|---|
| `Util` | `util.dfy` |
| `Numerics` | `numerics.dfy` |
| `Text` | `text.dfy` |
| `CoarsePitch` | `coarse_pitch.dfy` |
| `PitchMethods` | `pitch_methods.dfy` |
| `ChunkPlanner` | `chunk_planner.dfy` |
| `VoiceConversion` | `features.dfy` |
| `F0Track` | `f0_track.dfy` |
| `OutputStage` | `output_stage.dfy` |
| `Pipeline` | `pipeline.dfy` |
| `UnetShapes` | `rmvpe_shapes.dfy` |
| `RmvpeDecode` | `rmvpe_decode.dfy` |
| `TrainingData` | `preparing_data.dfy` |
| `WebUpload` | `web_app.dfy` |

## Model

| member | source | states |
|---|---|---|
| ChunkPlanner.ReflectIndex | rvc/infer/pipeline.py:230 | numpy reflect padding maps every padded position back to a valid source index |
| ChunkPlanner.ReflectPad | rvc/infer/pipeline.py:230 | reflect padding by p on both sides has length n + 2p and holds the signal unchanged in the middle |
| ChunkPlanner.ReflectPadMirrors | rvc/infer/pipeline.py:230 | padded samples mirror the signal about its end samples without repeating them: position p-j holds a[j] and position p+n-1+j holds a[n-1-j] |
| ChunkPlanner.RunningEnergy | rvc/infer/pipeline.py:233-236 | the in-place accumulation over the 160 shifted copies gives exactly len(audio) entries, entry j being the sum of the 160 padded samples from j |
| ChunkPlanner.EnergyOf | rvc/infer/pipeline.py:233-236 | defined by its body (sample i sums the `window` padded samples from i); its properties are stated by ChunkPlanner.RunningEnergy |
| ChunkPlanner.FirstMinAbsIsFirstMin | rvc/infer/pipeline.py:240 | the index found is the first one where \|s\| is minimal in the range: no later value is smaller, and every earlier value is strictly larger |
| ChunkPlanner.FirstMinAbs | rvc/infer/pipeline.py:239-240 | defined by its body; its properties are stated by ChunkPlanner.FirstMinAbsIsFirstMin and ChunkPlanner.CutIsQuietestInWindow |
| ChunkPlanner.CutsFromAt | rvc/infer/pipeline.py:238-241 | there is one cut per centre t, t+step, … below the signal length, and no more; the k-th cut is the search result around the k-th centre |
| ChunkPlanner.FindCutPoints | rvc/infer/pipeline.py:238-241 | the loop appending to `opt_ts` produces exactly the cut list `CutPointsOf` |
| ChunkPlanner.CutPointsOf | rvc/infer/pipeline.py:238-241 | defined by its body; its properties are stated by ChunkPlanner.FindCutPoints, ChunkPlanner.CutsFromAt, ChunkPlanner.CutCount and ChunkPlanner.CutsIncrease |
| ChunkPlanner.PlanCuts | rvc/infer/pipeline.py:230-241 | the cut points are computed only when the half-hop padded signal is longer than `t_max`; otherwise there are none |
| ChunkPlanner.PlannedCuts | rvc/infer/pipeline.py:230-241 | defined by its body (no cuts when the padded signal is not longer than t_max); its properties are stated by ChunkPlanner.PlanCuts, ChunkPlanner.CutsNonDecreasing and Pipeline.ShortSignalIsOneChunk |
| ChunkPlanner.CutIsQuietestInWindow | rvc/infer/pipeline.py:238-241 | the k-th cut lies in [c - t_query, min(c + t_query, len)) for centre c = (k+1)·t_center, and is the lowest index of minimal \|energy\| there |
| ChunkPlanner.CutCount | rvc/infer/pipeline.py:232-238 | a k-th cut exists iff the padded length exceeds `t_max` and (k+1)·t_center < len(audio) |
| ChunkPlanner.CutsNonDecreasing | rvc/infer/pipeline.py:238-241 | the cut points never go backwards, whether or not neighbouring search windows overlap: cut k is at most cut k + 1 |
| ChunkPlanner.CutsIncrease | rvc/infer/pipeline.py:238-241 | when neighbouring search windows do not overlap (2·t_query ≤ t_center), the cut points strictly increase |
| CoarsePitch.RoundHalfEven | rvc/infer/pipeline.py:114 | `np.rint` is within 1/2 of its argument, and exact halves go to the even integer |
| CoarsePitch.RoundHalfEvenMonotone | rvc/infer/pipeline.py:114 | rounding preserves order |
| CoarsePitch.ClippedMel | rvc/infer/pipeline.py:111-113 | for any two distinct mel bounds, ordered or inverted, every value after the masked rescale and the two clamps lies in [1, 255] |
| CoarsePitch.CoarseOfMel | rvc/infer/pipeline.py:111-114 | for distinct mel bounds every coarse code is an integer in [1, 255] |
| CoarsePitch.NonPositiveMelIsCodeOne | rvc/infer/pipeline.py:111-112 | a mel value ≤ 0 skips the rescale and becomes code 1 |
| CoarsePitch.HighMelClipsToTop | rvc/infer/pipeline.py:113 | mel values at or above the upper bound saturate at 255 and do not wrap |
| CoarsePitch.ClippedMelMonotone | rvc/infer/pipeline.py:111-113 | the rescale and clamps preserve order |
| CoarsePitch.CoarseOfMelMonotone | rvc/infer/pipeline.py:111-114 | a higher mel value never gets a lower code |
| CoarsePitch.Quantise | rvc/infer/pipeline.py:110-114 | element-wise and length-preserving; for distinct mel bounds every code is in [1, 255] |
| CoarsePitch.MelBoundsOrdered | rvc/infer/pipeline.py:78-79 | F0 bounds 0 ≤ f0_min < f0_max give non-negative mel bounds in the same strict order |
| CoarsePitch.UnvoicedIsCodeOne | rvc/infer/pipeline.py:110-112 | an F0 of 0 Hz gets code 1 |
| CoarsePitch.CoarseCodeMonotone | rvc/infer/pipeline.py:110-114 | the quantiser is non-decreasing in F0 over non-negative frequencies |
| CoarsePitch.HighF0ClipsToTop | rvc/infer/pipeline.py:110-113 | an F0 at or above the upper bound gets code 255 |
| CoarsePitch.MelIncreasing | rvc/infer/pipeline.py:78-79 | the mel scale is strictly increasing above -700 Hz, where `np.log` is defined |
| CoarsePitch.ClippedMelReversed | rvc/infer/pipeline.py:111-113 | with inverted bounds the rescale factor is negative, so a higher voiced mel value gets a lower clipped value |
| CoarsePitch.MelBoundOf | rvc/infer/pipeline.py:78-79 | a bound's mel value is finite exactly above -700 Hz (minus infinity at -700 Hz, NaN below), and then it is the mel of the bound |
| CoarsePitch.CoarseOfMelBounds | rvc/infer/pipeline.py:110-114 | for any bounds the code of a frame is either in [1, 255] or the cast of NaN |
| CoarsePitch.QuantiseBounds | rvc/infer/pipeline.py:78-114 | `get_f0`'s quantiser for bounds as given: one code per frame, each in [1, 255] or the cast of NaN |
| CoarsePitch.QuantiseBoundsUsable | rvc/infer/pipeline.py:78-114 | for distinct bounds above -700 Hz, ordered or inverted, the mel bounds differ and the quantiser is the ordinary one, so every code is in [1, 255] |
| CoarsePitch.EqualBoundsThreshold | rvc/infer/pipeline.py:111-114 | equal bounds divide by zero: a voiced frame gets 1 below the bound, 255 above it, and the cast of NaN exactly at it |
| CoarsePitch.UnvoicedIsCodeOneAnyBounds | rvc/infer/pipeline.py:110-112 | whatever the bounds, a 0 Hz frame gets code 1 |
| PitchMethods.ParseF0Method | rvc/infer/pipeline.py:81-98 | the if/elif chain recognises a name iff it is one of crepe, crepe-tiny, fcpe, rmvpe, rmvpe+; the method found carries that name |
| PitchMethods.ParseNameOf | rvc/infer/pipeline.py:81-96 | every method is recognised under its own name (round trip) |
| PitchMethods.CallFor | rvc/infer/pipeline.py:81-96 | CREPE gets the Hz bounds, the frame count and "full"/"tiny"; FCPE gets the frame count; RMVPE gets the method name; every call gets the audio |
| F0Track.Transpose | rvc/infer/pipeline.py:109 | the shift keeps the frame count |
| F0Track.Shifted | rvc/infer/pipeline.py:101-109 | defined by its body; its properties are stated by F0Track.ShiftedOptions and F0Track.GetF0Outcome |
| F0Track.ShiftedOptions | rvc/infer/pipeline.py:105-109 | without autotune the curve is only transposed, by the requested shift or, with autopitch, by that shift plus the estimated one; the frame count is kept |
| F0Track.GetF0 | rvc/infer/pipeline.py:61-116 | for any f0_min and f0_max: on failure the error is the unrecognised-method `ValueError`; on success the codes and the curve have the same length, every code is in [1, 255] or the cast of NaN, and with distinct bounds above -700 Hz every code is in [1, 255] |
| F0Track.GetF0Outcome | rvc/infer/pipeline.py:77-116 | for any f0_min and f0_max: succeeds iff the name is known and its back-end returns a curve; the curve is autotuned and shifted, and the codes are its quantisation with the bounds as given, which is the ordinary quantiser on their mel values when the bounds are distinct and above -700 Hz |
| F0Track.RawF0 | rvc/infer/pipeline.py:77-96 | defined by its body (the back-end call for the parsed method); its properties are stated by F0Track.GetF0Outcome |
| F0Track.ZeroShiftKeepsF0 | rvc/infer/pipeline.py:109 | a shift of 0 semitones leaves the curve unchanged |
| F0Track.OctaveDoublesF0 | rvc/infer/pipeline.py:109 | a shift of 12 semitones doubles every frequency |
| F0Track.UnvoicedStaysUnvoiced | rvc/infer/pipeline.py:109-112 | any shift keeps a 0 Hz frame at 0 Hz, so it keeps code 1 |
| F0Track.TransposeMonotone | rvc/infer/pipeline.py:109 | shifting keeps a non-negative frequency non-negative and is non-decreasing in the shift |
| F0Track.HigherShiftNeverLowersCode | rvc/infer/pipeline.py:109-114 | raising the shift never lowers a frame's code |
| VoiceConversion.Mix | rvc/infer/pipeline.py:161 | the blend `w·a + (1-w)·b` keeps the frame dimension |
| VoiceConversion.Weights | rvc/infer/pipeline.py:158-159 | the normalised inverse-square weights are positive and sum to 1 |
| VoiceConversion.Retrieved | rvc/infer/pipeline.py:160 | the retrieved vector has the frame's dimension |
| VoiceConversion.Retrieve | rvc/infer/pipeline.py:155-161 | the blend keeps the frame count and every frame's dimension |
| VoiceConversion.MaybeRetrieve | rvc/infer/pipeline.py:155-161 | defined by its body (retrieval only with an index and a non-zero rate); its properties are stated by VoiceConversion.NoRetrievalIsIdentity and VoiceConversion.RateZeroIsIdentity |
| VoiceConversion.NoRetrievalIsIdentity | rvc/infer/pipeline.py:155 | without an index, or with rate 0, the features pass through untouched |
| VoiceConversion.RateZeroIsIdentity | rvc/infer/pipeline.py:161 | blending at rate 0 returns the features, so skipping the blend at rate 0 changes nothing |
| VoiceConversion.CombinedOfIdentical | rvc/infer/pipeline.py:160 | when all 8 neighbours are the same stored vector v, each coordinate of their weighted combination is v's |
| VoiceConversion.IdenticalNeighboursGiveThatVector | rvc/infer/pipeline.py:157-161 | identical neighbours v retrieve exactly v, and the blend moves the frame `rate` of the way to v |
| VoiceConversion.Upsample2 | rvc/infer/pipeline.py:163 | nearest ×2 upsampling doubles the frame count |
| VoiceConversion.UpsampleRepeatsFrames | rvc/infer/pipeline.py:163-165 | each frame appears twice in a row, and taking every other frame recovers the input (round trip) |
| VoiceConversion.AlignTakesMinimum | rvc/infer/pipeline.py:167-172 | p_len = min(len(audio0) // 160, feature frames); the pitch curves are truncated to it only when the features are shorter, and never lengthened |
| VoiceConversion.Align | rvc/infer/pipeline.py:167-172 | defined by its body; its properties are stated by VoiceConversion.AlignTakesMinimum |
| VoiceConversion.Protect | rvc/infer/pipeline.py:174-179 | protection keeps the frame count |
| VoiceConversion.ProtectFrames | rvc/infer/pipeline.py:175-179 | frames of at least 1 Hz keep the blended features; frames below 1 Hz get `protect·feats + (1-protect)·feats0`, which is feats0 when protect = 0 |
| VoiceConversion.ProtectOffPassesFeatures | rvc/infer/pipeline.py:152-179 | with protect ≥ 0.5, or with no pitch, the vocoder gets the blended, upsampled features unchanged, with the aligned frame count |
| VoiceConversion.ProtectOnMixesFrames | rvc/infer/pipeline.py:174-179 | with protection on, the call fails iff the aligned F0 and the features differ in frame count; otherwise frames are kept or mixed according to their F0 |
| VoiceConversion.PrepareVocoderInput | rvc/infer/pipeline.py:152-179 | defined by its body; its properties are stated by VoiceConversion.ProtectOffPassesFeatures and VoiceConversion.ProtectOnMixesFrames |
| VoiceConversion.ConvertChunk | rvc/infer/pipeline.py:135-194 | defined by its body (the vocoder applied to the prepared input); its properties are stated by VoiceConversion.ChunkIgnoresIndexAtRateZero, VoiceConversion.ProtectOffPassesFeatures and VoiceConversion.ProtectOnMixesFrames |
| VoiceConversion.ChunkIgnoresIndexAtRateZero | rvc/infer/pipeline.py:155 | at index rate 0 a chunk converts to the same result with or without an index |
| OutputStage.Trim | rvc/infer/pipeline.py:293 | `out[p:-p]` has length len - 2p (0 when p = 0 or when the output is too short), and element i is out[p+i] |
| OutputStage.TrimRemovesMargins | rvc/infer/pipeline.py:293 | trimming `before + middle + after` with equal positive margins gives back `middle` |
| OutputStage.ChangeRms | rvc/infer/pipeline.py:20-34 | `change_rms` keeps the target's length |
| OutputStage.Gain | rvc/infer/pipeline.py:32-34 | defined by its body (`rms1^(1-rate) · max(rms2, 1e-6)^(rate-1)`); its properties are stated by OutputStage.ChangeRmsAtOneIsIdentity and OutputStage.ChangeRmsAtZeroMatchesSource |
| OutputStage.ChangeRmsAtOneIsIdentity | rvc/infer/pipeline.py:34 | at rate 1 the gain is 1 everywhere, so skipping `change_rms` when the envelope rate is 1 changes nothing |
| OutputStage.ChangeRmsAtZeroMatchesSource | rvc/infer/pipeline.py:32-34 | at rate 0 each sample is scaled by rms1 / max(rms2, 1e-6) |
| OutputStage.MaxAbs | rvc/infer/pipeline.py:320 | the maximum absolute value bounds every sample and is attained |
| OutputStage.PeakNormalised | rvc/infer/pipeline.py:320-322 | normalisation keeps the length |
| OutputStage.PeakNormalisedBounds | rvc/infer/pipeline.py:320-322 | no sample grows; every sample is at most 0.99 in magnitude; a signal already within 0.99 is unchanged; a louder one peaks at exactly 0.99 |
| OutputStage.PeakNormalisedIdempotent | rvc/infer/pipeline.py:320-322 | normalising twice equals normalising once |
| OutputStage.NormalisePeak | rvc/infer/pipeline.py:320-322 | the in-place division `audio_opt /= audio_max` leaves the array equal to the normalised signal |
| Pipeline.NewVc | rvc/infer/pipeline.py:44-57 | the margins are whole hops; t_pad2 = 2·t_pad; t_pad_tgt / tgt_sr = t_pad / 16000; t_query ≤ t_center iff x_query ≤ x_center; t_query > 0 iff x_query > 0 |
| Pipeline.Rounded | rvc/infer/pipeline.py:274 | `t // 160 * 160` is the largest multiple of 160 not above t |
| Pipeline.ChunkWindows | rvc/infer/pipeline.py:273-298 | one chunk per cut point plus the trailing one |
| Pipeline.ChunkWindowsShareBoundaries | rvc/infer/pipeline.py:274-295 | the first chunk starts at 0; every start is a whole number of hops; only the last chunk is open-ended; chunk i ends at the rounded cut i, where chunk i+1 starts |
| Pipeline.ChunkStartsNonDecreasing | rvc/infer/pipeline.py:273-295 | with non-decreasing cut points the chunk starts never go backwards |
| Pipeline.PlannedChunksInOrder | rvc/infer/pipeline.py:238-241 | the chunks built from the planned cut points start in order, for every t_query ≤ t_center |
| Pipeline.ChunkPitchCoversChunk | rvc/infer/pipeline.py:276-278 | a chunk's pitch slice has one frame per hop of its audio, except the final hop |
| Pipeline.NoCutsSingleChunk | rvc/infer/pipeline.py:297-305 | without cut points the only chunk is the whole padded input with the whole pitch track |
| Pipeline.ShortSignalIsOneChunk | rvc/infer/pipeline.py:232-305 | a signal whose half-hop padding is not longer than `t_max` is converted as a single chunk |
| Pipeline.LoadedIndex | rvc/infer/pipeline.py:220-226 | the index is used iff a path is given, the file exists, the rate is non-zero and the read succeeds |
| Pipeline.ConvertWithLoadedIndex | rvc/infer/pipeline.py:220-226 | converting with the index `LoadedIndex` selects gives the result of converting with the index as read whenever a path is given and the file exists, at any rate, and the result without an index otherwise |
| Pipeline.ConvertWindows | rvc/infer/pipeline.py:273-314 | on success there is one trimmed output per chunk |
| Pipeline.PitchTrack | rvc/infer/pipeline.py:250-265 | defined by its body (no track without pitch guidance, else `get_f0` on the padded input cut to its frame count); its properties are stated by Pipeline.ChunkPitchCoversChunk and F0Track.GetF0Outcome |
| Pipeline.ConvertWindow | rvc/infer/pipeline.py:275-293 | defined by its body (one chunk converted, then its margins trimmed); its properties are stated by Pipeline.ConvertWindows, Pipeline.RunChunks and OutputStage.TrimRemovesMargins |
| Pipeline.Finish | rvc/infer/pipeline.py:316-322 | on success every output sample is at most 0.99 in magnitude |
| Pipeline.Convert | rvc/infer/pipeline.py:220-330 | for any request, whatever its F0 bounds: on success every output sample of the whole conversion is at most 0.99 in magnitude (the index it is given is the one `LoadedIndex` selects, as Pipeline.ConvertWithLoadedIndex relates) |
| Pipeline.ShortInputRaises | rvc/infer/pipeline.py:229 | inputs of at most 18 samples fail in the high-pass filter before anything else runs |
| Pipeline.WindowsIgnoreIndexAtRateZero | rvc/infer/pipeline.py:155 | at index rate 0 the chunk conversions are the same with any index or with none |
| Pipeline.IndexIgnoredAtRateZero | rvc/infer/pipeline.py:221 | at index rate 0 the whole conversion is the same with any index or with none |
| Pipeline.EarlyFailureFinal | rvc/infer/pipeline.py:273-294 | a failure in an early chunk is the failure of the whole run |
| Pipeline.RunPipeline | rvc/infer/pipeline.py:220-330 | for any request, the imperative pipeline (the chunk loop carrying `s`, the trailing chunk, the in-place normalisation) returns exactly the result of `Convert` |
| Pipeline.RunChunks | rvc/infer/pipeline.py:273-314 | the loop over the cut points, carrying the start `s` to each rounded cut, followed by the trailing chunk from the last one, returns exactly the trimmed outputs of the chunk windows in order, or the first chunk's failure |
| Pipeline.FinishInPlace | rvc/infer/pipeline.py:317-322 | loudness matching when the envelope mix is not 1, then dividing the array in place by peak/0.99 when that exceeds 1, gives exactly `Finish`; an empty output is an error |
| UnetShapes.BuildEncoder | rvc/lib/predictors/RMVPE.py:100-107 | the encoder loop builds layer i from `EncoderIn` channels to out·2^i and records latent [out·2^i, size halved i times]; out_size is size halved n times, out_channel is out·2^n |
| UnetShapes.EncoderOf | rvc/lib/predictors/RMVPE.py:100-107 | defined by its body; its properties are stated by UnetShapes.BuildEncoder, UnetShapes.EncoderOfStep and UnetShapes.EncoderLatentWidth |
| UnetShapes.EncoderOfStep | rvc/lib/predictors/RMVPE.py:100-105 | one more encoder layer appends exactly one block and one latent entry |
| UnetShapes.HalvedStep | rvc/lib/predictors/RMVPE.py:105 | halving once more after i halvings is halving i+1 times |
| UnetShapes.BuildDecoder | rvc/lib/predictors/RMVPE.py:169-172 | decoder layer i maps c halved i times to c halved i+1 times |
| UnetShapes.DecoderOf | rvc/lib/predictors/RMVPE.py:169-172 | defined by its body; its properties are stated by UnetShapes.BuildDecoder and UnetShapes.DecoderLayerWidth |
| UnetShapes.IntermediateOf | rvc/lib/predictors/RMVPE.py:119-125 | defined by its body (one block from in to out, then n_inters - 1 blocks from out to out; a single block when n_inters is 0); its properties are stated by UnetShapes.BuildIntermediate and UnetShapes.IntermediateFeedsDecoder |
| UnetShapes.BuildIntermediate | rvc/lib/predictors/RMVPE.py:122-125 | the construction loop appends exactly the blocks of `IntermediateOf` |
| UnetShapes.IntermediateOutWidth | rvc/lib/predictors/RMVPE.py:127-130 | defined by its body (the width after running the first n_inters blocks); its properties are stated by UnetShapes.IntermediateFeedsDecoder |
| UnetShapes.HalvedPow2 | rvc/lib/predictors/RMVPE.py:170 | halving c·2^n i ≤ n times is exact: it gives c·2^(n-i) |
| UnetShapes.BuildUnet | rvc/lib/predictors/RMVPE.py:191-198 | DeepUnet wires the encoder on 128 bins, the intermediate stage of inter_layers blocks (the first from out_channel/2 to out_channel, the rest from out_channel to out_channel), and the decoder from out_channel |
| UnetShapes.UnetOf | rvc/lib/predictors/RMVPE.py:191-198 | defined by its body; its properties are stated by UnetShapes.BuildUnet, UnetShapes.UnetWiringCloses, UnetShapes.SkipWidthMatches and UnetShapes.IntermediateFeedsDecoder |
| UnetShapes.IntermediateFeedsDecoder | rvc/lib/predictors/RMVPE.py:119-130 | the intermediate blocks chain (each takes the width the previous one gives) and the width the intermediate stage hands the decoder equals the decoder's input width exactly when inter_layers ≥ 1 |
| UnetShapes.UnetWiringCloses | rvc/lib/predictors/RMVPE.py:191-198 | the first intermediate block takes the last encoder width; decoder layer i outputs the width of the skip tensor of encoder layer n-1-i; the decoder ends at en_out_channels, the input width of the final convolution |
| UnetShapes.SkipWidthMatches | rvc/lib/predictors/RMVPE.py:176 | decoder layer i produces the width of `concat_tensors[-1 - i]` |
| UnetShapes.EncoderLatentWidth | rvc/lib/predictors/RMVPE.py:102 | latent entry k has width out·2^k |
| UnetShapes.DecoderLayerWidth | rvc/lib/predictors/RMVPE.py:170-172 | decoder layer i of a decoder starting at c·2^n outputs c·2^(n-1-i) |
| RmvpeDecode.CentsMapping | rvc/lib/predictors/RMVPE.py:319-320 | the padded cents table has N_CLASS + 8 = 368 entries |
| RmvpeDecode.CentsMappingLayout | rvc/lib/predictors/RMVPE.py:319-320 | the table is 4 zeros, then 20·k + 1997.379… for k < 360 in 20-cent steps, then 4 zeros; every entry is in [0, top cents] |
| RmvpeDecode.PaddedLength | rvc/lib/predictors/RMVPE.py:325 | `32·((n-1)//32 + 1)` is the smallest multiple of 32 not below n |
| RmvpeDecode.ReflectTail | rvc/lib/predictors/RMVPE.py:325 | right reflect padding keeps the frames and mirrors them without the edge frame |
| RmvpeDecode.RunMel2Hidden | rvc/lib/predictors/RMVPE.py:322-335 | the imperative chunk loop returns exactly the result of `Mel2Hidden`, errors included |
| RmvpeDecode.Mel2Hidden | rvc/lib/predictors/RMVPE.py:322-335 | defined by its body; its properties are stated by RmvpeDecode.Mel2HiddenOutcome, RmvpeDecode.Mel2HiddenLength, RmvpeDecode.Mel2HiddenRoundTrip and RmvpeDecode.RunMel2Hidden |
| RmvpeDecode.AlignedChunksPass | rvc/lib/predictors/RMVPE.py:328-331 | a chunk size that is a multiple of 32 never trips the chunk assertion |
| RmvpeDecode.ChunkAssertionIff | rvc/lib/predictors/RMVPE.py:328-331 | the assertion fails iff the chunk size is not a multiple of 32 and the padded input needs more than one chunk |
| RmvpeDecode.Mel2HiddenOutcome | rvc/lib/predictors/RMVPE.py:324-334 | `mel2hidden` succeeds iff there are frames, the pad is shorter than the input, and the chunk assertion holds |
| RmvpeDecode.RunChunksTile | rvc/lib/predictors/RMVPE.py:328-334 | the chunks tile the padded input: with the identity network their outputs joined back to back are the input from `start` on |
| RmvpeDecode.RunChunksLength | rvc/lib/predictors/RMVPE.py:328-334 | with a length-preserving network the joined output has one frame per input frame |
| RmvpeDecode.Mel2HiddenLength | rvc/lib/predictors/RMVPE.py:322-335 | with a length-preserving network `mel2hidden` returns exactly n frames |
| RmvpeDecode.Mel2HiddenRoundTrip | rvc/lib/predictors/RMVPE.py:322-335 | through the identity network `mel2hidden` returns its input: padding, chunking, joining and trimming lose and duplicate nothing |
| RmvpeDecode.Mel2HiddenKeeps | rvc/lib/predictors/RMVPE.py:328-335 | every returned frame is a frame some network call produced |
| RmvpeDecode.ArgMax | rvc/lib/predictors/RMVPE.py:368 | `np.argmax` is the first index of the maximum |
| RmvpeDecode.PadRow | rvc/lib/predictors/RMVPE.py:369 | the zero-padded row has 8 more entries |
| RmvpeDecode.PadRowPeak | rvc/lib/predictors/RMVPE.py:368-370 | zero padding keeps the peak of a salience row, and moves it to argmax + 4 |
| RmvpeDecode.LocalWindow | rvc/lib/predictors/RMVPE.py:373-377 | the 9-bin window around the peak lies within the padded row; its weights are non-negative, its cents are in range, and its middle bin is the peak with positive cents |
| RmvpeDecode.LocalAverageCentsBounds | rvc/lib/predictors/RMVPE.py:367-385 | cents are 0 iff the row's peak is ≤ thred; otherwise they are a weighted mean in (0, top cents] |
| RmvpeDecode.LocalAverageCents | rvc/lib/predictors/RMVPE.py:367-385 | defined by its body (one row); its properties are stated by RmvpeDecode.LocalAverageCentsBounds |
| RmvpeDecode.ToLocalAverageCents | rvc/lib/predictors/RMVPE.py:367-385 | the row loop gives one local average per salience row |
| RmvpeDecode.CentsToHzUnvoiced | rvc/lib/predictors/RMVPE.py:339-340 | 0 cents decodes to 0 Hz, and positive cents to more than 10 Hz |
| RmvpeDecode.CentsToHz | rvc/lib/predictors/RMVPE.py:339-340 | defined by its body (`10·2^(cents/1200)`, 10 Hz read as 0); its properties are stated by RmvpeDecode.CentsToHzUnvoiced and RmvpeDecode.DecodeUnvoicedIff |
| RmvpeDecode.Decode | rvc/lib/predictors/RMVPE.py:337-341 | one F0 value per salience row |
| RmvpeDecode.DecodeUnvoicedIff | rvc/lib/predictors/RMVPE.py:337-341 | a decoded frame is 0 Hz iff its peak salience is ≤ thred, and otherwise above 10 Hz |
| RmvpeDecode.MaskRange | rvc/lib/predictors/RMVPE.py:363 | the mask keeps the length |
| RmvpeDecode.MaskRangeSpec | rvc/lib/predictors/RMVPE.py:363 | after the mask every value is 0 or in [f0_min, f0_max]; in-range values are kept; masking is idempotent |
| RmvpeDecode.InferFromAudioModified | rvc/lib/predictors/RMVPE.py:354-365 | defined by its body; its properties are stated by RmvpeDecode.InferFromAudioModifiedOutcome |
| RmvpeDecode.InferFromAudioModifiedOutcome | rvc/lib/predictors/RMVPE.py:354-365 | the call fails exactly when `mel2hidden` does; otherwise it returns the median filter of a curve with one value per hidden frame, each 0 or within [f0_min, f0_max] |
| TrainingData.CoarseF0 | rvc/train/preprocess/preparing_data.py:79-87 | fails exactly on an empty curve, where `max()` raises; otherwise length-preserving with every code in [1, 255], so the closing assertion holds |
| TrainingData.CoarseF0PerFrame | rvc/train/preprocess/preparing_data.py:81-85 | element-wise; 0 Hz gives 1; 1100 Hz or more gives 255 |
| TrainingData.CoarseF0Monotone | rvc/train/preprocess/preparing_data.py:81-85 | a higher F0 never gets a lower code |
| TrainingData.ComputeF0 | rvc/train/preprocess/preparing_data.py:66-77 | succeeds iff the name is known; the result is what that back-end returns for the 50–1100 Hz range |
| TrainingData.CommonNames | rvc/train/preprocess/preparing_data.py:181-186 | a name is common iff it is the stem of a file in all four directories |
| TrainingData.SidsOf | rvc/train/preprocess/preparing_data.py:191 | one speaker id per name, the text before its first "_" |
| TrainingData.FirstSeen | rvc/train/preprocess/preparing_data.py:188-193 | the recorded ids have no duplicates and are exactly the ids that occur |
| TrainingData.RepeatLength | rvc/train/preprocess/preparing_data.py:208 | `sids * m` has m·len(sids) entries for m > 0, and none otherwise |
| TrainingData.ClipLines | rvc/train/preprocess/preparing_data.py:190-199 | one line per clip |
| TrainingData.TrainingLine | rvc/train/preprocess/preparing_data.py:191-198 | defined by its body; its properties are stated by TrainingData.TrainingLineFields and TrainingData.ClipLinesAt |
| TrainingData.MuteLinesOf | rvc/train/preprocess/preparing_data.py:208-209 | one mute line per listed speaker |
| TrainingData.MuteLine | rvc/train/preprocess/preparing_data.py:202-209 | defined by its body; its properties are stated by TrainingData.MuteLineFields and TrainingData.MuteLinesAt |
| TrainingData.Options | rvc/train/preprocess/preparing_data.py:188-209 | defined by its body (clip lines, then mute lines); its properties are stated by TrainingData.OptionsCount, TrainingData.OptionsLayout and TrainingData.GenerateFilelist |
| TrainingData.GenerateFilelist | rvc/train/preprocess/preparing_data.py:172-214 | the written lines are a permutation of the clip lines followed by the mute lines, and the text is the lines joined by newlines |
| TrainingData.CollectClips | rvc/train/preprocess/preparing_data.py:188-199 | the loop records the speaker ids in first-seen order and produces the clip lines in order |
| TrainingData.MuteLines | rvc/train/preprocess/preparing_data.py:208-209 | the loop produces the mute lines of `sids * include_mutes` in order |
| TrainingData.Shuffle | rvc/train/preprocess/preparing_data.py:211 | Fisher–Yates swapping yields a permutation of its input |
| TrainingData.OptionsCount | rvc/train/preprocess/preparing_data.py:188-209 | the line count is the clip count plus include_mutes times the number of distinct speakers (no mute lines when include_mutes ≤ 0) |
| TrainingData.ClipLinesAt | rvc/train/preprocess/preparing_data.py:194-199 | line i is the line of clip i |
| TrainingData.MuteLinesAt | rvc/train/preprocess/preparing_data.py:209 | mute line i is the four mute files and speaker i, joined by "\|" |
| TrainingData.OptionsLayout | rvc/train/preprocess/preparing_data.py:181-209 | before shuffling, the first lines are those of the clips present in all four directories, and the rest are mute lines |
| TrainingData.FirstSeenOrder | rvc/train/preprocess/preparing_data.py:190-193 | the ids are recorded in the order of their first clip |
| TrainingData.RepeatCount | rvc/train/preprocess/preparing_data.py:208 | in `s * m` every element occurs m times as often as in s |
| TrainingData.NoDuplicatesCount | rvc/train/preprocess/preparing_data.py:192-193 | a list without duplicates holds each element once |
| TrainingData.MuteEntriesPerSpeaker | rvc/train/preprocess/preparing_data.py:201-209 | with m > 0 each speaker of the clips gets exactly m mute entries and no other id gets any; with m ≤ 0 there are none |
| TrainingData.FieldsRoundTrip | rvc/train/preprocess/preparing_data.py:194-199 | fields without "\|" joined by "\|" split back into the same fields |
| TrainingData.LayoutAvoids | rvc/train/preprocess/preparing_data.py:176-179 | the four directory paths contain no "\|" when the model path has none |
| TrainingData.TrainingLineFields | rvc/train/preprocess/preparing_data.py:194-198 | a clip line read back with `split("\|")` gives its four file paths and its speaker id |
| TrainingData.MuteBaseAvoids | rvc/train/preprocess/preparing_data.py:173 | the mute base path contains no "\|" when the working directory has none |
| TrainingData.DecimalAvoids | rvc/train/preprocess/preparing_data.py:202 | the decimal text of the sample rate holds only digits and a sign |
| TrainingData.MuteFilesAvoid | rvc/train/preprocess/preparing_data.py:202-205 | the four mute files contain no "\|" |
| TrainingData.MuteFileAvoids | rvc/train/preprocess/preparing_data.py:202-205 | each joined mute file path contains no "\|" |
| TrainingData.MuteFieldsAvoid | rvc/train/preprocess/preparing_data.py:209 | none of the five fields of a mute line contains "\|" |
| TrainingData.MuteLineFields | rvc/train/preprocess/preparing_data.py:209 | a mute line read back with `split("\|")` gives the four mute files and its speaker id |
| Text.PrefixBefore | rvc/train/preprocess/preparing_data.py:181 | `s.split(c)[0]` is a prefix of s without c, ended by c or by the end of s |
| Text.PrefixBeforeSeparator | rvc/train/preprocess/preparing_data.py:191 | the text before the first c of `a + c + b` is a when a has no c |
| Text.Split | rvc/train/preprocess/preparing_data.py:214 | split gives at least one part, and no part contains the separator |
| Text.SplitJoin | rvc/train/preprocess/preparing_data.py:214 | splitting the joined parts gives them back when no part holds the separator |
| Text.PrefixBeforeAbsent | rvc/train/preprocess/preparing_data.py:191 | without c the whole text is the prefix |
| Text.JoinSplit | rvc/train/preprocess/preparing_data.py:214 | joining the parts of a split gives the text back |
| Text.PathJoinParts | rvc/train/preprocess/preparing_data.py:176-179 | `os.path.join` returns an absolute second part alone; otherwise it starts with a, ends with b, and puts one "/" between them only when a is non-empty and does not end in "/" |
| Text.PathJoinAvoids | rvc/train/preprocess/preparing_data.py:195-198 | a character other than "/" that is in neither part is not in the joined path |
| Text.NatDecimal | rvc/train/preprocess/preparing_data.py:202 | `str(n)` is a non-empty string of digits |
| Text.Decimal | rvc/train/preprocess/preparing_data.py:202 | `str(n)` is non-empty and starts with "-" iff n is negative |
| Text.DecimalRoundTrip | rvc/train/preprocess/preparing_data.py:202 | the decimal text of n reads back as n |
| Text.LowerAscii | web_app.py:162 | the ASCII model of `lower()`: the length is kept, ASCII capitals become lower case, and every other character is kept |
| Text.LowerAsciiIdempotent | web_app.py:162 | lower-casing leaves no capital and is idempotent |
| Text.LastIndex | web_app.py:162 | the index is that of the last c, or -1 when c is absent |
| Text.LastIndexAt | web_app.py:162 | an occurrence of c with no c after it is the last one |
| Text.LowerAsciiDots | web_app.py:162 | the ASCII lower-casing keeps every "." in place, so a name and its lower-cased form have their last "." at the same index, and it commutes with taking a suffix |
| Text.SplitExt | web_app.py:205 | `os.path.splitext` splits the name into two parts that join back to it; the extension is empty or a "." followed by text without "." or "/" |
| Util.FirstIndex | web_app.py:39 | `list.index` gives the first position of x |
| WebUpload.Extension | web_app.py:162 | `rsplit(".", 1)[1]` is the text after the last "."; it contains no "." |
| WebUpload.AllowedFile | web_app.py:161-162 | an accepted name contains a "." |
| WebUpload.AllowedFileByExtension | web_app.py:162 | only the text after the last "." decides: `stem.ext` is accepted iff lower(ext) is allowed, whatever the stem holds |
| WebUpload.AllowedFileIgnoresCase | web_app.py:162 | a name and its lower-cased form are accepted alike |
| WebUpload.SizeVerdict | web_app.py:165-180 | accepted iff 0 < size ≤ max·1024·1024; too large iff above the limit (checked first); empty iff 0 bytes and the limit is not negative |
| WebUpload.DefaultSizeLimit | web_app.py:165-180 | with the default of 500 MB a file passes iff it holds 1 to 524288000 bytes; the limit itself passes |
| WebUpload.Upload.ValidateFileSize | web_app.py:165-180 | after the seek/tell the stream is back at position 0, and the verdict is the size verdict of the file's length |
| WebUpload.Hex | web_app.py:206 | `bytes.hex()` gives two lower-case hexadecimal digits per byte: byte i is written at positions 2i and 2i+1, high nibble first |
| WebUpload.UniqueName | web_app.py:205-206 | defined by its body; its properties are stated by WebUpload.UniqueNameSplit and WebUpload.SavedNameKeepsExtension |
| WebUpload.UniqueNameSplit | web_app.py:205-206 | the unique name splits back into `base_hex` and the original extension: the extension is preserved |
| WebUpload.BasenamePathJoin | web_app.py:209 | the base name of the stored path is the unique name |
| WebUpload.SaveChecksInOrder | web_app.py:186-212 | each refusal happens iff every earlier check passed and its own check fails, in the order name, extension, size, sanitised name, save; a path comes back iff all pass |
| WebUpload.SaveOutcome | web_app.py:183-215 | defined by its body; its properties are stated by WebUpload.SaveChecksInOrder, WebUpload.SavedNameKeepsExtension and WebUpload.SaveUploadedFile |
| WebUpload.SavedNameKeepsExtension | web_app.py:201-212 | the stored file's name is the sanitised stem, "_", the hex token, then the sanitised name's extension |
| WebUpload.SaveUploadedFile | web_app.py:183-215 | the method's answer is that of `SaveOutcome`; a stored file leaves the stream at its end, a refusal after the size check leaves it rewound, and an earlier refusal leaves it untouched |
| WebUpload.Upload.Save | web_app.py:210 | `file.save` copies the stream to its end |
| WebUpload.LanguageFromArgv | web_app.py:37-43 | the start-up language is always one with translations |
| WebUpload.LanguageFromFirstFlag | web_app.py:37-43 | the item after the first "--lang" is taken iff it is "ru" or "en"; otherwise the language stays "ru" |
| WebUpload.LanguageFromTrailingFlag | web_app.py:39-40 | a "--lang" with nothing after it leaves "ru" |
| WebUpload.Status | web_app.py:324-327 | the endpoint answers 200 or 400 |
| WebUpload.Interface.constructor | web_app.py:37-43 | the start-up language is the one the argv scan picks, so it has translations |
| WebUpload.Interface.SetLanguage | web_app.py:317-327 | a requested language (default "ru") with translations becomes current and is echoed; any other gives 400 and leaves the language unchanged; the current language always has translations |

## Left out

- The neural networks and their forward passes are parameters of the model:
  - HuBERT `extract_features` and its projection;
  - the vocoder `net_g.infer`;
  - the RMVPE E2E/U-Net/BiGRU forwards, `MelSpectrogram.forward` and its window cache;
  - the CREPE, FCPE and RMVPE pitch back-ends.
- Library numerics are parameters:
  - `signal.butter`/`filtfilt`, `medfilt`, `librosa.feature.rms` with its interpolation;
  - `np.log` and powers of 2, which are given by `ln`/`exp2` satisfying stated laws.
- `AutoTune.autotune_f0` and `calc_pitch_shift` are not part of this model; they are parameters.
- FAISS reading, `search` and `reconstruct_n` are parameters. A failed read is an absent index.
- Floating-point behaviour is not modelled:
  - float32/int32 casts;
  - NaN and infinity, except where `get_f0` rescales with equal bounds or bounds at or below -700 Hz;
  - bit-exact rounding (samples and frequencies are reals; `np.rint` is modelled exactly on reals).
- RmvpeDecode.LocalAverageCents: returns 0 where numpy would divide 0 by 0 (a window whose salience sums to 0). With a threshold of at least 0 such a row is always zeroed first.
- RmvpeDecode.InferFromAudioModified: the CUDA cache calls and the tensor/numpy conversions are left out.
- `RMVPEF0Predictor.infer_from_audio` is left out. It is the same chain as the modified variant without the range mask and the median filter.
- VoiceConversion.ConvertChunk: a feature frame count that does not match the F0 frames under protection is reported as an error. Torch's broadcasting of a single frame is not modelled.
- VoiceConversion.Retrieve: the index must answer every frame with 8 neighbours at positive distance naming stored vectors of the right dimension. Another answer is reported as an error; the source has no guard there.
- Pipeline.Convert: `filtfilt` failing on inputs of at most 18 samples is modelled as an error. Its other failures are not.
- CoarsePitch.NaNCode: the cast of NaN to int32 is platform-dependent in numpy. The model uses the x86 value, the most negative 32-bit integer. Such codes go on to the networks, which are parameters here, so the indexing error they would raise there is not modelled.
- CoarsePitch.Mel: an F0 frame at or below -700 Hz, where `np.log` gives minus infinity or NaN, is not modelled; the mel value of such a frame is whatever the parameter `ln` returns. Bounds at or below -700 Hz are modelled (`MelBoundOf`). The back-ends return non-negative curves.
- TrainingData.CoarseF0: frames below -700 Hz, which would make the closing assertion fail on the cast of NaN, are not modelled (see CoarsePitch.Mel).
- ChunkPlanner.PlanCuts: requires 0 < t_query ≤ t_center. Negative slice starts in the energy search are not modelled.
- Text.LowerAscii: only ASCII capitals are lowered. Python's Unicode case mapping is not modelled (for example "Ä" to "ä", or "İ" to two code points, which moves later characters). For the two extension sets of the source, which are plain ASCII, the verdict of `allowed_file` is the same either way.
- Device handling, `torch.cuda.empty_cache`, tqdm progress bars and `del` statements have no effect on values and are left out.
- File and OS I/O are left out:
  - `load_audio`, `sf.read`, `np.save`, `os.makedirs`;
  - `process_files` with its skip-if-exists logic, `read_wave`, `extract_features` and the HuBERT loading;
  - `cleanup_temp_file`.
- `os.listdir` is a parameter. `os.getcwd` is a parameter. The file written by `generate_filelist` is returned as text.
- TrainingData.GenerateFilelist:
  - the lines are stated only up to order (a permutation of the assembled lines), because the shuffle's random draws are arbitrary;
  - the set's iteration order is the parameter `order`.
- TrainingData.Shuffle: `random.shuffle`'s random source is the sequence `draws`, reduced modulo i + 1.
- WebUpload.SaveUploadedFile:
  - `secure_filename` is a parameter, and `os.urandom(8)` is the parameter `noise`;
  - `file.save` is reduced to whether the destination can be opened. A failure there happens before the stream is read. A failure in the middle of the copy, which would leave the stream part-way, is not modelled, nor are other exceptions inside the `try`.
- WebUpload.Interface.SetLanguage: a request body that is not JSON, or a "language" value that is not a string, is not modelled.
- The other Flask routes, the error handlers, the model installer, localtunnel and cloudflared are not part of this model (network, subprocess and UI code). The same goes for the concurrency of requests sharing `CURRENT_LANGUAGE`.
- `index` and `get_i18n` are not modelled. That their lookup `I18N[CURRENT_LANGUAGE]` cannot fail is the class invariant `Valid` of `WebUpload.Interface`.
