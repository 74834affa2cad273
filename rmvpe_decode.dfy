/** RMVPE's post-processing around its network: the mel frames are padded to
    a multiple of 32 and run through the network in chunks
    (`mel2hidden`), each salience row is reduced to cents by a local
    weighted average around its peak (`to_local_average_cents`), cents are
    turned into Hz with 0 for unvoiced frames (`decode`), and F0 outside the
    requested range is zeroed (`infer_from_audio_modified`). */
module RmvpeDecode {
  import opened Util
  import opened Numerics

  /** Number of pitch classes (`N_CLASS`). */
  const NClass: nat := 360

  /** Cents of class 0. */
  const CentsOffset: real := 1997.3794084376191

  /** Cents of the highest class, the largest entry of the table. */
  const TopCents: real := 20.0 * 359.0 + 1997.3794084376191

  // ---------------------------------------------------------------------------
  // The cents table
  // ---------------------------------------------------------------------------

  /** `np.pad(20 * np.arange(N_CLASS) + 1997.379…, (4, 4))`. */
  function CentsMapping(): (table: seq<real>)
    ensures |table| == NClass + 8
  {
    seq(NClass + 8, j requires 0 <= j < NClass + 8 =>
      if 4 <= j < NClass + 4 then 20.0 * (j - 4) as real + CentsOffset else 0.0)
  }

  /** The table is 4 zeros, then class k at `20·k + 1997.379…` cents rising
      in 20-cent steps, then 4 zeros; every entry lies in [0, TopCents]. */
  lemma CentsMappingLayout(table: seq<real>)
    requires table == CentsMapping()
    ensures forall j :: 0 <= j < 4 || NClass + 4 <= j < NClass + 8 ==> table[j] == 0.0
    ensures forall j :: 4 <= j < NClass + 4 ==> table[j] == 20.0 * (j - 4) as real + CentsOffset
    ensures forall j :: 4 <= j < NClass + 3 ==> table[j + 1] == table[j] + 20.0
    ensures forall j :: 0 <= j < NClass + 8 ==> 0.0 <= table[j] <= TopCents
  {
    forall j | 4 <= j < NClass + 3
      ensures table[j + 1] == table[j] + 20.0
    {
      assert table[j + 1] == 20.0 * (j + 1 - 4) as real + CentsOffset;
    }
  }

  // ---------------------------------------------------------------------------
  // mel2hidden
  // ---------------------------------------------------------------------------

  datatype RmvpeError =
    | NoFrames              // nothing to concatenate
    | PadTooLarge           // torch's reflect padding needs fewer pad frames than input frames
    | ChunkNotMultipleOf32  // the chunk-length assertion

  /** `32 * ((n - 1) // 32 + 1)` with Python's floor division (0 for n = 0). */
  function PaddedLength(n: nat): (m: nat)
    ensures m % 32 == 0 && n <= m < n + 32
  {
    if n == 0 then 0 else 32 * ((n - 1) / 32 + 1)
  }

  /** Torch's right-hand reflect padding by p frames (without the edge frame). */
  function ReflectTail<T>(x: seq<T>, p: nat): (r: seq<T>)
    requires p < |x|
    ensures |r| == |x| + p
    ensures r[..|x|] == x
    ensures forall j :: |x| <= j < |x| + p ==> r[j] == x[2 * |x| - 2 - j]
  {
    x + seq(p, j requires 0 <= j < p => x[|x| - 2 - j])
  }

  /** The chunk loop from frame `start` on: each chunk is the next
      `chunkSize` frames (fewer at the end); a chunk whose length is not a
      multiple of 32 fails the assertion. */
  function RunChunks<A, B>(model: seq<A> -> seq<B>, x: seq<A>, start: nat, chunkSize: nat): Result<seq<seq<B>>, RmvpeError>
    requires chunkSize > 0
    decreases |x| - start
  {
    if start >= |x| then Ok([])
    else
      var chunk := x[start..Min(start + chunkSize, |x|)];
      if |chunk| % 32 != 0 then Err(ChunkNotMultipleOf32)
      else
        var rest :- RunChunks(model, x, start + chunkSize, chunkSize);
        Ok([model(chunk)] + rest)
  }

  /** `mel2hidden`: pad, run chunk by chunk, join the outputs, keep the
      first n frames. */
  function Mel2Hidden<A, B>(model: seq<A> -> seq<B>, mel: seq<A>, chunkSize: nat): Result<seq<B>, RmvpeError>
    requires chunkSize > 0
  {
    var n := |mel|;
    var p := PaddedLength(n) - n;
    if n == 0 then Err(NoFrames)
    else if p >= n then Err(PadTooLarge)
    else
      var outs :- RunChunks(model, ReflectTail(mel, p), 0, chunkSize);
      Ok(PySlice(Flatten(outs), 0, n))
  }

  /** The outputs gathered so far in front of those of the remaining chunks. */
  function Prepended<B>(outs: seq<seq<B>>, rest: Result<seq<seq<B>>, RmvpeError>): Result<seq<seq<B>>, RmvpeError>
  {
    if rest.Err? then rest else Ok(outs + rest.value)
  }

  /** The imperative `mel2hidden`: the `range(0, pad_frames, chunk_size)` loop
      appending one network output per chunk. */
  method RunMel2Hidden<A, B>(model: seq<A> -> seq<B>, mel: seq<A>, chunkSize: nat) returns (r: Result<seq<B>, RmvpeError>)
    requires chunkSize > 0
    ensures r == Mel2Hidden(model, mel, chunkSize)
  {
    var n := |mel|;
    var p := PaddedLength(n) - n;
    if n == 0 {
      return Err(NoFrames);
    } else if p >= n {
      return Err(PadTooLarge);
    }
    var padded := ReflectTail(mel, p);
    var outs: seq<seq<B>> := [];
    var start: nat := 0;
    ghost var all := RunChunks(model, padded, 0, chunkSize);
    assert all.Ok? ==> [] + all.value == all.value;
    while start < |padded|
      invariant all == Prepended(outs, RunChunks(model, padded, start, chunkSize))
      decreases |padded| - start
    {
      var end := Min(start + chunkSize, |padded|);
      var chunk := padded[start..end];
      if |chunk| % 32 != 0 {
        return Err(ChunkNotMultipleOf32);
      }
      RunChunksStep(model, padded, start, chunkSize, outs);
      outs := outs + [model(chunk)];
      start := start + chunkSize;
    }
    assert outs + [] == outs;
    r := Ok(PySlice(Flatten(outs), 0, n));
  }

  /** One aligned chunk moves its output from the remaining chunks to the
      gathered ones. */
  lemma RunChunksStep<A, B>(model: seq<A> -> seq<B>, x: seq<A>, start: nat, chunkSize: nat, outs: seq<seq<B>>)
    requires chunkSize > 0 && start < |x| && |x[start..Min(start + chunkSize, |x|)]| % 32 == 0
    ensures Prepended(outs, RunChunks(model, x, start, chunkSize))
            == Prepended(outs + [model(x[start..Min(start + chunkSize, |x|)])], RunChunks(model, x, start + chunkSize, chunkSize))
  {
    var rest := RunChunks(model, x, start + chunkSize, chunkSize);
    var out := model(x[start..Min(start + chunkSize, |x|)]);
    assert rest.Ok? ==> (outs + [out]) + rest.value == outs + ([out] + rest.value);
  }

  /** A chunk size that is a multiple of 32 never trips the assertion. */
  lemma {:induction false} AlignedChunksPass<A, B>(model: seq<A> -> seq<B>, x: seq<A>, start: nat, chunkSize: nat)
    requires chunkSize > 0 && chunkSize % 32 == 0 && |x| % 32 == 0 && start % 32 == 0
    ensures RunChunks(model, x, start, chunkSize).Ok?
    decreases |x| - start
  {
    if start < |x| {
      AlignedChunksPass(model, x, start + chunkSize, chunkSize);
    }
  }

  /** The assertion fails exactly when the chunk size is not a multiple of
      32 and the padded input does not fit in one chunk. */
  lemma ChunkAssertionIff<A, B>(model: seq<A> -> seq<B>, x: seq<A>, chunkSize: nat)
    requires chunkSize > 0 && |x| % 32 == 0
    ensures RunChunks(model, x, 0, chunkSize).Err? <==> chunkSize % 32 != 0 && chunkSize < |x|
  {
    if chunkSize % 32 == 0 {
      AlignedChunksPass(model, x, 0, chunkSize);
    } else if chunkSize >= |x| && |x| > 0 {
      assert x[0..Min(chunkSize, |x|)] == x;
    }
  }

  /** `mel2hidden` fails exactly when there are no frames, when the reflect
      padding is not shorter than the input, or when the chunk size is not a
      multiple of 32 and the padded input needs more than one chunk. */
  lemma Mel2HiddenOutcome<A, B>(model: seq<A> -> seq<B>, mel: seq<A>, chunkSize: nat)
    requires chunkSize > 0
    ensures var n := |mel|;
            (Mel2Hidden(model, mel, chunkSize).Ok? <==>
               n > 0 && PaddedLength(n) - n < n && (chunkSize % 32 == 0 || chunkSize >= PaddedLength(n)))
  {
    var n := |mel|;
    if n > 0 && PaddedLength(n) - n < n {
      ChunkAssertionIff(model, ReflectTail(mel, PaddedLength(n) - n), chunkSize);
    }
  }

  /** With a network that maps chunks to chunks of the same length, the
      joined outputs are the chunks' outputs back to back, with one output
      frame per input frame. */
  lemma {:induction false} RunChunksTile<A>(x: seq<A>, start: nat, chunkSize: nat)
    requires chunkSize > 0 && start <= |x|
    requires RunChunks((c: seq<A>) => c, x, start, chunkSize).Ok?
    ensures Flatten(RunChunks((c: seq<A>) => c, x, start, chunkSize).value) == x[start..]
    decreases |x| - start
  {
    if start < |x| {
      var id := (c: seq<A>) => c;
      var end := Min(start + chunkSize, |x|);
      var rest := RunChunks(id, x, start + chunkSize, chunkSize);
      assert RunChunks(id, x, start, chunkSize) == Ok([x[start..end]] + rest.value);
      FlattenCons(x[start..end], rest.value);
      if start + chunkSize <= |x| {
        RunChunksTile(x, start + chunkSize, chunkSize);
        assert x[start..end] + x[start + chunkSize..] == x[start..];
      } else {
        assert rest.value == [];
      }
    }
  }

  /** With a network that keeps the number of frames, the joined outputs
      have one frame per input frame from `start` on. */
  lemma {:induction false} RunChunksLength<A, B>(model: seq<A> -> seq<B>, x: seq<A>, start: nat, chunkSize: nat)
    requires chunkSize > 0 && start <= |x|
    requires forall c :: |model(c)| == |c|
    requires RunChunks(model, x, start, chunkSize).Ok?
    ensures |Flatten(RunChunks(model, x, start, chunkSize).value)| == |x| - start
    decreases |x| - start
  {
    if start < |x| {
      var end := Min(start + chunkSize, |x|);
      var rest := RunChunks(model, x, start + chunkSize, chunkSize);
      FlattenCons(model(x[start..end]), rest.value);
      if start + chunkSize <= |x| {
        RunChunksLength(model, x, start + chunkSize, chunkSize);
      } else {
        assert rest == Ok([]);
      }
    }
  }

  /** With such a network `mel2hidden` returns exactly one frame per mel frame. */
  lemma Mel2HiddenLength<A, B>(model: seq<A> -> seq<B>, mel: seq<A>, chunkSize: nat)
    requires chunkSize > 0
    requires forall c :: |model(c)| == |c|
    requires Mel2Hidden(model, mel, chunkSize).Ok?
    ensures |Mel2Hidden(model, mel, chunkSize).value| == |mel|
  {
    var n := |mel|;
    RunChunksLength(model, ReflectTail(mel, PaddedLength(n) - n), 0, chunkSize);
  }

  /** Padding, chunking, joining and trimming lose and duplicate nothing:
      through the identity network `mel2hidden` returns its input. */
  lemma Mel2HiddenRoundTrip<A>(mel: seq<A>, chunkSize: nat)
    requires chunkSize > 0
    requires Mel2Hidden((c: seq<A>) => c, mel, chunkSize).Ok?
    ensures Mel2Hidden((c: seq<A>) => c, mel, chunkSize) == Ok(mel)
  {
    var n := |mel|;
    var padded := ReflectTail(mel, PaddedLength(n) - n);
    RunChunksTile(padded, 0, chunkSize);
    assert padded[0..] == padded;
  }

  // ---------------------------------------------------------------------------
  // to_local_average_cents
  // ---------------------------------------------------------------------------

  /** `np.argmax`: the first index of the largest value. */
  function ArgMax(row: seq<real>): (k: nat)
    requires row != []
    ensures k < |row|
    ensures forall j :: 0 <= j < |row| ==> row[j] <= row[k]
    ensures forall j :: 0 <= j < k ==> row[j] < row[k]
  {
    if |row| == 1 then 0
    else
      var k := ArgMax(row[..|row| - 1]);
      assert forall j :: 0 <= j < |row| - 1 ==> row[..|row| - 1][j] == row[j];
      if row[|row| - 1] > row[k] then |row| - 1 else k
  }

  /** A salience row: one sigmoid output in [0, 1] per pitch class. */
  predicate IsSalience(row: seq<real>)
  {
    |row| == NClass && forall j :: 0 <= j < |row| ==> 0.0 <= row[j] <= 1.0
  }

  /** The row with 4 zeros on each side. */
  function PadRow(row: seq<real>): (r: seq<real>)
    ensures |r| == |row| + 8
  {
    [0.0, 0.0, 0.0, 0.0] + row + [0.0, 0.0, 0.0, 0.0]
  }

  /** Σ w[i] · v[i], accumulated left to right. */
  function Dot(w: seq<real>, v: seq<real>): real
    requires |w| == |v|
  {
    if w == [] then 0.0 else Dot(w[..|w| - 1], v[..|v| - 1]) + w[|w| - 1] * v[|v| - 1]
  }

  /** The salience-weighted mean of the 9 table entries around the peak, or
      0 when the padded row's maximum does not exceed the threshold. */
  function LocalAverageCents(row: seq<real>, thred: real): real
    requires |row| == NClass
  {
    var c := ArgMax(row);
    var padded := PadRow(row);
    var salience := padded[c..c + 9];
    var cents := CentsMapping()[c..c + 9];
    var maxx := padded[ArgMax(padded)];
    if maxx <= thred then 0.0
    else if Sum(salience) == 0.0 then 0.0
    else Dot(salience, cents) / Sum(salience)
  }

  /** Padding with zeros does not change the peak of a non-negative row, and
      the row's peak sits at its argmax plus 4 in the padded row. */
  lemma PadRowPeak(row: seq<real>)
    requires IsSalience(row)
    ensures PadRow(row)[ArgMax(row) + 4] == row[ArgMax(row)]
    ensures PadRow(row)[ArgMax(PadRow(row))] == row[ArgMax(row)]
  {
    var c, padded := ArgMax(row), PadRow(row);
    var m := ArgMax(padded);
    assert padded[c + 4] == row[c];
    if 4 <= m < NClass + 4 {
      assert padded[m] == row[m - 4];
    }
  }

  /** The 9-bin window `[argmax, argmax + 9)` of the padded row: its weights
      are non-negative, its table entries lie in [0, TopCents], and its
      middle bin is the peak, paired with the peak class's (positive) cents. */
  lemma LocalWindow(row: seq<real>)
    requires IsSalience(row)
    ensures var c := ArgMax(row);
            var salience, cents := PadRow(row)[c..c + 9], CentsMapping()[c..c + 9];
            && (forall i :: 0 <= i < 9 ==> salience[i] >= 0.0 && 0.0 <= cents[i] <= TopCents)
            && salience[4] == row[c] && cents[4] > 0.0
  {
    var c, padded, table := ArgMax(row), PadRow(row), CentsMapping();
    CentsMappingLayout(table);
    PadRowPeak(row);
    var window := padded[c..c + 9];
    forall i | 0 <= i < 9 ensures window[i] >= 0.0 {
      if 4 <= c + i < NClass + 4 {
        assert window[i] == row[c + i - 4];
      }
    }
    assert table[c + 4] == 20.0 * c as real + CentsOffset;
  }

  lemma {:induction false} SumNonNegative(s: seq<real>)
    requires forall i :: 0 <= i < |s| ==> s[i] >= 0.0
    ensures Sum(s) >= 0.0
  {
    if s != [] {
      SumNonNegative(s[..|s| - 1]);
    }
  }

  /** A non-negative sequence with one positive entry has a positive sum. */
  lemma {:induction false} SumPositiveEntry(s: seq<real>, k: nat)
    requires k < |s| && s[k] > 0.0 && forall i :: 0 <= i < |s| ==> s[i] >= 0.0
    ensures Sum(s) > 0.0
  {
    if k == |s| - 1 {
      SumNonNegative(s[..|s| - 1]);
    } else {
      SumPositiveEntry(s[..|s| - 1], k);
    }
  }

  lemma ProductBounds(w: real, v: real, top: real)
    requires w >= 0.0 && 0.0 <= v <= top
    ensures 0.0 <= w * v <= w * top
  {
  }

  /** With non-negative weights and values in [0, top], the dot product is
      between 0 and top times the total weight. */
  lemma {:induction false} DotBounds(w: seq<real>, v: seq<real>, top: real)
    requires |w| == |v|
    requires forall i :: 0 <= i < |w| ==> w[i] >= 0.0 && 0.0 <= v[i] <= top
    ensures 0.0 <= Dot(w, v) <= top * Sum(w)
  {
    if w != [] {
      var n := |w| - 1;
      DotBounds(w[..n], v[..n], top);
      ProductBounds(w[n], v[n], top);
    }
  }

  /** One positive product makes a dot product of non-negative terms positive. */
  lemma {:induction false} DotPositive(w: seq<real>, v: seq<real>, k: nat, top: real)
    requires |w| == |v| && k < |w|
    requires forall i :: 0 <= i < |w| ==> w[i] >= 0.0 && 0.0 <= v[i] <= top
    requires w[k] > 0.0 && v[k] > 0.0
    ensures Dot(w, v) > 0.0
  {
    var n := |w| - 1;
    if k == n {
      DotBounds(w[..n], v[..n], top);
    } else {
      DotPositive(w[..n], v[..n], k, top);
      ProductBounds(w[n], v[n], top);
    }
  }

  lemma DivideBounds(a: real, b: real, top: real)
    requires b > 0.0 && 0.0 < a <= top * b
    ensures 0.0 < a / b <= top
  {
    var q := a / b;
    assert q * b == a;
  }

  /** A frame is unvoiced (0 cents) exactly when its largest salience does
      not exceed the threshold; otherwise its cents are a weighted mean of
      table entries, positive and at most the top class's cents. */
  lemma LocalAverageCentsBounds(row: seq<real>, thred: real)
    requires IsSalience(row) && thred >= 0.0
    ensures 0.0 <= LocalAverageCents(row, thred) <= TopCents
    ensures LocalAverageCents(row, thred) == 0.0 <==> row[ArgMax(row)] <= thred
  {
    var c := ArgMax(row);
    var salience, cents := PadRow(row)[c..c + 9], CentsMapping()[c..c + 9];
    PadRowPeak(row);
    LocalWindow(row);
    if row[c] > thred {
      SumPositiveEntry(salience, 4);
      DotPositive(salience, cents, 4, TopCents);
      DotBounds(salience, cents, TopCents);
      DivideBounds(Dot(salience, cents), Sum(salience), TopCents);
    }
  }

  /** `to_local_average_cents`: the loop over the rows of the salience matrix. */
  method ToLocalAverageCents(salience: seq<seq<real>>, thred: real) returns (cents: seq<real>)
    requires forall i :: 0 <= i < |salience| ==> |salience[i]| == NClass
    ensures |cents| == |salience|
    ensures forall i :: 0 <= i < |salience| ==> cents[i] == LocalAverageCents(salience[i], thred)
  {
    cents := [];
    for idx := 0 to |salience|
      invariant |cents| == idx
      invariant forall i :: 0 <= i < idx ==> cents[i] == LocalAverageCents(salience[i], thred)
    {
      cents := cents + [LocalAverageCents(salience[idx], thred)];
    }
  }

  // ---------------------------------------------------------------------------
  // decode and the range mask
  // ---------------------------------------------------------------------------

  /** `10 · 2^(cents / 1200)`, with the 10 Hz of 0 cents replaced by 0. */
  function CentsToHz(t: Transcendentals, cents: real): real
  {
    var f0 := 10.0 * t.exp2(cents / 1200.0);
    if f0 == 10.0 then 0.0 else f0
  }

  /** 0 cents decodes to 0 Hz and any positive cents to more than 10 Hz, so
      the decoded F0 is 0 exactly for the frames judged unvoiced. */
  lemma CentsToHzUnvoiced(t: Transcendentals, cents: real)
    requires Lawful(t) && cents >= 0.0
    ensures CentsToHz(t, cents) == 0.0 <==> cents == 0.0
    ensures cents > 0.0 ==> CentsToHz(t, cents) > 10.0
  {
    if cents > 0.0 {
      assert 0.0 < cents / 1200.0;
      assert t.exp2(0.0) < t.exp2(cents / 1200.0);
    } else {
      assert cents / 1200.0 == 0.0;
    }
  }

  /** `decode`: one F0 value per salience row. */
  function Decode(t: Transcendentals, hidden: seq<seq<real>>, thred: real): (f0: seq<real>)
    requires forall i :: 0 <= i < |hidden| ==> |hidden[i]| == NClass
    ensures |f0| == |hidden|
  {
    seq(|hidden|, i requires 0 <= i < |hidden| => CentsToHz(t, LocalAverageCents(hidden[i], thred)))
  }

  /** A decoded frame is 0 Hz exactly when its peak salience is at most the
      threshold, and otherwise above 10 Hz. */
  lemma DecodeUnvoicedIff(t: Transcendentals, hidden: seq<seq<real>>, thred: real, i: nat)
    requires Lawful(t) && thred >= 0.0 && i < |hidden|
    requires forall j :: 0 <= j < |hidden| ==> |hidden[j]| == NClass && IsSalience(hidden[j])
    ensures Decode(t, hidden, thred)[i] == 0.0 <==> hidden[i][ArgMax(hidden[i])] <= thred
    ensures Decode(t, hidden, thred)[i] != 0.0 ==> Decode(t, hidden, thred)[i] > 10.0
  {
    LocalAverageCentsBounds(hidden[i], thred);
    CentsToHzUnvoiced(t, LocalAverageCents(hidden[i], thred));
  }

  /** `f0[(f0 < f0_min) | (f0 > f0_max)] = 0`. */
  function MaskRange(f0: seq<real>, f0Min: real, f0Max: real): (r: seq<real>)
    ensures |r| == |f0|
  {
    seq(|f0|, i requires 0 <= i < |f0| => if f0[i] < f0Min || f0[i] > f0Max then 0.0 else f0[i])
  }

  /** After the mask every value is 0 or within [f0Min, f0Max], values in
      range are kept, and masking again changes nothing. */
  lemma MaskRangeSpec(f0: seq<real>, f0Min: real, f0Max: real)
    requires 0.0 <= f0Min
    ensures forall i :: 0 <= i < |f0| ==>
              var m := MaskRange(f0, f0Min, f0Max)[i];
              m == 0.0 || f0Min <= m <= f0Max
    ensures forall i :: 0 <= i < |f0| && f0Min <= f0[i] <= f0Max ==> MaskRange(f0, f0Min, f0Max)[i] == f0[i]
    ensures MaskRange(MaskRange(f0, f0Min, f0Max), f0Min, f0Max) == MaskRange(f0, f0Min, f0Max)
  {
  }

  /** Every frame `mel2hidden` returns is a frame some network call produced,
      so a property of every network output frame holds of every result frame. */
  lemma Mel2HiddenKeeps<A, B>(model: seq<A> -> seq<B>, mel: seq<A>, chunkSize: nat, ok: B -> bool)
    requires chunkSize > 0
    requires forall x, i :: 0 <= i < |model(x)| ==> ok(model(x)[i])
    ensures Mel2Hidden(model, mel, chunkSize).Ok? ==>
              var hidden := Mel2Hidden(model, mel, chunkSize).value;
              forall i :: 0 <= i < |hidden| ==> ok(hidden[i])
  {
    var n := |mel|;
    if n > 0 && PaddedLength(n) - n < n {
      var padded := ReflectTail(mel, PaddedLength(n) - n);
      RunChunksKeeps(model, padded, 0, chunkSize, ok);
      var outs := RunChunks(model, padded, 0, chunkSize);
      if outs.Ok? {
        FlattenKeeps(outs.value, ok);
      }
    }
  }

  lemma {:induction false} RunChunksKeeps<A, B>(model: seq<A> -> seq<B>, x: seq<A>, start: nat, chunkSize: nat, ok: B -> bool)
    requires chunkSize > 0
    requires forall x, i :: 0 <= i < |model(x)| ==> ok(model(x)[i])
    ensures RunChunks(model, x, start, chunkSize).Ok? ==> EveryFrame(RunChunks(model, x, start, chunkSize).value, ok)
    decreases |x| - start
  {
    if start < |x| {
      RunChunksKeeps(model, x, start + chunkSize, chunkSize, ok);
      var r := RunChunks(model, x, start, chunkSize);
      if r.Ok? {
        var chunk := x[start..Min(start + chunkSize, |x|)];
        var rest := RunChunks(model, x, start + chunkSize, chunkSize).value;
        assert r.value == [model(chunk)] + rest;
        forall k, i | 0 <= k < |r.value| && 0 <= i < |r.value[k]| ensures ok(r.value[k][i]) {
          if k > 0 {
            assert r.value[k] == rest[k - 1];
          } else {
            assert r.value[k] == model(chunk);
            assert ok(model(chunk)[i]);
          }
        }
      }
    }
  }

  /** Every frame of every chunk output satisfies ok. */
  ghost predicate EveryFrame<B>(outs: seq<seq<B>>, ok: B -> bool)
  {
    forall k, i :: 0 <= k < |outs| && 0 <= i < |outs[k]| ==> ok(outs[k][i])
  }

  lemma {:induction false} FlattenKeeps<B>(outs: seq<seq<B>>, ok: B -> bool)
    requires EveryFrame(outs, ok)
    ensures forall i :: 0 <= i < |Flatten(outs)| ==> ok(Flatten(outs)[i])
  {
    if outs != [] {
      var front := outs[..|outs| - 1];
      assert forall k :: 0 <= k < |front| ==> front[k] == outs[k];
      FlattenKeeps(front, ok);
    }
  }

  /** `infer_from_audio_modified`: mel frames from the audio, salience from
      the network, F0 decoded at the threshold, masked to the range and
      median-filtered. The mel extractor, the network and the median filter
      are parameters. */
  function InferFromAudioModified(t: Transcendentals, melOf: seq<real> -> seq<seq<real>>,
                                  model: seq<seq<real>> -> seq<seq<real>>, medfilt: seq<real> -> seq<real>,
                                  audio: seq<real>, thred: real, f0Min: real, f0Max: real): Result<seq<real>, RmvpeError>
    requires SalienceModel(model)
  {
    var hidden :- Mel2Hidden(model, melOf(audio), 32000);
    Mel2HiddenKeeps(model, melOf(audio), 32000, IsSalience);
    Ok(medfilt(MaskRange(Decode(t, hidden, thred), f0Min, f0Max)))
  }

  /** `infer_from_audio_modified` fails exactly when `mel2hidden` does, and
      otherwise returns the median filter applied to a curve with one value
      per hidden frame, each either 0 or within [f0Min, f0Max]. */
  lemma InferFromAudioModifiedOutcome(t: Transcendentals, melOf: seq<real> -> seq<seq<real>>,
                                      model: seq<seq<real>> -> seq<seq<real>>, medfilt: seq<real> -> seq<real>,
                                      audio: seq<real>, thred: real, f0Min: real, f0Max: real)
    requires SalienceModel(model) && 0.0 <= f0Min
    ensures var r := InferFromAudioModified(t, melOf, model, medfilt, audio, thred, f0Min, f0Max);
            var h := Mel2Hidden(model, melOf(audio), 32000);
            && (r.Ok? <==> h.Ok?)
            && (r.Ok? ==> exists m :: r.value == medfilt(m) && |m| == |h.value|
                                      && forall i :: 0 <= i < |m| ==> m[i] == 0.0 || f0Min <= m[i] <= f0Max)
  {
    var h := Mel2Hidden(model, melOf(audio), 32000);
    if h.Ok? {
      Mel2HiddenKeeps(model, melOf(audio), 32000, IsSalience);
      var m := MaskRange(Decode(t, h.value, thred), f0Min, f0Max);
      MaskRangeSpec(Decode(t, h.value, thred), f0Min, f0Max);
      assert InferFromAudioModified(t, melOf, model, medfilt, audio, thred, f0Min, f0Max).value == medfilt(m);
    }
  }

  /** The network yields one salience row per input frame. */
  ghost predicate SalienceModel(model: seq<seq<real>> -> seq<seq<real>>)
  {
    forall x, i :: 0 <= i < |model(x)| ==> IsSalience(model(x)[i])
  }
}
