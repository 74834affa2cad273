/** Training-data preparation: the coarse pitch codes stored next to each
    sliced clip (`DataPreprocessor.coarse_f0`), the choice of F0 back-end
    (`compute_f0`), and the assembly of `filelist.txt` (`generate_filelist`),
    which pairs every clip present in all four data directories with its
    speaker id, adds silent "mute" entries per speaker and shuffles the lines. */
module TrainingData {
  import opened Util
  import opened Numerics
  import opened Text
  import opened CoarsePitch
  import opened PitchMethods

  // ---------------------------------------------------------------------------
  // Pitch features of one clip
  // ---------------------------------------------------------------------------

  /** The fixed F0 range of preprocessing, in Hz. */
  const F0Min: real := 50.0
  const F0Max: real := 1100.0

  /** `coarse_f0`: the shared quantiser with the mel bounds of 50 Hz and
      1100 Hz. On a non-empty curve every code lies in [1, 255], so the
      closing assertion holds; on an empty curve `f0_coarse.max()` raises
      before the assertion is evaluated. */
  function CoarseF0(t: Transcendentals, f0: seq<real>): (r: Result<seq<int>, PreprocessError>)
    requires Lawful(t)
    ensures r.Err? <==> f0 == []
    ensures r.Err? ==> r.error == EmptyCurve
    ensures r.Ok? ==> |r.value| == |f0|
    ensures r.Ok? ==> forall i :: 0 <= i < |r.value| ==> 1 <= r.value[i] <= 255
  {
    if f0 == [] then Err(EmptyCurve)
    else
      MelBoundsOrdered(t, F0Min, F0Max);
      Ok(Quantise(t, f0, Mel(t, F0Min), Mel(t, F0Max)))
  }

  /** The quantiser works frame by frame: a code depends only on its own F0;
      unvoiced frames get code 1 and frames at or above 1100 Hz get 255. */
  lemma CoarseF0PerFrame(t: Transcendentals, f0: seq<real>, i: nat)
    requires Lawful(t) && i < |f0|
    ensures CoarseF0(t, f0).Ok? && CoarseF0(t, [f0[i]]).Ok?
    ensures CoarseF0(t, f0).value[i] == CoarseF0(t, [f0[i]]).value[0]
    ensures f0[i] == 0.0 ==> CoarseF0(t, f0).value[i] == 1
    ensures f0[i] >= F0Max ==> CoarseF0(t, f0).value[i] == 255
  {
    MelBoundsOrdered(t, F0Min, F0Max);
    if f0[i] == 0.0 {
      UnvoicedIsCodeOne(t, Mel(t, F0Min), Mel(t, F0Max));
    }
    if f0[i] >= F0Max {
      HighF0ClipsToTop(t, f0[i], F0Min, F0Max);
    }
  }

  /** A higher F0 never gets a lower code. */
  lemma CoarseF0Monotone(t: Transcendentals, f0: seq<real>, i: nat, j: nat)
    requires Lawful(t) && i < |f0| && j < |f0| && 0.0 <= f0[i] <= f0[j]
    ensures CoarseF0(t, f0).Ok?
    ensures CoarseF0(t, f0).value[i] <= CoarseF0(t, f0).value[j]
  {
    MelBoundsOrdered(t, F0Min, F0Max);
    CoarseCodeMonotone(t, f0[i], f0[j], Mel(t, F0Min), Mel(t, F0Max));
  }

  datatype PreprocessError =
    | F0Unbound   // the method name matched no branch, so `f0` was never assigned
    | EmptyCurve  // `max()` of a zero-size array raises ValueError

  /** `compute_f0`: the back-end named on the command line, called with the
      fixed 50–1100 Hz range; an unknown name leaves `f0` unassigned. */
  function ComputeF0(estimate: BackendCall -> seq<real>, name: string, audio: seq<real>, pLen: Option<nat>): (r: Result<seq<real>, PreprocessError>)
    ensures r.Ok? <==> name in KnownNames
    ensures r.Ok? ==> exists m :: NameOf(m) == name && r.value == estimate(CallFor(m, audio, F0Min, F0Max, pLen))
  {
    var m := ParseF0Method(name);
    if m.None? then Err(F0Unbound) else Ok(estimate(CallFor(m.value, audio, F0Min, F0Max, pLen)))
  }

  // ---------------------------------------------------------------------------
  // The file list
  // ---------------------------------------------------------------------------

  /** The four data directories of an experiment. */
  datatype Layout = Layout(gtWavs: string, features: string, f0: string, f0nsf: string)

  /** `os.path.join(model_path, "data", …)` for the four directories. */
  function LayoutOf(modelPath: string): Layout
  {
    var data := PathJoin(modelPath, "data");
    Layout(PathJoin(data, "sliced_audios"), PathJoin(data, "features"), PathJoin(data, "f0_quantized"), PathJoin(data, "f0_voiced"))
  }

  /** `os.path.join(os.getcwd(), "rvc", "train", "preprocess", "mute")`. */
  function MuteBase(cwd: string): string
  {
    PathJoin(PathJoin(PathJoin(PathJoin(cwd, "rvc"), "train"), "preprocess"), "mute")
  }

  /** The contents (`os.listdir`) of the four directories. */
  datatype Listings = Listings(gtWavs: seq<string>, features: seq<string>, f0: seq<string>, f0nsf: seq<string>)

  /** A clip's name: the file name up to its first ".". */
  function Stem(fileName: string): string
  {
    PrefixBefore(fileName, '.')
  }

  /** A speaker id: the clip name up to its first "_". */
  function SidOf(name: string): string
  {
    PrefixBefore(name, '_')
  }

  function Stems(listing: seq<string>): set<string>
  {
    set f | f in listing :: Stem(f)
  }

  /** The clips present in all four directories. */
  function CommonNames(l: Listings): (names: set<string>)
    ensures forall name :: name in names <==>
              name in Stems(l.gtWavs) && name in Stems(l.features) && name in Stems(l.f0) && name in Stems(l.f0nsf)
  {
    Stems(l.gtWavs) * Stems(l.features) * Stems(l.f0) * Stems(l.f0nsf)
  }

  /** The fields of a clip's line: its audio, features, quantised and
      voiced F0 files, and its speaker id. */
  function ClipFields(d: Layout, name: string): seq<string>
  {
    [PathJoin(d.gtWavs, name) + ".wav", PathJoin(d.features, name) + ".npy", PathJoin(d.f0, name) + ".wav.npy",
     PathJoin(d.f0nsf, name) + ".wav.npy", SidOf(name)]
  }

  /** The line of one clip: its fields separated by "|". */
  function TrainingLine(d: Layout, name: string): string
  {
    Join(ClipFields(d, name), '|')
  }

  /** The four files of the silent clip; the audio file is the one of the
      sample rate. */
  function MuteFiles(muteBase: string, sampleRate: int): seq<string>
  {
    [MutePath(muteBase, "sliced_audios", "mute" + Decimal(sampleRate) + ".wav"),
     MutePath(muteBase, "features", "mute.npy"),
     MutePath(muteBase, "f0_quantized", "mute.wav.npy"),
     MutePath(muteBase, "f0_voiced", "mute.wav.npy")]
  }

  /** A file of the silent clip: `os.path.join(mute_base, dir, file)`. */
  function MutePath(muteBase: string, dir: string, file: string): string
  {
    PathJoin(PathJoin(muteBase, dir), file)
  }

  /** A silent entry for one speaker. */
  function MuteLine(muteBase: string, sampleRate: int, sid: string): string
  {
    Join(MuteFiles(muteBase, sampleRate) + [sid], '|')
  }

  function SidsOf(names: seq<string>): (sids: seq<string>)
    ensures |sids| == |names| && forall i :: 0 <= i < |names| ==> sids[i] == SidOf(names[i])
  {
    seq(|names|, i requires 0 <= i < |names| => SidOf(names[i]))
  }

  predicate NoDuplicates<T(==)>(s: seq<T>)
  {
    forall i, j :: 0 <= i < j < |s| ==> s[i] != s[j]
  }

  /** The distinct elements of s in order of first occurrence. */
  function FirstSeen<T(==,!new)>(s: seq<T>): (r: seq<T>)
    ensures NoDuplicates(r)
    ensures forall x :: x in r <==> x in s
  {
    if s == [] then []
    else
      var front := FirstSeen(s[..|s| - 1]);
      assert forall x :: x in s[..|s| - 1] ==> x in s;
      assert forall x :: x in s ==> x in s[..|s| - 1] || x == s[|s| - 1];
      if s[|s| - 1] in front then front else front + [s[|s| - 1]]
  }

  /** Python's `s * m`: s repeated m times, empty for m <= 0. */
  function Repeat<T>(s: seq<T>, m: int): seq<T>
  {
    if m <= 0 then [] else Repeat(s, m - 1) + s
  }

  /** `s * m` has m times as many elements as s. */
  lemma {:induction false} RepeatLength<T>(s: seq<T>, m: int)
    ensures |Repeat(s, m)| == if m > 0 then m * |s| else 0
  {
    if m > 0 {
      RepeatLength(s, m - 1);
      assert (m - 1) * |s| + |s| == m * |s|;
    }
  }

  /** The lines of the clips, in the given order. */
  function ClipLines(d: Layout, names: seq<string>): (lines: seq<string>)
    ensures |lines| == |names|
  {
    if names == [] then [] else ClipLines(d, names[..|names| - 1]) + [TrainingLine(d, names[|names| - 1])]
  }

  /** The mute lines of the given speaker ids, in order. */
  function MuteLinesOf(muteFiles: seq<string>, sids: seq<string>): (lines: seq<string>)
    ensures |lines| == |sids|
  {
    if sids == [] then [] else MuteLinesOf(muteFiles, sids[..|sids| - 1]) + [Join(muteFiles + [sids[|sids| - 1]], '|')]
  }

  /** The speaker ids that get a mute line: `sids * include_mutes` when the
      count is positive, none otherwise. */
  function MuteSids(order: seq<string>, includeMutes: int): seq<string>
  {
    if includeMutes > 0 then Repeat(FirstSeen(SidsOf(order)), includeMutes) else []
  }

  /** Everything `generate_filelist` writes, in the order it assembles it
      before shuffling: one line per clip in the set's iteration order, then
      the mute lines. */
  function Options(d: Layout, muteFiles: seq<string>, includeMutes: int, order: seq<string>): seq<string>
  {
    ClipLines(d, order) + MuteLinesOf(muteFiles, MuteSids(order, includeMutes))
  }

  /** `generate_filelist`. `order` is the iteration order of the set of common
      names (each exactly once), and `draws` are the random generator's
      outputs consumed by `random.shuffle`; the result is the list of lines
      and the text written to `filelist.txt`. */
  method GenerateFilelist(modelPath: string, cwd: string, sampleRate: int, includeMutes: int,
                          listings: Listings, order: seq<string>, draws: seq<nat>) returns (lines: seq<string>, text: string)
    requires multiset(order) == multiset(CommonNames(listings))
    ensures multiset(lines) == multiset(Options(LayoutOf(modelPath), MuteFiles(MuteBase(cwd), sampleRate), includeMutes, order))
    ensures text == Join(lines, '\n')
  {
    var d := LayoutOf(modelPath);
    var files := MuteFiles(MuteBase(cwd), sampleRate);
    var sids, options := CollectClips(d, order);
    var mutes: seq<string> := [];
    if includeMutes > 0 {
      mutes := MuteLines(files, Repeat(sids, includeMutes));
    }
    options := options + mutes;
    lines := Shuffle(options, draws);
    text := Join(lines, '\n');
  }

  /** The loop over the common names: the speaker ids in order of first
      appearance and one line per clip. */
  method CollectClips(d: Layout, order: seq<string>) returns (sids: seq<string>, options: seq<string>)
    ensures sids == FirstSeen(SidsOf(order))
    ensures options == ClipLines(d, order)
  {
    sids, options := [], [];
    for k := 0 to |order|
      invariant sids == FirstSeen(SidsOf(order[..k]))
      invariant options == ClipLines(d, order[..k])
    {
      var sid := SidOf(order[k]);
      assert SidsOf(order[..k + 1])[..k] == SidsOf(order[..k]);
      assert order[..k + 1][..k] == order[..k];
      if sid !in sids {
        sids := sids + [sid];
      }
      options := options + [TrainingLine(d, order[k])];
    }
    assert order[..|order|] == order;
  }

  /** The loop over `sids * include_mutes`: one line per entry, the four
      mute files (computed once, before the loop) followed by the id. */
  method MuteLines(files: seq<string>, mutes: seq<string>) returns (options: seq<string>)
    ensures options == MuteLinesOf(files, mutes)
  {
    options := [];
    for k := 0 to |mutes|
      invariant options == MuteLinesOf(files, mutes[..k])
    {
      assert mutes[..k + 1][..k] == mutes[..k];
      options := options + [Join(files + [mutes[k]], '|')];
    }
    assert mutes[..|mutes|] == mutes;
  }

  /** `random.shuffle`: Fisher–Yates from the back, position i swapped with
      position `draws[k] % (i + 1)`, on a list the method owns. */
  method Shuffle(s: seq<string>, draws: seq<nat>) returns (r: seq<string>)
    ensures multiset(r) == multiset(s)
  {
    var a := new string[|s|](i requires 0 <= i < |s| => s[i]);
    assert a[..] == s;
    var i := |s| - 1;
    while i > 0
      invariant i < |s| && multiset(a[..]) == multiset(s)
      decreases i
    {
      var k := |s| - 1 - i;
      var j := if k < |draws| then draws[k] % (i + 1) else 0;
      a[i], a[j] := a[j], a[i];
      i := i - 1;
    }
    r := a[..];
  }

  // ---------------------------------------------------------------------------
  // What the file list promises
  // ---------------------------------------------------------------------------

  /** One line per clip, plus `include_mutes` lines per distinct speaker when
      that count is positive and none otherwise. */
  lemma OptionsCount(d: Layout, muteFiles: seq<string>, includeMutes: int, order: seq<string>)
    ensures |Options(d, muteFiles, includeMutes, order)|
            == |order| + (if includeMutes > 0 then includeMutes * |FirstSeen(SidsOf(order))| else 0)
  {
    RepeatLength(FirstSeen(SidsOf(order)), includeMutes);
  }

  /** Line i of the clip lines is the line of clip i. */
  lemma {:induction false} ClipLinesAt(d: Layout, names: seq<string>, i: nat)
    requires i < |names|
    ensures ClipLines(d, names)[i] == TrainingLine(d, names[i])
  {
    if i < |names| - 1 {
      ClipLinesAt(d, names[..|names| - 1], i);
    }
  }

  /** Line i of the mute lines is the mute files followed by speaker i. */
  lemma {:induction false} MuteLinesAt(muteFiles: seq<string>, sids: seq<string>, i: nat)
    requires i < |sids|
    ensures MuteLinesOf(muteFiles, sids)[i] == Join(muteFiles + [sids[i]], '|')
  {
    if i < |sids| - 1 {
      MuteLinesAt(muteFiles, sids[..|sids| - 1], i);
    }
  }

  /** Before shuffling, the first lines are those of the clips present in all
      four directories, one per clip, and the rest are mute lines; every line
      ends with its speaker id. */
  lemma OptionsLayout(l: Listings, d: Layout, muteFiles: seq<string>, includeMutes: int, order: seq<string>, i: nat)
    requires multiset(order) == multiset(CommonNames(l))
    requires i < |Options(d, muteFiles, includeMutes, order)|
    ensures i < |order| ==>
              Options(d, muteFiles, includeMutes, order)[i] == TrainingLine(d, order[i]) && order[i] in CommonNames(l)
    ensures i >= |order| ==>
              Options(d, muteFiles, includeMutes, order)[i] == Join(muteFiles + [MuteSids(order, includeMutes)[i - |order|]], '|')
  {
    var clips, mutes := ClipLines(d, order), MuteLinesOf(muteFiles, MuteSids(order, includeMutes));
    if i < |order| {
      ClipLinesAt(d, order, i);
      assert Options(d, muteFiles, includeMutes, order)[i] == clips[i];
      OrderedMember(order, CommonNames(l), i);
    } else {
      MuteLinesAt(muteFiles, MuteSids(order, includeMutes), i - |order|);
      assert Options(d, muteFiles, includeMutes, order)[i] == mutes[i - |order|];
    }
  }

  /** An element of a list with the same elements as a set is in the set. */
  lemma OrderedMember<T>(order: seq<T>, names: set<T>, i: nat)
    requires multiset(order) == multiset(names) && i < |order|
    ensures order[i] in names
  {
    assert order[i] in multiset(order);
  }

  /** Each speaker id is recorded once, in the order in which its first clip
      is visited. */
  lemma {:induction false} FirstSeenOrder<T(!new)>(s: seq<T>, i: nat, j: nat)
    requires i < j < |FirstSeen(s)|
    ensures FirstIndex(s, FirstSeen(s)[i]) < FirstIndex(s, FirstSeen(s)[j])
  {
    var front := s[..|s| - 1];
    var f := FirstSeen(front);
    var r := FirstSeen(s);
    var last := s[|s| - 1];
    FirstIndexPrefix(s, r[i]);
    if j < |f| {
      FirstIndexPrefix(s, r[j]);
      FirstSeenOrder(front, i, j);
    } else {
      assert r[j] == last && last !in front;
      FirstIndexLast(s);
      FirstIndexBound(front, r[i]);
    }
  }

  lemma FirstIndexBound<T>(s: seq<T>, x: T)
    requires x in s
    ensures FirstIndex(s, x) < |s|
  {
  }

  /** An element of the front of s is first found where it is in the front. */
  lemma {:induction false} FirstIndexPrefix<T>(s: seq<T>, x: T)
    requires s != [] && x in s[..|s| - 1]
    ensures FirstIndex(s, x) == FirstIndex(s[..|s| - 1], x)
  {
    var front := s[..|s| - 1];
    if s[0] != x {
      assert front[1..] == s[1..][..|s| - 2];
      FirstIndexPrefix(s[1..], x);
    }
  }

  /** An element absent from the front of s is first found at the end. */
  lemma FirstIndexLast<T>(s: seq<T>)
    requires s != [] && s[|s| - 1] !in s[..|s| - 1]
    ensures FirstIndex(s, s[|s| - 1]) == |s| - 1
  {
  }

  /** In `s * m` every element of s occurs m times as often as in s. */
  lemma {:induction false} RepeatCount<T>(s: seq<T>, m: int, x: T)
    ensures multiset(Repeat(s, m))[x] == if m > 0 then m * multiset(s)[x] else 0
  {
    if m > 0 {
      RepeatCount(s, m - 1, x);
      ConcatCount(Repeat(s, m - 1), s, x);
      MulPred(m, multiset(s)[x]);
    }
  }

  lemma ConcatCount<T>(a: seq<T>, b: seq<T>, x: T)
    ensures multiset(a + b)[x] == multiset(a)[x] + multiset(b)[x]
  {
  }

  lemma MulPred(m: int, c: int)
    ensures (m - 1) * c + c == m * c
  {
  }

  lemma {:induction false} NoDuplicatesCount<T>(s: seq<T>, x: T)
    requires NoDuplicates(s)
    ensures multiset(s)[x] == if x in s then 1 else 0
  {
    if s != [] {
      var front := s[..|s| - 1];
      assert s == front + [s[|s| - 1]];
      assert NoDuplicates(front);
      NoDuplicatesCount(front, x);
    }
  }

  /** With `include_mutes = m > 0` each speaker of the clips gets exactly m
      mute entries, and no other id gets any; with m <= 0 there are none. */
  lemma MuteEntriesPerSpeaker(order: seq<string>, includeMutes: int, sid: string)
    ensures multiset(MuteSids(order, includeMutes))[sid] == if includeMutes > 0 && sid in SidsOf(order) then includeMutes else 0
  {
    var sids := FirstSeen(SidsOf(order));
    RepeatCount(sids, includeMutes, sid);
    NoDuplicatesCount(sids, sid);
  }

  /** Fields without "|" joined by "|" split back into those fields. */
  lemma FieldsRoundTrip(f: seq<string>)
    requires |f| >= 1 && forall i :: 0 <= i < |f| ==> '|' !in f[i]
    ensures Split(Join(f, '|'), '|') == f
  {
    SplitJoin(f, '|');
  }

  lemma LayoutAvoids(modelPath: string)
    requires '|' !in modelPath
    ensures var d := LayoutOf(modelPath);
            '|' !in d.gtWavs && '|' !in d.features && '|' !in d.f0 && '|' !in d.f0nsf
  {
    var data := PathJoin(modelPath, "data");
    PathJoinAvoids(modelPath, "data", '|');
    PathJoinAvoids(data, "sliced_audios", '|');
    PathJoinAvoids(data, "features", '|');
    PathJoinAvoids(data, "f0_quantized", '|');
    PathJoinAvoids(data, "f0_voiced", '|');
  }

  /** Read back with `split("|")`, a clip's line gives its four file paths
      and its speaker id, provided no path contains "|". */
  lemma TrainingLineFields(modelPath: string, name: string)
    requires '|' !in modelPath && '|' !in name
    ensures var d := LayoutOf(modelPath);
            Split(TrainingLine(d, name), '|')
              == [PathJoin(d.gtWavs, name) + ".wav", PathJoin(d.features, name) + ".npy",
                  PathJoin(d.f0, name) + ".wav.npy", PathJoin(d.f0nsf, name) + ".wav.npy", SidOf(name)]
  {
    var d := LayoutOf(modelPath);
    LayoutAvoids(modelPath);
    PathJoinAvoids(d.gtWavs, name, '|');
    PathJoinAvoids(d.features, name, '|');
    PathJoinAvoids(d.f0, name, '|');
    PathJoinAvoids(d.f0nsf, name, '|');
    FieldsRoundTrip(ClipFields(d, name));
  }

  lemma MuteBaseAvoids(cwd: string)
    requires '|' !in cwd
    ensures '|' !in MuteBase(cwd)
  {
    PathJoinAvoids(cwd, "rvc", '|');
    PathJoinAvoids(PathJoin(cwd, "rvc"), "train", '|');
    PathJoinAvoids(PathJoin(PathJoin(cwd, "rvc"), "train"), "preprocess", '|');
    PathJoinAvoids(PathJoin(PathJoin(PathJoin(cwd, "rvc"), "train"), "preprocess"), "mute", '|');
  }

  /** The decimal text of an integer holds only digits and a sign. */
  lemma DecimalAvoids(n: int, c: char)
    requires c != '-' && !('0' <= c <= '9')
    ensures c !in Decimal(n)
  {
    if n < 0 {
      var digits := NatDecimal(-n);
      assert Decimal(n) == "-" + digits;
      assert c !in digits;
    }
  }

  lemma MuteFilesAvoid(base: string, sampleRate: int)
    requires '|' !in base
    ensures var files := MuteFiles(base, sampleRate);
            |files| == 4 && '|' !in files[0] && '|' !in files[1] && '|' !in files[2] && '|' !in files[3]
  {
    DecimalAvoids(sampleRate, '|');
    MuteNamesAvoid();
    MuteFileAvoids(base, "sliced_audios", "mute" + Decimal(sampleRate) + ".wav");
    MuteFileAvoids(base, "features", "mute.npy");
    MuteFileAvoids(base, "f0_quantized", "mute.wav.npy");
    MuteFileAvoids(base, "f0_voiced", "mute.wav.npy");
  }

  lemma MuteNamesAvoid()
    ensures '|' !in "sliced_audios" && '|' !in "features" && '|' !in "f0_quantized" && '|' !in "f0_voiced"
    ensures '|' !in "mute" && '|' !in ".wav" && '|' !in "mute.npy" && '|' !in "mute.wav.npy"
  {
  }

  lemma MuteFileAvoids(base: string, dir: string, file: string)
    requires '|' !in base && '|' !in dir && '|' !in file
    ensures '|' !in MutePath(base, dir, file)
  {
    PathJoinAvoids(base, dir, '|');
    PathJoinAvoids(PathJoin(base, dir), file, '|');
  }

  lemma MuteFieldsAvoid(base: string, sampleRate: int, sid: string)
    requires '|' !in base && '|' !in sid
    ensures var fields := MuteFiles(base, sampleRate) + [sid];
            |fields| == 5 && forall i :: 0 <= i < |fields| ==> '|' !in fields[i]
  {
    MuteFilesAvoid(base, sampleRate);
    FourAndOneAvoid(MuteFiles(base, sampleRate), sid);
  }

  lemma FourAndOneAvoid(files: seq<string>, sid: string)
    requires |files| == 4 && '|' !in files[0] && '|' !in files[1] && '|' !in files[2] && '|' !in files[3] && '|' !in sid
    ensures var fields := files + [sid];
            |fields| == 5 && forall i :: 0 <= i < |fields| ==> '|' !in fields[i]
  {
    var fields := files + [sid];
    forall i | 0 <= i < |fields| ensures '|' !in fields[i] {
      if i < 4 {
        assert fields[i] == files[i];
      }
    }
  }

  /** A mute line read back with `split("|")` gives the four mute files and
      the speaker id it was written for. */
  lemma MuteLineFields(cwd: string, sampleRate: int, sid: string)
    requires '|' !in cwd && '|' !in sid
    ensures Split(MuteLine(MuteBase(cwd), sampleRate, sid), '|') == MuteFiles(MuteBase(cwd), sampleRate) + [sid]
  {
    MuteBaseAvoids(cwd);
    MuteFieldsAvoid(MuteBase(cwd), sampleRate, sid);
    FieldsRoundTrip(MuteFiles(MuteBase(cwd), sampleRate) + [sid]);
  }
}
