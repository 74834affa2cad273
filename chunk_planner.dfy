/** Cut-point search of the conversion pipeline: the high-passed 16 kHz signal
    is reflect-padded by half a hop on each side, a running box sum of one hop
    of padded samples is taken, and around every `tCenter`-th sample the
    quietest instant (smallest absolute box sum, lowest index on ties) within
    `tQuery` samples becomes a cut point. */
module ChunkPlanner {
  import opened Util

  /** Analysis hop in samples at 16 kHz. */
  const Window: nat := 160

  /** numpy's "reflect" padding, read backwards: the source index of position
      `k` of the padded signal, `k` counted from the first original sample.
      Positions outside the signal are mirrored about its end samples (which
      are not repeated), again and again until they fall inside; a one-sample
      signal is simply repeated. */
  function ReflectIndex(k: int, n: nat): (i: nat)
    requires n >= 1
    ensures i < n
    decreases if k < 0 then -k else k, if k < 0 then 1 else 0
  {
    if n == 1 then 0
    else if 0 <= k < n then k
    else if k < 0 then ReflectIndex(-k, n)
    else ReflectIndex(2 * (n - 1) - k, n)
  }

  /** `np.pad(a, (p, p), mode="reflect")`: the signal itself sits in the middle. */
  function ReflectPad(a: seq<real>, p: nat): (r: seq<real>)
    requires |a| >= 1
    ensures |r| == |a| + 2 * p
    ensures r[p..p + |a|] == a
  {
    var r := seq(|a| + 2 * p, k requires 0 <= k < |a| + 2 * p => a[ReflectIndex(k - p, |a|)]);
    assert forall j :: 0 <= j < |a| ==> ReflectIndex(j, |a|) == j;
    assert forall j :: 0 <= j < |a| ==> r[p + j] == a[j];
    assert r[p..p + |a|] == a;
    r
  }

  /** Reflection mirrors about the edge samples without repeating them: the
      j-th padded sample before the signal is `a[j]`, and the j-th after it is
      `a[n - 1 - j]`, as long as j does not exceed n - 1. */
  lemma ReflectPadMirrors(a: seq<real>, p: nat, j: nat)
    requires |a| >= 2 && 1 <= j <= p && j <= |a| - 1
    ensures ReflectPad(a, p)[p - j] == a[j]
    ensures ReflectPad(a, p)[p + |a| - 1 + j] == a[|a| - 1 - j]
  {
    var n := |a|;
    assert ReflectIndex(-(j as int), n) == ReflectIndex(j, n) == j;
    assert ReflectIndex(n - 1 + j, n) == ReflectIndex(n - 1 - j, n) == n - 1 - j;
  }

  /** Sum of the `Window` padded samples starting at j. */
  function BoxSum(pad: seq<real>, j: nat): real
    requires j + Window <= |pad|
  {
    Sum(pad[j..j + Window])
  }

  /** The running-energy array: one box sum per original sample. */
  function EnergyOf(pad: seq<real>): seq<real>
    requires |pad| >= Window
  {
    seq(|pad| - Window, j requires 0 <= j < |pad| - Window => BoxSum(pad, j))
  }

  /** `audio_sum += audio_pad[i : i - window]` for every i below the hop:
      accumulates, in place, the shifted copies of the padded signal. */
  method RunningEnergy(pad: seq<real>) returns (energy: seq<real>)
    requires |pad| >= Window
    ensures energy == EnergyOf(pad)
  {
    var n := |pad| - Window;
    var acc := new real[n](_ => 0.0);
    for i := 0 to Window
      invariant forall j :: 0 <= j < n ==> acc[j] == Sum(pad[j..j + i])
    {
      forall j | 0 <= j < n {
        acc[j] := acc[j] + pad[i + j];
      }
      forall j | 0 <= j < n
        ensures acc[j] == Sum(pad[j..j + i + 1])
      {
        SumExtend(pad, j, i);
      }
    }
    energy := acc[..];
  }

  /** Index of the first minimum of `|s[x]|` over `[lo, hi)`: the earlier
      index wins a tie (numpy's `argmin`). */
  function FirstMinAbs(s: seq<real>, lo: nat, hi: nat): (k: nat)
    requires lo < hi <= |s|
    ensures lo <= k < hi
    decreases hi
  {
    if hi == lo + 1 then lo
    else
      var b := FirstMinAbs(s, lo, hi - 1);
      if Abs(s[hi - 1]) < Abs(s[b]) then hi - 1 else b
  }

  /** `|s[k]|` is the smallest over `[lo, hi)` and every index before k in
      the range holds a strictly larger value. */
  predicate IsFirstMinAbs(s: seq<real>, lo: nat, hi: nat, k: nat)
    requires lo <= k < hi <= |s|
  {
    && (forall j :: lo <= j < hi ==> Abs(s[k]) <= Abs(s[j]))
    && (forall j :: lo <= j < k ==> Abs(s[k]) < Abs(s[j]))
  }

  /** The index found is the first minimum of `|s[x]|` over `[lo, hi)`. */
  lemma {:induction false} FirstMinAbsIsFirstMin(s: seq<real>, lo: nat, hi: nat)
    requires lo < hi <= |s|
    ensures IsFirstMinAbs(s, lo, hi, FirstMinAbs(s, lo, hi))
    decreases hi
  {
    if hi > lo + 1 {
      FirstMinAbsIsFirstMin(s, lo, hi - 1);
    }
  }

  /** A window sum grows by the next sample. */
  lemma SumExtend(pad: seq<real>, j: nat, i: nat)
    requires j + i < |pad|
    ensures Sum(pad[j..j + i + 1]) == Sum(pad[j..j + i]) + pad[j + i]
  {
    assert pad[j..j + i + 1][..i] == pad[j..j + i];
  }

  /** The cut point for centre c: `energy[c - tQuery : c + tQuery]` searched
      for its first minimum of absolute value, as an index into `energy`. */
  function CutAt(energy: seq<real>, c: nat, tQuery: nat): nat
    requires 0 < tQuery <= c < |energy|
  {
    FirstMinAbs(energy, c - tQuery, Min(c + tQuery, |energy|))
  }

  /** The cuts for the centres `range(t, len(energy), tCenter)`. */
  function CutsFrom(energy: seq<real>, t: nat, tCenter: nat, tQuery: nat): seq<nat>
    requires 0 < tQuery <= tCenter <= t
    decreases |energy| - t
  {
    if t >= |energy| then [] else [CutAt(energy, t, tQuery)] + CutsFrom(energy, t + tCenter, tCenter, tQuery)
  }

  /** One cut per centre tCenter, 2·tCenter, … below the signal length. */
  function CutPointsOf(energy: seq<real>, tCenter: nat, tQuery: nat): seq<nat>
    requires 0 < tQuery <= tCenter
  {
    CutsFrom(energy, tCenter, tCenter, tQuery)
  }

  /** The k-th centre of `range(t, ..., step)`, counted without multiplying. */
  function CentreOf(t: nat, k: nat, step: nat): (c: nat)
    ensures c >= t
    decreases k
  {
    if k == 0 then t else CentreOf(t + step, k - 1, step)
  }

  lemma {:induction false} CentreOfIsLinear(t: nat, k: nat, step: nat)
    ensures CentreOf(t, k, step) == t + k * step
    decreases k
  {
    if k > 0 {
      CentreOfIsLinear(t + step, k - 1, step);
      MulStep(k - 1, step);
    }
  }

  lemma MulStep(k: nat, c: nat)
    ensures (k + 1) * c == k * c + c
  {
  }

  /** The k-th cut from centre t belongs to the k-th centre, and there is
      one cut for each centre below the signal length and no more. */
  lemma {:induction false} CutsFromAt(energy: seq<real>, t: nat, tCenter: nat, tQuery: nat, k: nat)
    requires 0 < tQuery <= tCenter <= t
    ensures k < |CutsFrom(energy, t, tCenter, tQuery)| <==> CentreOf(t, k, tCenter) < |energy|
    ensures k < |CutsFrom(energy, t, tCenter, tQuery)| ==>
              CutsFrom(energy, t, tCenter, tQuery)[k] == CutAt(energy, CentreOf(t, k, tCenter), tQuery)
    decreases |energy| - t
  {
    if t < |energy| && k > 0 {
      CutsFromAt(energy, t + tCenter, tCenter, tQuery, k - 1);
    }
  }

  /** The `for t in range(t_center, len(audio), t_center)` loop appending to `opt_ts`. */
  method FindCutPoints(energy: seq<real>, tCenter: nat, tQuery: nat) returns (cuts: seq<nat>)
    requires 0 < tQuery <= tCenter
    ensures cuts == CutPointsOf(energy, tCenter, tQuery)
  {
    cuts := [];
    var t := tCenter;
    while t < |energy|
      invariant tCenter <= t
      invariant Found(energy, t, tCenter, tQuery, cuts)
      decreases |energy| - t
    {
      var cut := CutAt(energy, t, tQuery);
      CutsFromStep(energy, t, tCenter, tQuery, cuts);
      cuts := cuts + [cut];
      t := t + tCenter;
    }
    FoundAll(energy, t, tCenter, tQuery, cuts);
  }

  ghost predicate Found(energy: seq<real>, t: nat, tCenter: nat, tQuery: nat, found: seq<nat>)
    requires 0 < tQuery <= tCenter <= t
  {
    found + CutsFrom(energy, t, tCenter, tQuery) == CutPointsOf(energy, tCenter, tQuery)
  }

  lemma FoundAll(energy: seq<real>, t: nat, tCenter: nat, tQuery: nat, found: seq<nat>)
    requires 0 < tQuery <= tCenter <= t && |energy| <= t
    requires Found(energy, t, tCenter, tQuery, found)
    ensures found == CutPointsOf(energy, tCenter, tQuery)
  {
    assert found + [] == found;
  }

  /** Appending the cut at centre t moves that cut from the remaining ones
      to the ones found. */
  lemma CutsFromStep(energy: seq<real>, t: nat, tCenter: nat, tQuery: nat, found: seq<nat>)
    requires 0 < tQuery <= tCenter <= t < |energy|
    requires Found(energy, t, tCenter, tQuery, found)
    ensures Found(energy, t + tCenter, tCenter, tQuery, found + [CutAt(energy, t, tQuery)])
  {
    var rest := CutsFrom(energy, t + tCenter, tCenter, tQuery);
    assert found + ([CutAt(energy, t, tQuery)] + rest) == found + [CutAt(energy, t, tQuery)] + rest;
  }

  /** The cut points of the pipeline for the filtered signal `audio`: none
      unless the half-hop reflect-padded signal is longer than `tMax`. */
  function PlannedCuts(audio: seq<real>, tMax: nat, tCenter: nat, tQuery: nat): seq<nat>
    requires |audio| >= 1 && 0 < tQuery <= tCenter
  {
    var pad := ReflectPad(audio, Window / 2);
    if |pad| > tMax then CutPointsOf(EnergyOf(pad), tCenter, tQuery) else []
  }

  method PlanCuts(audio: seq<real>, tMax: nat, tCenter: nat, tQuery: nat) returns (cuts: seq<nat>)
    requires |audio| >= 1 && 0 < tQuery <= tCenter
    ensures cuts == PlannedCuts(audio, tMax, tCenter, tQuery)
  {
    var pad := ReflectPad(audio, Window / 2);
    cuts := [];
    if |pad| > tMax {
      var energy := RunningEnergy(pad);
      cuts := FindCutPoints(energy, tCenter, tQuery);
    }
  }

  /** Every cut lies in its centre's search window, clipped to the signal,
      and is the lowest index there whose running energy has the smallest
      magnitude. */
  lemma {:induction false} CutIsQuietestInWindow(energy: seq<real>, tCenter: nat, tQuery: nat, k: nat)
    requires 0 < tQuery <= tCenter
    requires k < |CutPointsOf(energy, tCenter, tQuery)|
    ensures var cut := CutPointsOf(energy, tCenter, tQuery)[k];
            var c := (k + 1) * tCenter;
            && c < |energy|
            && c - tQuery <= cut < Min(c + tQuery, |energy|)
            && IsFirstMinAbs(energy, c - tQuery, Min(c + tQuery, |energy|), cut)
  {
    CutsFromAt(energy, tCenter, tCenter, tQuery, k);
    CentreOfIsLinear(tCenter, k, tCenter);
    var c := (k + 1) * tCenter;
    MulStep(k, tCenter);
    FirstMinAbsIsFirstMin(energy, c - tQuery, Min(c + tQuery, |energy|));
  }

  /** The number of cut points: one per centre tCenter, 2·tCenter, … strictly
      below the signal length, when the padded signal is longer than tMax. */
  lemma {:induction false} CutCount(audio: seq<real>, tMax: nat, tCenter: nat, tQuery: nat, k: nat)
    requires |audio| >= 1 && 0 < tQuery <= tCenter
    ensures k < |PlannedCuts(audio, tMax, tCenter, tQuery)| <==>
              |audio| + Window > tMax && (k + 1) * tCenter < |audio|
    ensures CentreOf(tCenter, k, tCenter) == (k + 1) * tCenter
  {
    var pad := ReflectPad(audio, Window / 2);
    var energy := EnergyOf(pad);
    CutsFromAt(energy, tCenter, tCenter, tQuery, k);
    CentreOfIsLinear(tCenter, k, tCenter);
    MulStep(k, tCenter);
  }

  /** The cut points never go backwards, even when neighbouring search
      windows overlap: a later cut below an earlier one would lie in both
      windows, so each would be a minimum of the other's window while the
      earlier cut is the first minimum of its own. */
  lemma {:induction false} CutsNonDecreasing(audio: seq<real>, tMax: nat, tCenter: nat, tQuery: nat, k: nat)
    requires |audio| >= 1 && 0 < tQuery <= tCenter
    requires k + 1 < |PlannedCuts(audio, tMax, tCenter, tQuery)|
    ensures PlannedCuts(audio, tMax, tCenter, tQuery)[k] <= PlannedCuts(audio, tMax, tCenter, tQuery)[k + 1]
  {
    var energy := EnergyOf(ReflectPad(audio, Window / 2));
    var cuts := PlannedCuts(audio, tMax, tCenter, tQuery);
    assert cuts == CutPointsOf(energy, tCenter, tQuery);
    CutIsQuietestInWindow(energy, tCenter, tQuery, k);
    CutIsQuietestInWindow(energy, tCenter, tQuery, k + 1);
    MulStep(k + 1, tCenter);
  }

  /** When the search windows of neighbouring centres do not overlap
      (2·tQuery <= tCenter), the cut points are strictly increasing. */
  lemma {:induction false} CutsIncrease(audio: seq<real>, tMax: nat, tCenter: nat, tQuery: nat, k: nat)
    requires |audio| >= 1 && 0 < tQuery <= tCenter && 2 * tQuery <= tCenter
    requires k + 1 < |PlannedCuts(audio, tMax, tCenter, tQuery)|
    ensures PlannedCuts(audio, tMax, tCenter, tQuery)[k] < PlannedCuts(audio, tMax, tCenter, tQuery)[k + 1]
  {
    var energy := EnergyOf(ReflectPad(audio, Window / 2));
    assert PlannedCuts(audio, tMax, tCenter, tQuery) == CutPointsOf(energy, tCenter, tQuery);
    CutIsQuietestInWindow(energy, tCenter, tQuery, k);
    CutIsQuietestInWindow(energy, tCenter, tQuery, k + 1);
    MulStep(k + 1, tCenter);
  }
}
