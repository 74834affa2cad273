/** Small shared vocabulary: failure-compatible wrappers, Python-style slicing
    and sums over sequences of samples. */
module Util {

  datatype Option<+T> = None | Some(value: T)

  /** The outcome of an operation that can raise: `Err` carries what was raised. */
  datatype Result<+T, +E> = Ok(value: T) | Err(error: E) {
    predicate IsFailure() { Err? }

    function PropagateFailure<U>(): Result<U, E>
      requires Err?
    {
      Err(error)
    }

    function Extract(): T
      requires Ok?
    {
      value
    }
  }

  function Min(a: int, b: int): int { if a <= b then a else b }

  function Max(a: int, b: int): int { if a <= b then b else a }

  function Abs(x: real): real { if x < 0.0 then -x else x }

  /** Python's `s[lo:hi]` for non-negative bounds: both bounds are clamped to
      the length, and a stop at or before the start gives the empty slice. */
  function PySlice<T>(s: seq<T>, lo: nat, hi: nat): (r: seq<T>)
    ensures |r| == if hi <= lo || |s| <= lo then 0 else Min(hi, |s|) - lo
    ensures forall i :: 0 <= i < |r| ==> r[i] == s[lo + i]
  {
    if hi <= lo || |s| <= lo then [] else s[lo..Min(hi, |s|)]
  }

  /** Python's `s[lo:]` for a non-negative start. */
  function PySuffix<T>(s: seq<T>, lo: nat): seq<T>
  {
    if |s| <= lo then [] else s[lo..]
  }

  /** Sum of a sequence of samples, accumulated left to right. */
  function Sum(s: seq<real>): real
  {
    if s == [] then 0.0 else Sum(s[..|s| - 1]) + s[|s| - 1]
  }

  /** Every element multiplied by c. */
  function Scale(s: seq<real>, c: real): (r: seq<real>)
    ensures |r| == |s| && forall i :: 0 <= i < |s| ==> r[i] == s[i] * c
  {
    seq(|s|, i requires 0 <= i < |s| => s[i] * c)
  }

  lemma {:induction false} SumScale(s: seq<real>, c: real)
    ensures Sum(Scale(s, c)) == Sum(s) * c
  {
    if s != [] {
      var r, front := Scale(s, c), s[..|s| - 1];
      assert r[..|s| - 1] == Scale(front, c) by {
        forall i | 0 <= i < |front| ensures r[i] == Scale(front, c)[i] {
          assert front[i] == s[i];
        }
      }
      SumScale(s[..|s| - 1], c);
    }
  }

  lemma {:induction false} SumPositive(s: seq<real>)
    requires s != [] && forall i :: 0 <= i < |s| ==> s[i] > 0.0
    ensures Sum(s) > 0.0
  {
    if |s| > 1 {
      SumPositive(s[..|s| - 1]);
    }
  }

  /** Concatenation of a list of sequences, in order (`np.concatenate`). */
  function Flatten<T>(ss: seq<seq<T>>): seq<T>
  {
    if ss == [] then [] else Flatten(ss[..|ss| - 1]) + ss[|ss| - 1]
  }

  /** Flattening a list that starts with `a` puts `a` first. */
  lemma {:induction false} FlattenCons<T>(a: seq<T>, rest: seq<seq<T>>)
    ensures Flatten([a] + rest) == a + Flatten(rest)
  {
    if rest != [] {
      var front := rest[..|rest| - 1];
      assert ([a] + rest)[..|rest|] == [a] + front;
      FlattenCons(a, front);
    }
  }

  /** The position of the first x in s. */
  function FirstIndex<T(==)>(s: seq<T>, x: T): (k: nat)
    requires x in s
    ensures k < |s| && s[k] == x && x !in s[..k]
  {
    if s[0] == x then 0 else 1 + FirstIndex(s[1..], x)
  }
}
