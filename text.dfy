/** The string operations the file-list and upload code relies on, written
    the way Python's `str` methods and `posixpath` define them. */
module Text {

  /** `s.split(c)[0]`: the text before the first c, or all of s when c does
      not occur. */
  function PrefixBefore(s: string, c: char): (r: string)
    ensures c !in r && r <= s
    ensures |r| < |s| ==> s[|r|] == c
  {
    if s == [] || s[0] == c then [] else [s[0]] + PrefixBefore(s[1..], c)
  }

  /** The prefix of `a + [c] + b` before its first c is a, when a has no c. */
  lemma {:induction false} PrefixBeforeSeparator(a: string, c: char, b: string)
    requires c !in a
    ensures PrefixBefore(a + [c] + b, c) == a
  {
    if a != [] {
      assert (a + [c] + b)[1..] == a[1..] + [c] + b;
      PrefixBeforeSeparator(a[1..], c, b);
    }
  }

  /** `sep.join(parts)` for a one-character separator. */
  function Join(parts: seq<string>, sep: char): string
  {
    if parts == [] then ""
    else if |parts| == 1 then parts[0]
    else parts[0] + [sep] + Join(parts[1..], sep)
  }

  /** `s.split(sep)` for a one-character separator: always at least one part,
      and no part contains the separator. */
  function Split(s: string, sep: char): (parts: seq<string>)
    ensures |parts| >= 1
    ensures forall i :: 0 <= i < |parts| ==> sep !in parts[i]
    decreases |s|
  {
    var head := PrefixBefore(s, sep);
    if |head| == |s| then [s] else [head] + Split(s[|head| + 1..], sep)
  }

  /** Splitting the joined text gives the parts back, provided there is at
      least one part and no part contains the separator. */
  lemma {:induction false} SplitJoin(parts: seq<string>, sep: char)
    requires |parts| >= 1
    requires forall i :: 0 <= i < |parts| ==> sep !in parts[i]
    ensures Split(Join(parts, sep), sep) == parts
  {
    if |parts| == 1 {
      PrefixBeforeAbsent(parts[0], sep);
    } else {
      var rest := Join(parts[1..], sep);
      PrefixBeforeSeparator(parts[0], sep, rest);
      assert (parts[0] + [sep] + rest)[|parts[0]| + 1..] == rest;
      SplitJoin(parts[1..], sep);
      assert parts == [parts[0]] + parts[1..];
    }
  }

  /** Without c the whole text comes before the first c. */
  lemma {:induction false} PrefixBeforeAbsent(s: string, c: char)
    requires c !in s
    ensures PrefixBefore(s, c) == s
  {
    if s != [] {
      PrefixBeforeAbsent(s[1..], c);
    }
  }

  /** Joining the parts of a split gives the text back. */
  lemma {:induction false} JoinSplit(s: string, sep: char)
    ensures Join(Split(s, sep), sep) == s
    decreases |s|
  {
    var head := PrefixBefore(s, sep);
    if |head| < |s| {
      var tail := s[|head| + 1..];
      JoinSplit(tail, sep);
      assert s == head + [sep] + tail;
      assert ([head] + Split(tail, sep))[1..] == Split(tail, sep);
    }
  }

  /** `posixpath.join(a, b)`: b alone when it is absolute, otherwise b
      appended to a with one "/" unless a is empty or already ends in "/". */
  function PathJoin(a: string, b: string): string
  {
    if |b| > 0 && b[0] == '/' then b
    else if a == [] || a[|a| - 1] == '/' then a + b
    else a + "/" + b
  }

  /** An absolute b replaces a; otherwise the result starts with a, ends
      with b, and has at most one "/" between them, with no doubled "/" where
      a already ends in one. */
  lemma PathJoinParts(a: string, b: string)
    ensures var r := PathJoin(a, b);
            && (|b| > 0 && b[0] == '/' ==> r == b)
            && ((|b| == 0 || b[0] != '/') ==>
                  && |a| + |b| <= |r| <= |a| + |b| + 1 && r[|r| - |b|..] == b && r[..|a|] == a
                  && (|r| == |a| + |b| + 1 <==> |a| > 0 && a[|a| - 1] != '/')
                  && (|r| == |a| + |b| + 1 ==> r[|a|] == '/'))
  {
  }

  /** A character other than "/" that is in neither part is not in the
      joined path. */
  lemma PathJoinAvoids(a: string, b: string, c: char)
    requires c != '/' && c !in a && c !in b
    ensures c !in PathJoin(a, b)
  {
  }

  /** The ASCII decimal digit of d. */
  function Digit(d: nat): (c: char)
    requires d < 10
    ensures '0' <= c <= '9'
  {
    ('0' as int + d) as char
  }

  /** `str(n)` for a natural number. */
  function NatDecimal(n: nat): (s: string)
    ensures |s| >= 1 && forall i :: 0 <= i < |s| ==> '0' <= s[i] <= '9'
  {
    if n < 10 then [Digit(n)] else NatDecimal(n / 10) + [Digit(n % 10)]
  }

  /** `str(n)` for any integer: a minus sign before negative numbers. */
  function Decimal(n: int): (s: string)
    ensures |s| >= 1 && (n >= 0 <==> s[0] != '-')
  {
    if n >= 0 then NatDecimal(n) else "-" + NatDecimal(-n)
  }

  /** The value of a string of decimal digits (`int(s)` on digit strings). */
  function DecimalValue(s: string): nat
    requires forall i :: 0 <= i < |s| ==> '0' <= s[i] <= '9'
  {
    if s == [] then 0 else 10 * DecimalValue(s[..|s| - 1]) + (s[|s| - 1] as int - '0' as int)
  }

  /** The decimal text of n reads back as n. */
  lemma {:induction false} DecimalRoundTrip(n: nat)
    ensures DecimalValue(NatDecimal(n)) == n
  {
    if n >= 10 {
      var s := NatDecimal(n);
      assert s[..|s| - 1] == NatDecimal(n / 10);
      DecimalRoundTrip(n / 10);
    }
  }

  /** `str.lower()` on ASCII letters; other characters are kept. */
  function LowerAscii(s: string): (r: string)
    ensures |r| == |s|
    ensures forall i :: 0 <= i < |s| ==> r[i] == (if 'A' <= s[i] <= 'Z' then (s[i] as int + 32) as char else s[i])
  {
    seq(|s|, i requires 0 <= i < |s| => if 'A' <= s[i] <= 'Z' then (s[i] as int + 32) as char else s[i])
  }

  /** Lower-casing is idempotent and leaves no upper-case ASCII letter. */
  lemma LowerAsciiIdempotent(s: string)
    ensures forall i :: 0 <= i < |s| ==> !('A' <= LowerAscii(s)[i] <= 'Z')
    ensures LowerAscii(LowerAscii(s)) == LowerAscii(s)
  {
  }

  /** The index of the last c in s, or -1 (`str.rfind`). */
  function LastIndex(s: string, c: char): (k: int)
    ensures -1 <= k < |s|
    ensures k >= 0 ==> s[k] == c
    ensures forall j :: k < j < |s| ==> s[j] != c
  {
    if s == [] then -1
    else if s[|s| - 1] == c then |s| - 1
    else LastIndex(s[..|s| - 1], c)
  }

  /** The last c in s is at k when s[k] is c and no c follows it. */
  lemma LastIndexAt(s: string, c: char, k: int)
    requires -1 <= k < |s|
    requires k >= 0 ==> s[k] == c
    requires forall j :: k < j < |s| ==> s[j] != c
    ensures LastIndex(s, c) == k
  {
  }

  /** Some character of p[lo..hi] is not a ".". */
  predicate NotAllDots(p: string, lo: int, hi: int)
    requires 0 <= lo && hi <= |p|
  {
    exists k :: lo <= k < hi && p[k] != '.'
  }

  /** Lower-casing keeps every "." where it was and commutes with taking a
      suffix, so the last "." of a name and of its lower-cased form agree. */
  lemma LowerAsciiDots(s: string, k: nat)
    requires k <= |s|
    ensures LastIndex(LowerAscii(s), '.') == LastIndex(s, '.')
    ensures LowerAscii(s)[k..] == LowerAscii(s[k..])
  {
    LowerAsciiLastDot(s);
    LowerAsciiSuffix(s, k);
  }

  lemma LowerAsciiLastDot(s: string)
    ensures LastIndex(LowerAscii(s), '.') == LastIndex(s, '.')
  {
    var lower := LowerAscii(s);
    var d := LastIndex(s, '.');
    forall j | d < j < |s|
      ensures lower[j] != '.'
    {
      assert s[j] != '.';
    }
    LastIndexAt(lower, '.', d);
  }

  lemma LowerAsciiSuffix(s: string, k: nat)
    requires k <= |s|
    ensures LowerAscii(s)[k..] == LowerAscii(s[k..])
  {
    var a, b := LowerAscii(s)[k..], LowerAscii(s[k..]);
    forall i | 0 <= i < |a|
      ensures a[i] == b[i]
    {
      assert a[i] == LowerAscii(s)[k + i];
      assert s[k..][i] == s[k + i];
    }
  }

  /** c occurs in s exactly when `rfind` finds it. */
  lemma LastIndexFound(s: string, c: char)
    ensures c in s <==> LastIndex(s, c) >= 0
  {
    if c in s {
      var j :| 0 <= j < |s| && s[j] == c;
    }
  }

  /** `os.path.splitext` on POSIX paths: the extension starts at the last
      "." after the last "/", unless every character of the file name before
      that "." is itself a "." (a leading-dot name has no extension). */
  function SplitExt(p: string): (parts: (string, string))
    ensures parts.0 + parts.1 == p
    ensures parts.1 == [] || (parts.1[0] == '.' && '.' !in parts.1[1..] && '/' !in parts.1)
  {
    var sep := LastIndex(p, '/');
    var dot := LastIndex(p, '.');
    if dot > sep && NotAllDots(p, sep + 1, dot) then
      assert p[..dot] + p[dot..] == p;
      (p[..dot], p[dot..])
    else
      (p, [])
  }
}
