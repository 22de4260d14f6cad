/** The Option wrapper used for values the program may lack (a missing end
    timestamp, a failed decode, a failed transcription). */
module Wrappers {
  datatype Option<+T> = None | Some(value: T)
}

/** The pieces of Python's built-ins and of `posixpath` that the slicer relies
    on: `int()` on a float, sequence slicing with step 1, `str()` of a
    non-negative integer, `str.join` / `str.split` on one character,
    `str.upper` on ASCII text, and `os.path.basename`, `os.path.splitext`,
    `os.path.join` for POSIX paths. */
module PyLib {

  // ---------------------------------------------------------------------------
  // int(x) for a float x: truncation toward zero
  // ---------------------------------------------------------------------------

  /** `int(x)`: the integer part of `x`, rounding toward zero on both sides. */
  function Trunc(x: real): (r: int)
    ensures 0.0 <= x ==> r as real <= x < r as real + 1.0
    ensures x < 0.0 ==> r as real - 1.0 < x <= r as real
  {
    if x >= 0.0 then x.Floor else -((-x).Floor)
  }

  /** Truncating two ordered non-negative numbers up to `n` gives their
      floors, in the same order, within `[0, n]`. */
  lemma TruncBetween(x: real, y: real, n: nat)
    requires 0.0 <= x <= y <= n as real
    ensures Trunc(x) == x.Floor && Trunc(y) == y.Floor
    ensures 0 <= Trunc(x) <= Trunc(y) <= n
  {
  }

  // ---------------------------------------------------------------------------
  // a[lo:hi] with step 1
  // ---------------------------------------------------------------------------

  /** Python's normalisation of one slice bound against a length `n`: a
      negative bound counts from the end, and the result is clamped to
      `[0, n]`. */
  function SliceBound(i: int, n: nat): (b: nat)
    ensures b <= n
    ensures 0 <= i <= n ==> b == i
    ensures n < i ==> b == n
    ensures i < 0 ==> b == if i + n < 0 then 0 else i + n
  {
    if i < 0 then (if i + n < 0 then 0 else i + n)
    else if i > n then n
    else i
  }

  /** `a[lo:hi]`: the elements from the normalised `lo` up to, not including,
      the normalised `hi`; empty when the normalised bounds cross. */
  function PySlice<T>(a: seq<T>, lo: int, hi: int): (r: seq<T>)
    ensures var l, h := SliceBound(lo, |a|), SliceBound(hi, |a|);
      |r| == (if l <= h then h - l else 0) &&
      forall k :: 0 <= k < |r| ==> r[k] == a[l + k]
  {
    var l, h := SliceBound(lo, |a|), SliceBound(hi, |a|);
    if l <= h then a[l..h] else []
  }

  /** For non-negative bounds Python slicing is the end-exclusive
      subsequence with both bounds clamped to the length. */
  lemma PySliceClamped<T>(a: seq<T>, lo: nat, hi: nat)
    ensures var l := if lo < |a| then lo else |a|;
            var h := if hi < |a| then hi else |a|;
            PySlice(a, lo, hi) == if l <= h then a[l..h] else []
  {
  }

  // ---------------------------------------------------------------------------
  // str(n) for n >= 0, and its inverse
  // ---------------------------------------------------------------------------

  function DigitChar(d: nat): (c: char)
    requires d < 10
    ensures '0' <= c <= '9'
  {
    ('0' as int + d) as char
  }

  predicate IsDigit(c: char) {
    '0' <= c <= '9'
  }

  /** `str(n)`: the shortest decimal numeral of `n`. */
  function DecimalString(n: nat): (s: string)
    ensures |s| >= 1
    ensures forall k :: 0 <= k < |s| ==> IsDigit(s[k])
    ensures s[0] == '0' <==> n == 0
    ensures n == 0 ==> s == "0"
    decreases n
  {
    if n < 10 then [DigitChar(n)]
    else DecimalString(n / 10) + [DigitChar(n % 10)]
  }

  /** `int(s)` for a string of decimal digits (the empty string reads as 0). */
  function ParseDecimal(s: string): nat
    requires forall k :: 0 <= k < |s| ==> IsDigit(s[k])
  {
    if s == [] then 0
    else 10 * ParseDecimal(s[..|s| - 1]) + DigitValue(s[|s| - 1])
  }

  function DigitValue(c: char): (d: nat)
    requires IsDigit(c)
    ensures d < 10 && DigitChar(d) == c
  {
    c as int - '0' as int
  }

  /** Reading back the numeral `str(n)` gives `n`. */
  lemma {:induction false} DecimalRoundTrip(n: nat)
    ensures ParseDecimal(DecimalString(n)) == n
    decreases n
  {
    var s := DecimalString(n);
    if n >= 10 {
      DecimalRoundTrip(n / 10);
      assert s[..|s| - 1] == DecimalString(n / 10);
    }
  }

  /** Distinct numbers have distinct numerals. */
  lemma DecimalInjective(m: nat, n: nat)
    requires DecimalString(m) == DecimalString(n)
    ensures m == n
  {
    DecimalRoundTrip(m);
    DecimalRoundTrip(n);
  }

  // ---------------------------------------------------------------------------
  // sep.join(parts) and s.split(sep) for a one-character separator
  // ---------------------------------------------------------------------------

  /** `sep.join(parts)`: separators only between parts, none at the end. */
  function Join(parts: seq<string>, sep: char): string
  {
    if |parts| == 0 then ""
    else if |parts| == 1 then parts[0]
    else parts[0] + [sep] + Join(parts[1..], sep)
  }

  /** `s.split(sep)`: the maximal separator-free pieces between separators. */
  function Split(s: string, sep: char): (parts: seq<string>)
    ensures |parts| >= 1
    ensures forall k :: 0 <= k < |parts| ==> sep !in parts[k]
  {
    if s == [] then [""]
    else
      var rest := Split(s[1..], sep);
      if s[0] == sep then [""] + rest
      else [[s[0]] + rest[0]] + rest[1..]
  }

  /** Splitting a text that starts with a separator-free piece `a`. */
  lemma {:induction false} SplitPrefix(a: string, b: string, sep: char)
    requires sep !in a
    ensures var t := Split(b, sep); Split(a + b, sep) == [a + t[0]] + t[1..]
    decreases |a|
  {
    if a != [] {
      assert (a + b)[1..] == a[1..] + b;
      SplitPrefix(a[1..], b, sep);
      var t := Split(b, sep);
      var rest := Split(a[1..] + b, sep);
      assert rest == [a[1..] + t[0]] + t[1..];
      assert rest[1..] == t[1..];
      assert (a + b)[0] == a[0];
      assert [a[0]] + (a[1..] + t[0]) == a + t[0];
    } else {
      var t := Split(b, sep);
      assert a + b == b && a + t[0] == t[0];
      assert t == [t[0]] + t[1..];
    }
  }

  /** A separator-free text splits into itself alone. */
  lemma SplitNone(a: string, sep: char)
    requires sep !in a
    ensures Split(a, sep) == [a]
  {
    SplitPrefix(a, "", sep);
    assert a + "" == a;
  }

  /** A separator right after a separator-free piece `a` ends that piece. */
  lemma SplitAt(a: string, b: string, sep: char)
    requires sep !in a
    ensures Split(a + [sep] + b, sep) == [a] + Split(b, sep)
  {
    SplitPrefix(a, [sep] + b, sep);
    assert a + [sep] + b == a + ([sep] + b);
    assert ([sep] + b)[1..] == b;
    assert a + "" == a;
  }

  /** Split has exactly one piece precisely when the separator is absent. */
  lemma SplitSingle(s: string, sep: char)
    ensures |Split(s, sep)| == 1 <==> sep !in s
  {
    if sep in s {
      // a single piece would be the whole text, which holds the separator
      JoinSplit(s, sep);
    } else {
      SplitNone(s, sep);
    }
  }

  /** Joining the pieces of a split gives the text back. */
  lemma {:induction false} JoinSplit(s: string, sep: char)
    ensures Join(Split(s, sep), sep) == s
    decreases |s|
  {
    if s != [] {
      var rest := Split(s[1..], sep);
      JoinSplit(s[1..], sep);
      if s[0] == sep {
        assert Split(s, sep) == [""] + rest;
        assert ([""] + rest)[1..] == rest;
      } else {
        var parts := Split(s, sep);
        assert parts == [[s[0]] + rest[0]] + rest[1..];
        if |rest| == 1 {
          assert s == [s[0]] + s[1..];
        } else {
          assert parts[1..] == rest[1..];
          assert Join(rest, sep) == rest[0] + [sep] + Join(rest[1..], sep);
          assert s == [s[0]] + s[1..];
        }
      }
    }
  }

  /** Splitting a join of separator-free parts gives the parts back. */
  lemma {:induction false} SplitJoin(parts: seq<string>, sep: char)
    requires |parts| >= 1
    requires forall k :: 0 <= k < |parts| ==> sep !in parts[k]
    ensures Split(Join(parts, sep), sep) == parts
    decreases |parts|
  {
    if |parts| == 1 {
      SplitNone(parts[0], sep);
    } else {
      SplitJoin(parts[1..], sep);
      SplitAt(parts[0], Join(parts[1..], sep), sep);
      assert parts == [parts[0]] + parts[1..];
    }
  }

  // ---------------------------------------------------------------------------
  // str.upper on ASCII text
  // ---------------------------------------------------------------------------

  function UpperChar(c: char): char {
    if 'a' <= c <= 'z' then (c as int - 32) as char else c
  }

  predicate IsLowerAscii(c: char) {
    'a' <= c <= 'z'
  }

  /** `s.upper()` restricted to ASCII: every lower-case letter becomes its
      capital and every other character stays. */
  function Upper(s: string): (r: string)
    ensures |r| == |s|
    ensures forall k :: 0 <= k < |r| ==> !IsLowerAscii(r[k])
    ensures forall k :: 0 <= k < |r| && !IsLowerAscii(s[k]) ==> r[k] == s[k]
    ensures forall k :: 0 <= k < |r| && IsLowerAscii(s[k]) ==> r[k] == (s[k] as int - 32) as char
  {
    if s == [] then [] else [UpperChar(s[0])] + Upper(s[1..])
  }

  // ---------------------------------------------------------------------------
  // posixpath.basename, posixpath.splitext, posixpath.join
  // ---------------------------------------------------------------------------

  /** `os.path.basename(p)`: the longest suffix of `p` without a '/'. */
  function Basename(p: string): (b: string)
    ensures '/' !in b
    ensures |b| <= |p| && b == p[|p| - |b|..]
    ensures |b| < |p| ==> p[|p| - |b| - 1] == '/'
  {
    if p == [] then []
    else if p[|p| - 1] == '/' then []
    else Basename(p[..|p| - 1]) + [p[|p| - 1]]
  }

  /** The index of the last occurrence of `c` in `s`, or -1. */
  function LastIndex(s: string, c: char): (i: int)
    ensures -1 <= i < |s|
    ensures 0 <= i ==> s[i] == c
    ensures forall j :: i < j < |s| ==> s[j] != c
  {
    if s == [] then -1
    else if s[|s| - 1] == c then |s| - 1
    else LastIndex(s[..|s| - 1], c)
  }

  /** `os.path.splitext(b)[0]` for a name `b` without '/': the name up to its
      last '.', unless every character before that dot is itself a dot
      (a leading-dot name such as ".wav" has no extension). */
  function StemOf(b: string): (r: string)
    ensures |r| <= |b| && r == b[..|r|]
    ensures |r| < |b| ==>
      b[|r|] == '.' && '.' !in b[|r| + 1..] && exists j :: 0 <= j < |r| && r[j] != '.'
    ensures |r| == |b| ==>
      forall i, j :: 0 <= j < i < |b| && b[i] == '.' ==> b[j] == '.'
  {
    var d := LastIndex(b, '.');
    if d > 0 && exists j :: 0 <= j < d && b[j] != '.' then b[..d] else b
  }

  /** `a` ready to take a relative name: unchanged when empty or already
      ending in '/', otherwise with one '/' appended. */
  function DirPrefix(a: string): string {
    if a == [] || a[|a| - 1] == '/' then a else a + "/"
  }

  /** `os.path.join(a, b)` for two components. */
  function PathJoin(a: string, b: string): string {
    if |b| > 0 && b[0] == '/' then b else DirPrefix(a) + b
  }

  /** `join(a, b)` ends with `b` and is `b` alone when `b` is absolute.
      Otherwise it starts with `a`, and exactly one '/' is inserted between
      them when `a` is non-empty and does not already end in '/'. */
  lemma PathJoinParts(a: string, b: string)
    ensures var r := PathJoin(a, b);
      |b| <= |r| && r[|r| - |b|..] == b &&
      (|b| > 0 && b[0] == '/' ==> r == b) &&
      (!(|b| > 0 && b[0] == '/') ==>
        |a| <= |r| - |b| <= |a| + 1 && r[..|a|] == a &&
        (|r| - |b| == |a| + 1 <==> a != [] && a[|a| - 1] != '/') &&
        (|r| - |b| == |a| + 1 ==> r[|a|] == '/'))
  {
  }
}
