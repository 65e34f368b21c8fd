/**
 * String helpers shared by the bindings: splitting on a separator character the
 * way Python's `str.split(c)` and JavaScript's `String.split(c)` do (empty
 * parts are kept), joining, and the "text after the last separator" lookup
 * that the bindings use to shorten qualified names.
 */
module Text {

  predicate StartsWith(s: string, prefix: string)
  {
    |prefix| <= |s| && s[..|prefix|] == prefix
  }

  predicate EndsWith(s: string, suffix: string)
  {
    |suffix| <= |s| && s[|s| - |suffix|..] == suffix
  }

  /** The index of the last occurrence of `c` in `s`, or -1 (JavaScript `lastIndexOf`). */
  function LastIndexOf(s: string, c: char): (r: int)
    ensures -1 <= r < |s|
    ensures r >= 0 ==> s[r] == c
    ensures forall i :: r < i < |s| ==> s[i] != c
  {
    if |s| == 0 then -1
    else if s[|s| - 1] == c then |s| - 1
    else LastIndexOf(s[..|s| - 1], c)
  }

  /**
   * `t` is the longest suffix of `s` without `sep`: either all of `s`, or the
   * text that follows an occurrence of `sep`.
   */
  predicate IsLastSegment(s: string, sep: char, t: string)
  {
    |t| <= |s| && t == s[|s| - |t|..] && sep !in t && (|t| < |s| ==> s[|s| - |t| - 1] == sep)
  }

  /** A segment without `sep` is no longer than the longest separator-free suffix. */
  lemma LastSegmentLongest(s: string, sep: char, a: string, b: string)
    requires IsLastSegment(s, sep, a)
    requires |b| <= |s| && b == s[|s| - |b|..] && sep !in b
    ensures |b| <= |a|
  {
    forall j | |s| - |b| <= j < |s|
      ensures s[j] != sep
    {
      assert b[j - (|s| - |b|)] == s[j];
    }
  }

  /** There is only one longest separator-free suffix. */
  lemma LastSegmentUnique(s: string, sep: char, a: string, b: string)
    requires IsLastSegment(s, sep, a) && IsLastSegment(s, sep, b)
    ensures a == b
  {
    LastSegmentLongest(s, sep, a, b);
    LastSegmentLongest(s, sep, b, a);
  }

  /**
   * The text after the last `sep` in `s`, or the whole string when `sep` does
   * not occur (JavaScript `s.substring(s.lastIndexOf(sep) + 1)`).
   */
  function LastSegment(s: string, sep: char): (r: string)
    ensures IsLastSegment(s, sep, r)
    ensures sep !in s ==> r == s
  {
    s[LastIndexOf(s, sep) + 1..]
  }

  /** A last segment of `s[1..]` stays one for `s` unless it reaches back to `s[0]`. */
  lemma LastSegmentCons(s: string, sep: char, t: string)
    requires |s| > 0 && IsLastSegment(s[1..], sep, t)
    requires |t| < |s| - 1 || s[0] == sep
    ensures IsLastSegment(s, sep, t)
  {
    assert s[|s| - |t|..] == s[1..][|s| - 1 - |t|..];
  }

  /** None of the parts holds the separator. */
  predicate SeparatorFree(parts: seq<string>, c: char)
  {
    forall i :: 0 <= i < |parts| ==> c !in parts[i]
  }

  /** All parts of `s` between occurrences of `c`, empty parts included. */
  function Split(s: string, c: char): (r: seq<string>)
    ensures |r| >= 1
    ensures SeparatorFree(r, c)
    ensures IsLastSegment(s, c, r[|r| - 1])
    ensures |r| == 1 ==> r == [s]
    ensures |r| > 1 <==> c in s
  {
    if s == [] then [""]
    else
      var rest := Split(s[1..], c);
      if s[0] == c then
        SplitStepSeparator(s, c, rest);
        [""] + rest
      else if |rest| == 1 then
        SplitStepSingle(s, c, rest);
        [s]
      else
        SplitStepExtend(s, c, rest);
        [[s[0]] + rest[0]] + rest[1..]
  }

  /** A leading separator starts an empty first part. */
  lemma SplitStepSeparator(s: string, c: char, rest: seq<string>)
    requires |s| > 0 && s[0] == c && |rest| >= 1
    requires SeparatorFree(rest, c) && IsLastSegment(s[1..], c, rest[|rest| - 1])
    ensures var r := [""] + rest; SeparatorFree(r, c) && IsLastSegment(s, c, r[|r| - 1])
    ensures c in s
  {
    var r := [""] + rest;
    assert s[0] == c;
    assert r[|r| - 1] == rest[|rest| - 1];
    forall i | 0 <= i < |r|
      ensures c !in r[i]
    {
      if i > 0 {
        assert r[i] == rest[i - 1];
      }
    }
    LastSegmentCons(s, c, rest[|rest| - 1]);
  }

  /** A leading non-separator in front of a single part extends it to the whole string. */
  lemma SplitStepSingle(s: string, c: char, rest: seq<string>)
    requires |s| > 0 && s[0] != c && rest == [s[1..]]
    requires SeparatorFree(rest, c)
    ensures SeparatorFree([s], c) && IsLastSegment(s, c, s) && c !in s
  {
    assert rest[0] == s[1..];
    assert c !in s[1..];
    assert s == [s[0]] + s[1..];
    forall k | 0 <= k < |s|
      ensures s[k] != c
    {
      if k > 0 {
        assert s[k] == s[1..][k - 1];
      }
    }
    assert s[|s| - |s|..] == s;
  }

  /** A leading non-separator joins the first of several parts. */
  lemma SplitStepExtend(s: string, c: char, rest: seq<string>)
    requires |s| > 0 && s[0] != c && |rest| > 1 && c in s[1..]
    requires SeparatorFree(rest, c) && IsLastSegment(s[1..], c, rest[|rest| - 1])
    ensures var r := [[s[0]] + rest[0]] + rest[1..];
      SeparatorFree(r, c) && IsLastSegment(s, c, r[|r| - 1])
    ensures c in s
  {
    var j :| 0 <= j < |s[1..]| && s[1..][j] == c;
    assert s[j + 1] == c;
    var r := [[s[0]] + rest[0]] + rest[1..];
    assert r[|r| - 1] == rest[|rest| - 1];
    forall i | 0 <= i < |r|
      ensures c !in r[i]
    {
      if i == 0 {
        forall k | 0 <= k < |r[0]|
          ensures r[0][k] != c
        {
          if k > 0 {
            assert r[0][k] == rest[0][k - 1];
          }
        }
      } else {
        assert r[i] == rest[i];
      }
    }
    var t := rest[|rest| - 1];
    forall k | |s| - 1 - |t| <= k < |s| - 1
      ensures s[1..][k] != c
    {
      assert s[1..][k] == t[k - (|s| - 1 - |t|)];
    }
    LastSegmentCons(s, c, t);
  }

  /** Without a separator there is exactly one part, the string itself. */
  lemma {:induction false} SplitNoSeparator(s: string, c: char)
    requires c !in s
    ensures Split(s, c) == [s]
  {
    if s != [] {
      SplitNoSeparator(s[1..], c);
    }
  }

  /** Inverse of `Split`: the parts glued back together with `c` between them. */
  function Join(parts: seq<string>, c: char): string
    requires |parts| >= 1
  {
    if |parts| == 1 then parts[0] else parts[0] + [c] + Join(parts[1..], c)
  }

  /** Splitting loses nothing: joining the parts gives back the string. */
  lemma {:induction false} JoinSplit(s: string, c: char)
    ensures Join(Split(s, c), c) == s
  {
    if s != [] {
      var rest := Split(s[1..], c);
      JoinSplit(s[1..], c);
      if s[0] == c {
        assert Split(s, c) == [""] + rest;
        JoinEmptyFirst(rest, c);
        assert [c] + s[1..] == s;
      } else if |rest| > 1 {
        assert Split(s, c) == [[s[0]] + rest[0]] + rest[1..];
        JoinExtendFirst(s[0], rest, c);
        assert [s[0]] + s[1..] == s;
      } else {
        assert Split(s, c) == [s];
      }
    }
  }

  /** An empty first part contributes only its separator. */
  lemma JoinEmptyFirst(parts: seq<string>, c: char)
    requires |parts| >= 1
    ensures Join([""] + parts, c) == [c] + Join(parts, c)
  {
    assert ([""] + parts)[1..] == parts;
  }

  /** A character in front of the first part comes out in front of the joined text. */
  lemma JoinExtendFirst(x: char, parts: seq<string>, c: char)
    requires |parts| >= 1
    ensures Join([[x] + parts[0]] + parts[1..], c) == [x] + Join(parts, c)
  {
    var r := [[x] + parts[0]] + parts[1..];
    if |parts| > 1 {
      assert r[1..] == parts[1..];
      assert ([x] + parts[0]) + [c] + Join(parts[1..], c) == [x] + (parts[0] + [c] + Join(parts[1..], c));
    }
  }

  /** The last part of a split is the text after the last separator. */
  lemma SplitLastIsLastSegment(s: string, c: char)
    ensures Split(s, c)[|Split(s, c)| - 1] == LastSegment(s, c)
  {
    LastSegmentUnique(s, c, Split(s, c)[|Split(s, c)| - 1], LastSegment(s, c));
  }

  /** `parts` glued with `c` between them; no parts give the empty string (Python `c.join`). */
  function JoinAll(parts: seq<string>, c: char): string
  {
    if parts == [] then "" else Join(parts, c)
  }

  /** Whitespace as Python's `str.isspace` sees it. */
  predicate IsSpace(ch: char)
  {
    ('\t' <= ch <= '\r') || ('\U{1C}' <= ch <= ' ') || ch == '\U{85}' || ch == '\U{A0}' || ch == '\U{1680}'
    || ('\U{2000}' <= ch <= '\U{200A}') || ch == '\U{2028}' || ch == '\U{2029}' || ch == '\U{202F}'
    || ch == '\U{205F}' || ch == '\U{3000}'
  }

  /** `s` without its leading whitespace. */
  function TrimLeft(s: string): (r: string)
    ensures |r| <= |s| && r == s[|s| - |r|..]
    ensures forall i :: 0 <= i < |s| - |r| ==> IsSpace(s[i])
    ensures r == [] || !IsSpace(r[0])
  {
    if s != [] && IsSpace(s[0]) then
      var r := TrimLeft(s[1..]);
      assert forall i :: 0 < i < |s| ==> s[i] == s[1..][i - 1];
      r
    else s
  }

  /** `s` without its trailing whitespace. */
  function TrimRight(s: string): (r: string)
    ensures |r| <= |s| && r == s[..|r|]
    ensures forall i :: |r| <= i < |s| ==> IsSpace(s[i])
    ensures r == [] || !IsSpace(r[|r| - 1])
  {
    if s != [] && IsSpace(s[|s| - 1]) then TrimRight(s[..|s| - 1]) else s
  }

  /** `s` without whitespace at either end (Python `str.strip()`). */
  function Strip(s: string): (r: string)
    ensures |r| <= |s|
    ensures r == [] || (!IsSpace(r[0]) && !IsSpace(r[|r| - 1]))
  {
    var l := TrimLeft(s);
    var r := TrimRight(l);
    assert r != [] ==> r[0] == l[0];
    r
  }

  predicate IsDigit(ch: char)
  {
    '0' <= ch <= '9'
  }

  function DigitValue(ch: char): (d: nat)
    requires IsDigit(ch)
    ensures d < 10
  {
    (ch as int - '0' as int) as nat
  }

  function DigitChar(d: nat): char
    requires d < 10
  {
    "0123456789"[d]
  }

  /** The decimal numeral of `n`, without leading zeros (Python `str`, Java `Integer.toString`). */
  function NatToString(n: nat): (r: string)
    ensures |r| >= 1 && forall i :: 0 <= i < |r| ==> IsDigit(r[i])
    ensures |r| > 1 ==> r[0] != '0'
  {
    if n < 10 then [DigitChar(n)] else NatToString(n / 10) + [DigitChar(n % 10)]
  }

  /** The number a string of decimal digits denotes. */
  function DecimalValue(s: string): nat
    requires forall i :: 0 <= i < |s| ==> IsDigit(s[i])
  {
    if s == [] then 0 else DecimalValue(s[..|s| - 1]) * 10 + DigitValue(s[|s| - 1])
  }

  /** Reading back the numeral of `n` gives `n`. */
  lemma {:induction false} DecimalOfNatToString(n: nat)
    ensures DecimalValue(NatToString(n)) == n
  {
    var r := NatToString(n);
    if n >= 10 {
      assert r[..|r| - 1] == NatToString(n / 10);
      DecimalOfNatToString(n / 10);
    }
  }
}
