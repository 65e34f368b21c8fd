/**
 * The pieces of `java.lang.String` and `java.lang.Integer` the Location
 * agents rely on: `split` on a one-character literal pattern (which drops
 * trailing empty fields), `startsWith`, and `Integer.parseInt` in base 10;
 * also the wrap-around of a 32-bit `int`, shared with the WAV reader.
 */
module JavaText {
  import opened Wrappers

  const INT_MAX: int := 0x7FFF_FFFF
  const INT_MIN: int := -0x8000_0000

  /** A 32-bit `int` result (Java's `int`, and C's in the WAV reader): the mathematical value wrapped into 32 bits. */
  function IntOf(x: int): (r: int)
    ensures INT_MIN <= r <= INT_MAX
    ensures INT_MIN <= x <= INT_MAX ==> r == x
  {
    (x - INT_MIN) % 0x1_0000_0000 + INT_MIN
  }

  /** The wrapped value differs from the mathematical one by a multiple of 2^32. */
  lemma IntOfWraps(x: int)
    ensures (IntOf(x) - x) % 0x1_0000_0000 == 0
  {
  }

  predicate StartsWith(s: string, prefix: string)
  {
    |prefix| <= |s| && s[..|prefix|] == prefix
  }

  /** Length of the field `s` starts with: the characters before the first `c`. */
  function FieldLength(s: string, c: char): (n: nat)
    ensures n <= |s|
    ensures forall i :: 0 <= i < n ==> s[i] != c
    ensures n < |s| ==> s[n] == c
  {
    if s == [] || s[0] == c then 0 else 1 + FieldLength(s[1..], c)
  }

  /** Every field between occurrences of `c`, empty ones included: one more field than there are `c`s. */
  function Fields(s: string, c: char): seq<string>
    decreases |s|
  {
    var n := FieldLength(s, c);
    if n == |s| then [s] else [s[..n]] + Fields(s[n + 1..], c)
  }

  /** There is at least one field, and none holds the separator. */
  lemma {:induction false} FieldsSeparatorFree(s: string, c: char)
    ensures |Fields(s, c)| >= 1
    ensures forall i :: 0 <= i < |Fields(s, c)| ==> c !in Fields(s, c)[i]
    decreases |s|
  {
    var n := FieldLength(s, c);
    if n < |s| {
      FieldsSeparatorFree(s[n + 1..], c);
      var rest := Fields(s[n + 1..], c);
      forall i | 1 <= i < |Fields(s, c)|
        ensures c !in Fields(s, c)[i]
      {
        assert Fields(s, c)[i] == rest[i - 1];
      }
    }
  }

  /** `fs` without its trailing empty strings. */
  function DropTrailingEmpty(fs: seq<string>): seq<string>
  {
    if fs == [] then []
    else if fs[|fs| - 1] == [] then DropTrailingEmpty(fs[..|fs| - 1])
    else fs
  }

  /** Dropping keeps a prefix, which ends in a non-empty string, and only empty strings follow it. */
  lemma {:induction false} DropTrailingEmptyMeaning(fs: seq<string>)
    ensures var r := DropTrailingEmpty(fs);
      |r| <= |fs| && r == fs[..|r|] && (r == [] || r[|r| - 1] != [])
      && forall i :: |r| <= i < |fs| ==> fs[i] == []
  {
    if fs != [] && fs[|fs| - 1] == [] {
      DropTrailingEmptyMeaning(fs[..|fs| - 1]);
      var r := DropTrailingEmpty(fs);
      assert fs[..|fs| - 1][..|r|] == fs[..|r|];
    }
  }

  /**
   * `s.split(c)` for a pattern matching exactly the character `c`: with no
   * `c` in `s`, the string itself (even when empty); otherwise the fields
   * between the `c`s, trailing empty fields removed.
   */
  function Split(s: string, c: char): seq<string>
  {
    if c !in s then [s] else DropTrailingEmpty(Fields(s, c))
  }

  /** No piece of a split holds the separator. */
  lemma SplitSeparatorFree(s: string, c: char)
    ensures forall i :: 0 <= i < |Split(s, c)| ==> c !in Split(s, c)[i]
  {
    if c in s {
      var fs := Fields(s, c);
      var r := DropTrailingEmpty(fs);
      FieldsSeparatorFree(s, c);
      DropTrailingEmptyMeaning(fs);
      forall i | 0 <= i < |r|
        ensures c !in r[i]
      {
        assert r[i] == fs[i];
      }
    }
  }

  /** The strings joined by single `c`s. */
  function Join(ts: seq<string>, c: char): string
    requires ts != []
  {
    if |ts| == 1 then ts[0] else ts[0] + [c] + Join(ts[1..], c)
  }

  lemma {:induction false} FieldLengthOf(t: string, rest: string, c: char)
    requires c !in t
    ensures FieldLength(t + rest, c) == |t| + FieldLength(rest, c)
    decreases |t|
  {
    if t == [] {
      assert t + rest == rest;
    } else {
      assert t[0] in t && (t + rest)[0] == t[0];
      assert (t + rest)[1..] == t[1..] + rest;
      FieldLengthOf(t[1..], rest, c);
    }
  }

  /** A field without the separator is the whole string. */
  lemma FieldsOfOne(t: string, c: char)
    requires c !in t
    ensures Fields(t, c) == [t]
  {
    FieldLengthOf(t, [], c);
    assert t + [] == t;
  }

  /** A field followed by the separator is split off the front. */
  lemma FieldsOfCons(t: string, rest: string, c: char)
    requires c !in t
    ensures Fields(t + [c] + rest, c) == [t] + Fields(rest, c)
  {
    var s := t + [c] + rest;
    FieldLengthOf(t, [c] + rest, c);
    assert s == t + ([c] + rest);
    assert s[..|t|] == t && s[|t| + 1..] == rest;
  }

  /** Splitting the joined strings gives each of them back, when none holds the separator. */
  lemma {:induction false} FieldsOfJoin(ts: seq<string>, c: char)
    requires ts != []
    requires forall i :: 0 <= i < |ts| ==> c !in ts[i]
    ensures Fields(Join(ts, c), c) == ts
    decreases |ts|
  {
    if |ts| == 1 {
      FieldsOfOne(ts[0], c);
    } else {
      FieldsOfCons(ts[0], Join(ts[1..], c), c);
      FieldsOfJoin(ts[1..], c);
    }
  }

  /** Two or more strings joined by `c`, the last one non-empty, split back into themselves. */
  lemma SplitOfJoin(ts: seq<string>, c: char)
    requires |ts| >= 2 && ts[|ts| - 1] != []
    requires forall i :: 0 <= i < |ts| ==> c !in ts[i]
    ensures Split(Join(ts, c), c) == ts
  {
    FieldsOfJoin(ts, c);
    var s := Join(ts, c);
    assert s == ts[0] + [c] + Join(ts[1..], c);
    assert s[|ts[0]|] == c;
  }

  /** One more separator at the end adds one more, empty, field. */
  lemma {:induction false} FieldsOfTrailing(s: string, c: char)
    ensures Fields(s + [c], c) == Fields(s, c) + [[]]
    decreases |s|
  {
    var n := FieldLength(s, c);
    if n == |s| {
      FieldsOfOne(s, c);
      FieldsOfCons(s, [], c);
      assert s + [c] + [] == s + [c];
      FieldsOfOne([], c);
    } else {
      var t, rest := s[..n], s[n + 1..];
      assert s == t + [c] + rest;
      assert s + [c] == t + [c] + (rest + [c]);
      FieldsOfCons(t, rest, c);
      FieldsOfCons(t, rest + [c], c);
      FieldsOfTrailing(rest, c);
    }
  }

  /**
   * A trailing separator is lost on a non-empty string: `split` drops the
   * empty field it would add.
   */
  lemma SplitTrailing(s: string, c: char)
    requires s != []
    ensures Split(s + [c], c) == Split(s, c)
  {
    FieldsOfTrailing(s, c);
    assert (s + [c])[|s|] == c;
    var fs := Fields(s, c);
    assert (fs + [[]])[..|fs|] == fs;
    if c !in s {
      FieldsOfOne(s, c);
      assert [s, []][..1] == [s];
      assert DropTrailingEmpty([s, []]) == DropTrailingEmpty([s]) == [s];
    }
  }

  predicate AllDigits(s: string)
  {
    forall i :: 0 <= i < |s| ==> '0' <= s[i] <= '9'
  }

  /** The number a string of decimal digits spells. */
  function DecValue(s: string): nat
    requires AllDigits(s)
  {
    if s == [] then 0 else 10 * DecValue(s[..|s| - 1]) + (s[|s| - 1] as int - '0' as int)
  }

  /**
   * `Integer.parseInt(s)`: an optional `+` or `-`, then at least one decimal
   * digit and nothing else, within the range of `int`; anything else throws
   * NumberFormatException (None).
   */
  function ParseInt(s: string): (r: Option<int>)
    ensures r.Some? ==> INT_MIN <= r.value <= INT_MAX
    ensures r.Some? ==> s != [] && (AllDigits(s) || ((s[0] == '-' || s[0] == '+') && AllDigits(s[1..])))
  {
    var sign := if s != [] && (s[0] == '-' || s[0] == '+') then 1 else 0;
    var body := s[sign..];
    if body == [] || !AllDigits(body) then None
    else
      var v := if s[0] == '-' then -(DecValue(body) as int) else DecValue(body);
      if INT_MIN <= v <= INT_MAX then Some(v) else None
  }

  /** `Integer.toString(n)` for a non-negative `n`: its decimal digits, no leading zero. */
  function Decimal(n: nat): (s: string)
    ensures s != [] && AllDigits(s)
    ensures |s| > 1 ==> s[0] != '0'
  {
    var d := ['0' + (n % 10) as char];
    if n < 10 then d else Decimal(n / 10) + d
  }

  /** Parsing a number's decimal digits gives the number back. */
  lemma {:induction false} DecValueOfDecimal(n: nat)
    ensures DecValue(Decimal(n)) == n
  {
    var s := Decimal(n);
    if n >= 10 {
      DecValueOfDecimal(n / 10);
      assert s[..|s| - 1] == Decimal(n / 10);
    }
  }

  lemma ParseIntOfDecimal(n: nat)
    requires n <= INT_MAX
    ensures ParseInt(Decimal(n)) == Some(n)
  {
    DecValueOfDecimal(n);
    var s := Decimal(n);
    assert s[0] != '-' && s[0] != '+';
    assert s[0..] == s;
  }
}
