/** The SQL built-ins the servers' queries rely on, with SQLite's semantics:
    `SUBSTR`, `CAST(... AS INTEGER)` on text, and `BETWEEN` on text. */
module Sql {
  import opened Text

  /** `SUBSTR(s, start, len)` for a 1-based `start >= 1`: the characters from position
      `start` on, at most `len` of them, clipped at the end of `s`. */
  function Substr(s: string, start: nat, len: nat): (r: string)
    requires start >= 1
    ensures |r| == if start - 1 + len <= |s| then len
                   else if start - 1 <= |s| then |s| - (start - 1) else 0
    ensures forall k :: 0 <= k < |r| ==> r[k] == s[start - 1 + k]
  {
    var from := if start - 1 <= |s| then start - 1 else |s|;
    var to := if start - 1 + len <= |s| then start - 1 + len else |s|;
    s[from..to]
  }

  /** The characters SQLite skips before a number in a text-to-integer conversion. */
  predicate IsSqlSpace(c: char) {
    c == ' ' || c == '\t' || c == '\n' || c == '\U{B}' || c == '\U{C}' || c == '\r'
  }

  function SkipSqlSpaces(s: string): (r: string)
    ensures |r| <= |s|
    ensures r != [] ==> !IsSqlSpace(r[0])
  {
    if s != [] && IsSqlSpace(s[0]) then SkipSqlSpaces(s[1..]) else s
  }

  /** The longest prefix of `s` made of decimal digits. */
  function DigitPrefix(s: string): (d: string)
    ensures |d| <= |s| && d == s[..|d|] && AllDigits(d)
    ensures |d| < |s| ==> !IsDigit(s[|d|])
  {
    if s != [] && IsDigit(s[0]) then
      var d := [s[0]] + DigitPrefix(s[1..]);
      assert s == [s[0]] + s[1..];
      d
    else ""
  }

  /** `CAST(s AS INTEGER)` for a text value: leading spaces are skipped, then an
      optional sign and the longest run of digits is read; the rest is ignored, and
      text with no such prefix converts to 0. (64-bit saturation is not modelled.) */
  function CastInteger(s: string): int {
    var t := SkipSqlSpaces(s);
    if t != [] && t[0] == '-' then 0 - DigitsValue(DigitPrefix(t[1..])) as int
    else if t != [] && t[0] == '+' then DigitsValue(DigitPrefix(t[1..]))
    else DigitsValue(DigitPrefix(t))
  }

  /** A run of digits followed by anything that does not start with a digit converts to
      the value of the digits: the conversion stops at the first non-digit. */
  lemma CastIntegerDigits(d: string, rest: string)
    requires d != [] && AllDigits(d)
    requires rest != [] ==> !IsDigit(rest[0])
    ensures CastInteger(d + rest) == DigitsValue(d)
  {
    assert (d + rest)[0] == d[0];
    CastOfDigitStart(d + rest);
    DigitPrefixOf(d, rest);
  }

  /** Text starting with a digit converts to the value of its leading digits. */
  lemma CastOfDigitStart(s: string)
    requires s != [] && IsDigit(s[0])
    ensures CastInteger(s) == DigitsValue(DigitPrefix(s))
  {
    assert SkipSqlSpaces(s) == s;
  }

  lemma {:induction false} DigitPrefixOf(d: string, rest: string)
    requires AllDigits(d)
    requires rest != [] ==> !IsDigit(rest[0])
    ensures DigitPrefix(d + rest) == d
    decreases |d|
  {
    if d != [] {
      assert (d + rest)[1..] == d[1..] + rest;
      DigitPrefixOf(d[1..], rest);
      assert [d[0]] + d[1..] == d;
    } else {
      assert d + rest == rest;
    }
  }

  /** Text comparison `a <= b` under SQLite's BINARY collation: lexicographic by character. */
  predicate StrLe(a: string, b: string)
    decreases |a|
  {
    if a == [] then true
    else if b == [] then false
    else if a[0] != b[0] then a[0] < b[0]
    else StrLe(a[1..], b[1..])
  }

  /** `x BETWEEN lo AND hi` on text. */
  predicate Between(x: string, lo: string, hi: string) {
    StrLe(lo, x) && StrLe(x, hi)
  }

  /** Text comparison is antisymmetric, so `x BETWEEN d AND d` selects exactly `d`. */
  lemma {:induction false} StrLeAntisymmetric(a: string, b: string)
    requires StrLe(a, b) && StrLe(b, a)
    ensures a == b
    decreases |a|
  {
    if a != [] && b != [] {
      StrLeAntisymmetric(a[1..], b[1..]);
      assert a == [a[0]] + a[1..] && b == [b[0]] + b[1..];
    }
  }

  lemma {:induction false} StrLeReflexive(a: string)
    ensures StrLe(a, a)
    decreases |a|
  {
    if a != [] {
      StrLeReflexive(a[1..]);
    }
  }

  /** A one-day range selects exactly that day. */
  lemma BetweenSameDay(x: string, d: string)
    ensures Between(x, d, d) <==> x == d
  {
    StrLeReflexive(d);
    if Between(x, d, d) {
      StrLeAntisymmetric(x, d);
    }
  }
}
