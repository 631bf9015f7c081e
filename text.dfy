/** String helpers with JavaScript's semantics: white space as `trim()` and the
    regular-expression class `\s` see it, `split` on one character, `Array.join`,
    and the decimal rendering of integers in template strings. */
module Text {

  /** JavaScript's WhiteSpace and LineTerminator code points (what `trim()` strips and `\s` matches). */
  predicate IsJsSpace(c: char) {
    || c == ' ' || c == '\t' || c == '\n' || c == '\U{B}' || c == '\U{C}' || c == '\r'
    || c == '\U{A0}' || c == '\U{1680}' || ('\U{2000}' <= c <= '\U{200A}')
    || c == '\U{2028}' || c == '\U{2029}' || c == '\U{202F}' || c == '\U{205F}'
    || c == '\U{3000}' || c == '\U{FEFF}'
  }

  predicate AllSpace(s: string) {
    forall i :: 0 <= i < |s| ==> IsJsSpace(s[i])
  }

  /** The number of white-space characters at the start of `s`. */
  function LeadingSpaces(s: string): (n: nat)
    ensures n <= |s| && AllSpace(s[..n])
    ensures n < |s| ==> !IsJsSpace(s[n])
  {
    if s != [] && IsJsSpace(s[0]) then
      var n := 1 + LeadingSpaces(s[1..]);
      assert s[..n] == [s[0]] + s[1..][..n - 1];
      n
    else 0
  }

  /** The number of white-space characters at the end of `s`. */
  function TrailingSpaces(s: string): (n: nat)
    ensures n <= |s| && AllSpace(s[|s| - n..])
    ensures n < |s| ==> !IsJsSpace(s[|s| - n - 1])
  {
    if s != [] && IsJsSpace(s[|s| - 1]) then
      var m := TrailingSpaces(s[..|s| - 1]);
      TrailingSpacesStep(s, m);
      m + 1
    else 0
  }

  /** One more white-space character at the end extends the white-space tail by one. */
  lemma TrailingSpacesStep(s: string, m: nat)
    requires s != [] && IsJsSpace(s[|s| - 1]) && m <= |s| - 1
    requires AllSpace(s[..|s| - 1][|s| - 1 - m..])
    requires m < |s| - 1 ==> !IsJsSpace(s[..|s| - 1][|s| - 1 - m - 1])
    ensures AllSpace(s[|s| - (m + 1)..])
    ensures m + 1 < |s| ==> !IsJsSpace(s[|s| - (m + 1) - 1])
  {
    var p := s[..|s| - 1];
    var t := s[|s| - (m + 1)..];
    forall k | 0 <= k < |t| ensures IsJsSpace(t[k]) {
      if k < m {
        assert t[k] == p[|p| - m..][k];
      }
    }
  }

  /** `s.trim()`: `s` is the result with white space only cut off at either end, and
      the result neither starts nor ends with white space; it is empty exactly when `s`
      is all white space. */
  function Trim(s: string): (r: string)
    ensures var i := LeadingSpaces(s);
            i + |r| <= |s| && s == s[..i] + r + s[i + |r|..] && AllSpace(s[i + |r|..])
    ensures r != [] ==> !IsJsSpace(r[0]) && !IsJsSpace(r[|r| - 1])
    ensures r == [] <==> AllSpace(s)
  {
    var i := LeadingSpaces(s);
    var k := TrailingSpaces(s);
    if i == |s| then
      WhollySpace(s);
      ""
    else
      TrimMiddle(s, i, k);
      s[i..|s| - k]
  }

  lemma WhollySpace(s: string)
    requires AllSpace(s[..|s|])
    ensures AllSpace(s) && s == s[..|s|] + "" + s[|s|..] && AllSpace(s[|s|..])
  {
    assert s[..|s|] == s;
  }

  /** When `s` is not all white space, its white-space head and tail do not overlap, and
      what lies between them starts and ends with a non-space character. */
  lemma TrimMiddle(s: string, i: nat, k: nat)
    requires i < |s| && !IsJsSpace(s[i]) && AllSpace(s[..i])
    requires k <= |s| && AllSpace(s[|s| - k..]) && (k < |s| ==> !IsJsSpace(s[|s| - k - 1]))
    ensures i < |s| - k
    ensures var r := s[i..|s| - k];
            && i + |r| <= |s| && s == s[..i] + r + s[i + |r|..] && AllSpace(s[i + |r|..])
            && r != [] && !IsJsSpace(r[0]) && !IsJsSpace(r[|r| - 1]) && !AllSpace(s)
  {
    var tail := s[|s| - k..];
    assert forall j :: |s| - k <= j < |s| ==> IsJsSpace(s[j]) by {
      forall j | |s| - k <= j < |s| ensures IsJsSpace(s[j]) {
        assert s[j] == tail[j - (|s| - k)];
      }
    }
    var r := s[i..|s| - k];
    assert r[0] == s[i] && r[|r| - 1] == s[|s| - k - 1];
    assert s[i + |r|..] == tail;
    assert s == s[..i] + r + tail;
  }

  lemma AllSpaceConcat(a: string, b: string)
    requires AllSpace(a) && AllSpace(b)
    ensures AllSpace(a + b)
  {
    forall k | 0 <= k < |a + b| ensures IsJsSpace((a + b)[k]) {
      if k >= |a| { assert (a + b)[k] == b[k - |a|]; }
    }
  }

  /** `parts.join(sep)`: the empty list joins to the empty string. */
  function Join(parts: seq<string>, sep: string): string {
    if |parts| == 0 then ""
    else if |parts| == 1 then parts[0]
    else parts[0] + sep + Join(parts[1..], sep)
  }

  /** `s.split(c)` for a one-character separator: always at least one part, and no
      part contains the separator. */
  function Split(s: string, c: char): (parts: seq<string>)
    ensures |parts| >= 1
    ensures forall k :: 0 <= k < |parts| ==> c !in parts[k]
    decreases |s|
  {
    if s == [] then [""]
    else if s[0] == c then [""] + Split(s[1..], c)
    else
      var rest := Split(s[1..], c);
      [[s[0]] + rest[0]] + rest[1..]
  }

  /** Splitting and joining back with the same separator gives the original string. */
  lemma {:induction false} JoinSplit(s: string, c: char)
    ensures Join(Split(s, c), [c]) == s
    decreases |s|
  {
    if s == [] {
    } else if s[0] == c {
      JoinSplit(s[1..], c);
      assert Split(s, c) == [""] + Split(s[1..], c);
      assert s == [c] + s[1..];
    } else {
      JoinSplit(s[1..], c);
      var rest := Split(s[1..], c);
      assert Split(s, c) == [[s[0]] + rest[0]] + rest[1..];
      if |rest| == 1 {
        assert s == [s[0]] + s[1..];
      } else {
        assert Join(rest, [c]) == rest[0] + [c] + Join(rest[1..], [c]);
        assert ([[s[0]] + rest[0]] + rest[1..])[1..] == rest[1..];
        assert s == [s[0]] + s[1..];
      }
    }
  }

  /** A field free of the separator, followed by the separator, is split off as the first part. */
  lemma {:induction false} SplitAfterField(a: string, c: char, b: string)
    requires c !in a
    ensures Split(a + [c] + b, c) == [a] + Split(b, c)
    decreases |a|
  {
    if a == [] {
      assert a + [c] + b == [c] + b;
      assert ([c] + b)[1..] == b;
    } else {
      SplitAfterField(a[1..], c, b);
      assert (a + [c] + b)[1..] == a[1..] + [c] + b;
      assert [a[0]] + a[1..] == a;
    }
  }

  /** A string free of the separator is split into itself alone. */
  lemma {:induction false} SplitNoSeparator(a: string, c: char)
    requires c !in a
    ensures Split(a, c) == [a]
    decreases |a|
  {
    if a != [] {
      SplitNoSeparator(a[1..], c);
      assert [a[0]] + a[1..] == a;
    }
  }

  /** A character in neither the parts nor the separator is not in their join. */
  lemma {:induction false} JoinAvoids(parts: seq<string>, sep: string, c: char)
    requires c !in sep && forall k :: 0 <= k < |parts| ==> c !in parts[k]
    ensures c !in Join(parts, sep)
    decreases |parts|
  {
    if |parts| > 1 {
      JoinAvoids(parts[1..], sep, c);
    }
  }

  /** Appending a part appends the separator and the part. */
  lemma {:induction false} JoinSnoc(parts: seq<string>, last: string, sep: string)
    requires parts != []
    ensures Join(parts + [last], sep) == Join(parts, sep) + sep + last
    decreases |parts|
  {
    if |parts| > 1 {
      assert (parts + [last])[1..] == parts[1..] + [last];
      JoinSnoc(parts[1..], last, sep);
    }
  }

  /** Joining separator-free parts and splitting again gives the parts back. */
  lemma {:induction false} SplitJoin(parts: seq<string>, c: char)
    requires |parts| >= 1 && forall k :: 0 <= k < |parts| ==> c !in parts[k]
    ensures Split(Join(parts, [c]), c) == parts
    decreases |parts|
  {
    if |parts| == 1 {
      SplitNoSeparator(parts[0], c);
    } else {
      SplitJoin(parts[1..], c);
      SplitAfterField(parts[0], c, Join(parts[1..], [c]));
      assert parts == [parts[0]] + parts[1..];
    }
  }

  /** A string with no white space at either end, padded with white space, trims back to itself. */
  lemma TrimPadded(pre: string, body: string, post: string)
    requires AllSpace(pre) && AllSpace(post)
    requires body != [] && !IsJsSpace(body[0]) && !IsJsSpace(body[|body| - 1])
    ensures Trim(pre + body + post) == body
  {
    var s := pre + body + post;
    assert s == pre + (body + post);
    LeadingSpacesOf(pre, body + post);
    TrailingSpacesOf(pre + body, post);
    assert s[|pre|..|s| - |post|] == body;
  }

  lemma {:induction false} LeadingSpacesOf(pre: string, rest: string)
    requires AllSpace(pre) && (rest == [] || !IsJsSpace(rest[0]))
    ensures LeadingSpaces(pre + rest) == |pre|
    decreases |pre|
  {
    if pre == [] {
      assert pre + rest == rest;
    } else {
      LeadingSpacesOf(pre[1..], rest);
      assert (pre + rest)[1..] == pre[1..] + rest;
    }
  }

  lemma {:induction false} TrailingSpacesOf(rest: string, post: string)
    requires AllSpace(post) && (rest == [] || !IsJsSpace(rest[|rest| - 1]))
    ensures TrailingSpaces(rest + post) == |post|
    decreases |post|
  {
    if post == [] {
      assert rest + post == rest;
    } else {
      var p := post[..|post| - 1];
      var whole := rest + post;
      assert AllSpace(p);
      TrailingSpacesOf(rest, p);
      assert whole[|whole| - 1] == post[|post| - 1];
      assert whole[..|whole| - 1] == rest + p;
    }
  }

  predicate IsDigit(c: char) {
    '0' <= c <= '9'
  }

  predicate AllDigits(s: string) {
    forall i :: 0 <= i < |s| ==> IsDigit(s[i])
  }

  function DigitChar(d: nat): (c: char)
    requires d < 10
    ensures IsDigit(c) && c as int - '0' as int == d
  {
    ('0' as int + d) as char
  }

  /** The value of a string of decimal digits, most significant first. */
  function DigitsValue(s: string): nat
    requires AllDigits(s)
  {
    if s == [] then 0
    else DigitsValue(s[..|s| - 1]) * 10 + (s[|s| - 1] as int - '0' as int)
  }

  /** Decimal rendering of a natural number, as `${n}` gives it: no leading zeros. */
  function NatToString(n: nat): (s: string)
    ensures |s| >= 1 && AllDigits(s)
    ensures s[0] == '0' ==> n == 0
  {
    if n < 10 then [DigitChar(n)]
    else NatToString(n / 10) + [DigitChar(n % 10)]
  }

  /** `${i}` for an integer: a minus sign in front of negative values. */
  function IntToString(i: int): (s: string)
    ensures |s| >= 1
    ensures i < 0 <==> s[0] == '-'
    ensures forall j :: 0 <= j < |s| ==> IsDigit(s[j]) || s[j] == '-'
  {
    if i < 0 then "-" + NatToString(-i) else NatToString(i)
  }

  /** Reading the digits back gives the number: NatToString is injective. */
  lemma {:induction false} NatToStringValue(n: nat)
    ensures DigitsValue(NatToString(n)) == n
  {
    if n >= 10 {
      NatToStringValue(n / 10);
      var s := NatToString(n);
      assert s[..|s| - 1] == NatToString(n / 10);
    }
  }

  /** Different integers render differently. */
  lemma IntToStringInjective(a: int, b: int)
    requires IntToString(a) == IntToString(b)
    ensures a == b
  {
    if a < 0 && b < 0 {
      var m: nat, n: nat := -a, -b;
      assert NatToString(m) == IntToString(a)[1..];
      assert NatToString(n) == IntToString(b)[1..];
      NatToStringValue(m);
      NatToStringValue(n);
    } else if a >= 0 && b >= 0 {
      NatToStringValue(a);
      NatToStringValue(b);
    }
  }

  function Pow10(w: nat): (p: nat)
    ensures p >= 1
  {
    if w == 0 then 1 else 10 * Pow10(w - 1)
  }

  /** A number below 10^w takes at most w digits (w >= 1). */
  lemma {:induction false} NatToStringLength(n: nat, w: nat)
    requires w >= 1 && n < Pow10(w)
    ensures |NatToString(n)| <= w
  {
    if n >= 10 {
      assert Pow10(1) == 10;
      assert n / 10 < Pow10(w - 1);
      NatToStringLength(n / 10, w - 1);
    }
  }

  function Zeros(k: nat): (s: string)
    ensures |s| == k && AllDigits(s)
  {
    if k == 0 then "" else "0" + Zeros(k - 1)
  }

  /** The number rendered with leading zeros up to `width` characters (dayjs `YYYY`, `MM`, `DD`). */
  function ZeroPad(n: nat, width: nat): (s: string)
    ensures AllDigits(s)
    ensures |s| == if |NatToString(n)| < width then width else |NatToString(n)|
  {
    var d := NatToString(n);
    (if |d| < width then Zeros(width - |d|) else "") + d
  }

  /** Leading zeros do not change the value of a digit string. */
  lemma {:induction false} LeadingZerosValue(k: nat, s: string)
    requires AllDigits(s)
    ensures DigitsValue(Zeros(k) + s) == DigitsValue(s)
    decreases k, |s|
  {
    if s == [] {
      if k > 0 {
        assert Zeros(k) + s == Zeros(k);
        assert Zeros(k)[..k - 1] == Zeros(k - 1) by {
          ZerosSnoc(k - 1);
        }
        LeadingZerosValue(k - 1, s);
        assert Zeros(k - 1) + s == Zeros(k - 1);
      }
    } else {
      var t := Zeros(k) + s;
      assert t[..|t| - 1] == Zeros(k) + s[..|s| - 1];
      LeadingZerosValue(k, s[..|s| - 1]);
    }
  }

  lemma {:induction false} ZerosSnoc(k: nat)
    ensures Zeros(k + 1) == Zeros(k) + "0"
  {
    if k > 0 {
      ZerosSnoc(k - 1);
    }
  }

  /** Reading a zero-padded rendering back gives the number. */
  lemma ZeroPadValue(n: nat, width: nat)
    ensures DigitsValue(ZeroPad(n, width)) == n
  {
    NatToStringValue(n);
    PaddedValue(NatToString(n), width);
  }

  /** Padding any digit string with zeros up to a width keeps its value. */
  lemma PaddedValue(d: string, width: nat)
    requires AllDigits(d)
    ensures DigitsValue((if |d| < width then Zeros(width - |d|) else "") + d) == DigitsValue(d)
  {
    if |d| < width {
      LeadingZerosValue(width - |d|, d);
    } else {
      assert "" + d == d;
    }
  }
}
