/** String helpers shared by the server and the browser side: the white-space
    test behind .NET's `string.IsNullOrWhiteSpace` and JavaScript's `trim()`,
    the case folding of a case-insensitive database collation, substring
    containment (what `LIKE '%q%'` tests) and decimal rendering of an integer
    (what a JavaScript template literal does with a status code). */
module Text {

  /** White space that .NET's `char.IsWhiteSpace` and JavaScript's `trim()`
      agree on: tab, line feed, vertical tab, form feed, carriage return,
      the space separators of Unicode category Zs, and the line and
      paragraph separators. */
  predicate IsCommonWhiteSpace(c: char) {
    || ('\t' <= c <= '\r')
    || c == ' ' || c == '\U{A0}' || c == '\U{1680}'
    || ('\U{2000}' <= c <= '\U{200A}')
    || c == '\U{2028}' || c == '\U{2029}' || c == '\U{202F}' || c == '\U{205F}' || c == '\U{3000}'
  }

  /** The next-line control character, white space to .NET only. */
  const NextLine: char := '\U{85}'
  /** The byte-order mark, white space to JavaScript only. */
  const ByteOrderMark: char := '\U{FEFF}'

  /** White space as .NET's `char.IsWhiteSpace` sees it. */
  predicate IsDotNetWhiteSpace(c: char) {
    IsCommonWhiteSpace(c) || c == NextLine
  }

  /** White space and line terminators as JavaScript's `trim()` sees them. */
  predicate IsJsWhiteSpace(c: char) {
    IsCommonWhiteSpace(c) || c == ByteOrderMark
  }

  /** `needle` starts at position `i` of `hay`. */
  predicate OccursAt(hay: string, needle: string, i: int) {
    0 <= i <= |hay| - |needle| && hay[i..i + |needle|] == needle
  }

  /** `string.IsNullOrWhiteSpace` on a non-null string: empty, or white space only. */
  predicate IsBlank(s: string) {
    forall k :: 0 <= k < |s| ==> IsDotNetWhiteSpace(s[k])
  }

  /** Nothing but what JavaScript's `trim()` removes. */
  predicate IsJsBlank(s: string) {
    forall k :: 0 <= k < |s| ==> IsJsWhiteSpace(s[k])
  }

  /** The length JavaScript's `length` and .NET's `Length` report: UTF-16
      code units, two for a character outside the Basic Multilingual Plane. */
  function Utf16Length(s: string): (n: nat)
    ensures |s| <= n <= 2 * |s|
    ensures (forall k :: 0 <= k < |s| ==> s[k] as int < 0x1_0000) ==> n == |s|
    ensures |s| == 1 ==> n == (if s[0] as int < 0x1_0000 then 1 else 2)
  {
    if s == [] then 0
    else Utf16Length(s[..|s| - 1]) + (if s[|s| - 1] as int < 0x1_0000 then 1 else 2)
  }

  /** The code units of a concatenation are those of its parts; with the
      count for a single character this fixes the length of every string. */
  lemma {:induction false} Utf16LengthAppend(a: string, b: string)
    ensures Utf16Length(a + b) == Utf16Length(a) + Utf16Length(b)
    decreases |b|
  {
    if b == [] {
      assert a + b == a;
    } else {
      var c := a + b;
      assert c[..|c| - 1] == a + b[..|b| - 1];
      Utf16LengthAppend(a, b[..|b| - 1]);
    }
  }

  /** Number of white-space characters at the front of `s`. */
  function LeadingSpace(s: string): (n: nat)
    ensures n <= |s|
    ensures forall k :: 0 <= k < n ==> IsJsWhiteSpace(s[k])
    ensures n < |s| ==> !IsJsWhiteSpace(s[n])
  {
    if |s| > 0 && IsJsWhiteSpace(s[0]) then 1 + LeadingSpace(s[1..]) else 0
  }

  /** Number of white-space characters at the back of `s`. */
  function TrailingSpace(s: string): (n: nat)
    ensures n <= |s|
    ensures forall k :: |s| - n <= k < |s| ==> IsJsWhiteSpace(s[k])
    ensures n < |s| ==> !IsJsWhiteSpace(s[|s| - 1 - n])
  {
    if |s| > 0 && IsJsWhiteSpace(s[|s| - 1]) then 1 + TrailingSpace(s[..|s| - 1]) else 0
  }

  /** JavaScript's `String.prototype.trim`: `s` without its leading and
      trailing white space. */
  function Trim(s: string): (r: string)
    ensures |r| <= |s|
  {
    var rest := s[LeadingSpace(s)..];
    rest[..|rest| - TrailingSpace(rest)]
  }

  /** What trimming means: the result is the piece of `s` left once white
      space alone is cut from either end, it neither starts nor ends with
      white space, and it is empty exactly when `s` is all white space. */
  lemma TrimIsTrim(s: string)
    ensures exists i :: OccursAt(s, Trim(s), i) && IsJsBlank(s[..i]) && IsJsBlank(s[i + |Trim(s)|..])
    ensures Trim(s) != [] ==> !IsJsWhiteSpace(Trim(s)[0]) && !IsJsWhiteSpace(Trim(s)[|Trim(s)| - 1])
    ensures Trim(s) == [] <==> IsJsBlank(s)
  {
    var a := LeadingSpace(s);
    var rest := s[a..];
    var b := TrailingSpace(rest);
    var r := Trim(s);
    assert OccursAt(s, r, a);
    assert IsJsBlank(s[..a]);
    var tail := s[a + |r|..];
    forall k | 0 <= k < |tail| ensures IsJsWhiteSpace(tail[k]) {
      assert tail[k] == rest[|rest| - b + k];
    }
    if r != [] {
      assert r[0] == s[a];
    }
  }

  /** Trimming twice is trimming once: a query trimmed by the component and
      trimmed again by the service reaches the wire unchanged. */
  lemma TrimIdempotent(s: string)
    ensures Trim(Trim(s)) == Trim(s)
  {
    TrimIsTrim(s);
    if Trim(s) != [] {
      TrimKeepsInnerText(Trim(s));
    }
  }

  /** A string that neither starts nor ends with white space is its own trim. */
  lemma TrimKeepsInnerText(s: string)
    requires s != [] && !IsJsWhiteSpace(s[0]) && !IsJsWhiteSpace(s[|s| - 1])
    ensures Trim(s) == s
  {
    assert LeadingSpace(s) == 0;
    assert s[0..] == s;
    assert TrailingSpace(s) == 0;
  }

  /** A trimmed string that .NET's `IsNullOrWhiteSpace` still calls blank
      begins and ends with the next-line character, the one white-space
      character `trim()` leaves in place. */
  lemma TrimmedBlankEndsWithNextLine(s: string)
    requires Trim(s) != []
    ensures IsBlank(Trim(s)) ==> Trim(s)[0] == NextLine && Trim(s)[|Trim(s)| - 1] == NextLine
  {
    TrimIsTrim(s);
  }

  /** Case folding of the collation: ASCII upper-case letters to lower case. */
  function Lower(c: char): (d: char)
    ensures 'A' <= c <= 'Z' ==> 'a' <= d <= 'z' && d as int - c as int == 32
    ensures !('A' <= c <= 'Z') ==> d == c
  {
    if 'A' <= c <= 'Z' then (c as int + 32) as char else c
  }

  function LowerString(s: string): (r: string)
    ensures |r| == |s|
    ensures forall k :: 0 <= k < |s| ==> r[k] == Lower(s[k])
  {
    seq(|s|, k requires 0 <= k < |s| => Lower(s[k]))
  }

  /** `needle` occurs somewhere in `hay`, searched from the front. */
  predicate Contains(hay: string, needle: string)
    decreases |hay|
  {
    needle <= hay || (|hay| > 0 && Contains(hay[1..], needle))
  }

  /** The search agrees with the textbook definition: there is a position of
      `hay` at which `needle` starts. */
  lemma {:induction false} ContainsIff(hay: string, needle: string)
    ensures Contains(hay, needle) <==>
            exists i :: OccursAt(hay, needle, i)
    decreases |hay|
  {
    if needle <= hay {
      assert OccursAt(hay, needle, 0);
    } else if |hay| == 0 {
    } else {
      ContainsIff(hay[1..], needle);
      if Contains(hay[1..], needle) {
        var i :| OccursAt(hay[1..], needle, i);
        assert hay[i + 1..i + 1 + |needle|] == hay[1..][i..i + |needle|];
        assert OccursAt(hay, needle, i + 1);
      }
      if exists i :: OccursAt(hay, needle, i) {
        var i :| OccursAt(hay, needle, i);
        if i > 0 {
          assert hay[1..][i - 1..i - 1 + |needle|] == hay[i..i + |needle|];
          assert OccursAt(hay[1..], needle, i - 1);
        }
      }
    }
  }

  function Digit(d: nat): (c: char)
    requires d < 10
    ensures '0' <= c <= '9'
  {
    "0123456789"[d]
  }

  function DigitValue(c: char): nat
  {
    if '0' <= c <= '9' then c as int - '0' as int else 0
  }

  /** Decimal rendering of a natural number, without leading zeros. */
  function NatToString(n: nat): (r: string)
    ensures |r| >= 1
    ensures |r| > 1 ==> r[0] != '0'
    ensures forall k :: 0 <= k < |r| ==> '0' <= r[k] <= '9'
  {
    if n < 10 then [Digit(n)] else NatToString(n / 10) + [Digit(n % 10)]
  }

  /** Reading the digits back, most significant first. */
  function ParseNat(s: string): nat
  {
    if s == [] then 0 else 10 * ParseNat(s[..|s| - 1]) + DigitValue(s[|s| - 1])
  }

  /** The rendering loses nothing: the number can be read back from it. */
  lemma {:induction false} NatToStringRoundTrip(n: nat)
    ensures ParseNat(NatToString(n)) == n
  {
    if n >= 10 {
      var r := NatToString(n);
      assert r[..|r| - 1] == NatToString(n / 10);
      NatToStringRoundTrip(n / 10);
    }
  }

  /** What `${n}` produces for an integer-valued JavaScript number. */
  function IntToString(n: int): (r: string)
    ensures |r| >= 1
    ensures r[0] == '-' <==> n < 0
    ensures n < 0 ==> |r| >= 2 && ParseNat(r[1..]) == -n
    ensures n >= 0 ==> ParseNat(r) == n
    ensures forall k :: (if n < 0 then 1 else 0) <= k < |r| ==> '0' <= r[k] <= '9'
    ensures var d := if n < 0 then r[1..] else r; |d| > 1 ==> d[0] != '0'
  {
    if n < 0 then
      NatToStringRoundTrip(-n);
      var r := "-" + NatToString(-n);
      assert r[1..] == NatToString(-n);
      r
    else
      NatToStringRoundTrip(n);
      NatToString(n)
  }
}
