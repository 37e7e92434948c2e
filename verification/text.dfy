/**
  String operations the source relies on: whitespace trimming (JavaScript's
  `trim` and Python's `strip`), splitting on a one-character separator,
  joining, prefix tests, ASCII lower-casing and decimal rendering of integers.
*/
module Text {

  /** Code points JavaScript's `String.prototype.trim` removes: WhiteSpace and LineTerminator. */
  predicate IsJsSpace(c: char) {
    || c == '\t' || c == '\n' || c == '\U{B}' || c == '\U{C}' || c == '\r' || c == ' '
    || c == '\U{A0}' || c == '\U{1680}' || ('\U{2000}' <= c <= '\U{200A}')
    || c == '\U{2028}' || c == '\U{2029}' || c == '\U{202F}' || c == '\U{205F}'
    || c == '\U{3000}' || c == '\U{FEFF}'
  }

  /** Code points Python's `str.strip()` removes (those `str.isspace` accepts). */
  predicate IsPySpace(c: char) {
    || c == '\t' || c == '\n' || c == '\U{B}' || c == '\U{C}' || c == '\r'
    || ('\U{1C}' <= c <= '\U{1F}') || c == ' ' || c == '\U{85}' || c == '\U{A0}'
    || c == '\U{1680}' || ('\U{2000}' <= c <= '\U{200A}')
    || c == '\U{2028}' || c == '\U{2029}' || c == '\U{202F}' || c == '\U{205F}'
    || c == '\U{3000}'
  }

  /** The end of the run of characters in `ws` that starts at position `i`. */
  function SkipForward(s: string, ws: char -> bool, i: nat): (j: nat)
    requires i <= |s|
    ensures i <= j <= |s|
    ensures forall k :: i <= k < j ==> ws(s[k])
    ensures j == |s| || !ws(s[j])
    decreases |s| - i
  {
    if i < |s| && ws(s[i]) then SkipForward(s, ws, i + 1) else i
  }

  /** The start of the run of characters in `ws` that ends at position `j`, not going below `lo`. */
  function SkipBackward(s: string, ws: char -> bool, lo: nat, j: nat): (i: nat)
    requires lo <= j <= |s|
    ensures lo <= i <= j
    ensures forall k :: i <= k < j ==> ws(s[k])
    ensures i == lo || !ws(s[i - 1])
    decreases j
  {
    if j > lo && ws(s[j - 1]) then SkipBackward(s, ws, lo, j - 1) else j
  }

  /** The number of leading characters of `s` in `ws`. */
  function Leading(s: string, ws: char -> bool): nat {
    SkipForward(s, ws, 0)
  }

  /**
    `s` without leading and trailing characters in `ws`: a contiguous slice
    `s[lo..lo + |r|]` such that everything cut off is whitespace and the
    slice neither starts nor ends with whitespace.
  */
  function Trim(s: string, ws: char -> bool): (r: string)
    ensures var lo := Leading(s, ws);
      && lo + |r| <= |s| && r == s[lo..lo + |r|]
      && (forall i :: 0 <= i < lo ==> ws(s[i]))
      && (forall i :: lo + |r| <= i < |s| ==> ws(s[i]))
    ensures r == [] || (!ws(r[0]) && !ws(r[|r| - 1]))
  {
    var lo := SkipForward(s, ws, 0);
    var hi := SkipBackward(s, ws, lo, |s|);
    s[lo..hi]
  }

  /** JavaScript `s.trim()`. */
  function JsTrim(s: string): string {
    Trim(s, IsJsSpace)
  }

  /** Python `s.strip()`. */
  function PyStrip(s: string): string {
    Trim(s, IsPySpace)
  }

  /** Trimming leaves nothing exactly when every character is whitespace. */
  lemma TrimEmptyIffAllSpace(s: string, ws: char -> bool)
    ensures Trim(s, ws) == [] <==> forall i :: 0 <= i < |s| ==> ws(s[i])
  {
    var r := Trim(s, ws);
    var lo := Leading(s, ws);
    if r != [] {
      assert s[lo] == r[0];
    }
  }

  /** Text that neither starts nor ends with whitespace is its own trim. */
  lemma TrimUnpadded(s: string, ws: char -> bool)
    requires s == [] || (!ws(s[0]) && !ws(s[|s| - 1]))
    ensures Trim(s, ws) == s
  {
    assert SkipForward(s, ws, 0) == 0;
    assert SkipBackward(s, ws, 0, |s|) == |s|;
  }

  /** Trimming is idempotent. */
  lemma TrimIdempotent(s: string, ws: char -> bool)
    ensures Trim(Trim(s, ws), ws) == Trim(s, ws)
  {
    TrimUnpadded(Trim(s, ws), ws);
  }

  /** The five parts of a concatenation sit at consecutive positions. */
  lemma ConcatSlices(a: string, b: string, c: string, d: string, e: string)
    ensures var m := a + b + c + d + e;
      && |m| == |a| + |b| + |c| + |d| + |e|
      && m[..|a|] == a
      && m[|a|..|a| + |b|] == b
      && m[|a| + |b|..|a| + |b| + |c|] == c
      && m[|a| + |b| + |c|..|a| + |b| + |c| + |d|] == d
      && m[|m| - |e|..] == e
  {
    var ab := a + b;
    var abc := ab + c;
    var abcd := abc + d;
    var m := abcd + e;
    assert m[..|abcd|] == abcd && m[|abcd|..] == e;
    assert abcd[..|abc|] == abc && abcd[|abc|..] == d;
    assert abc[..|ab|] == ab && abc[|ab|..] == c;
    assert ab[..|a|] == a && ab[|a|..] == b;
    assert m[..|a|] == abcd[..|abc|][..|ab|][..|a|];
    assert m[|a|..|ab|] == abcd[..|abc|][..|ab|][|a|..];
    assert m[|ab|..|abc|] == abcd[..|abc|][|ab|..];
    assert m[|abc|..|abcd|] == abcd[|abc|..];
  }

  /** Whether `p` is a prefix of `s` (`startsWith`). */
  predicate StartsWith(s: string, p: string) {
    |p| <= |s| && s[..|p|] == p
  }

  /**
    The fields of `s` separated by `sep`, empty fields included: JavaScript's
    `s.split(sep)` and Python's `s.split(sep)` for a one-character separator.
  */
  function Fields(s: string, sep: char): (r: seq<string>)
    ensures |r| >= 1
    ensures forall i :: 0 <= i < |r| ==> sep !in r[i]
    ensures |r| == 1 <==> sep !in s
  {
    if |s| == 0 then [""]
    else
      var rest := Fields(s[1..], sep);
      if s[0] == sep then [""] + rest
      else [[s[0]] + rest[0]] + rest[1..]
  }

  /** The elements of `parts` with `sep` between consecutive ones (`sep.join(parts)`). */
  function Join(parts: seq<string>, sep: string): string
  {
    if |parts| == 0 then ""
    else if |parts| == 1 then parts[0]
    else parts[0] + sep + Join(parts[1..], sep)
  }

  /** The joined text ends with the last part. */
  lemma {:induction false} JoinEndsWithLast(parts: seq<string>, sep: string)
    requires |parts| >= 1 && |parts[|parts| - 1]| >= 1
    ensures var j := Join(parts, sep); var last := parts[|parts| - 1];
      |j| >= 1 && j[|j| - 1] == last[|last| - 1]
  {
    if |parts| > 1 {
      JoinEndsWithLast(parts[1..], sep);
    }
  }

  /** Splitting and re-joining with the same separator gives the text back. */
  lemma {:induction false} JoinFields(s: string, sep: char)
    ensures Join(Fields(s, sep), [sep]) == s
  {
    if |s| > 0 {
      var rest := Fields(s[1..], sep);
      JoinFields(s[1..], sep);
      assert s == [s[0]] + s[1..];
      if s[0] == sep {
        JoinConsEmpty(rest, [sep]);
      } else {
        JoinConsHead(s[0], rest, [sep]);
      }
    }
  }

  /** Joining with an empty first part puts the separator in front. */
  lemma JoinConsEmpty(rest: seq<string>, sep: string)
    requires |rest| >= 1
    ensures Join([""] + rest, sep) == sep + Join(rest, sep)
  {
    assert ([""] + rest)[1..] == rest;
  }

  /** Joining after prepending a character to the first part prepends it to the result. */
  lemma JoinConsHead(c: char, rest: seq<string>, sep: string)
    requires |rest| >= 1
    ensures Join([[c] + rest[0]] + rest[1..], sep) == [c] + Join(rest, sep)
  {
    var f := [[c] + rest[0]] + rest[1..];
    if |rest| > 1 {
      assert f[1..] == rest[1..];
      assert Join(f, sep) == ([c] + rest[0]) + sep + Join(rest[1..], sep);
      assert Join(rest, sep) == rest[0] + sep + Join(rest[1..], sep);
    }
  }

  /** Joining separator-free parts and splitting again gives the parts back. */
  lemma {:induction false} FieldsJoin(parts: seq<string>, sep: char)
    requires |parts| >= 1
    requires forall i :: 0 <= i < |parts| ==> sep !in parts[i]
    ensures Fields(Join(parts, [sep]), sep) == parts
  {
    if |parts| == 1 {
      FieldsNoSep(parts[0], sep);
    } else {
      FieldsJoin(parts[1..], sep);
      FieldsConcat(parts[0], Join(parts[1..], [sep]), sep);
    }
  }

  /** A separator-free text is a single field. */
  lemma {:induction false} FieldsNoSep(s: string, sep: char)
    requires sep !in s
    ensures Fields(s, sep) == [s]
  {
    if |s| > 0 {
      assert sep !in s[1..];
      FieldsNoSep(s[1..], sep);
      assert [s[0]] + s[1..] == s;
    }
  }

  /** Splitting `a + [sep] + b` where `a` has no separator. */
  lemma {:induction false} FieldsConcat(a: string, b: string, sep: char)
    requires sep !in a
    ensures Fields(a + [sep] + b, sep) == [a] + Fields(b, sep)
    decreases |a|
  {
    var s := a + [sep] + b;
    if |a| == 0 {
      assert s[1..] == b;
    } else {
      assert s[1..] == a[1..] + [sep] + b;
      assert sep !in a[1..];
      FieldsConcat(a[1..], b, sep);
      assert [a[0]] + a[1..] == a;
    }
  }

  /** The first field is the text before the first separator, or all of it. */
  lemma {:induction false} FirstFieldIsPrefix(s: string, sep: char)
    ensures StartsWith(s, Fields(s, sep)[0])
    ensures |Fields(s, sep)[0]| < |s| ==> s[|Fields(s, sep)[0]|] == sep
  {
    if |s| > 0 {
      FirstFieldIsPrefix(s[1..], sep);
    }
  }

  /** JavaScript's `length`: UTF-16 code units, two for a code point above U+FFFF. */
  function Utf16Length(s: string): (n: nat)
    ensures |s| <= n <= 2 * |s|
    ensures (forall i :: 0 <= i < |s| ==> s[i] as int <= 0xFFFF) ==> n == |s|
  {
    if |s| == 0 then 0
    else (if s[0] as int > 0xFFFF then 2 else 1) + Utf16Length(s[1..])
  }

  /** ASCII lower-casing of one character. */
  function LowerChar(c: char): char {
    if 'A' <= c <= 'Z' then (c as int - 'A' as int + 'a' as int) as char else c
  }

  /** ASCII lower-casing (`toLowerCase` restricted to ASCII letters). */
  function Lower(s: string): (r: string)
    ensures |r| == |s|
    ensures forall i :: 0 <= i < |s| ==> r[i] == LowerChar(s[i])
  {
    if |s| == 0 then [] else [LowerChar(s[0])] + Lower(s[1..])
  }

  /** The digit character for `d`. */
  function Digit(d: nat): char
    requires d < 10
  {
    ('0' as int + d) as char
  }

  predicate IsDigit(c: char) {
    '0' <= c <= '9'
  }

  /** Decimal rendering of a natural number, without leading zeros. */
  function NatToString(n: nat): (r: string)
    ensures |r| >= 1
    ensures forall i :: 0 <= i < |r| ==> IsDigit(r[i])
    ensures |r| > 1 ==> r[0] != '0'
    decreases n
  {
    if n < 10 then [Digit(n)] else NatToString(n / 10) + [Digit(n % 10)]
  }

  /** Decimal rendering of an integer, with a leading '-' when negative (`String(n)`, `str(n)`). */
  function IntToString(n: int): (r: string)
    ensures |r| >= 1
    ensures n < 0 <==> r[0] == '-'
    ensures forall i :: 0 <= i < |r| ==> IsDigit(r[i]) || r[i] == '-'
  {
    if n < 0 then "-" + NatToString(-n) else NatToString(n)
  }

  /** The value of a string of decimal digits. */
  function DigitsValue(s: string): nat
    requires forall i :: 0 <= i < |s| ==> IsDigit(s[i])
  {
    if |s| == 0 then 0
    else
      assert IsDigit(s[|s| - 1]);
      DigitsValue(s[..|s| - 1]) * 10 + (s[|s| - 1] as int - '0' as int)
  }

  /** Reading back a rendered natural number gives the number. */
  lemma {:induction false} NatToStringRoundTrip(n: nat)
    ensures DigitsValue(NatToString(n)) == n
    decreases n
  {
    if n >= 10 {
      NatToStringRoundTrip(n / 10);
      var s := NatToString(n);
      assert s[..|s| - 1] == NatToString(n / 10);
    }
  }

  /** Rendering is injective: distinct numbers get distinct texts. */
  lemma IntToStringInjective(m: int, n: int)
    requires IntToString(m) == IntToString(n)
    ensures m == n
  {
    if m < 0 {
      assert IntToString(m)[1..] == NatToString(-m);
      assert IntToString(n)[1..] == NatToString(-n);
      NatToStringRoundTrip(-m);
      NatToStringRoundTrip(-n);
    } else {
      NatToStringRoundTrip(m);
      NatToStringRoundTrip(n);
    }
  }
}
