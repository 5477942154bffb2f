/**
 * The few JavaScript string built-ins the application relies on, stated over
 * Dafny strings (sequences of Unicode scalar values): `trim`, the `\s` class of
 * regular expressions, `length` (UTF-16 code units), `toLowerCase`, the `<`
 * order on strings, `Number.prototype.toString`, `Array.prototype.join`,
 * `String.prototype.split`, the email regular expression shared by the sign-up
 * form and the account store, and `encodeURIComponent`.
 */
module JsString {

  // ---------------------------------------------------------------------
  // Whitespace and trim
  // ---------------------------------------------------------------------

  /** ECMAScript WhiteSpace and LineTerminator: what `\s` matches and what `trim` removes. */
  predicate IsWhitespace(c: char) {
    c == '\t' || c == '\n' || c == '\U{000B}' || c == '\U{000C}' || c == '\r' || c == ' '
    || c == '\U{00A0}' || c == '\U{1680}' || ('\U{2000}' <= c <= '\U{200A}')
    || c == '\U{2028}' || c == '\U{2029}' || c == '\U{202F}' || c == '\U{205F}'
    || c == '\U{3000}' || c == '\U{FEFF}'
  }

  /** `s` without its leading whitespace. */
  function TrimStart(s: string): (r: string)
    ensures |r| <= |s| && r == s[|s| - |r|..]
    ensures forall i | 0 <= i < |s| - |r| :: IsWhitespace(s[i])
    ensures r == [] || !IsWhitespace(r[0])
  {
    if s != [] && IsWhitespace(s[0]) then
      var r := TrimStart(s[1..]);
      assert s[1..][|s| - 1 - |r|..] == s[|s| - |r|..];
      assert forall i | 1 <= i < |s| - |r| :: s[i] == s[1..][i - 1];
      r
    else s
  }

  /** `s` without its trailing whitespace. */
  function TrimEnd(s: string): (r: string)
    ensures |r| <= |s| && r == s[..|r|]
    ensures forall i | |r| <= i < |s| :: IsWhitespace(s[i])
    ensures r == [] || !IsWhitespace(r[|r| - 1])
  {
    if s != [] && IsWhitespace(s[|s| - 1]) then TrimEnd(s[..|s| - 1]) else s
  }

  /** `s.trim()` */
  function Trim(s: string): string {
    TrimEnd(TrimStart(s))
  }

  /** `!s.trim()`: the trimmed string is empty, hence falsy. */
  predicate IsBlank(s: string) {
    Trim(s) == ""
  }

  /** A string is blank exactly when every character of it is whitespace. */
  lemma BlankIffAllWhitespace(s: string)
    ensures IsBlank(s) <==> forall i | 0 <= i < |s| :: IsWhitespace(s[i])
  {
    var t := TrimStart(s);
    if IsBlank(s) {
      TrimEndToEmpty(t);
    }
    if forall i | 0 <= i < |s| :: IsWhitespace(s[i]) {
      TrimStartOfWhitespace(s);
    }
  }

  lemma TrimEndToEmpty(t: string)
    ensures TrimEnd(t) == [] && t != [] ==> IsWhitespace(t[0])
  {
  }

  lemma {:induction false} TrimStartOfWhitespace(s: string)
    requires forall i | 0 <= i < |s| :: IsWhitespace(s[i])
    ensures TrimStart(s) == []
  {
    if s != [] {
      assert forall i | 0 <= i < |s[1..]| :: s[1..][i] == s[i + 1];
      TrimStartOfWhitespace(s[1..]);
    }
  }

  // ---------------------------------------------------------------------
  // Length and case
  // ---------------------------------------------------------------------

  /** `s.length`: characters outside the Basic Multilingual Plane take two UTF-16 code units. */
  function Utf16Length(s: string): (n: nat)
    ensures |s| <= n <= 2 * |s|
  {
    if s == [] then 0 else (if s[0] as int > 0xFFFF then 2 else 1) + Utf16Length(s[1..])
  }

  function LowerChar(c: char): char {
    if 'A' <= c <= 'Z' then (c as int + 32) as char else c
  }

  /** `s.toLowerCase()` on the ASCII letters. */
  function ToLowerCase(s: string): string {
    seq(|s|, i requires 0 <= i < |s| => LowerChar(s[i]))
  }

  // ---------------------------------------------------------------------
  // The `<` order on strings
  // ---------------------------------------------------------------------

  /** `a < b` on strings: lexicographic, a proper prefix first. */
  predicate LexLess(a: string, b: string)
    decreases |a|
  {
    if a == [] then b != []
    else if b == [] then false
    else if a[0] != b[0] then a[0] < b[0]
    else LexLess(a[1..], b[1..])
  }

  lemma {:induction false} LexLessIrreflexive(a: string)
    ensures !LexLess(a, a)
    decreases |a|
  {
    if a != [] {
      LexLessIrreflexive(a[1..]);
    }
  }

  lemma {:induction false} LexLessTransitive(a: string, b: string, c: string)
    requires LexLess(a, b) && LexLess(b, c)
    ensures LexLess(a, c)
    decreases |a|
  {
    if a != [] && a[0] == b[0] && b[0] == c[0] {
      LexLessTransitive(a[1..], b[1..], c[1..]);
    }
  }

  lemma {:induction false} LexLessTotal(a: string, b: string)
    requires a != b
    ensures LexLess(a, b) || LexLess(b, a)
    decreases |a|
  {
    if a != [] && b != [] && a[0] == b[0] {
      assert a == [a[0]] + a[1..] && b == [b[0]] + b[1..];
      LexLessTotal(a[1..], b[1..]);
    }
  }

  // ---------------------------------------------------------------------
  // Decimal numerals, join and split
  // ---------------------------------------------------------------------

  predicate IsDigit(c: char) {
    '0' <= c <= '9'
  }

  function DigitChar(d: int): (c: char)
    requires 0 <= d < 10
    ensures IsDigit(c)
  {
    ('0' as int + d) as char
  }

  function NatToDecimal(n: nat): (r: string)
    ensures r != [] && forall i | 0 <= i < |r| :: IsDigit(r[i])
  {
    if n < 10 then [DigitChar(n)] else NatToDecimal(n / 10) + [DigitChar(n % 10)]
  }

  /** `n.toString()` for an integer: digits, after a minus sign when negative. */
  function IntToDecimal(n: int): (r: string)
    ensures r != []
    ensures forall i | 0 <= i < |r| :: IsDigit(r[i]) || (i == 0 && r[i] == '-')
  {
    if n < 0 then "-" + NatToDecimal(-n) else NatToDecimal(n)
  }

  /** `parts.join(sep)` */
  function Join(parts: seq<string>, sep: char): string {
    if |parts| == 0 then ""
    else if |parts| == 1 then parts[0]
    else parts[0] + [sep] + Join(parts[1..], sep)
  }

  /** `s.split(sep)`: the pieces between the separators; the empty string gives one empty piece. */
  function Split(s: string, sep: char): (r: seq<string>)
    ensures |r| > 0
  {
    if s == [] then [""]
    else
      var rest := Split(s[1..], sep);
      if s[0] == sep then [""] + rest else [[s[0]] + rest[0]] + rest[1..]
  }

  lemma {:induction false} SplitWithoutSeparator(p: string, sep: char)
    requires sep !in p
    ensures Split(p, sep) == [p]
  {
    if p != [] {
      SplitWithoutSeparator(p[1..], sep);
      assert [p[0]] + p[1..] == p;
    }
  }

  lemma {:induction false} SplitAfterFirstPiece(p: string, t: string, sep: char)
    requires sep !in p
    ensures Split(p + [sep] + t, sep) == [p] + Split(t, sep)
  {
    var s := p + [sep] + t;
    if p == [] {
      assert s[1..] == t;
    } else {
      assert s[1..] == p[1..] + [sep] + t;
      SplitAfterFirstPiece(p[1..], t, sep);
      assert [p[0]] + p[1..] == p;
    }
  }

  /** Splitting a join recovers the parts, as long as no part holds the separator. */
  lemma {:induction false} SplitJoin(parts: seq<string>, sep: char)
    requires |parts| > 0
    requires forall i | 0 <= i < |parts| :: sep !in parts[i]
    ensures Split(Join(parts, sep), sep) == parts
  {
    if |parts| == 1 {
      SplitWithoutSeparator(parts[0], sep);
    } else {
      SplitJoin(parts[1..], sep);
      SplitAfterFirstPiece(parts[0], Join(parts[1..], sep), sep);
      assert [parts[0]] + parts[1..] == parts;
    }
  }

  // ---------------------------------------------------------------------
  // The email pattern
  // ---------------------------------------------------------------------

  predicate IsEmailChar(c: char) {
    !IsWhitespace(c) && c != '@'
  }

  /**
   * `/^[^\s@]+@[^\s@]+\.[^\s@]+$/.test(s)`: one '@' after a non-empty local part,
   * then a non-empty name, a '.', and a non-empty tail; no whitespace and no
   * other '@' anywhere.
   */
  predicate MatchesEmailPattern(s: string) {
    exists at, dot | 0 < at && at + 1 < dot && dot + 1 < |s| ::
      s[at] == '@' && s[dot] == '.' && forall k | 0 <= k < |s| && k != at :: IsEmailChar(s[k])
  }

  // ---------------------------------------------------------------------
  // encodeURIComponent
  // ---------------------------------------------------------------------

  /** The characters `encodeURIComponent` leaves as they are. */
  predicate IsUriUnreserved(c: char) {
    ('A' <= c <= 'Z') || ('a' <= c <= 'z') || IsDigit(c)
    || c == '-' || c == '_' || c == '.' || c == '!' || c == '~' || c == '*' || c == '\'' || c == '(' || c == ')'
  }

  predicate IsUpperHex(c: char) {
    IsDigit(c) || ('A' <= c <= 'F')
  }

  function HexDigit(d: int): (c: char)
    requires 0 <= d < 16
    ensures IsUpperHex(c)
  {
    if d < 10 then DigitChar(d) else ('A' as int + d - 10) as char
  }

  /** The UTF-8 encoding of one scalar value. */
  function Utf8Bytes(c: char): (bytes: seq<int>)
    ensures 1 <= |bytes| <= 4
    ensures forall i | 0 <= i < |bytes| :: 0 <= bytes[i] < 256
  {
    var cp := c as int;
    if cp < 0x80 then [cp]
    else if cp < 0x800 then [0xC0 + cp / 64, 0x80 + cp % 64]
    else if cp < 0x10000 then [0xE0 + cp / 4096, 0x80 + (cp / 64) % 64, 0x80 + cp % 64]
    else [0xF0 + cp / 262144, 0x80 + (cp / 4096) % 64, 0x80 + (cp / 64) % 64, 0x80 + cp % 64]
  }

  function PercentEncode(bytes: seq<int>): string
    requires forall i | 0 <= i < |bytes| :: 0 <= bytes[i] < 256
  {
    if bytes == [] then ""
    else ['%', HexDigit(bytes[0] / 16), HexDigit(bytes[0] % 16)] + PercentEncode(bytes[1..])
  }

  /** `encodeURIComponent(s)` */
  function EncodeUriComponent(s: string): string {
    if s == [] then ""
    else (if IsUriUnreserved(s[0]) then [s[0]] else PercentEncode(Utf8Bytes(s[0])))
         + EncodeUriComponent(s[1..])
  }

  /**
   * Every character is unreserved or '%', and every '%' opens an escape: it is
   * followed by two upper-case hex digits.
   */
  predicate WellEscaped(r: string) {
    && (forall i | 0 <= i < |r| :: r[i] == '%' || IsUriUnreserved(r[i]))
    && (forall i | 0 <= i < |r| && r[i] == '%' :: i + 2 < |r| && IsUpperHex(r[i + 1]) && IsUpperHex(r[i + 2]))
  }

  lemma WellEscapedAppend(a: string, b: string)
    requires WellEscaped(a) && WellEscaped(b)
    ensures WellEscaped(a + b)
  {
    var r := a + b;
    forall i | 0 <= i < |r| ensures r[i] == '%' || IsUriUnreserved(r[i]) {
      if i < |a| {
        assert r[i] == a[i];
      } else {
        assert r[i] == b[i - |a|];
      }
    }
    forall i | 0 <= i < |r| && r[i] == '%' ensures i + 2 < |r| && IsUpperHex(r[i + 1]) && IsUpperHex(r[i + 2]) {
      if i < |a| {
        assert r[i] == a[i] && r[i + 1] == a[i + 1] && r[i + 2] == a[i + 2];
      } else {
        var k := i - |a|;
        assert r[i] == b[k] && r[i + 1] == b[k + 1] && r[i + 2] == b[k + 2];
      }
    }
  }

  /** Percent-encoded bytes are a run of well-formed escapes. */
  lemma {:induction false} PercentEncodeIsSafe(bytes: seq<int>)
    requires forall i | 0 <= i < |bytes| :: 0 <= bytes[i] < 256
    ensures WellEscaped(PercentEncode(bytes))
    ensures |PercentEncode(bytes)| == 3 * |bytes|
  {
    if bytes != [] {
      PercentEncodeIsSafe(bytes[1..]);
      var head := ['%', HexDigit(bytes[0] / 16), HexDigit(bytes[0] % 16)];
      assert WellEscaped(head);
      WellEscapedAppend(head, PercentEncode(bytes[1..]));
    }
  }

  /**
   * An encoded component holds only unreserved characters and well-formed
   * escapes, so it can never close the query parameter it is placed in
   * ('&', '=', '#').
   */
  lemma {:induction false} EncodedComponentIsSafe(s: string)
    ensures WellEscaped(EncodeUriComponent(s))
    ensures forall i | 0 <= i < |EncodeUriComponent(s)| ::
      EncodeUriComponent(s)[i] != '&' && EncodeUriComponent(s)[i] != '=' && EncodeUriComponent(s)[i] != '#'
  {
    if s != [] {
      EncodedComponentIsSafe(s[1..]);
      if IsUriUnreserved(s[0]) {
        assert WellEscaped([s[0]]);
        WellEscapedAppend([s[0]], EncodeUriComponent(s[1..]));
      } else {
        PercentEncodeIsSafe(Utf8Bytes(s[0]));
        WellEscapedAppend(PercentEncode(Utf8Bytes(s[0])), EncodeUriComponent(s[1..]));
      }
    }
  }
}
