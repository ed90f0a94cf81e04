/** String operations of PHP and JavaScript that the marketplace's rules are
    written with: trimming, substring tests, str_replace, implode,
    htmlspecialchars, decimal rendering and parsing of integers, SQL LIKE
    matching, and the byte and code-unit lengths that strlen and .length report. */
module Text {

  // ---------------------------------------------------------------------------
  // Character classes
  // ---------------------------------------------------------------------------

  /** The characters PHP's trim() strips by default: space, tab, line feed,
      carriage return, NUL and vertical tab. */
  predicate IsPhpSpace(c: char) {
    c == ' ' || c == '\t' || c == '\n' || c == '\r' || c == '\0' || c == '\U{000B}'
  }

  /** ECMAScript WhiteSpace and LineTerminator code points: what
      String.prototype.trim strips and what the regular-expression class \s matches. */
  predicate IsJsSpace(c: char) {
    || c == '\t' || c == '\n' || c == '\U{000B}' || c == '\U{000C}' || c == '\r' || c == ' '
    || c == '\U{00A0}' || c == '\U{1680}' || ('\U{2000}' <= c <= '\U{200A}')
    || c == '\U{2028}' || c == '\U{2029}' || c == '\U{202F}' || c == '\U{205F}'
    || c == '\U{3000}' || c == '\U{FEFF}'
  }

  /** An ASCII decimal digit: PHP's ctype digit, JavaScript's \d. */
  predicate IsDigit(c: char) {
    '0' <= c <= '9'
  }

  predicate AllDigits(s: string) {
    forall i :: 0 <= i < |s| ==> IsDigit(s[i])
  }

  // ---------------------------------------------------------------------------
  // Lengths
  // ---------------------------------------------------------------------------

  /** Number of bytes of a code point in UTF-8. */
  function Utf8Width(c: char): (w: nat)
    ensures 1 <= w <= 4
  {
    if c as int < 0x80 then 1
    else if c as int < 0x800 then 2
    else if c as int < 0x1_0000 then 3
    else 4
  }

  /** PHP strlen on a UTF-8 encoded string: its length in bytes. */
  function Utf8Length(s: string): (n: nat)
    ensures |s| <= n <= 4 * |s|
  {
    if s == [] then 0 else Utf8Width(s[0]) + Utf8Length(s[1..])
  }

  /** JavaScript's String.prototype.length: UTF-16 code units. */
  function Utf16Length(s: string): (n: nat)
    ensures |s| <= n <= 2 * |s|
  {
    if s == [] then 0 else (if s[0] as int < 0x1_0000 then 1 else 2) + Utf16Length(s[1..])
  }

  // ---------------------------------------------------------------------------
  // Trimming
  // ---------------------------------------------------------------------------

  /** Drops the leading characters that satisfy isSpace. */
  function TrimStart(s: string, isSpace: char -> bool): string {
    if s != [] && isSpace(s[0]) then TrimStart(s[1..], isSpace) else s
  }

  /** Drops the trailing characters that satisfy isSpace. */
  function TrimEnd(s: string, isSpace: char -> bool): string {
    if s != [] && isSpace(s[|s| - 1]) then TrimEnd(s[..|s| - 1], isSpace) else s
  }

  /** Both ends trimmed. */
  function Trim(s: string, isSpace: char -> bool): string {
    TrimEnd(TrimStart(s, isSpace), isSpace)
  }

  /** TrimStart removes a prefix of spaces, and no more. */
  lemma {:induction false} TrimStartSpec(s: string, isSpace: char -> bool)
    ensures var r := TrimStart(s, isSpace);
      && |r| <= |s| && r == s[|s| - |r|..]
      && (r == [] || !isSpace(r[0]))
      && forall i :: 0 <= i < |s| - |r| ==> isSpace(s[i])
  {
    if s != [] && isSpace(s[0]) {
      TrimStartSpec(s[1..], isSpace);
      var r := TrimStart(s, isSpace);
      forall i | 0 <= i < |s| - |r| ensures isSpace(s[i]) {
        if i > 0 { assert s[i] == s[1..][i - 1]; }
      }
    }
  }

  /** TrimEnd removes a suffix of spaces, and no more. */
  lemma {:induction false} TrimEndSpec(s: string, isSpace: char -> bool)
    ensures var r := TrimEnd(s, isSpace);
      && |r| <= |s| && r == s[..|r|]
      && (r == [] || !isSpace(r[|r| - 1]))
      && forall i :: |r| <= i < |s| ==> isSpace(s[i])
  {
    if s != [] && isSpace(s[|s| - 1]) {
      TrimEndSpec(s[..|s| - 1], isSpace);
      var r := TrimEnd(s, isSpace);
      forall i | |r| <= i < |s| ensures isSpace(s[i]) {
        if i < |s| - 1 { assert s[i] == s[..|s| - 1][i]; }
      }
    }
  }

  /** The trimmed string is a slice of s whose ends are not spaces, and
      everything cut off on either side is space; it is empty exactly when
      every character of s is a space. */
  lemma TrimSpec(s: string, isSpace: char -> bool)
    ensures var r := Trim(s, isSpace);
      && |r| <= |s|
      && (exists a :: TrimmedAt(s, r, a, isSpace))
      && (r == [] || (!isSpace(r[0]) && !isSpace(r[|r| - 1])))
      && (r == [] <==> forall i :: 0 <= i < |s| ==> isSpace(s[i]))
  {
    var t := TrimStart(s, isSpace);
    var r := TrimEnd(t, isSpace);
    TrimStartSpec(s, isSpace);
    TrimEndSpec(t, isSpace);
    var a := |s| - |t|;
    forall i | a + |r| <= i < |s| ensures isSpace(s[i]) {
      assert s[i] == t[i - a];
    }
    assert r == s[a..a + |r|];
    assert TrimmedAt(s, r, a, isSpace);
    if r != [] {
      assert r[0] == t[0];
    }
  }

  /** r is s[a..a + |r|], and every character of s outside that slice is a
      space. */
  predicate TrimmedAt(s: string, r: string, a: int, isSpace: char -> bool) {
    && 0 <= a <= a + |r| <= |s| && r == s[a..a + |r|]
    && (forall i :: 0 <= i < a ==> isSpace(s[i]))
    && (forall i :: a + |r| <= i < |s| ==> isSpace(s[i]))
  }

  /** Trimming twice is trimming once. */
  lemma TrimIdempotent(s: string, isSpace: char -> bool)
    ensures Trim(Trim(s, isSpace), isSpace) == Trim(s, isSpace)
  {
    TrimSpec(s, isSpace);
    var r := Trim(s, isSpace);
    assert TrimStart(r, isSpace) == r;
    TrimEndSpec(r, isSpace);
  }

  /** A string with no space at either end is its own trim. */
  lemma TrimNothing(s: string, isSpace: char -> bool)
    requires s == [] || (!isSpace(s[0]) && !isSpace(s[|s| - 1]))
    ensures Trim(s, isSpace) == s
  {
  }

  /** PHP trim() with its default character list. */
  function PhpTrim(s: string): string {
    Trim(s, IsPhpSpace)
  }

  /** JavaScript's String.prototype.trim(). */
  function JsTrim(s: string): string {
    Trim(s, IsJsSpace)
  }

  // ---------------------------------------------------------------------------
  // Substrings, replacement, joining, case
  // ---------------------------------------------------------------------------

  predicate StartsWith(s: string, prefix: string) {
    |prefix| <= |s| && s[..|prefix|] == prefix
  }

  /** t occurs in s at some position (strpos(...) !== false, String.includes). */
  predicate Contains(s: string, t: string) {
    StartsWith(s, t) || (s != [] && Contains(s[1..], t))
  }

  /** Contains states that t occurs at some offset of s. */
  lemma {:induction false} ContainsAt(s: string, t: string, k: nat)
    requires k + |t| <= |s| && s[k..k + |t|] == t
    ensures Contains(s, t)
  {
    if k > 0 {
      assert s[1..][k - 1..k - 1 + |t|] == t;
      ContainsAt(s[1..], t, k - 1);
    }
  }

  /** PHP str_replace(pat, "", s): the occurrences of pat found in one scan from
      left to right are removed; removing them may bring new occurrences
      together, which are not removed. */
  function RemoveAll(s: string, pat: string): (r: string)
    requires pat != []
    ensures |r| <= |s|
    decreases |s|
  {
    if s == [] then []
    else if StartsWith(s, pat) then RemoveAll(s[|pat|..], pat)
    else [s[0]] + RemoveAll(s[1..], pat)
  }

  /** A string in which pat does not occur comes through RemoveAll unchanged. */
  lemma {:induction false} RemoveAllAbsent(s: string, pat: string)
    requires pat != [] && !Contains(s, pat)
    ensures RemoveAll(s, pat) == s
  {
    if s != [] {
      RemoveAllAbsent(s[1..], pat);
    }
  }

  /** A string without the first character of pat comes through unchanged. */
  lemma {:induction false} RemoveAllWithoutLead(s: string, pat: string)
    requires pat != [] && forall i :: 0 <= i < |s| ==> s[i] != pat[0]
    ensures RemoveAll(s, pat) == s
  {
    if s != [] {
      RemoveAllWithoutLead(s[1..], pat);
    }
  }

  /** PHP implode(sep, parts). */
  function Join(parts: seq<string>, sep: string): (r: string)
    ensures parts == [] ==> r == []
    ensures |parts| == 1 ==> r == parts[0]
  {
    if parts == [] then []
    else if |parts| == 1 then parts[0]
    else parts[0] + sep + Join(parts[1..], sep)
  }

  /** Lower-cases the ASCII letters A-Z and leaves every other character alone. */
  function LowerAscii(s: string): (r: string)
    ensures |r| == |s|
    ensures forall i :: 0 <= i < |s| ==> r[i] == (if 'A' <= s[i] <= 'Z' then (s[i] as int + 32) as char else s[i])
  {
    if s == [] then []
    else [if 'A' <= s[0] <= 'Z' then (s[0] as int + 32) as char else s[0]] + LowerAscii(s[1..])
  }

  /** Lower-casing twice is lower-casing once. */
  lemma LowerAsciiIdempotent(s: string)
    ensures LowerAscii(LowerAscii(s)) == LowerAscii(s)
  {
  }

  // ---------------------------------------------------------------------------
  // HTML escaping (htmlspecialchars with single and double quotes escaped)
  // ---------------------------------------------------------------------------

  /** The five characters htmlspecialchars rewrites. */
  predicate IsHtmlSpecial(c: char) {
    c == '&' || c == '<' || c == '>' || c == '"' || c == '\''
  }

  function EscapeChar(c: char): (r: string)
    ensures IsHtmlSpecial(c) ==> |r| > 1 && r[0] == '&'
    ensures !IsHtmlSpecial(c) ==> r == [c]
  {
    if c == '&' then "&amp;"
    else if c == '<' then "&lt;"
    else if c == '>' then "&gt;"
    else if c == '"' then "&quot;"
    else if c == '\'' then "&#039;"
    else [c]
  }

  function HtmlEscape(s: string): (r: string) {
    if s == [] then [] else EscapeChar(s[0]) + HtmlEscape(s[1..])
  }

  /** No character that could open a tag or close an attribute value. */
  predicate HtmlSafe(s: string) {
    forall i :: 0 <= i < |s| ==> s[i] != '<' && s[i] != '>' && s[i] != '"' && s[i] != '\''
  }

  lemma {:induction false} HtmlEscapeIsSafe(s: string)
    ensures HtmlSafe(HtmlEscape(s))
  {
    if s != [] {
      HtmlEscapeIsSafe(s[1..]);
      var e, rest := EscapeChar(s[0]), HtmlEscape(s[1..]);
      assert HtmlSafe(e);
      assert HtmlEscape(s) == e + rest;
    }
  }

  /** Escaping changes a string exactly when it holds one of the five special
      characters, and it never shortens it. */
  lemma {:induction false} HtmlEscapeUnchanged(s: string)
    ensures |HtmlEscape(s)| >= |s|
    ensures HtmlEscape(s) == s <==> forall i :: 0 <= i < |s| ==> !IsHtmlSpecial(s[i])
  {
    if s != [] {
      HtmlEscapeUnchanged(s[1..]);
      if HtmlEscape(s) == s {
        assert |HtmlEscape(s[1..])| >= |s| - 1;
        assert !IsHtmlSpecial(s[0]);
        assert HtmlEscape(s[1..]) == s[1..] by {
          assert HtmlEscape(s) == [s[0]] + HtmlEscape(s[1..]);
        }
        forall i | 0 <= i < |s| ensures !IsHtmlSpecial(s[i]) {
          if i > 0 { assert s[i] == s[1..][i - 1]; }
        }
      }
    }
  }

  // ---------------------------------------------------------------------------
  // Decimal integers
  // ---------------------------------------------------------------------------

  function DigitChar(d: nat): (c: char)
    requires d < 10
    ensures IsDigit(c)
  {
    (48 + d) as char
  }

  function DigitValue(c: char): (d: nat)
    requires IsDigit(c)
    ensures d < 10
  {
    c as int - 48
  }

  /** The decimal digits of n, most significant first, with no leading zero. */
  function NatToDecimal(n: nat): (r: string)
    ensures r != [] && AllDigits(r)
    ensures |r| > 1 ==> r[0] != '0'
  {
    if n < 10 then [DigitChar(n)] else NatToDecimal(n / 10) + [DigitChar(n % 10)]
  }

  /** The value of a string of decimal digits. */
  function DigitsValue(ds: string): nat
    requires AllDigits(ds)
  {
    if ds == [] then 0 else DigitsValue(ds[..|ds| - 1]) * 10 + DigitValue(ds[|ds| - 1])
  }

  /** PHP's (string) of an integer and JavaScript's String(n). */
  function DecimalString(n: int): string {
    if n < 0 then "-" + NatToDecimal(-n) else NatToDecimal(n)
  }

  /** An optional sign followed by at least one digit. */
  predicate IsIntegerString(s: string) {
    if |s| > 0 && (s[0] == '-' || s[0] == '+') then |s| > 1 && AllDigits(s[1..])
    else |s| > 0 && AllDigits(s)
  }

  function IntegerValue(s: string): int
    requires IsIntegerString(s)
  {
    if s[0] == '-' then -(DigitsValue(s[1..]) as int)
    else if s[0] == '+' then DigitsValue(s[1..])
    else DigitsValue(s)
  }

  lemma {:induction false} NatToDecimalValue(n: nat)
    ensures DigitsValue(NatToDecimal(n)) == n
  {
    if n >= 10 {
      NatToDecimalValue(n / 10);
      var r := NatToDecimal(n);
      assert r[..|r| - 1] == NatToDecimal(n / 10);
    }
  }

  /** Rendering an integer in decimal and parsing it back gives the integer. */
  lemma DecimalRoundTrip(n: int)
    ensures IsIntegerString(DecimalString(n))
    ensures IntegerValue(DecimalString(n)) == n
  {
    if n < 0 {
      NatToDecimalValue(-n);
      assert DecimalString(n)[1..] == NatToDecimal(-n);
    } else {
      NatToDecimalValue(n);
    }
  }

  // ---------------------------------------------------------------------------
  // SQL LIKE
  // ---------------------------------------------------------------------------

  /** MySQL's `s LIKE p` under an exact-match collation: '%' matches any run of
      characters, '_' exactly one, and a backslash makes the next pattern
      character literal. */
  predicate Like(s: string, p: string)
    decreases |s| + |p|
  {
    if p == [] then s == []
    else if p[0] == '%' then Like(s, p[1..]) || (s != [] && Like(s[1..], p))
    else if p[0] == '\\' && |p| > 1 then s != [] && s[0] == p[1] && Like(s[1..], p[2..])
    else s != [] && (p[0] == '_' || s[0] == p[0]) && Like(s[1..], p[1..])
  }

  /** Characters LIKE treats specially. */
  predicate IsLikeMeta(c: char) {
    c == '%' || c == '_' || c == '\\'
  }

  predicate NoLikeMeta(t: string) {
    forall i :: 0 <= i < |t| ==> !IsLikeMeta(t[i])
  }

  lemma {:induction false} LikeTrailingPercent(s: string)
    ensures Like(s, "%")
  {
    if s != [] {
      LikeTrailingPercent(s[1..]);
    }
  }

  lemma {:induction false} LikePrefix(s: string, t: string)
    requires NoLikeMeta(t)
    ensures Like(s, t + "%") <==> StartsWith(s, t)
  {
    if t == [] {
      assert t + "%" == "%";
      LikeTrailingPercent(s);
    } else {
      assert (t + "%")[1..] == t[1..] + "%";
      assert !IsLikeMeta(t[0]);
      if s != [] {
        LikePrefix(s[1..], t[1..]);
        if StartsWith(s, t) {
          assert s[1..][..|t| - 1] == t[1..];
        }
        if s[0] == t[0] && StartsWith(s[1..], t[1..]) {
          assert s[..|t|] == [s[0]] + s[1..][..|t| - 1];
        }
      }
    }
  }

  /** For a search term free of LIKE's special characters, the pattern
      '%' + t + '%' matches exactly the strings that contain t. */
  lemma {:induction false} LikeInfix(s: string, t: string)
    requires NoLikeMeta(t)
    ensures Like(s, "%" + t + "%") <==> Contains(s, t)
  {
    var p := "%" + t + "%";
    assert p[1..] == t + "%";
    LikePrefix(s, t);
    if s != [] {
      LikeInfix(s[1..], t);
    }
  }
}
