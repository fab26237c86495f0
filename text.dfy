/**
 * The parts of Rust's standard string handling that the triangle file format
 * and the lesson parser rely on: `str::lines`, `str::split_whitespace`,
 * `str::split`, `join`, and the integer and decimal conversions of
 * `str::parse` and `{}` formatting, stated over `seq<char>`.
 */
module Text {
  import opened Wrappers

  /** Unicode White_Space, the set that `char::is_whitespace` tests. */
  predicate IsWhitespace(c: char) {
    c == ' ' || ('\t' <= c <= '\r') || c == '\U{85}' || c == '\U{A0}' || c == '\U{1680}'
    || ('\U{2000}' <= c <= '\U{200A}') || c == '\U{2028}' || c == '\U{2029}'
    || c == '\U{202F}' || c == '\U{205F}' || c == '\U{3000}'
  }

  predicate NoWhitespace(s: string) {
    forall i | 0 <= i < |s| :: !IsWhitespace(s[i])
  }

  /** Index of the first `c` in `s`, or `|s|` when there is none. */
  function IndexOf(s: string, c: char): (n: nat)
    ensures n <= |s|
    ensures forall i | 0 <= i < n :: s[i] != c
    ensures n < |s| ==> s[n] == c
  {
    if s == [] || s[0] == c then 0 else 1 + IndexOf(s[1..], c)
  }

  lemma {:induction false} IndexOfAppend(a: string, r: string, c: char)
    requires c !in a
    ensures IndexOf(a + r, c) == |a| + IndexOf(r, c)
  {
    if a != [] {
      assert (a + r)[1..] == a[1..] + r;
      IndexOfAppend(a[1..], r, c);
    } else {
      assert a + r == r;
    }
  }

  lemma IndexOfAbsent(s: string, c: char)
    requires c !in s
    ensures IndexOf(s, c) == |s|
  {
    IndexOfAppend(s, [], c);
    assert s + [] == s;
  }

  // ---------------------------------------------------------------------
  // str::lines: pieces between '\n'; a final '\n' does not start a line.
  // (A '\r' before the '\n' is also dropped by Rust, but every consumer in
  // this model splits a line on whitespace, which drops it as well.)
  // ---------------------------------------------------------------------

  function Lines(s: string): (ls: seq<string>)
    ensures forall l | l in ls :: '\n' !in l
    decreases |s|
  {
    if s == [] then []
    else
      var n := IndexOf(s, '\n');
      [s[..n]] + (if n == |s| then [] else Lines(s[n + 1..]))
  }

  /** A line followed by its terminator is split off as one line. */
  lemma LinesCons(l: string, rest: string)
    requires '\n' !in l
    ensures Lines(l + "\n" + rest) == [l] + Lines(rest)
  {
    var s := l + "\n" + rest;
    assert s == l + ("\n" + rest);
    IndexOfAppend(l, "\n" + rest, '\n');
    assert s[..|l|] == l;
    assert s[|l| + 1..] == rest;
  }

  // ---------------------------------------------------------------------
  // str::split_whitespace: the maximal runs of non-whitespace characters.
  // ---------------------------------------------------------------------

  /** Length of the leading run of non-whitespace characters. */
  function RunEnd(s: string): (n: nat)
    ensures n <= |s|
    ensures forall i | 0 <= i < n :: !IsWhitespace(s[i])
    ensures n < |s| ==> IsWhitespace(s[n])
  {
    if s == [] || IsWhitespace(s[0]) then 0 else 1 + RunEnd(s[1..])
  }

  /** No word is empty and no word contains whitespace. */
  function Words(s: string): (ws: seq<string>)
    ensures forall w | w in ws :: |w| > 0 && NoWhitespace(w)
    decreases |s|
  {
    if s == [] then []
    else if IsWhitespace(s[0]) then Words(s[1..])
    else
      var n := RunEnd(s);
      [s[..n]] + Words(s[n..])
  }

  lemma {:induction false} RunEndAppend(w: string, rest: string)
    requires NoWhitespace(w)
    requires rest == [] || IsWhitespace(rest[0])
    ensures RunEnd(w + rest) == |w|
  {
    if w == [] {
      assert w + rest == rest;
    } else {
      assert (w + rest)[1..] == w[1..] + rest;
      RunEndAppend(w[1..], rest);
    }
  }

  /** A word followed by whitespace (or by nothing) is split off as one word. */
  lemma WordsCons(w: string, rest: string)
    requires |w| > 0 && NoWhitespace(w)
    requires rest == [] || IsWhitespace(rest[0])
    ensures Words(w + rest) == [w] + Words(rest)
  {
    var s := w + rest;
    RunEndAppend(w, rest);
    assert s[..|w|] == w;
    assert s[|w|..] == rest;
  }

  function Join(ws: seq<string>, sep: string): string {
    if ws == [] then ""
    else if |ws| == 1 then ws[0]
    else ws[0] + sep + Join(ws[1..], sep)
  }

  /** Splitting a space-joined list of words on whitespace gives the words back. */
  lemma {:induction false} WordsOfJoin(ws: seq<string>)
    requires forall w | w in ws :: |w| > 0 && NoWhitespace(w)
    ensures Words(Join(ws, " ")) == ws
  {
    if |ws| == 1 {
      WordsCons(ws[0], "");
      assert ws[0] + "" == ws[0];
    } else if |ws| > 1 {
      var rest := Join(ws[1..], " ");
      assert ws[0] + " " + rest == ws[0] + (" " + rest);
      WordsCons(ws[0], " " + rest);
      assert (" " + rest)[1..] == rest;
      WordsOfJoin(ws[1..]);
      assert ws == [ws[0]] + ws[1..];
    }
  }

  // ---------------------------------------------------------------------
  // str::split(sep): always at least one piece, empty pieces kept.
  // ---------------------------------------------------------------------

  function Split(s: string, sep: char): (parts: seq<string>)
    ensures |parts| >= 1
    decreases |s|
  {
    var n := IndexOf(s, sep);
    if n == |s| then [s] else [s[..n]] + Split(s[n + 1..], sep)
  }

  lemma SplitPair(a: string, b: string, sep: char)
    requires sep !in a && sep !in b
    ensures Split(a + [sep] + b, sep) == [a, b]
  {
    var s := a + [sep] + b;
    assert s == a + ([sep] + b);
    IndexOfAppend(a, [sep] + b, sep);
    assert s[..|a|] == a;
    assert s[|a| + 1..] == b;
    IndexOfAbsent(b, sep);
  }

  // ---------------------------------------------------------------------
  // Decimal digits.
  // ---------------------------------------------------------------------

  predicate IsDigit(c: char) { '0' <= c <= '9' }

  predicate AllDigits(s: string) {
    forall i | 0 <= i < |s| :: IsDigit(s[i])
  }

  function DigitValue(c: char): nat
    requires IsDigit(c)
  {
    c as int - '0' as int
  }

  function DigitChar(d: nat): (c: char)
    requires d < 10
    ensures IsDigit(c) && DigitValue(c) == d
  {
    ('0' as int + d) as char
  }

  /** The value of a string of decimal digits, most significant first. */
  function DigitsValue(s: string): nat
    requires AllDigits(s)
    decreases |s|
  {
    if s == [] then 0 else DigitsValue(s[..|s| - 1]) * 10 + DigitValue(s[|s| - 1])
  }

  /** The value of the digits after a decimal point: "25" is 0.25. */
  function FractionValue(s: string): (r: real)
    requires AllDigits(s)
    ensures 0.0 <= r <= 1.0
  {
    if s == [] then 0.0 else (DigitValue(s[0]) as real + FractionValue(s[1..])) / 10.0
  }

  /** `{}` formatting of an unsigned integer: no sign, no leading zeros. */
  function NatToString(n: nat): (s: string)
    ensures |s| > 0 && AllDigits(s)
    decreases n
  {
    if n < 10 then [DigitChar(n)] else NatToString(n / 10) + [DigitChar(n % 10)]
  }

  lemma {:induction false} NatToStringValue(n: nat)
    ensures DigitsValue(NatToString(n)) == n
  {
    if n >= 10 {
      var s := NatToString(n);
      assert s[..|s| - 1] == NatToString(n / 10);
      NatToStringValue(n / 10);
    }
  }

  // ---------------------------------------------------------------------
  // str::parse::<u32> and u8::from_str_radix(_, 16).
  // ---------------------------------------------------------------------

  const U32_LIMIT: nat := 0x1_0000_0000

  /** An optional '+', then one or more decimal digits, the value below 2^32. */
  function ParseU32(s: string): (r: Option<nat>)
    ensures r.Some? ==> r.value < U32_LIMIT
  {
    var body := if |s| > 0 && s[0] == '+' then s[1..] else s;
    if |body| > 0 && AllDigits(body) && DigitsValue(body)< U32_LIMIT then Some(DigitsValue(body))
    else None
  }

  lemma ParseU32OfNat(n: nat)
    requires n < U32_LIMIT
    ensures ParseU32(NatToString(n)) == Some(n)
  {
    NatToStringValue(n);
  }

  predicate IsHexDigit(c: char) {
    ('0' <= c <= '9') || ('a' <= c <= 'f') || ('A' <= c <= 'F')
  }

  predicate AllHexDigits(s: string) {
    forall i | 0 <= i < |s| :: IsHexDigit(s[i])
  }

  function HexValue(c: char): (v: nat)
    requires IsHexDigit(c)
    ensures v < 16
  {
    if '0' <= c <= '9' then c as int - '0' as int
    else if 'a' <= c <= 'f' then c as int - 'a' as int + 10
    else c as int - 'A' as int + 10
  }

  function HexDigitsValue(s: string): nat
    requires AllHexDigits(s)
    decreases |s|
  {
    if s == [] then 0 else HexDigitsValue(s[..|s| - 1]) * 16 + HexValue(s[|s| - 1])
  }

  /** An optional '+', then one or more hex digits, the value below 256. */
  function ParseHexU8(s: string): (r: Option<nat>)
    ensures r.Some? ==> r.value < 256
  {
    var body := if |s| > 0 && s[0] == '+' then s[1..] else s;
    if |body| > 0 && AllHexDigits(body) && HexDigitsValue(body) < 256 then Some(HexDigitsValue(body))
    else None
  }

  // ---------------------------------------------------------------------
  // Decimal numbers for point coordinates.
  // ---------------------------------------------------------------------

  /**
   * `str::parse::<f32>` restricted to plain decimal notation: an optional
   * sign, digits, optionally a '.' and more digits, at least one digit in
   * all ("5.", ".5", "-0.25" are accepted; "." and "" are not).
   */
  function ParseDecimal(s: string): Option<real> {
    var signed := |s| > 0 && (s[0] == '-' || s[0] == '+');
    var magnitude := ParseUnsignedDecimal(if signed then s[1..] else s);
    if magnitude.None? then None
    else if signed && s[0] == '-' then Some(-magnitude.value)
    else magnitude
  }

  /** Digits, optionally a '.' and more digits, at least one digit in all. */
  function ParseUnsignedDecimal(s: string): Option<real> {
    var dot := IndexOf(s, '.');
    if dot == |s| then
      if |s| > 0 && AllDigits(s) then Some(DigitsValue(s) as real) else None
    else
      var whole, frac := s[..dot], s[dot + 1..];
      if AllDigits(whole) && AllDigits(frac) && |whole| + |frac| > 0 then
        Some(DigitsValue(whole) as real + FractionValue(frac))
      else None
  }

  /** Up to `k` digits of the fraction `f`, truncated, without trailing zeros. */
  function FractionDigits(f: real, k: nat): (s: string)
    requires 0.0 <= f < 1.0
    ensures AllDigits(s)
    decreases k
  {
    if f == 0.0 || k == 0 then ""
    else
      var t := f * 10.0;
      var d := t.Floor;
      [DigitChar(d)] + FractionDigits(t - d as real, k - 1)
  }

  function FormatNonNegative(r: real): (s: string)
    requires r >= 0.0
  {
    var whole := r.Floor;
    var frac := r - whole as real;
    NatToString(whole) + (if frac == 0.0 then "" else "." + FractionDigits(frac, 9))
  }

  /**
   * `{}` formatting of a coordinate: an integral value is written as an
   * integer ("0", "-3"); any other value as its integer part, '.', and up to
   * nine fractional digits.
   */
  function FormatReal(r: real): string {
    if r < 0.0 then "-" + FormatNonNegative(-r) else FormatNonNegative(r)
  }

  /** The characters a formatted number may contain. */
  predicate NumberChars(s: string) {
    forall i | 0 <= i < |s| :: IsDigit(s[i]) || s[i] == '-' || s[i] == '.'
  }

  lemma FormatRealChars(r: real)
    ensures |FormatReal(r)| > 0 && NumberChars(FormatReal(r))
  {
  }

  predicate IsIntegral(r: real) {
    r == r.Floor as real
  }

  /** A digit string parses to its value. */
  lemma ParseDigits(digits: string)
    requires |digits| > 0 && AllDigits(digits)
    ensures ParseUnsignedDecimal(digits) == Some(DigitsValue(digits) as real)
  {
    assert IndexOf(digits, '.') == |digits| by {
      assert '.' !in digits by {
        forall i | 0 <= i < |digits| ensures digits[i] != '.' {
          assert IsDigit(digits[i]);
        }
      }
      IndexOfAbsent(digits, '.');
    }
  }

  lemma FormatNonNegativeIntegral(m: nat)
    ensures FormatNonNegative(m as real) == NatToString(m)
  {
    assert (m as real).Floor == m;
  }

  lemma ParseMinus(s: string)
    requires |s| > 0 && s[0] == '-'
    ensures ParseDecimal(s) ==
              if ParseUnsignedDecimal(s[1..]).None? then None
              else Some(-ParseUnsignedDecimal(s[1..]).value)
  {
  }

  lemma ParseNegative(digits: string)
    requires |digits| > 0 && AllDigits(digits)
    ensures ParseDecimal("-" + digits) == Some(-(DigitsValue(digits) as real))
  {
    var text := "-" + digits;
    assert text[0] == '-' && text[1..] == digits;
    assert ParseUnsignedDecimal(digits) == Some(DigitsValue(digits) as real) by {
      ParseDigits(digits);
    }
    ParseMinus(text);
  }

  lemma ParsePositive(digits: string)
    requires |digits| > 0 && AllDigits(digits)
    ensures ParseDecimal(digits) == Some(DigitsValue(digits) as real)
  {
    ParseDigits(digits);
    assert IsDigit(digits[0]);
  }

  /** Formatting an integral coordinate and parsing it back gives the same value. */
  lemma ParseFormatIntegral(r: real)
    requires IsIntegral(r)
    ensures ParseDecimal(FormatReal(r)) == Some(r)
  {
    if r < 0.0 {
      var m: nat := -r.Floor;
      assert r == -(m as real);
      ParseFormatNegative(m);
      assert ParseDecimal(FormatReal(-(m as real))) == Some(r);
    } else {
      var m: nat := r.Floor;
      ParseFormatNonNegative(m);
    }
  }

  lemma ParseFormatNegative(m: nat)
    requires m > 0
    ensures ParseDecimal(FormatReal(-(m as real))) == Some(-(m as real))
  {
    FormatNonNegativeIntegral(m);
    NatToStringValue(m);
    ParseNegative(NatToString(m));
  }

  lemma ParseFormatNonNegative(m: nat)
    ensures ParseDecimal(FormatReal(m as real)) == Some(m as real)
  {
    FormatNonNegativeIntegral(m);
    NatToStringValue(m);
    ParsePositive(NatToString(m));
  }
}
