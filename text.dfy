/**
 * The string operations the forms rely on, written out as JavaScript defines them:
 * `trim()`, `includes()`, `Array.prototype.join`, `Number.prototype.toString()`,
 * `parseInt(s)` (no radix) and the truthiness of `Number(s)`; `toLowerCase()` is written out
 * for the ASCII letters only.
 */
module Text {
  import opened Outcomes

  // ---------------------------------------------------------------------------
  // Whitespace and trim
  // ---------------------------------------------------------------------------

  /** JavaScript's WhiteSpace and LineTerminator characters: what `trim()` strips and `\s` matches. */
  const SpaceChars: set<char> := {
    ' ', '\t', '\n', '\r', '\U{000B}', '\U{000C}', '\U{00A0}', '\U{1680}',
    '\U{2000}', '\U{2001}', '\U{2002}', '\U{2003}', '\U{2004}', '\U{2005}', '\U{2006}',
    '\U{2007}', '\U{2008}', '\U{2009}', '\U{200A}',
    '\U{2028}', '\U{2029}', '\U{202F}', '\U{205F}', '\U{3000}', '\U{FEFF}'
  }

  predicate IsSpace(c: char) {
    (c <= ' ' || '\U{00A0}' <= c) && c in SpaceChars
  }

  function TrimStart(s: string): (r: string)
    ensures |r| <= |s| && r == s[|s| - |r|..]
    ensures forall k :: 0 <= k < |s| - |r| ==> IsSpace(s[k])
    ensures r != [] ==> !IsSpace(r[0])
  {
    if |s| > 0 && IsSpace(s[0]) then
      var r := TrimStart(s[1..]);
      assert s[1..][|s| - 1 - |r|..] == s[|s| - |r|..];
      assert forall k :: 1 <= k < |s| - |r| ==> s[k] == s[1..][k - 1];
      r
    else s
  }

  function TrimEnd(s: string): (r: string)
    ensures |r| <= |s| && r == s[..|r|]
    ensures forall k :: |r| <= k < |s| ==> IsSpace(s[k])
    ensures r != [] ==> !IsSpace(r[|r| - 1])
  {
    if |s| > 0 && IsSpace(s[|s| - 1]) then TrimEnd(s[..|s| - 1]) else s
  }

  /** `s.trim()`: `s` without its leading and trailing whitespace. */
  function Trim(s: string): (r: string)
    ensures r != [] ==> !IsSpace(r[0]) && !IsSpace(r[|r| - 1])
  {
    TrimEnd(TrimStart(s))
  }

  /** `!s.trim()`: the string is empty or consists of whitespace only. */
  predicate IsBlank(s: string)
  {
    Trim(s) == ""
  }

  /** `!s.trim()` holds exactly when every character of `s` is whitespace. */
  lemma BlankIffAllSpace(s: string)
    ensures IsBlank(s) <==> forall k :: 0 <= k < |s| ==> IsSpace(s[k])
  {
    var t := TrimStart(s);
    if !forall k :: 0 <= k < |s| ==> IsSpace(s[k]) {
      var k :| 0 <= k < |s| && !IsSpace(s[k]);
      assert |t| > 0 && !IsSpace(t[0]);
    }
  }

  // ---------------------------------------------------------------------------
  // Digits and decimal rendering
  // ---------------------------------------------------------------------------

  predicate IsDigit(c: char) {
    '0' <= c <= '9'
  }

  /** `/^\d+$/.test(s)`: one or more ASCII digits and nothing else. */
  predicate AllDigits(s: string) {
    |s| > 0 && forall k :: 0 <= k < |s| ==> IsDigit(s[k])
  }

  /** A string of ASCII digits is never blank. */
  lemma DigitsAreNotBlank(s: string)
    requires AllDigits(s)
    ensures !IsBlank(s)
  {
    BlankIffAllSpace(s);
    assert !IsSpace(s[0]);
  }

  function DigitChar(d: nat): (c: char)
    requires d < 10
    ensures IsDigit(c)
  {
    ('0' as int + d) as char
  }

  /** `n.toString()` for a non-negative integer: its decimal digits, most significant first. */
  function DecimalString(n: nat): (r: string)
    ensures AllDigits(r)
    ensures |r| == 1 <==> n < 10
    ensures |r| > 1 ==> r[0] != '0'
  {
    if n < 10 then [DigitChar(n)] else DecimalString(n / 10) + [DigitChar(n % 10)]
  }

  /** `n.toString()` for any integer: a minus sign before the digits of `|n|` when `n` is negative. */
  function IntString(n: int): (r: string)
    ensures n >= 0 ==> AllDigits(r)
    ensures n < 0 ==> |r| > 1 && r[0] == '-' && AllDigits(r[1..])
  {
    if n >= 0 then DecimalString(n) else "-" + DecimalString(-n)
  }

  /** Different numbers never render to the same decimal string. */
  lemma {:induction false} DecimalStringInjective(a: nat, b: nat)
    requires DecimalString(a) == DecimalString(b)
    ensures a == b
  {
    var da, db := DecimalString(a), DecimalString(b);
    if a < 10 || b < 10 {
      assert |da| == 1 && |db| == 1;
      assert a < 10 && b < 10;
      assert da[0] == DigitChar(a) && db[0] == DigitChar(b);
    } else {
      assert da[|da| - 1] == DigitChar(a % 10) && db[|db| - 1] == DigitChar(b % 10);
      assert a % 10 == b % 10;
      assert DecimalString(a / 10) == da[..|da| - 1] == db[..|db| - 1] == DecimalString(b / 10);
      DecimalStringInjective(a / 10, b / 10);
    }
  }

  // ---------------------------------------------------------------------------
  // parseInt
  // ---------------------------------------------------------------------------

  /** The value of a digit character in bases up to 16, or 16 when it is not a digit. */
  function DigitValue(c: char): (v: nat)
    ensures v <= 16
    ensures IsDigit(c) ==> v == c as int - '0' as int
  {
    if '0' <= c <= '9' then c as int - '0' as int
    else if 'a' <= c <= 'f' then c as int - 'a' as int + 10
    else if 'A' <= c <= 'F' then c as int - 'A' as int + 10
    else 16
  }

  /** The longest prefix of `s` made of digits valid in `radix`. */
  function DigitPrefix(s: string, radix: nat): (r: string)
    ensures |r| <= |s| && r == s[..|r|]
    ensures forall k :: 0 <= k < |r| ==> DigitValue(r[k]) < radix
    ensures |r| < |s| ==> DigitValue(s[|r|]) >= radix
  {
    if |s| > 0 && DigitValue(s[0]) < radix then [s[0]] + DigitPrefix(s[1..], radix) else []
  }

  lemma ProductIsNatural(a: nat, b: nat)
    ensures a * b >= 0
  {
  }

  /** The number that a string of digits denotes in `radix`. */
  function DigitsValue(ds: string, radix: nat): nat
    requires forall k :: 0 <= k < |ds| ==> DigitValue(ds[k]) < radix
  {
    if ds == [] then 0
    else
      var high := DigitsValue(ds[..|ds| - 1], radix);
      ProductIsNatural(high, radix);
      high * radix + DigitValue(ds[|ds| - 1])
  }

  /**
   * `parseInt(s)` without a radix: skip leading whitespace, take an optional sign, read a
   * hexadecimal number after a `0x`/`0X` prefix and a decimal one otherwise, stopping at the
   * first character that is not a digit. `None` stands for `NaN` (no digit at all).
   */
  function ParseInt(s: string): (r: Option<int>)
    ensures r.Some? && r.value < 0 ==> TrimStart(s) != [] && TrimStart(s)[0] == '-'
  {
    var t := TrimStart(s);
    var negative := |t| > 0 && t[0] == '-';
    var u := if |t| > 0 && (t[0] == '-' || t[0] == '+') then t[1..] else t;
    var hex := |u| >= 2 && u[0] == '0' && (u[1] == 'x' || u[1] == 'X');
    var radix := if hex then 16 else 10;
    var body := if hex then u[2..] else u;
    var ds := DigitPrefix(body, radix);
    if ds == [] then None
    else
      var v: int := DigitsValue(ds, radix);
      Some(if negative then -v else v)
  }

  /** `parseInt` of an empty or whitespace-only string is `NaN`. */
  lemma BlankParsesToNothing(s: string)
    requires IsBlank(s)
    ensures ParseInt(s).None?
  {
    BlankIffAllSpace(s);
  }

  /** A string of ASCII digits has no leading whitespace to skip. */
  lemma TrimStartOfDigits(s: string)
    requires AllDigits(s)
    ensures TrimStart(s) == s
  {
    assert !IsSpace(s[0]);
  }

  /** The decimal digit scan runs to the end of a string of ASCII digits. */
  lemma DigitScanOfDigits(s: string)
    requires AllDigits(s)
    ensures forall k :: 0 <= k < |s| ==> DigitValue(s[k]) < 10
    ensures DigitPrefix(s, 10) == s
  {
    assert forall k :: 0 <= k < |s| ==> DigitValue(s[k]) < 10;
    assert s[..|s|] == s;
  }

  /** `parseInt` of a string of ASCII digits without a `0x` prefix reads it whole, in base 10. */
  lemma ParseIntOfDigits(s: string)
    requires AllDigits(s) && !(|s| >= 2 && s[0] == '0' && (s[1] == 'x' || s[1] == 'X'))
    ensures forall k :: 0 <= k < |s| ==> DigitValue(s[k]) < 10
    ensures ParseInt(s) == Some(DigitsValue(s, 10))
  {
    TrimStartOfDigits(s);
    DigitScanOfDigits(s);
    assert s[0] != '-' && s[0] != '+';
  }

  /** `parseInt` of a string of ASCII digits is a non-negative number. */
  lemma DigitsParse(s: string)
    requires AllDigits(s)
    ensures ParseInt(s).Some? && ParseInt(s).value >= 0
  {
    assert |s| >= 2 ==> IsDigit(s[1]);
    ParseIntOfDigits(s);
  }

  lemma {:induction false} DigitsValueOfDecimal(n: nat)
    ensures forall k :: 0 <= k < |DecimalString(n)| ==> DigitValue(DecimalString(n)[k]) < 10
    ensures DigitsValue(DecimalString(n), 10) == n
  {
    var d := DecimalString(n);
    if n >= 10 {
      DigitsValueOfDecimal(n / 10);
      assert d[..|d| - 1] == DecimalString(n / 10);
    }
  }

  /** `parseInt` reads back the number that `toString` wrote: `parseInt(n.toString()) == n`. */
  lemma ParseIntOfDecimalString(n: nat)
    ensures ParseInt(DecimalString(n)) == Some(n)
  {
    var d := DecimalString(n);
    assert !(|d| >= 2 && d[0] == '0');
    ParseIntOfDigits(d);
    DigitsValueOfDecimal(n);
  }

  // ---------------------------------------------------------------------------
  // Truthiness of Number(s)
  // ---------------------------------------------------------------------------

  /** The index of the first `e` or `E` in `s`, or `|s|` when there is none. */
  function ExponentStart(s: string): (i: nat)
    ensures i <= |s|
    ensures forall k :: 0 <= k < i ==> s[k] != 'e' && s[k] != 'E'
    ensures i < |s| ==> s[i] == 'e' || s[i] == 'E'
  {
    if s == [] then 0
    else if s[0] == 'e' || s[0] == 'E' then 0
    else 1 + ExponentStart(s[1..])
  }

  function CountDots(s: string): nat {
    if s == [] then 0 else (if s[0] == '.' then 1 else 0) + CountDots(s[1..])
  }

  /** Digits with at most one decimal point and at least one digit: `12`, `1.`, `.5`, `1.50`. */
  predicate IsMantissa(m: string) {
    (forall k :: 0 <= k < |m| ==> IsDigit(m[k]) || m[k] == '.')
    && CountDots(m) <= 1
    && exists k :: 0 <= k < |m| && IsDigit(m[k])
  }

  /** An empty exponent, or `e`/`E`, an optional sign and one or more digits. */
  predicate IsExponent(x: string) {
    x == [] || (|x| >= 2 && (var y := if x[1] == '+' || x[1] == '-' then x[2..] else x[1..]; AllDigits(y)))
  }

  /** A `0x`/`0o`/`0b` literal (no sign allowed) whose digits are all valid: its radix, or 0. */
  function NonDecimalRadix(t: string): nat {
    if |t| >= 3 && t[0] == '0' then
      (if t[1] == 'x' || t[1] == 'X' then 16
       else if t[1] == 'o' || t[1] == 'O' then 8
       else if t[1] == 'b' || t[1] == 'B' then 2
       else 0)
    else 0
  }

  /** Some character of `s[lo..hi]` is a digit other than `0`. */
  predicate HasNonzeroDigit(s: string, lo: int, hi: int)
    requires 0 <= lo <= hi <= |s|
  {
    exists k :: lo <= k < hi && IsDigit(s[k]) && s[k] != '0'
  }

  /** A decimal literal without its sign: a mantissa, an optional exponent, a non-zero mantissa digit. */
  predicate DecimalIsTruthy(u: string) {
    var e := ExponentStart(u);
    IsMantissa(u[..e]) && IsExponent(u[e..]) && HasNonzeroDigit(u, 0, e)
  }

  /** A `0x`/`0o`/`0b` literal of `radix` whose digits are valid and not all zero. */
  predicate NonDecimalIsTruthy(t: string, radix: nat)
    requires |t| >= 2
  {
    (forall k :: 2 <= k < |t| ==> DigitValue(t[k]) < radix) && exists k :: 2 <= k < |t| && DigitValue(t[k]) != 0
  }

  /**
   * Whether `Number(s)` is truthy, i.e. neither `0` nor `NaN`. After trimming: the empty
   * string is 0; `Infinity` with an optional sign is truthy; a `0x`/`0o`/`0b` literal is
   * truthy when one of its digits is not zero; a decimal literal (optional sign, mantissa,
   * optional exponent) is truthy when its mantissa has a non-zero digit; anything else is NaN.
   */
  predicate NumberIsTruthy(s: string) {
    var t := Trim(s);
    var u := if |t| > 0 && (t[0] == '+' || t[0] == '-') then t[1..] else t;
    if t == [] then false
    else if u == "Infinity" then true
    else if NonDecimalRadix(t) != 0 then NonDecimalIsTruthy(t, NonDecimalRadix(t))
    else DecimalIsTruthy(u)
  }

  /** Hexadecimal digits written as letters count: `Number("0xff")` is 255, which is truthy. */
  lemma LetterDigitsAreTruthy()
    ensures NumberIsTruthy("0xff")
  {
    var ff := "0xff";
    assert DigitValue(ff[2]) == 15;
    HexLiteralTruthy(ff);
  }

  /** A `0x` literal of zeros is `Number` 0, which is falsy. */
  lemma ZeroHexIsFalsy()
    ensures !NumberIsTruthy("0x00")
  {
    var z := "0x00";
    assert DigitValue(z[2]) == 0 && DigitValue(z[3]) == 0;
    HexLiteralTruthy(z);
  }

  /** `Number` of a `0x` literal with valid digits is truthy exactly when one digit is not zero. */
  lemma HexLiteralTruthy(t: string)
    requires |t| >= 3 && t[0] == '0' && (t[1] == 'x' || t[1] == 'X')
    requires forall k :: 2 <= k < |t| ==> DigitValue(t[k]) < 16
    ensures NumberIsTruthy(t) <==> exists k :: 2 <= k < |t| && DigitValue(t[k]) != 0
  {
    assert DigitValue(t[|t| - 1]) < 16;
    TrimOfUnspaced(t);
  }

  /** A string that starts and ends with a non-space character is its own trim. */
  lemma TrimOfUnspaced(s: string)
    requires s != [] && !IsSpace(s[0]) && !IsSpace(s[|s| - 1])
    ensures Trim(s) == s
  {
    assert TrimStart(s) == s;
  }

  /** `Number` of an empty or whitespace-only string is 0, which is falsy. */
  lemma BlankIsNotTruthy(s: string)
    requires IsBlank(s)
    ensures !NumberIsTruthy(s)
  {
  }

  lemma {:induction false} NoDotsInDigits(s: string)
    requires forall k :: 0 <= k < |s| ==> IsDigit(s[k])
    ensures CountDots(s) == 0
  {
    if s != [] {
      NoDotsInDigits(s[1..]);
    }
  }

  lemma {:induction false} DecimalStringHasNonzeroDigit(n: nat)
    requires n > 0
    ensures HasNonzeroDigit(DecimalString(n), 0, |DecimalString(n)|)
  {
    var d := DecimalString(n);
    if n < 10 {
      assert d[0] != '0';
    } else if n / 10 > 0 {
      var p := DecimalString(n / 10);
      DecimalStringHasNonzeroDigit(n / 10);
      var k :| 0 <= k < |p| && IsDigit(p[k]) && p[k] != '0';
      assert d[k] == p[k];
    }
  }

  lemma TrimOfDigits(d: string)
    requires AllDigits(d)
    ensures Trim(d) == d
  {
    assert TrimStart(d) == d by {
      assert !IsSpace(d[0]);
    }
    assert TrimEnd(d) == d by {
      assert !IsSpace(d[|d| - 1]);
    }
  }

  lemma DecimalOfDigits(d: string)
    requires AllDigits(d)
    ensures DecimalIsTruthy(d) <==> HasNonzeroDigit(d, 0, |d|)
  {
    var e := ExponentStart(d);
    assert e == |d|;
    assert d[..e] == d && d[e..] == [];
    NoDotsInDigits(d);
    assert IsDigit(d[0]);
    assert IsMantissa(d);
  }

  /** A count written in decimal is accepted as a number by `Number(...)` exactly when it is not zero. */
  lemma NumberOfDecimalString(n: nat)
    ensures NumberIsTruthy(DecimalString(n)) <==> n > 0
  {
    var d := DecimalString(n);
    TrimOfDigits(d);
    assert NonDecimalRadix(d) == 0;
    assert d != "Infinity" by {
      assert IsDigit(d[0]);
    }
    assert !(d[0] == '+' || d[0] == '-');
    DecimalOfDigits(d);
    if n > 0 {
      DecimalStringHasNonzeroDigit(n);
    } else {
      assert d == "0";
    }
  }

  // ---------------------------------------------------------------------------
  // Case folding, substring search, join, split
  // ---------------------------------------------------------------------------

  /** `toLowerCase()` on one character (ASCII letters only). */
  function LowerChar(c: char): char {
    if 'A' <= c <= 'Z' then (c as int - 'A' as int + 'a' as int) as char else c
  }

  /** `s.toLowerCase()` restricted to ASCII case folding: each of A-Z lowered, everything else kept. */
  function ToLower(s: string): (r: string)
    ensures |r| == |s|
    ensures forall k :: 0 <= k < |s| ==> r[k] == LowerChar(s[k])
  {
    if s == [] then [] else [LowerChar(s[0])] + ToLower(s[1..])
  }

  /** Lower-casing twice is lower-casing once. */
  lemma ToLowerIdempotent(s: string)
    ensures ToLower(ToLower(s)) == ToLower(s)
  {
  }

  /** `needle` occurs in `hay` starting at index `i`. */
  predicate OccursAt(hay: string, needle: string, i: int) {
    0 <= i && i + |needle| <= |hay| && hay[i..i + |needle|] == needle
  }

  /** `hay.includes(needle)`: `needle` occurs at some position of `hay`. */
  predicate Contains(hay: string, needle: string) {
    exists i | 0 <= i <= |hay| :: OccursAt(hay, needle, i)
  }

  /** Every string includes the empty string. */
  lemma ContainsEmpty(hay: string)
    ensures Contains(hay, "")
  {
    assert OccursAt(hay, "", 0);
  }

  /** `hay.toLowerCase().includes(needle.toLowerCase())`: case-insensitive search. */
  predicate ContainsIgnoringCase(hay: string, needle: string) {
    Contains(ToLower(hay), ToLower(needle))
  }

  /** `xs.join(sep)`: the items with `sep` between neighbours. */
  function Join(xs: seq<string>, sep: string): (r: string)
    ensures xs == [] ==> r == ""
    ensures |xs| == 1 ==> r == xs[0]
  {
    if xs == [] then "" else if |xs| == 1 then xs[0] else xs[0] + sep + Join(xs[1..], sep)
  }

  /** `s.split(sep).pop()` for a one-character separator: the text after the last `sep`, or all of `s`. */
  function LastSegment(s: string, sep: char): (r: string)
    ensures |r| <= |s| && r == s[|s| - |r|..]
    ensures sep !in r
    ensures |r| < |s| ==> s[|s| - |r| - 1] == sep
  {
    if s == [] then []
    else if s[|s| - 1] == sep then []
    else LastSegment(s[..|s| - 1], sep) + [s[|s| - 1]]
  }
}
