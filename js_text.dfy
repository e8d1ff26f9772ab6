/**
 * The JavaScript text facilities the front end leans on: the character
 * classes behind the regular-expression escapes `\s` and `\d` and the
 * identifier rule, and the built-in `parseInt` applied to number tokens
 * (frontend/parser.ts:253).
 */
module JsText {

  /** ECMAScript LineTerminator: the characters `.` refuses to match. */
  predicate IsLineTerminator(c: char) {
    c == '\n' || c == '\r' || c == '\U{2028}' || c == '\U{2029}'
  }

  /** ECMAScript WhiteSpace or LineTerminator: the class `\s`, and the
      characters `parseInt` trims from the front of its argument. */
  predicate IsWhiteSpace(c: char) {
    || c == '\t' || c == '\U{000B}' || c == '\U{000C}' || c == ' '
    || c == '\U{00A0}' || c == '\U{FEFF}' || c == '\U{1680}'
    || ('\U{2000}' <= c <= '\U{200A}')
    || c == '\U{202F}' || c == '\U{205F}' || c == '\U{3000}'
    || IsLineTerminator(c)
  }

  /** The class `\d`. */
  predicate IsDecimalDigit(c: char) {
    '0' <= c <= '9'
  }

  predicate IsHexDigit(c: char) {
    IsDecimalDigit(c) || 'a' <= c <= 'f' || 'A' <= c <= 'F'
  }

  predicate IsAsciiLetter(c: char) {
    'a' <= c <= 'z' || 'A' <= c <= 'Z'
  }

  /** The class `[a-zA-Z_@]` that starts an identifier. */
  predicate IsIdentifierStart(c: char) {
    IsAsciiLetter(c) || c == '_' || c == '@'
  }

  /** The class `[a-zA-Z0-9_]` that continues an identifier. */
  predicate IsIdentifierPart(c: char) {
    IsAsciiLetter(c) || IsDecimalDigit(c) || c == '_'
  }

  /** The character classes that the patterns and `parseInt` repeat. */
  datatype CharClass = WhiteSpace | LineContent | DecimalDigit | HexDigit | IdentifierPart

  predicate InClass(c: char, cl: CharClass) {
    match cl
    case WhiteSpace => IsWhiteSpace(c)
    case LineContent => !IsLineTerminator(c)
    case DecimalDigit => IsDecimalDigit(c)
    case HexDigit => IsHexDigit(c)
    case IdentifierPart => IsIdentifierPart(c)
  }

  /** Length of the longest run of characters of class `cl` starting at
      index `i` of `s`: what a greedy `[class]*` consumes there. */
  function Run(s: string, i: nat, cl: CharClass): (n: nat)
    requires i <= |s|
    ensures i + n <= |s|
    decreases |s| - i
  {
    if i == |s| || !InClass(s[i], cl) then 0 else 1 + Run(s, i + 1, cl)
  }

  /** `Run` stops at the first character outside the class. */
  lemma {:induction false} RunIsLongest(s: string, i: nat, cl: CharClass)
    requires i <= |s|
    ensures forall k :: i <= k < i + Run(s, i, cl) ==> InClass(s[k], cl)
    ensures i + Run(s, i, cl) < |s| ==> !InClass(s[i + Run(s, i, cl)], cl)
    decreases |s| - i
  {
    if i < |s| && InClass(s[i], cl) {
      RunIsLongest(s, i + 1, cl);
    }
  }

  /** The value of a hexadecimal digit; 0 for any other character. */
  function DigitValue(c: char): (d: nat)
    ensures IsDecimalDigit(c) ==> d < 10
    ensures d < 16
  {
    if IsDecimalDigit(c) then c as nat - '0' as nat
    else if 'a' <= c <= 'f' then c as nat - 'a' as nat + 10
    else if 'A' <= c <= 'F' then c as nat - 'A' as nat + 10
    else 0
  }

  /** The value of a digit string in the given radix, most significant first. */
  function DigitsValue(z: string, radix: nat): nat
  {
    if z == [] then 0 else DigitsValue(z[..|z| - 1], radix) * radix + DigitValue(z[|z| - 1])
  }

  /** What JavaScript's `parseInt` can return, short of precision loss. */
  datatype IntOrNaN = NaN | Int(value: int)

  /**
   * `parseInt(s)` with no radix: skip leading white space, take an optional
   * sign, switch to radix 16 after a `0x`/`0X` prefix, then read the
   * longest run of digits; no digit at all gives NaN, and so does blank
   * text; text starting with a digit other than `0` gives a number.
   */
  function ParseInt(s: string): (v: IntOrNaN)
    ensures Run(s, 0, WhiteSpace) == |s| ==> v == NaN
    ensures |s| > 0 && '1' <= s[0] <= '9' ==> v.Int? && v.value >= 0
  {
    ParseSigned(s[Run(s, 0, WhiteSpace)..])
  }

  function ParseSigned(t: string): IntOrNaN {
    if |t| > 0 && t[0] == '-' then Negate(ParseUnsigned(t[1..]))
    else if |t| > 0 && t[0] == '+' then ParseUnsigned(t[1..])
    else ParseUnsigned(t)
  }

  function Negate(v: IntOrNaN): IntOrNaN {
    match v
    case NaN => NaN
    case Int(n) => Int(-n)
  }

  function ParseUnsigned(u: string): IntOrNaN {
    if |u| >= 2 && u[0] == '0' && (u[1] == 'x' || u[1] == 'X') then ParseDigits(u[2..], 16)
    else ParseDigits(u, 10)
  }

  function ParseDigits(b: string, radix: nat): IntOrNaN {
    var z := if radix == 16 then b[..Run(b, 0, HexDigit)] else b[..Run(b, 0, DecimalDigit)];
    if z == [] then NaN else Int(DigitsValue(z, radix))
  }

  function DigitChar(d: nat): (c: char)
    requires d < 10
    ensures IsDecimalDigit(c) && DigitValue(c) == d
  {
    ('0' as nat + d) as char
  }

  /** The shortest decimal spelling of `n`. */
  function DecimalText(n: nat): (s: string)
    ensures |s| >= 1
    ensures forall k :: 0 <= k < |s| ==> IsDecimalDigit(s[k])
  {
    if n < 10 then [DigitChar(n)] else DecimalText(n / 10) + [DigitChar(n % 10)]
  }

  lemma {:induction false} DecimalTextValue(n: nat)
    ensures DigitsValue(DecimalText(n), 10) == n
  {
    var s := DecimalText(n);
    if n >= 10 {
      DecimalTextValue(n / 10);
      assert s[..|s| - 1] == DecimalText(n / 10);
    }
  }

  /** A text whose `parseInt` is the given value: the inverse of `ParseInt`. */
  function NumberText(v: IntOrNaN): string {
    match v
    case NaN => "NaN"
    case Int(n) => if n < 0 then "-" + DecimalText(-n) else DecimalText(n)
  }

  lemma ParseIntDecimal(d: string)
    requires |d| >= 1
    requires forall k :: 0 <= k < |d| ==> IsDecimalDigit(d[k])
    ensures ParseInt(d) == Int(DigitsValue(d, 10))
  {
    NoLeadingSpace(d);
    assert ParseSigned(d) == ParseUnsigned(d) by { assert IsDecimalDigit(d[0]); }
    ParseIntDecimalDigits(d);
  }

  lemma NoLeadingSpace(s: string)
    requires |s| >= 1 && !IsWhiteSpace(s[0])
    ensures s[Run(s, 0, WhiteSpace)..] == s
  {
    assert Run(s, 0, WhiteSpace) == 0;
  }

  lemma {:induction false} RunAll(s: string, i: nat, cl: CharClass)
    requires i <= |s|
    requires forall k :: i <= k < |s| ==> InClass(s[k], cl)
    ensures Run(s, i, cl) == |s| - i
    decreases |s| - i
  {
    if i < |s| {
      RunAll(s, i + 1, cl);
    }
  }

  /** `parseInt` reads back every value it can produce from its spelling. */
  lemma ParseIntNumberText(v: IntOrNaN)
    ensures ParseInt(NumberText(v)) == v
  {
    match v
    case NaN =>
      NoLeadingSpace("NaN");
    case Int(n) =>
      if n < 0 {
        ParseIntNegative(-n);
      } else {
        DecimalTextValue(n);
        ParseIntDecimal(DecimalText(n));
      }
  }

  lemma ParseIntNegative(m: nat)
    ensures ParseInt("-" + DecimalText(m)) == Int(-(m as int))
  {
    var d := DecimalText(m);
    ParseIntMinus(d);
    ParseIntDecimalDigits(d);
    DecimalTextValue(m);
  }

  lemma ParseIntMinus(d: string)
    ensures ParseInt("-" + d) == Negate(ParseUnsigned(d))
  {
    var s := "-" + d;
    assert s[0] == '-';
    NoLeadingSpace(s);
    assert ParseInt(s) == ParseSigned(s);
    assert s[1..] == d;
  }

  lemma ParseIntDecimalDigits(d: string)
    requires |d| >= 1
    requires forall k :: 0 <= k < |d| ==> IsDecimalDigit(d[k])
    ensures ParseUnsigned(d) == Int(DigitsValue(d, 10))
  {
    assert ParseUnsigned(d) == ParseDigits(d, 10) by {
      if |d| >= 2 { assert IsDecimalDigit(d[1]); }
    }
    RunAll(d, 0, DecimalDigit);
    assert d[..Run(d, 0, DecimalDigit)] == d;
    assert ParseDigits(d, 10) == Int(DigitsValue(d, 10));
  }
}
