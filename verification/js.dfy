/**
 * The slice of JavaScript runtime behaviour the request handlers lean on:
 * truthiness and nullishness of request values, `parseInt(s, 10)` as
 * section 19.2.5 of ECMA-262 (2023 edition) defines it, `parseFloat` on
 * plain decimal text, `String(n)` for naturals and `String.prototype.padStart`.
 */
module Js {

  /** None plays JavaScript's `undefined` (or NaN, for the number parsers). */
  datatype Option<+T> = None | Some(value: T)

  /** A value read from a JSON request body; Undefined is a key the body lacks. */
  datatype JsValue = Undefined | Null | Bool(b: bool) | Number(n: real) | Str(s: string)

  /** `!!v` */
  predicate Truthy(v: JsValue) {
    match v
    case Undefined => false
    case Null => false
    case Bool(b) => b
    case Number(n) => n != 0.0
    case Str(s) => s != ""
  }

  /** `v === undefined || v === null`: the values `??` replaces. */
  predicate Nullish(v: JsValue) {
    v.Undefined? || v.Null?
  }

  // ---------------------------------------------------------------------------
  // Decimal digits
  // ---------------------------------------------------------------------------

  predicate IsDigit(c: char) {
    '0' <= c <= '9'
  }

  function DigitValue(c: char): (d: nat)
    requires IsDigit(c)
    ensures d < 10
  {
    c as int - '0' as int
  }

  function DigitChar(d: nat): (c: char)
    requires d < 10
    ensures IsDigit(c) && DigitValue(c) == d
  {
    ('0' as int + d) as char
  }

  predicate AllDigits(s: string) {
    forall i :: 0 <= i < |s| ==> IsDigit(s[i])
  }

  function Pow10(k: nat): (p: nat)
    ensures p >= 1
  {
    if k == 0 then 1 else 10 * Pow10(k - 1)
  }

  /** The value of a string of decimal digits, most significant first ("" reads as 0). */
  function DigitsValue(s: string): nat
    requires AllDigits(s)
  {
    if s == [] then 0 else DigitsValue(s[..|s| - 1]) * 10 + DigitValue(s[|s| - 1])
  }

  /**
   * The decimal digits of a natural n, without leading zeros: what `String(n)`
   * writes for n below 2^53, the range `Date.now()` stays in. Larger numbers
   * are rounded first, and from 10^21 on `String` switches to exponent form.
   */
  function DecimalString(n: nat): (s: string)
    ensures |s| > 0 && AllDigits(s)
    ensures s[0] == '0' ==> n == 0
    decreases n
  {
    if n < 10 then [DigitChar(n)] else DecimalString(n / 10) + [DigitChar(n % 10)]
  }

  /** Reading back the digits `String(n)` writes gives n. */
  lemma {:induction false} DecimalStringRoundTrip(n: nat)
    ensures DigitsValue(DecimalString(n)) == n
    decreases n
  {
    if n >= 10 {
      var s := DecimalString(n);
      assert s[..|s| - 1] == DecimalString(n / 10);
      DecimalStringRoundTrip(n / 10);
    }
  }

  /** A digit string that does not start with '0' has a positive value. */
  lemma {:induction false} LeadingDigitPositive(s: string)
    requires |s| > 0 && AllDigits(s) && s[0] != '0'
    ensures DigitsValue(s) > 0
    decreases |s|
  {
    if |s| > 1 {
      LeadingDigitPositive(s[..|s| - 1]);
    }
  }

  /** The other direction: a canonical digit string is what `String` writes for its value. */
  lemma {:induction false} CanonicalDigitsRoundTrip(s: string)
    requires |s| > 0 && AllDigits(s)
    requires s[0] == '0' ==> |s| == 1
    ensures DecimalString(DigitsValue(s)) == s
    decreases |s|
  {
    if |s| > 1 {
      var p := s[..|s| - 1];
      LeadingDigitPositive(p);
      CanonicalDigitsRoundTrip(p);
      var v := DigitsValue(s);
      assert v / 10 == DigitsValue(p) && v % 10 == DigitValue(s[|s| - 1]);
      assert DigitChar(v % 10) == s[|s| - 1];
      assert s == p + [s[|s| - 1]];
    }
  }

  /** n digits never reach 10^n. */
  lemma {:induction false} DigitsValueBelowPow10(s: string)
    requires AllDigits(s)
    ensures DigitsValue(s) < Pow10(|s|)
    decreases |s|
  {
    if s != [] {
      DigitsValueBelowPow10(s[..|s| - 1]);
    }
  }

  // ---------------------------------------------------------------------------
  // parseInt and parseFloat
  // ---------------------------------------------------------------------------

  /** StrWhiteSpaceChar of ECMA-262: TAB, VT, FF, ZWNBSP, the Zs space separators and the line terminators. */
  predicate IsStrWhiteSpace(c: char) {
    || c == '\t' || c == '\U{B}' || c == '\U{C}' || c == '\U{FEFF}'
    || c == ' ' || c == '\U{A0}' || c == '\U{1680}' || ('\U{2000}' <= c <= '\U{200A}')
    || c == '\U{202F}' || c == '\U{205F}' || c == '\U{3000}'
    || c == '\n' || c == '\r' || c == '\U{2028}' || c == '\U{2029}'
  }

  /** TrimString(s, start): s without its leading white space. */
  function TrimStart(s: string): (t: string)
    ensures |t| <= |s| && t == s[|s| - |t|..]
    ensures forall i :: 0 <= i < |s| - |t| ==> IsStrWhiteSpace(s[i])
    ensures t == [] || !IsStrWhiteSpace(t[0])
  {
    if s != [] && IsStrWhiteSpace(s[0]) then TrimStart(s[1..]) else s
  }

  /** The longest prefix of s made of decimal digits. */
  function DigitPrefix(s: string): (d: string)
    ensures d <= s && AllDigits(d)
    ensures |d| == |s| || !IsDigit(s[|d|])
  {
    if s != [] && IsDigit(s[0]) then [s[0]] + DigitPrefix(s[1..]) else []
  }

  /** Text after an optional leading '+' or '-'. */
  datatype Signed = Signed(negative: bool, digits: string)

  function SplitSign(s: string): Signed {
    if s != [] && s[0] == '-' then Signed(true, s[1..])
    else if s != [] && s[0] == '+' then Signed(false, s[1..])
    else Signed(false, s)
  }

  /** The text parseInt and parseFloat look at: leading white space trimmed, sign split off. */
  function Scan(s: string): Signed {
    SplitSign(TrimStart(s))
  }

  /**
   * `parseInt(s, 10)`: skip leading white space, take one optional sign, then
   * read the longest run of decimal digits; with no digit the result is NaN
   * (None). Whatever follows the digits is ignored, so "12abc" reads as 12.
   * The JavaScript -0 is the integer 0 here.
   */
  function ParseInt(s: string): Option<int> {
    var t := Scan(s);
    SignedInteger(t.negative, DigitPrefix(t.digits))
  }

  function SignedInteger(negative: bool, whole: string): Option<int>
    requires AllDigits(whole)
  {
    if whole == [] then None
    else
      var v: int := DigitsValue(whole);
      Some(if negative then -v else v)
  }

  /**
   * `parseFloat(s)` restricted to plain decimal notation: white space, an
   * optional sign, digits with an optional '.' fraction (either part may be
   * empty, not both). None stands for NaN.
   */
  function ParseFloat(s: string): Option<real> {
    var t := Scan(s);
    var whole := DigitPrefix(t.digits);
    SignedDecimal(t.negative, whole, FractionDigits(t.digits[|whole|..]))
  }

  /** The digits of a '.' fraction at the head of s, if there is one. */
  function FractionDigits(s: string): (f: string)
    ensures AllDigits(f)
  {
    if s != [] && s[0] == '.' then DigitPrefix(s[1..]) else []
  }

  function SignedDecimal(negative: bool, whole: string, frac: string): Option<real>
    requires AllDigits(whole) && AllDigits(frac)
  {
    if whole == [] && frac == [] then None
    else
      var m := DigitsValue(whole) as real + DigitsValue(frac) as real / Pow10(|frac|) as real;
      Some(if negative then -m else m)
  }

  /** Truncation toward zero, the integer part JavaScript's parseInt keeps of a number. */
  function Trunc(x: real): int {
    if x >= 0.0 then x.Floor else -((-x).Floor)
  }

  /** `parseFloat(String(v))`, the number a body value stands for (None is NaN). */
  function NumberOf(v: JsValue): Option<real> {
    match v
    case Number(n) => Some(n)
    case Str(s) => ParseFloat(s)
    case _ => None
  }

  /** `parseInt(String(v), 10)` for a body value (None is NaN). */
  function IntegerOf(v: JsValue): Option<int> {
    match v
    case Number(n) => Some(Trunc(n))
    case Str(s) => ParseInt(s)
    case _ => None
  }

  lemma {:induction false} TrimStartSkipsWhiteSpace(ws: string, t: string)
    requires forall i :: 0 <= i < |ws| ==> IsStrWhiteSpace(ws[i])
    requires t == [] || !IsStrWhiteSpace(t[0])
    ensures TrimStart(ws + t) == t
    decreases |ws|
  {
    if ws != [] {
      assert (ws + t)[1..] == ws[1..] + t;
      TrimStartSkipsWhiteSpace(ws[1..], t);
    }
  }

  lemma {:induction false} DigitPrefixStopsAtNonDigit(d: string, rest: string)
    requires AllDigits(d)
    requires rest == [] || !IsDigit(rest[0])
    ensures DigitPrefix(d + rest) == d
    decreases |d|
  {
    if d != [] {
      assert (d + rest)[1..] == d[1..] + rest;
      DigitPrefixStopsAtNonDigit(d[1..], rest);
    }
  }

  /**
   * parseInt reads back what `String(n)` writes, with or without a minus
   * sign, after any leading white space and whatever non-digit text follows.
   */
  lemma ParseIntReadsDecimal(ws: string, sign: string, n: nat, rest: string)
    requires forall i :: 0 <= i < |ws| ==> IsStrWhiteSpace(ws[i])
    requires sign == "" || sign == "+" || sign == "-"
    requires rest == [] || !IsDigit(rest[0])
    ensures ParseInt(ws + sign + DecimalString(n) + rest) == Some(if sign == "-" then -(n as int) else n)
  {
    var d := DecimalString(n);
    var text := ws + sign + d + rest;
    assert text == ws + sign + (d + rest);
    ScanSignedDigits(ws, sign, d + rest);
    DigitPrefixStopsAtNonDigit(d, rest);
    DecimalStringRoundTrip(n);
    assert ParseInt(text) == SignedInteger(sign == "-", d);
  }

  lemma ScanSignedDigits(ws: string, sign: string, body: string)
    requires forall i :: 0 <= i < |ws| ==> IsStrWhiteSpace(ws[i])
    requires sign == "" || sign == "+" || sign == "-"
    requires body != [] && IsDigit(body[0])
    ensures Scan(ws + sign + body) == Signed(sign == "-", body)
  {
    var b := sign + body;
    assert ws + sign + body == ws + b;
    assert b[0] == '+' || b[0] == '-' || IsDigit(b[0]);
    TrimStartSkipsWhiteSpace(ws, b);
    if sign != "" {
      assert b[1..] == body;
    }
  }

  /** Trailing text after the digits is ignored: "12abc" is the id 12. */
  lemma ParseIntIgnoresTrailingText()
    ensures ParseInt("12abc") == Some(12)
  {
    assert DecimalString(12) == "12";
    assert "12abc" == "" + "" + DecimalString(12) + "abc";
    ParseIntReadsDecimal("", "", 12, "abc");
  }

  /** A signed number after white space is a number, so negative ids are not NaN. */
  lemma ParseIntReadsNegative()
    ensures ParseInt("  -7") == Some(-7)
  {
    assert DecimalString(7) == "7";
    assert "  -7" == "  " + "-" + DecimalString(7) + "";
    ParseIntReadsDecimal("  ", "-", 7, "");
  }

  /** Text with no digit after the optional white space and sign is NaN. */
  lemma ParseIntNaNExamples()
    ensures ParseInt("abc") == None
    ensures ParseInt("") == None
    ensures ParseInt("-") == None
  {
    assert "abc"[0] == 'a' && !IsStrWhiteSpace('a');
    assert TrimStart("abc") == "abc";
    assert Scan("abc") == Signed(false, "abc");
    assert Scan("-") == Signed(true, "");
  }

  /**
   * On the decimal text these parsers read (no exponent), ParseInt succeeds
   * only where ParseFloat does, and gives its number truncated toward zero.
   */
  lemma ParseIntTruncatesParseFloat(s: string)
    ensures ParseInt(s).Some? ==> ParseFloat(s).Some? && Trunc(ParseFloat(s).value) == ParseInt(s).value
  {
    var t := Scan(s);
    var whole := DigitPrefix(t.digits);
    SignedDecimalTruncates(t.negative, whole, FractionDigits(t.digits[|whole|..]));
  }

  lemma SignedDecimalTruncates(negative: bool, whole: string, frac: string)
    requires AllDigits(whole) && AllDigits(frac)
    ensures SignedInteger(negative, whole).Some? ==>
      && SignedDecimal(negative, whole, frac).Some?
      && Trunc(SignedDecimal(negative, whole, frac).value) == SignedInteger(negative, whole).value
  {
    if whole != [] {
      var w := DigitsValue(whole);
      var m := w as real + DigitsValue(frac) as real / Pow10(|frac|) as real;
      FractionBelowOne(frac);
      FloorOfWholePlusFraction(w, m);
    }
  }

  lemma FractionBelowOne(frac: string)
    requires AllDigits(frac)
    ensures 0.0 <= DigitsValue(frac) as real / Pow10(|frac|) as real < 1.0
  {
    DigitsValueBelowPow10(frac);
    QuotientBelowOne(DigitsValue(frac) as real, Pow10(|frac|) as real);
  }

  lemma QuotientBelowOne(a: real, b: real)
    requires 0.0 <= a < b
    ensures 0.0 <= a / b < 1.0
  {
    var q := a / b;
    assert q * b == a;
  }

  lemma FloorOfWholePlusFraction(w: nat, m: real)
    requires w as real <= m < w as real + 1.0
    ensures Trunc(m) == w && Trunc(-m) == -(w as int)
  {
  }

  // ---------------------------------------------------------------------------
  // padStart
  // ---------------------------------------------------------------------------

  /** `s.padStart(width, fill)` with a one-character fill string. */
  function PadStart(s: string, width: nat, fill: char): (r: string)
    ensures |r| == if |s| >= width then |s| else width
    ensures r[|r| - |s|..] == s
    ensures forall i :: 0 <= i < |r| - |s| ==> r[i] == fill
  {
    if |s| >= width then s else seq(width - |s|, _ => fill) + s
  }
}
