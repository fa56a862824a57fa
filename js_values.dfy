/**
 * The few JavaScript value conversions the modelled code relies on:
 * `String.prototype.trim`, `Number(x)` on JSON scalars, `String(n)` on
 * integers, and the truthiness tests behind `x || null` and `!x`.
 *
 * Numbers are modelled as integers: `Number(x)` either yields a finite
 * integer or NaN. Fractions, exponents, hexadecimal literals and the
 * infinities are outside the model.
 */
module JsValues {
  import opened Wrappers

  /** A JSON scalar as it arrives in a request body or a seed file. */
  datatype Scalar = JNull | JBool(b: bool) | JNumber(n: int) | JString(s: string)

  /** The result of `Number(x)`. */
  datatype Num = NaN | Finite(value: int)

  /** The characters `String.prototype.trim` removes (white space and line terminators). */
  predicate IsWhiteSpace(c: char) {
    c == ' ' || c == '\t' || c == '\n' || c == '\r' || c == '\U{B}' || c == '\U{C}'
    || c == '\U{A0}' || c == '\U{1680}' || ('\U{2000}' <= c <= '\U{200A}')
    || c == '\U{2028}' || c == '\U{2029}' || c == '\U{202F}' || c == '\U{205F}'
    || c == '\U{3000}' || c == '\U{FEFF}'
  }

  predicate AllWhiteSpace(s: string) {
    forall i :: 0 <= i < |s| ==> IsWhiteSpace(s[i])
  }

  /** Drops leading white space. */
  function TrimStart(s: string): (r: string)
    ensures |r| <= |s| && r == s[|s| - |r|..]
    ensures AllWhiteSpace(s[..|s| - |r|])
    ensures r == [] || !IsWhiteSpace(r[0])
  {
    if |s| > 0 && IsWhiteSpace(s[0]) then TrimStart(s[1..]) else s
  }

  /** Drops trailing white space. */
  function TrimEnd(s: string): (r: string)
    ensures |r| <= |s| && r == s[..|r|]
    ensures AllWhiteSpace(s[|r|..])
    ensures r == [] || !IsWhiteSpace(r[|r| - 1])
  {
    if |s| > 0 && IsWhiteSpace(s[|s| - 1]) then
      var r := TrimEnd(s[..|s| - 1]);
      assert s[|r|..] == s[..|s| - 1][|r|..] + [s[|s| - 1]];
      r
    else s
  }

  /** `s.trim()` */
  function Trim(s: string): string {
    TrimEnd(TrimStart(s))
  }

  /** A string trims to '' exactly when every character in it is white space. */
  lemma TrimEmptyIffBlank(s: string)
    ensures Trim(s) == "" <==> AllWhiteSpace(s)
  {
    var t := TrimStart(s);
    if Trim(s) == "" {
      // everything TrimEnd dropped is white space, yet t does not start with any
      assert AllWhiteSpace(t[0..]) && t[0..] == t;
      assert s[..|s|] == s;
    }
    if AllWhiteSpace(s) {
      assert s[|s| - |t|..] == t;
    }
  }

  predicate IsDigit(c: char) {
    '0' <= c <= '9'
  }

  predicate AllDigits(s: string) {
    forall i :: 0 <= i < |s| ==> IsDigit(s[i])
  }

  function DigitChar(d: nat): (c: char)
    requires d < 10
    ensures IsDigit(c)
  {
    ['0', '1', '2', '3', '4', '5', '6', '7', '8', '9'][d]
  }

  function DigitValue(c: char): nat
    requires IsDigit(c)
  {
    c as int - '0' as int
  }

  /** The value of a run of decimal digits, most significant first. */
  function DigitsValue(s: string): nat
    requires AllDigits(s)
  {
    if |s| == 0 then 0 else DigitsValue(s[..|s| - 1]) * 10 + DigitValue(s[|s| - 1])
  }

  /** An optionally signed run of at least one decimal digit. */
  function ParseInteger(s: string): Option<int> {
    if |s| > 1 && (s[0] == '-' || s[0] == '+') && AllDigits(s[1..]) then
      Some(if s[0] == '-' then 0 - DigitsValue(s[1..]) else DigitsValue(s[1..]))
    else if |s| > 0 && AllDigits(s) then
      Some(DigitsValue(s))
    else
      None
  }

  /** The decimal text of a natural number, without leading zeros. */
  function NatToString(n: nat): (s: string)
    ensures |s| > 0 && AllDigits(s)
  {
    if n < 10 then [DigitChar(n)] else NatToString(n / 10) + [DigitChar(n % 10)]
  }

  /** `String(n)` for an integer `n`. */
  function IntToString(n: int): string {
    if n < 0 then "-" + NatToString(-n) else NatToString(n)
  }

  lemma {:induction false} NatToStringValue(n: nat)
    ensures DigitsValue(NatToString(n)) == n
  {
    if n >= 10 {
      var s := NatToString(n);
      assert s[..|s| - 1] == NatToString(n / 10);
      NatToStringValue(n / 10);
    }
  }

  /** Reading back the decimal text of an integer gives the integer. */
  lemma IntToStringRoundTrip(n: int)
    ensures ParseInteger(IntToString(n)) == Some(n)
  {
    if n < 0 {
      var m: nat := -n;
      assert IntToString(n) == "-" + NatToString(m);
      NegativeRoundTrip(m);
      assert 0 - m == n;
    } else {
      assert IntToString(n) == NatToString(n);
      NatRoundTrip(n);
    }
  }

  /** Reading back `"-"` followed by the digits of `m`. */
  lemma NegativeRoundTrip(m: nat)
    ensures ParseInteger("-" + NatToString(m)) == Some(0 - m)
  {
    var d := NatToString(m);
    var s := "-" + d;
    assert s[1..] == d && s[0] == '-';
    NatToStringValue(m);
  }

  /** Reading back the digits of `n`. */
  lemma NatRoundTrip(n: nat)
    ensures ParseInteger(NatToString(n)) == Some(n)
  {
    var s := NatToString(n);
    assert IsDigit(s[0]);
    NatToStringValue(n);
  }

  /** `Number(s)` for a string: blank text is 0, a signed decimal integer its value, anything else NaN. */
  function StringToNumber(s: string): (r: Num)
    ensures AllWhiteSpace(s) ==> r == Finite(0)
  {
    TrimEmptyIffBlank(s);
    var t := Trim(s);
    if t == "" then Finite(0)
    else match ParseInteger(t)
      case Some(n) => Finite(n)
      case None => NaN
  }

  /** `Number(v)` for a JSON scalar. */
  function ToNumber(v: Scalar): Num {
    match v
    case JNull => Finite(0)
    case JBool(b) => Finite(if b then 1 else 0)
    case JNumber(n) => Finite(n)
    case JString(s) => StringToNumber(s)
  }

  /** The decimal text of an integer has no surrounding white space. */
  lemma IntToStringTrimmed(n: int)
    ensures Trim(IntToString(n)) == IntToString(n)
  {
    var s := IntToString(n);
    var digits := NatToString(if n < 0 then -n else n);
    assert s[|s| - 1] == digits[|digits| - 1];
    NotWhiteSpace(s[0]);
    NotWhiteSpace(s[|s| - 1]);
    assert TrimStart(s) == s;
  }

  /** Digits and the minus sign are not white space. */
  lemma NotWhiteSpace(c: char)
    requires IsDigit(c) || c == '-'
    ensures !IsWhiteSpace(c)
  {
  }

  /** Number(String(n)) is n: converting an integer to text and back loses nothing. */
  lemma NumberOfStringRoundTrip(n: int)
    ensures StringToNumber(IntToString(n)) == Finite(n)
  {
    IntToStringTrimmed(n);
    IntToStringRoundTrip(n);
  }

  /** `Number(x)` is truthy: finite and non-zero. */
  predicate NumTruthy(n: Num) {
    n.Finite? && n.value != 0
  }

  /** A string value is truthy: present and non-empty. */
  predicate Truthy(s: Option<string>) {
    s.Some? && s.value != ""
  }

  /** `s || null` */
  function OrNull(s: Option<string>): (r: Option<string>)
    ensures r.Some? <==> Truthy(s)
    ensures r.Some? ==> r == s
  {
    if Truthy(s) then s else None
  }
}
