/**
 * The two number/string conversions the transfer path relies on: the template-literal
 * rendering `${n}` of an integer (what the server signs over) and `parseInt(s)` without a
 * radix (what the client posts), following section 19.2.5 of ECMA-262. Numbers are
 * unbounded integers here: the rounding of values beyond 2^53 is not modelled, nor the
 * exponent form ("1e+21") that `${n}` takes for magnitudes of 10^21 and more.
 */
module JsNumbers {
  import opened Wrappers
  import Hex

  predicate IsDigit(c: char) {
    '0' <= c <= '9'
  }

  predicate AllDigits(s: string) {
    forall i :: 0 <= i < |s| ==> IsDigit(s[i])
  }

  /** A decimal numeral as `${n}` writes it: digits only, and no leading zero unless it is "0". */
  predicate IsCanonicalDecimal(s: string) {
    |s| >= 1 && AllDigits(s) && (s[0] != '0' || |s| == 1)
  }

  function DigitChar(d: nat): (c: char)
    requires d < 10
    ensures IsDigit(c)
  {
    ('0' as int + d) as char
  }

  /** The value of `c` as a digit in base `radix`, accepting the letters of either case. */
  function RadixDigit(c: char, radix: nat): (r: Option<nat>)
    ensures r.Some? ==> r.value < radix
  {
    var d := Hex.DigitValue(c);
    if d.Some? && d.value < radix then d else None
  }

  predicate AllRadixDigits(s: string, radix: nat) {
    forall i :: 0 <= i < |s| ==> RadixDigit(s[i], radix).Some?
  }

  /** The value of a run of digits in base `radix`, most significant first. */
  function DigitsValue(s: string, radix: nat): nat
    requires AllRadixDigits(s, radix)
  {
    if s == "" then 0
    else
      var init := s[..|s| - 1];
      assert forall i :: 0 <= i < |init| ==> init[i] == s[i];
      DigitsValue(init, radix) * radix + RadixDigit(s[|s| - 1], radix).value
  }

  /** `${n}` for a natural number. */
  function NatToDecimal(n: nat): (s: string)
    ensures IsCanonicalDecimal(s)
    ensures s[0] == '0' <==> n == 0
  {
    if n < 10 then [DigitChar(n)] else NatToDecimal(n / 10) + [DigitChar(n % 10)]
  }

  /** `${n}` for an integer: a minus sign, then the decimal digits of its magnitude. */
  function IntToString(n: int): (s: string)
    ensures |s| >= 1 && (s[0] == '-' <==> n < 0)
    ensures forall i :: (if n < 0 then 1 else 0) <= i < |s| ==> IsDigit(s[i])
  {
    if n < 0 then "-" + NatToDecimal(-n) else NatToDecimal(n)
  }

  lemma DigitsOfDecimal(s: string)
    requires AllDigits(s)
    ensures AllRadixDigits(s, 10)
  {
  }

  lemma {:induction false} DecimalValueOfNatToDecimal(n: nat)
    ensures AllRadixDigits(NatToDecimal(n), 10)
    ensures DigitsValue(NatToDecimal(n), 10) == n
    decreases n
  {
    var s := NatToDecimal(n);
    DigitsOfDecimal(s);
    if n >= 10 {
      DecimalValueOfNatToDecimal(n / 10);
      assert s[..|s| - 1] == NatToDecimal(n / 10);
    }
  }

  lemma {:induction false} LeadingDigitBoundsValue(s: string)
    requires |s| >= 1 && AllDigits(s) && s[0] != '0'
    ensures AllRadixDigits(s, 10) && DigitsValue(s, 10) >= 1
    decreases |s|
  {
    DigitsOfDecimal(s);
    if |s| > 1 {
      LeadingDigitBoundsValue(s[..|s| - 1]);
    }
  }

  /** Printing the value of a canonical numeral gives the numeral back. */
  lemma {:induction false} NatToDecimalOfCanonical(s: string)
    requires IsCanonicalDecimal(s)
    ensures AllRadixDigits(s, 10) && NatToDecimal(DigitsValue(s, 10)) == s
    decreases |s|
  {
    DigitsOfDecimal(s);
    var v := DigitsValue(s, 10);
    if |s| == 1 {
      assert s[..0] == "" && DigitsValue(s[..0], 10) == 0;
      assert v == RadixDigit(s[0], 10).value;
      assert DigitChar(v) == s[0];
    } else {
      var p := s[..|s| - 1];
      LeadingDigitBoundsValue(p);
      NatToDecimalOfCanonical(p);
      var d := RadixDigit(s[|s| - 1], 10).value;
      assert v == DigitsValue(p, 10) * 10 + d;
      assert v / 10 == DigitsValue(p, 10) && v % 10 == d;
      assert DigitChar(d) == s[|s| - 1];
      assert s == p + [s[|s| - 1]];
    }
  }

  /** For a string of digits, printing its value reproduces it exactly when it has no leading zero. */
  lemma DecimalRoundTripIff(s: string)
    requires |s| >= 1 && AllDigits(s)
    ensures AllRadixDigits(s, 10)
    ensures NatToDecimal(DigitsValue(s, 10)) == s <==> IsCanonicalDecimal(s)
  {
    DigitsOfDecimal(s);
    if IsCanonicalDecimal(s) {
      NatToDecimalOfCanonical(s);
    }
  }

  /** The characters `parseInt` skips first: ECMAScript's WhiteSpace and LineTerminator. */
  predicate IsJsWhiteSpace(c: char) {
    c == '\t' || c == '\n' || c == '\U{000B}' || c == '\U{000C}' || c == '\r' || c == ' '
    || c == '\U{00A0}' || c == '\U{1680}' || ('\U{2000}' <= c <= '\U{200A}')
    || c == '\U{2028}' || c == '\U{2029}' || c == '\U{202F}' || c == '\U{205F}'
    || c == '\U{3000}' || c == '\U{FEFF}'
  }

  function TrimStart(s: string): (t: string)
    ensures |t| <= |s| && t == s[|s| - |t|..]
    ensures forall i :: 0 <= i < |s| - |t| ==> IsJsWhiteSpace(s[i])
    ensures |t| > 0 ==> !IsJsWhiteSpace(t[0])
  {
    if s != "" && IsJsWhiteSpace(s[0]) then
      var t := TrimStart(s[1..]);
      assert forall i :: 1 <= i < |s| ==> s[i] == s[1..][i - 1];
      t
    else s
  }

  /** The length of the longest prefix of `s` made of base-`radix` digits. */
  function DigitRun(s: string, radix: nat): (n: nat)
    ensures n <= |s| && AllRadixDigits(s[..n], radix)
    ensures n < |s| ==> RadixDigit(s[n], radix).None?
  {
    if s != "" && RadixDigit(s[0], radix).Some? then
      var n := 1 + DigitRun(s[1..], radix);
      assert forall i :: 1 <= i < n ==> s[..n][i] == s[1..][..n - 1][i - 1];
      n
    else 0
  }

  /** Reads the longest leading run of base-`radix` digits; `None` when there is none. */
  function ParseRun(digits: string, radix: nat): Option<nat> {
    var n := DigitRun(digits, radix);
    if n == 0 then None else Some(DigitsValue(digits[..n], radix))
  }

  /** After the sign: base 16 after "0x" or "0X", base 10 otherwise. */
  function ParseUnsigned(u: string): Option<nat> {
    if |u| >= 2 && u[0] == '0' && (u[1] == 'x' || u[1] == 'X') then ParseRun(u[2..], 16)
    else ParseRun(u, 10)
  }

  /**
   * `parseInt(s)`: skip leading white space, take one sign, then read digits as above.
   * `None` is `NaN` (no digit at all).
   */
  function ParseInt(s: string): Option<int> {
    var t := TrimStart(s);
    var sign: int := if |t| > 0 && t[0] == '-' then -1 else 1;
    var magnitude := if |t| > 0 && (t[0] == '-' || t[0] == '+') then ParseUnsigned(t[1..]) else ParseUnsigned(t);
    if magnitude.None? then None else Some(sign * magnitude.value)
  }

  lemma ParseRunOfDigits(s: string, radix: nat)
    requires |s| >= 1 && AllRadixDigits(s, radix)
    ensures ParseRun(s, radix) == Some(DigitsValue(s, radix))
  {
    var n := DigitRun(s, radix);
    assert s[..n] == s;
  }

  /** On a string of digits with no sign and no "0x", `parseInt` reads the whole string in base 10. */
  lemma ParseUnsignedOfDigits(s: string)
    requires |s| >= 1 && AllDigits(s)
    ensures AllRadixDigits(s, 10) && ParseUnsigned(s) == Some(DigitsValue(s, 10))
  {
    DigitsOfDecimal(s);
    ParseRunOfDigits(s, 10);
  }

  /** On a non-empty string of digits `parseInt` reads the whole string. */
  lemma ParseIntOfDigits(s: string)
    requires |s| >= 1 && AllDigits(s)
    ensures AllRadixDigits(s, 10) && ParseInt(s) == Some(DigitsValue(s, 10))
  {
    assert !IsJsWhiteSpace(s[0]);
    assert TrimStart(s) == s;
    ParseUnsignedOfDigits(s);
  }

  /** `parseInt` reads back what `${n}` writes. */
  lemma ParseIntOfIntToString(n: int)
    ensures ParseInt(IntToString(n)) == Some(n)
  {
    var m: nat := if n < 0 then -n else n;
    var digits := NatToDecimal(m);
    DecimalValueOfNatToDecimal(m);
    if n >= 0 {
      ParseIntOfDigits(digits);
    } else {
      var s := IntToString(n);
      assert s == "-" + digits;
      assert !IsJsWhiteSpace(s[0]);
      assert TrimStart(s) == s;
      assert s[1..] == digits;
      ParseUnsignedOfDigits(digits);
      assert ParseUnsigned(s[1..]) == Some(m);
    }
  }
}
