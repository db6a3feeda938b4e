/**
 * Hex encoding of byte strings, as the `toHex` and `hexToBytes` helpers of the
 * ethereum-cryptography utilities do it: `toHex` writes two lower-case digits per byte,
 * `hexToBytes` drops an optional "0x" prefix, accepts digits of either case and
 * throws on an odd length or a non-hex character.
 */
module Hex {
  import opened Wrappers

  type Byte = x: int | 0 <= x < 256

  const LowerDigits: string := "0123456789abcdef"

  predicate IsLowerHexDigit(c: char) {
    ('0' <= c <= '9') || ('a' <= c <= 'f')
  }

  /** The character class `[0-9a-fA-F]`. */
  predicate IsHexDigit(c: char) {
    ('0' <= c <= '9') || ('a' <= c <= 'f') || ('A' <= c <= 'F')
  }

  function HexChar(n: nat): (c: char)
    requires n < 16
    ensures IsLowerHexDigit(c)
  {
    LowerDigits[n]
  }

  /** The value of one hex digit of either case; `None` for any other character. */
  function DigitValue(c: char): (r: Option<nat>)
    ensures r.Some? <==> IsHexDigit(c)
    ensures r.Some? ==> r.value < 16
  {
    if '0' <= c <= '9' then Some(c as nat - '0' as nat)
    else if 'a' <= c <= 'f' then Some(c as nat - 'a' as nat + 10)
    else if 'A' <= c <= 'F' then Some(c as nat - 'A' as nat + 10)
    else None
  }

  lemma DigitValueOfHexChar(n: nat)
    requires n < 16
    ensures DigitValue(HexChar(n)) == Some(n)
  {
  }

  /** `toHex`: every byte becomes its high and its low nibble, in lower case. */
  function ToHex(bytes: seq<Byte>): (s: string)
    ensures |s| == 2 * |bytes|
    ensures forall i :: 0 <= i < |s| ==> IsLowerHexDigit(s[i])
  {
    if bytes == [] then ""
    else [HexChar(bytes[0] / 16), HexChar(bytes[0] % 16)] + ToHex(bytes[1..])
  }

  /** Decodes pairs of hex digits; `None` is the exception thrown on a bad character or an odd length. */
  function DecodePairs(s: string): (r: Option<seq<Byte>>)
    ensures r.Some? <==> |s| % 2 == 0 && forall i :: 0 <= i < |s| ==> IsHexDigit(s[i])
    ensures r.Some? ==> 2 * |r.value| == |s|
    decreases |s|
  {
    if s == [] then Some([])
    else if |s| == 1 || DigitValue(s[0]).None? || DigitValue(s[1]).None? then None
    else
      var rest := DecodePairs(s[2..]);
      assert forall i :: 2 <= i < |s| ==> s[i] == s[2..][i - 2];
      if rest.None? then None
      else Some([DigitValue(s[0]).value * 16 + DigitValue(s[1]).value] + rest.value)
  }

  /** `hexToBytes`: an optional "0x" prefix is dropped, the rest is decoded pair by pair. */
  function HexToBytes(s: string): Option<seq<Byte>> {
    if |s| >= 2 && s[..2] == "0x" then DecodePairs(s[2..]) else DecodePairs(s)
  }

  lemma {:induction false} ToHexConcat(a: seq<Byte>, b: seq<Byte>)
    ensures ToHex(a + b) == ToHex(a) + ToHex(b)
    decreases |a|
  {
    if a == [] {
      assert a + b == b;
    } else {
      assert (a + b)[1..] == a[1..] + b;
      ToHexConcat(a[1..], b);
    }
  }

  /** The two digits `toHex` writes for a byte read back as its high and low nibble. */
  lemma NibblesOfByte(b: Byte)
    ensures DigitValue(HexChar(b / 16)) == Some(b / 16) && DigitValue(HexChar(b % 16)) == Some(b % 16)
    ensures b / 16 * 16 + b % 16 == b
  {
    DigitValueOfHexChar(b / 16);
    DigitValueOfHexChar(b % 16);
  }

  /** One step of decoding: two valid digits in front of a decodable rest. */
  lemma DecodePairsStep(hi: char, lo: char, rest: string)
    requires DigitValue(hi).Some? && DigitValue(lo).Some? && DecodePairs(rest).Some?
    ensures DecodePairs([hi, lo] + rest)
      == Some([DigitValue(hi).value * 16 + DigitValue(lo).value] + DecodePairs(rest).value)
  {
    var s := [hi, lo] + rest;
    assert s[0] == hi && s[1] == lo && s[2..] == rest;
    assert |s| != 0 && |s| != 1 && DigitValue(s[0]).Some? && DigitValue(s[1]).Some?;
    assert DecodePairs(s[2..]) == DecodePairs(rest);
  }

  lemma {:induction false} DecodePairsToHex(bytes: seq<Byte>)
    ensures DecodePairs(ToHex(bytes)) == Some(bytes)
    decreases |bytes|
  {
    if bytes != [] {
      var b, tail := bytes[0], bytes[1..];
      var rest := ToHex(tail);
      assert ToHex(bytes) == [HexChar(b / 16), HexChar(b % 16)] + rest;
      NibblesOfByte(b);
      DecodePairsToHex(tail);
      DecodePairsStep(HexChar(b / 16), HexChar(b % 16), rest);
      assert bytes == [b] + tail;
    }
  }

  /** `hexToBytes` inverts `toHex`: the output of `toHex` never starts with "0x". */
  lemma HexRoundTrip(bytes: seq<Byte>)
    ensures HexToBytes(ToHex(bytes)) == Some(bytes)
  {
    var s := ToHex(bytes);
    if |s| >= 2 {
      assert IsLowerHexDigit(s[1]);
      assert s[..2] != "0x" by { assert s[..2][1] == s[1]; }
    }
    DecodePairsToHex(bytes);
  }

  /** Distinct byte strings have distinct hex encodings. */
  lemma ToHexInjective(a: seq<Byte>, b: seq<Byte>)
    ensures ToHex(a) == ToHex(b) <==> a == b
  {
    if ToHex(a) == ToHex(b) {
      HexRoundTrip(a);
      HexRoundTrip(b);
    }
  }
}
