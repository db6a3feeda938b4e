/**
 * `utf8ToBytes`: the UTF-8 encoding of a string (RFC 3629, section 3). Dafny characters are
 * Unicode scalar values, so every character has a one- to four-byte encoding.
 */
module Utf8 {
  import opened Hex

  /** The encoding of one scalar value; its first byte announces its length. */
  function EncodeChar(c: char): (r: seq<Byte>)
    ensures 1 <= |r| <= 4
    ensures |r| == SequenceLength(r[0])
  {
    var n := c as int;
    if n < 0x80 then [n]
    else if n < 0x800 then [0xC0 + n / 0x40, 0x80 + n % 0x40]
    else if n < 0x1_0000 then [0xE0 + n / 0x1000, 0x80 + (n / 0x40) % 0x40, 0x80 + n % 0x40]
    else [0xF0 + n / 0x4_0000, 0x80 + (n / 0x1000) % 0x40, 0x80 + (n / 0x40) % 0x40, 0x80 + n % 0x40]
  }

  /** How many bytes a sequence starting with `lead` occupies. */
  function SequenceLength(lead: Byte): nat {
    if lead < 0x80 then 1 else if lead < 0xE0 then 2 else if lead < 0xF0 then 3 else 4
  }

  /** The scalar value a well-formed sequence of 1 to 4 bytes stands for. */
  function DecodeChar(b: seq<Byte>): int
    requires 1 <= |b| <= 4
  {
    var v := seq(|b|, i requires 0 <= i < |b| => b[i] as int);
    if |v| == 1 then v[0]
    else if |v| == 2 then (v[0] - 0xC0) * 0x40 + (v[1] - 0x80)
    else if |v| == 3 then (v[0] - 0xE0) * 0x1000 + (v[1] - 0x80) * 0x40 + (v[2] - 0x80)
    else (v[0] - 0xF0) * 0x4_0000 + (v[1] - 0x80) * 0x1000 + (v[2] - 0x80) * 0x40 + (v[3] - 0x80)
  }

  lemma DecodeEncodeChar(c: char)
    ensures DecodeChar(EncodeChar(c)) == c as int
  {
    var n := c as int;
    var q1, r1 := n / 0x40, n % 0x40;
    assert n == q1 * 0x40 + r1;
    var q2, r2 := q1 / 0x40, q1 % 0x40;
    assert q1 == q2 * 0x40 + r2;
    var q3, r3 := q2 / 0x40, q2 % 0x40;
    assert q2 == q3 * 0x40 + r3;
    assert n / 0x1000 == q2;
    assert n / 0x4_0000 == q3;
  }

  function Utf8ToBytes(s: string): (r: seq<Byte>)
    ensures |s| <= |r| <= 4 * |s|
  {
    if s == "" then [] else EncodeChar(s[0]) + Utf8ToBytes(s[1..])
  }

  /** Different strings encode to different bytes: a changed message is a changed input to the hash. */
  lemma {:induction false} Utf8Injective(s: string, t: string)
    ensures Utf8ToBytes(s) == Utf8ToBytes(t) <==> s == t
    decreases |s|
  {
    if Utf8ToBytes(s) == Utf8ToBytes(t) && s != "" && t != "" {
      var es, et := EncodeChar(s[0]), EncodeChar(t[0]);
      var b := Utf8ToBytes(s);
      assert b[0] == es[0] && b[0] == et[0];
      assert b[..|es|] == es && b[..|et|] == et;
      DecodeEncodeChar(s[0]);
      DecodeEncodeChar(t[0]);
      assert b[|es|..] == Utf8ToBytes(s[1..]) && b[|et|..] == Utf8ToBytes(t[1..]);
      Utf8Injective(s[1..], t[1..]);
      assert s == [s[0]] + s[1..] && t == [t[0]] + t[1..];
    }
  }
}
