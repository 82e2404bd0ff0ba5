/** UTF-8, the encoding `str.encode()` uses by default (RFC 3629): a
    character becomes one to four bytes depending on its code point. */
module Utf8 {
  import opened PyValues

  /** The bytes of one character. */
  function EncodeChar(c: char): (bs: seq<byte>)
    ensures 1 <= |bs| <= 4
    ensures (|bs| == 1) == (c as int < 0x80)
  {
    var cp := c as int;
    if cp < 0x80 then [cp]
    else if cp < 0x800 then [0xC0 + cp / 64, 0x80 + cp % 64]
    else if cp < 0x10000 then [0xE0 + cp / 4096, 0x80 + cp / 64 % 64, 0x80 + cp % 64]
    else [0xF0 + cp / 262144, 0x80 + cp / 4096 % 64, 0x80 + cp / 64 % 64, 0x80 + cp % 64]
  }

  /** `s.encode()` */
  function Encode(s: string): seq<byte>
  {
    if |s| == 0 then [] else EncodeChar(s[0]) + Encode(s[1..])
  }

  /** How many bytes the sequence that starts with `b` has; 0 when `b`
      cannot start one. */
  function SequenceLength(b: byte): nat
  {
    if b < 0x80 then 1
    else if 0xC2 <= b < 0xE0 then 2
    else if 0xE0 <= b < 0xF0 then 3
    else if 0xF0 <= b < 0xF5 then 4
    else 0
  }

  predicate IsContinuation(b: byte)
  {
    0x80 <= b < 0xC0
  }

  /** The character that a well-formed sequence of one to four bytes
      stands for, or None. */
  function DecodeChar(bs: seq<byte>): Option<char>
    requires 1 <= |bs| <= 4
  {
    if exists i :: 1 <= i < |bs| && !IsContinuation(bs[i]) then None
    else
      var cp :=
        if |bs| == 1 then bs[0]
        else if |bs| == 2 then (bs[0] as int - 0xC0) * 64 + (bs[1] as int - 0x80)
        else if |bs| == 3 then (bs[0] as int - 0xE0) * 4096 + (bs[1] as int - 0x80) * 64 + (bs[2] as int - 0x80)
        else (bs[0] as int - 0xF0) * 262144 + (bs[1] as int - 0x80) * 4096 + (bs[2] as int - 0x80) * 64 + (bs[3] as int - 0x80);
      var least := if |bs| == 1 then 0 else if |bs| == 2 then 0x80 else if |bs| == 3 then 0x800 else 0x10000;
      if least <= cp && (0 <= cp < 0xD800 || 0xE000 <= cp < 0x11_0000) then Some(cp as char) else None
  }

  /** `bs.decode()`, None where Python would raise UnicodeDecodeError. */
  function Decode(bs: seq<byte>): Option<string>
    decreases |bs|
  {
    if |bs| == 0 then Some([])
    else
      var n := SequenceLength(bs[0]);
      if n == 0 || |bs| < n then None
      else match DecodeChar(bs[..n])
        case None => None
        case Some(c) =>
          match Decode(bs[n..])
          case None => None
          case Some(rest) => Some([c] + rest)
  }

  /** One character's bytes announce their own length and decode back to
      the character. */
  lemma DecodeEncodeChar(c: char)
    ensures SequenceLength(EncodeChar(c)[0]) == |EncodeChar(c)|
    ensures DecodeChar(EncodeChar(c)) == Some(c)
  {
    var cp := c as int;
    if cp < 0x80 {
    } else if cp < 0x800 {
      DecodeTwo(c);
    } else if cp < 0x10000 {
      DecodeThree(c);
    } else {
      DecodeFour(c);
    }
  }

  lemma DecodeTwo(c: char)
    requires 0x80 <= c as int < 0x800
    ensures SequenceLength(EncodeChar(c)[0]) == 2
    ensures DecodeChar(EncodeChar(c)) == Some(c)
  {
    var cp := c as int;
    var bs := EncodeChar(c);
    assert bs == [0xC0 + cp / 64, 0x80 + cp % 64];
    assert cp / 64 * 64 + cp % 64 == cp;
  }

  lemma DecodeThree(c: char)
    requires 0x800 <= c as int < 0x10000
    ensures SequenceLength(EncodeChar(c)[0]) == 3
    ensures DecodeChar(EncodeChar(c)) == Some(c)
  {
    var cp := c as int;
    var bs := EncodeChar(c);
    var hi, mid, lo := cp / 4096, cp / 64 % 64, cp % 64;
    assert bs == [0xE0 + hi, 0x80 + mid, 0x80 + lo];
    assert cp / 64 == hi * 64 + mid;
    assert cp == (cp / 64) * 64 + lo;
    assert hi * 4096 + mid * 64 + lo == cp;
  }

  lemma DecodeFour(c: char)
    requires 0x10000 <= c as int
    ensures SequenceLength(EncodeChar(c)[0]) == 4
    ensures DecodeChar(EncodeChar(c)) == Some(c)
  {
    var cp := c as int;
    var bs := EncodeChar(c);
    var top, hi, mid, lo := cp / 262144, cp / 4096 % 64, cp / 64 % 64, cp % 64;
    assert bs == [0xF0 + top, 0x80 + hi, 0x80 + mid, 0x80 + lo];
    assert cp / 4096 == top * 64 + hi;
    assert cp / 64 == (cp / 4096) * 64 + mid;
    assert cp == (cp / 64) * 64 + lo;
    assert top * 262144 + hi * 4096 + mid * 64 + lo == cp;
  }

  /** Decoding the UTF-8 encoding of a string gives the string back. */
  lemma {:induction false} DecodeEncode(s: string)
    ensures Decode(Encode(s)) == Some(s)
    decreases |s|
  {
    if |s| > 0 {
      var e := EncodeChar(s[0]);
      var rest := Encode(s[1..]);
      DecodeEncodeChar(s[0]);
      DecodeEncode(s[1..]);
      assert Encode(s) == e + rest;
      assert (e + rest)[0] == e[0];
      assert (e + rest)[..|e|] == e;
      assert (e + rest)[|e|..] == rest;
      assert s == [s[0]] + s[1..];
    }
  }
}
