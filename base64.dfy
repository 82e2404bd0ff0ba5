/** The base 64 encoding of section 4 of RFC 4648 (`base64.b64encode`):
    every three bytes become four characters of a 64-letter alphabet, and a
    final group of one or two bytes is padded with `=`. */
module Base64 {
  import opened PyValues

  /** The alphabet of Table 1 in section 4 of RFC 4648. */
  function Digit(i: int): (c: char)
    requires 0 <= i < 64
    ensures IsDigit(c)
  {
    if i < 26 then ('A' as int + i) as char
    else if i < 52 then ('a' as int + (i - 26)) as char
    else if i < 62 then ('0' as int + (i - 52)) as char
    else if i == 62 then '+'
    else '/'
  }

  predicate IsDigit(c: char)
  {
    ('A' <= c <= 'Z') || ('a' <= c <= 'z') || ('0' <= c <= '9') || c == '+' || c == '/'
  }

  /** The value of an alphabet character. */
  function ValueOf(c: char): (i: int)
    requires IsDigit(c)
    ensures 0 <= i < 64 && Digit(i) == c
  {
    if 'A' <= c <= 'Z' then c as int - 'A' as int
    else if 'a' <= c <= 'z' then c as int - 'a' as int + 26
    else if '0' <= c <= '9' then c as int - '0' as int + 52
    else if c == '+' then 62
    else 63
  }

  lemma ValueOfDigit(i: int)
    requires 0 <= i < 64
    ensures IsDigit(Digit(i)) && ValueOf(Digit(i)) == i
  {
  }

  /** The four characters of a group of three bytes: each holds six of
      the group's 24 bits, most significant first. */
  function Group(b0: byte, b1: byte, b2: byte): string
  {
    [Digit(b0 / 4), Digit(b0 % 4 * 16 + b1 / 16), Digit(b1 % 16 * 4 + b2 / 64), Digit(b2 % 64)]
  }

  /** `base64.b64encode(b)`: a final group of one or two bytes is filled
      with zero bits and its unused characters become `=`. */
  function Encode(b: seq<byte>): string
    decreases |b|
  {
    if |b| == 0 then ""
    else if |b| == 1 then Group(b[0], 0, 0)[..2] + "=="
    else if |b| == 2 then Group(b[0], b[1], 0)[..3] + "="
    else Group(b[0], b[1], b[2]) + Encode(b[3..])
  }

  /** The encoding has four characters for every started group of three
      bytes. */
  lemma {:induction false} EncodeLength(b: seq<byte>)
    ensures |Encode(b)| == (|b| + 2) / 3 * 4
    decreases |b|
  {
    if |b| >= 3 {
      EncodeLength(b[3..]);
      assert Encode(b) == Group(b[0], b[1], b[2]) + Encode(b[3..]);
      assert (|b| + 2) / 3 == (|b[3..]| + 2) / 3 + 1;
    } else if |b| > 0 {
      assert |Encode(b)| == 4;
    }
  }

  /** Every character is from the alphabet or the pad character. */
  predicate InAlphabet(s: string)
  {
    forall i :: 0 <= i < |s| ==> IsDigit(s[i]) || s[i] == '='
  }

  lemma InAlphabetAppend(s: string, t: string)
    requires InAlphabet(s) && InAlphabet(t)
    ensures InAlphabet(s + t)
  {
    forall i | 0 <= i < |s + t| ensures IsDigit((s + t)[i]) || (s + t)[i] == '=' {
      if i >= |s| { assert (s + t)[i] == t[i - |s|]; }
    }
  }

  /** A group, and a padded final group, are written in the alphabet. */
  lemma GroupInAlphabet(b0: byte, b1: byte, b2: byte)
    ensures InAlphabet(Group(b0, b1, b2))
    ensures InAlphabet(Group(b0, 0, 0)[..2] + "==")
    ensures InAlphabet(Group(b0, b1, 0)[..3] + "=")
  {
    var g, g1, g2 := Group(b0, b1, b2), Group(b0, 0, 0), Group(b0, b1, 0);
    assert IsDigit(g[0]) && IsDigit(g[1]) && IsDigit(g[2]) && IsDigit(g[3]);
    assert IsDigit(g1[0]) && IsDigit(g1[1]) && IsDigit(g2[0]) && IsDigit(g2[1]) && IsDigit(g2[2]);
    assert g1[..2] + "==" == [g1[0], g1[1], '=', '='];
    assert g2[..3] + "=" == [g2[0], g2[1], g2[2], '='];
  }

  /** Every character of the encoding is from the alphabet or the pad
      character. */
  lemma {:induction false} EncodeAlphabet(b: seq<byte>)
    ensures InAlphabet(Encode(b))
    decreases |b|
  {
    if |b| == 1 {
      GroupInAlphabet(b[0], 0, 0);
    } else if |b| == 2 {
      GroupInAlphabet(b[0], b[1], 0);
    } else if |b| >= 3 {
      EncodeAlphabet(b[3..]);
      GroupInAlphabet(b[0], b[1], b[2]);
      InAlphabetAppend(Group(b[0], b[1], b[2]), Encode(b[3..]));
    }
  }

  /** The three bytes that four six-bit values stand for. */
  function Bytes3(v0: int, v1: int, v2: int, v3: int): seq<byte>
    requires 0 <= v0 < 64 && 0 <= v1 < 64 && 0 <= v2 < 64 && 0 <= v3 < 64
  {
    [v0 * 4 + v1 / 16, v1 % 16 * 16 + v2 / 4, v2 % 4 * 64 + v3]
  }

  /** `base64.b64decode(s, validate=True)`, None where Python would raise. */
  function Decode(s: string): Option<seq<byte>>
    decreases |s|
  {
    if |s| == 0 then Some([])
    else if |s| < 4 || !IsDigit(s[0]) || !IsDigit(s[1]) then None
    else if |s| == 4 && s[2] == '=' && s[3] == '=' then
      Some(Bytes3(ValueOf(s[0]), ValueOf(s[1]), 0, 0)[..1])
    else if !IsDigit(s[2]) then None
    else if |s| == 4 && s[3] == '=' then
      Some(Bytes3(ValueOf(s[0]), ValueOf(s[1]), ValueOf(s[2]), 0)[..2])
    else if !IsDigit(s[3]) then None
    else
      match Decode(s[4..])
      case None => None
      case Some(rest) => Some(Bytes3(ValueOf(s[0]), ValueOf(s[1]), ValueOf(s[2]), ValueOf(s[3])) + rest)
  }

  /** Decoding the encoding of a byte string gives it back. */
  lemma {:induction false} DecodeEncode(b: seq<byte>)
    ensures Decode(Encode(b)) == Some(b)
    decreases |b|
  {
    if |b| == 1 {
      DecodePadTwo(b);
    } else if |b| == 2 {
      DecodePadOne(b);
    } else if |b| >= 3 {
      DecodeEncode(b[3..]);
      DecodeFullGroup(b);
    }
  }

  /** Three bytes in front of a byte string whose encoding decodes back
      also decode back. */
  lemma DecodeFullGroup(b: seq<byte>)
    requires |b| >= 3 && Decode(Encode(b[3..])) == Some(b[3..])
    ensures Decode(Encode(b)) == Some(b)
  {
    var t := Encode(b[3..]);
    var g := Group(b[0], b[1], b[2]);
    DecodeGroup(b[0], b[1], b[2], t, b[3..]);
    assert Encode(b) == g + t;
    FirstThree(b);
    calc {
      Decode(Encode(b));
      Decode(g + t);
      Some([b[0], b[1], b[2]] + b[3..]);
      Some(b);
    }
  }

  /** A byte string is its first three bytes followed by the rest. */
  lemma FirstThree(b: seq<byte>)
    requires |b| >= 3
    ensures [b[0], b[1], b[2]] + b[3..] == b
  {
    assert ([b[0], b[1], b[2]] + b[3..])[..3] == b[..3];
  }

  /** A full group in front of a string decodes to its three bytes in
      front of what the string decodes to. */
  lemma DecodeGroup(b0: byte, b1: byte, b2: byte, t: string, r: seq<byte>)
    requires Decode(t) == Some(r)
    ensures Decode(Group(b0, b1, b2) + t) == Some([b0, b1, b2] + r)
  {
    var g := Group(b0, b1, b2);
    GroupDigits(b0, b1, b2);
    var s := g + t;
    assert s[..4] == g && s[4..] == t;
  }

  /** A final group of one byte, padded with "==", decodes to that byte. */
  lemma DecodePadTwo(b: seq<byte>)
    requires |b| == 1
    ensures Decode(Encode(b)) == Some(b)
  {
    var g := Group(b[0], 0, 0);
    assert Encode(b) == [g[0], g[1], '=', '='];
    PadTwoDecodes(b[0]);
    assert [b[0]] == b;
  }

  lemma PadTwoDecodes(b0: byte)
    ensures var g := Group(b0, 0, 0); Decode([g[0], g[1], '=', '=']) == Some([b0])
  {
    GroupDigits(b0, 0, 0);
  }

  /** A final group of two bytes, padded with "=", decodes to those bytes. */
  lemma DecodePadOne(b: seq<byte>)
    requires |b| == 2
    ensures Decode(Encode(b)) == Some(b)
  {
    var g := Group(b[0], b[1], 0);
    assert Encode(b) == [g[0], g[1], g[2], '='];
    PadOneDecodes(b[0], b[1]);
    assert [b[0], b[1]] == b;
  }

  lemma PadOneDecodes(b0: byte, b1: byte)
    ensures var g := Group(b0, b1, 0); Decode([g[0], g[1], g[2], '=']) == Some([b0, b1])
  {
    GroupDigits(b0, b1, 0);
  }

  /** The characters of a group are alphabet characters whose values give
      the group's bytes back. */
  lemma GroupDigits(b0: byte, b1: byte, b2: byte)
    ensures var g := Group(b0, b1, b2);
      && |g| == 4 && IsDigit(g[0]) && IsDigit(g[1]) && IsDigit(g[2]) && IsDigit(g[3])
      && Bytes3(ValueOf(g[0]), ValueOf(g[1]), ValueOf(g[2]), ValueOf(g[3])) == [b0, b1, b2]
      && Bytes3(ValueOf(g[0]), ValueOf(g[1]), 0, 0)[..1] == [b0]
      && Bytes3(ValueOf(g[0]), ValueOf(g[1]), ValueOf(g[2]), 0)[..2] == [b0, b1]
  {
    GroupValues(b0, b1, b2);
    var v0: int, v1: int, v2: int, v3: int := b0 / 4, b0 % 4 * 16 + b1 / 16, b1 % 16 * 4 + b2 / 64, b2 % 64;
    DigitValues(v0, v1, v2, v3);
    assert Group(b0, b1, b2) == [Digit(v0), Digit(v1), Digit(v2), Digit(v3)];
  }

  /** Four six-bit values written as alphabet characters read back as
      themselves. */
  lemma DigitValues(v0: int, v1: int, v2: int, v3: int)
    requires 0 <= v0 < 64 && 0 <= v1 < 64 && 0 <= v2 < 64 && 0 <= v3 < 64
    ensures var g := [Digit(v0), Digit(v1), Digit(v2), Digit(v3)];
      && IsDigit(g[0]) && IsDigit(g[1]) && IsDigit(g[2]) && IsDigit(g[3])
      && ValueOf(g[0]) == v0 && ValueOf(g[1]) == v1 && ValueOf(g[2]) == v2 && ValueOf(g[3]) == v3
  {
    ValueOfDigit(v0);
    ValueOfDigit(v1);
    ValueOfDigit(v2);
    ValueOfDigit(v3);
  }

  /** The four six-bit values of a group give its three bytes back, and a
      short group's missing values are zero. */
  lemma GroupValues(b0: byte, b1: byte, b2: byte)
    ensures var v0, v1, v2, v3 := b0 / 4, b0 % 4 * 16 + b1 / 16, b1 % 16 * 4 + b2 / 64, b2 % 64;
      && 0 <= v0 < 64 && 0 <= v1 < 64 && 0 <= v2 < 64 && 0 <= v3 < 64
      && Bytes3(v0, v1, v2, v3) == [b0, b1, b2]
      && Bytes3(v0, v1, 0, 0)[..1] == [b0]
      && Bytes3(v0, v1, v2, 0)[..2] == [b0, b1]
  {
    Split16(b0 % 4, b1 / 16);
    Split4(b1 % 16, b2 / 64);
  }

  /** Division by 4 takes `q * 4 + r` apart again. */
  lemma Split4(q: int, r: int)
    requires 0 <= r < 4
    ensures (q * 4 + r) / 4 == q && (q * 4 + r) % 4 == r
  {
  }

  /** Division by 16 takes `q * 16 + r` apart again. */
  lemma Split16(q: int, r: int)
    requires 0 <= r < 16
    ensures (q * 16 + r) / 16 == q && (q * 16 + r) % 16 == r
  {
  }
}
