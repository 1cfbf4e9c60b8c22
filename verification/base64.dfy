/**
 * Base64 as section 4 of RFC 4648 defines it: the standard alphabet, `=`
 * padding, four characters for every three bytes. The encoder is what the
 * client needs for its Basic credential; the decoder is its inverse.
 */
module Base64 {
  import opened Wrappers

  type Byte = b: int | 0 <= b < 256
  type Sextet = v: int | 0 <= v < 64

  const Pad := '='

  /** The character of the alphabet that stands for `v`. */
  function Char(v: Sextet): char {
    if v < 26 then ('A' as int + v) as char
    else if v < 52 then ('a' as int + v - 26) as char
    else if v < 62 then ('0' as int + v - 52) as char
    else if v == 62 then '+'
    else '/'
  }

  /** The value an alphabet character stands for, None for any other character. */
  function Value(c: char): (r: Option<Sextet>)
    ensures r.Some? ==> Char(r.value) == c
  {
    if 'A' <= c <= 'Z' then Some(c as int - 'A' as int)
    else if 'a' <= c <= 'z' then Some(c as int - 'a' as int + 26)
    else if '0' <= c <= '9' then Some(c as int - '0' as int + 52)
    else if c == '+' then Some(62)
    else if c == '/' then Some(63)
    else None
  }

  lemma ValueOfChar(v: Sextet)
    ensures Value(Char(v)) == Some(v)
  {
  }

  /** Three bytes as four characters. */
  function EncodeGroup(b0: Byte, b1: Byte, b2: Byte): string {
    [Char(b0 / 4), Char((b0 % 4) * 16 + b1 / 16), Char((b1 % 16) * 4 + b2 / 64), Char(b2 % 64)]
  }

  function Encode(data: seq<Byte>): (s: string)
    ensures |s| == 4 * ((|data| + 2) / 3)
    decreases |data|
  {
    if |data| == 0 then []
    else if |data| == 1 then
      [Char(data[0] / 4), Char((data[0] % 4) * 16), Pad, Pad]
    else if |data| == 2 then
      [Char(data[0] / 4), Char((data[0] % 4) * 16 + data[1] / 16), Char((data[1] % 16) * 4), Pad]
    else
      EncodeGroup(data[0], data[1], data[2]) + Encode(data[3..])
  }

  /** Four values as three bytes: the inverse of the split `EncodeGroup` makes. */
  function Join3(v0: Sextet, v1: Sextet, v2: Sextet, v3: Sextet): seq<Byte> {
    [v0 * 4 + v1 / 16, (v1 % 16) * 16 + v2 / 4, (v2 % 4) * 64 + v3]
  }

  /** The last group, which may carry one or two padding characters. */
  function DecodeLast(c0: char, c1: char, c2: char, c3: char): Option<seq<Byte>> {
    match (Value(c0), Value(c1), Value(c2), Value(c3))
    case (Some(v0), Some(v1), Some(v2), Some(v3)) => Some(Join3(v0, v1, v2, v3))
    case (Some(v0), Some(v1), Some(v2), None) =>
      if c3 == Pad then Some(Join3(v0, v1, v2, 0)[..2]) else None
    case (Some(v0), Some(v1), None, None) =>
      if c2 == Pad && c3 == Pad then Some(Join3(v0, v1, 0, 0)[..1]) else None
    case _ => None
  }

  function Decode(s: string): Option<seq<Byte>>
    decreases |s|
  {
    if |s| == 0 then Some([])
    else if |s| < 4 then None
    else if |s| == 4 then DecodeLast(s[0], s[1], s[2], s[3])
    else
      match (Value(s[0]), Value(s[1]), Value(s[2]), Value(s[3]), Decode(s[4..]))
      case (Some(v0), Some(v1), Some(v2), Some(v3), Some(rest)) => Some(Join3(v0, v1, v2, v3) + rest)
      case _ => None
  }

  lemma GroupRoundTrip(b0: Byte, b1: Byte, b2: Byte)
    ensures Join3(b0 / 4, (b0 % 4) * 16 + b1 / 16, (b1 % 16) * 4 + b2 / 64, b2 % 64) == [b0, b1, b2]
  {
  }

  lemma {:induction false} DecodeOneByte(data: seq<Byte>)
    requires |data| == 1
    ensures Decode(Encode(data)) == Some(data)
  {
    var b0 := data[0];
    GroupRoundTrip(b0, 0, 0);
    ValueOfChar(b0 / 4);
    ValueOfChar((b0 % 4) * 16);
    assert Join3(b0 / 4, (b0 % 4) * 16, 0, 0)[..1] == [b0] == data;
  }

  lemma {:induction false} DecodeTwoBytes(data: seq<Byte>)
    requires |data| == 2
    ensures Decode(Encode(data)) == Some(data)
  {
    var b0, b1 := data[0], data[1];
    GroupRoundTrip(b0, b1, 0);
    ValueOfChar(b0 / 4);
    ValueOfChar((b0 % 4) * 16 + b1 / 16);
    ValueOfChar((b1 % 16) * 4);
    assert Join3(b0 / 4, (b0 % 4) * 16 + b1 / 16, (b1 % 16) * 4, 0)[..2] == [b0, b1] == data;
  }

  lemma GroupValues(b0: Byte, b1: Byte, b2: Byte)
    ensures var g := EncodeGroup(b0, b1, b2);
            && Value(g[0]) == Some(b0 / 4)
            && Value(g[1]) == Some((b0 % 4) * 16 + b1 / 16)
            && Value(g[2]) == Some((b1 % 16) * 4 + b2 / 64)
            && Value(g[3]) == Some(b2 % 64)
  {
    ValueOfChar(b0 / 4);
    ValueOfChar((b0 % 4) * 16 + b1 / 16);
    ValueOfChar((b1 % 16) * 4 + b2 / 64);
    ValueOfChar(b2 % 64);
  }

  lemma DecodeGroupThenRest(b0: Byte, b1: Byte, b2: Byte, rest: string, tail: seq<Byte>)
    requires rest != [] && Decode(rest) == Some(tail)
    ensures Decode(EncodeGroup(b0, b1, b2) + rest) == Some([b0, b1, b2] + tail)
  {
    var g := EncodeGroup(b0, b1, b2);
    var s := g + rest;
    assert s[..4] == g && s[4..] == rest;
    GroupValues(b0, b1, b2);
    GroupRoundTrip(b0, b1, b2);
  }

  lemma DecodeLastGroup(b0: Byte, b1: Byte, b2: Byte)
    ensures Decode(EncodeGroup(b0, b1, b2)) == Some([b0, b1, b2])
  {
    GroupValues(b0, b1, b2);
    GroupRoundTrip(b0, b1, b2);
  }

  lemma {:induction false} DecodeThreeBytes(data: seq<Byte>)
    requires |data| == 3
    ensures Decode(Encode(data)) == Some(data)
  {
    var b0, b1, b2 := data[0], data[1], data[2];
    assert data[3..] == [];
    assert Encode(data) == EncodeGroup(b0, b1, b2) + [];
    assert EncodeGroup(b0, b1, b2) + [] == EncodeGroup(b0, b1, b2);
    assert data == [b0, b1, b2];
    DecodeLastGroup(b0, b1, b2);
  }

  lemma {:induction false} DecodeEncodeStep(data: seq<Byte>)
    requires |data| > 3 && Decode(Encode(data[3..])) == Some(data[3..])
    ensures Decode(Encode(data)) == Some(data)
  {
    var tail := data[3..];
    assert Encode(data) == EncodeGroup(data[0], data[1], data[2]) + Encode(tail);
    DecodeGroupThenRest(data[0], data[1], data[2], Encode(tail), tail);
    assert data == [data[0], data[1], data[2]] + tail;
  }

  /** Decoding an encoding gives the bytes back. */
  lemma {:induction false} DecodeEncode(data: seq<Byte>)
    ensures Decode(Encode(data)) == Some(data)
    decreases |data|
  {
    if |data| == 1 {
      DecodeOneByte(data);
    } else if |data| == 2 {
      DecodeTwoBytes(data);
    } else if |data| == 3 {
      DecodeThreeBytes(data);
    } else if |data| > 3 {
      DecodeEncode(data[3..]);
      DecodeEncodeStep(data);
    }
  }
}
