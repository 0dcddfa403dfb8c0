/**
 * The base 64 encoding of section 4 of RFC 4648 (alphabet `A-Z a-z 0-9 + /`,
 * `=` padding), as `Buffer.toString('base64')` writes it, with the decoder
 * that reads it back.
 */
module Base64 {
  import opened Wrappers

  /** A byte value. */
  type Byte = b: int | 0 <= b < 256

  /** The character for a 6-bit value. */
  function Char64(v: nat): (c: char)
    requires v < 64
    ensures IsChar64(c) && Value64(c) == v
  {
    if v < 26 then ('A' as int + v) as char
    else if v < 52 then ('a' as int + v - 26) as char
    else if v < 62 then ('0' as int + v - 52) as char
    else if v == 62 then '+'
    else '/'
  }

  predicate IsChar64(c: char) {
    ('A' <= c <= 'Z') || ('a' <= c <= 'z') || ('0' <= c <= '9') || c == '+' || c == '/'
  }

  /** The 6-bit value of an alphabet character. */
  function Value64(c: char): (v: nat)
    requires IsChar64(c)
    ensures v < 64
  {
    if 'A' <= c <= 'Z' then c as int - 'A' as int
    else if 'a' <= c <= 'z' then c as int - 'a' as int + 26
    else if '0' <= c <= '9' then c as int - '0' as int + 52
    else if c == '+' then 62
    else 63
  }

  lemma Char64OfValue(c: char)
    requires IsChar64(c)
    ensures Char64(Value64(c)) == c
  {
  }

  /** Three bytes as four characters. */
  function EncodeGroup(x: Byte, y: Byte, z: Byte): (s: string)
    ensures |s| == 4 && forall i :: 0 <= i < 4 ==> IsChar64(s[i])
  {
    [Char64(x / 4), Char64(x % 4 * 16 + y / 16), Char64(y % 16 * 4 + z / 64), Char64(z % 64)]
  }

  /** `Buffer.from(bytes).toString('base64')` */
  function Encode(bytes: seq<Byte>): (s: string)
    ensures |s| % 4 == 0
  {
    if |bytes| == 0 then []
    else if |bytes| == 1 then PadOne(bytes[0])
    else if |bytes| == 2 then PadTwo(bytes[0], bytes[1])
    else EncodeGroup(bytes[0], bytes[1], bytes[2]) + Encode(bytes[3..])
  }

  /** Four characters for every started group of three bytes. */
  lemma {:induction false} EncodedLength(bytes: seq<Byte>)
    ensures |Encode(bytes)| == 4 * ((|bytes| + 2) / 3)
  {
    if |bytes| >= 3 {
      EncodedLength(bytes[3..]);
      LengthStep(|bytes|);
    }
  }

  /** A final single byte: two characters and two `=`. */
  function PadOne(a: Byte): (s: string)
    ensures |s| == 4 && s[2] == '=' && s[3] == '='
  {
    [Char64(a / 4), Char64(a % 4 * 16)] + "=="
  }

  /** A final pair of bytes: three characters and one `=`. */
  function PadTwo(a: Byte, b: Byte): (s: string)
    ensures |s| == 4 && IsChar64(s[2]) && s[3] == '='
  {
    [Char64(a / 4), Char64(a % 4 * 16 + b / 16), Char64(b % 16 * 4)] + "="
  }

  /** Each full group adds four characters. */
  lemma LengthStep(n: nat)
    requires n >= 3
    ensures 4 + 4 * ((n - 3 + 2) / 3) == 4 * ((n + 2) / 3)
  {
  }

  /** Four characters back to three byte values. */
  function DecodeGroup(s: string): (bs: seq<Byte>)
    requires |s| == 4 && forall i :: 0 <= i < 4 ==> IsChar64(s[i])
    ensures |bs| == 3
  {
    var a, b, c, d := Value64(s[0]), Value64(s[1]), Value64(s[2]), Value64(s[3]);
    [(a * 4 + b / 16), (b % 16 * 16 + c / 4), (c % 4 * 64 + d)]
  }

  /** The decoder: `None` for text that is not padded base 64. */
  function Decode(s: string): Option<seq<Byte>> {
    if |s| == 0 then Some([])
    else if |s| < 4 || !IsChar64(s[0]) || !IsChar64(s[1]) then None
    else if |s| == 4 && s[2] == '=' && s[3] == '=' then
      Some([(Value64(s[0]) * 4 + Value64(s[1]) / 16)])
    else if !IsChar64(s[2]) then None
    else if |s| == 4 && s[3] == '=' then
      Some([(Value64(s[0]) * 4 + Value64(s[1]) / 16),
            (Value64(s[1]) % 16 * 16 + Value64(s[2]) / 4)])
    else if !IsChar64(s[3]) then None
    else
      match Decode(s[4..])
      case None => None
      case Some(rest) => Some(DecodeGroup(s[..4]) + rest)
  }

  lemma GroupRoundTrip(x: Byte, y: Byte, z: Byte)
    ensures DecodeGroup(EncodeGroup(x, y, z)) == [x, y, z]
  {
    var s := EncodeGroup(x, y, z);
    HighLow(x, y);
    MidLow(y, z);
    assert Value64(s[0]) == x / 4 && Value64(s[1]) == x % 4 * 16 + y / 16;
    assert Value64(s[2]) == y % 16 * 4 + z / 64 && Value64(s[3]) == z % 64;
  }

  /** The first two characters of a group give back the first byte and the high half of the second. */
  lemma HighLow(x: Byte, y: Byte)
    ensures x / 4 * 4 + (x % 4 * 16 + y / 16) / 16 == x
    ensures (x % 4 * 16 + y / 16) % 16 == y / 16
  {
  }

  /** The third character gives back the low half of the second byte and the top of the third. */
  lemma MidLow(y: Byte, z: Byte)
    ensures (y % 16 * 4 + z / 64) / 4 == y % 16
    ensures (y % 16 * 4 + z / 64) % 4 == z / 64
    ensures y / 16 * 16 + y % 16 == y && z / 64 * 64 + z % 64 == z
  {
  }

  lemma OneByteRoundTrip(x: Byte)
    ensures Decode(Encode([x])) == Some([x])
  {
    var s := Encode([x]);
    HighLow(x, 0);
    assert Value64(s[0]) == x / 4 && Value64(s[1]) == x % 4 * 16;
  }

  lemma TwoByteRoundTrip(x: Byte, y: Byte)
    ensures Decode(Encode([x, y])) == Some([x, y])
  {
    var s := Encode([x, y]);
    HighLow(x, y);
    MidLow(y, 0);
    assert Value64(s[0]) == x / 4 && Value64(s[1]) == x % 4 * 16 + y / 16;
    assert Value64(s[2]) == y % 16 * 4 && s[2] != '=';
  }

  /** Decoding reads back exactly the bytes that were encoded. */
  lemma {:induction false} RoundTrip(bytes: seq<Byte>)
    ensures Decode(Encode(bytes)) == Some(bytes)
  {
    if |bytes| >= 3 {
      RoundTrip(bytes[3..]);
      LongRoundTrip(bytes);
    } else if |bytes| == 2 {
      TwoByteRoundTrip(bytes[0], bytes[1]);
      assert bytes == [bytes[0], bytes[1]];
    } else if |bytes| == 1 {
      OneByteRoundTrip(bytes[0]);
      assert bytes == [bytes[0]];
    }
  }

  /** Three or more bytes read back when the bytes after the first group do. */
  lemma LongRoundTrip(bytes: seq<Byte>)
    requires |bytes| >= 3 && Decode(Encode(bytes[3..])) == Some(bytes[3..])
    ensures Decode(Encode(bytes)) == Some(bytes)
  {
    EncodeStep(bytes);
    LeadingGroupStep(bytes, Encode(bytes[3..]));
  }

  /** The step of `GroupStep` for the first three bytes of a longer string. */
  lemma LeadingGroupStep(bytes: seq<Byte>, rest: string)
    requires |bytes| >= 3 && Decode(rest) == Some(bytes[3..])
    ensures Decode(EncodeGroup(bytes[0], bytes[1], bytes[2]) + rest) == Some(bytes)
  {
    GroupStep(bytes[0], bytes[1], bytes[2], bytes[3..], rest);
    assert [bytes[0], bytes[1], bytes[2]] + bytes[3..] == bytes;
  }

  /** Three or more bytes encode as their first group followed by the rest. */
  lemma EncodeStep(bytes: seq<Byte>)
    requires |bytes| >= 3
    ensures Encode(bytes) == EncodeGroup(bytes[0], bytes[1], bytes[2]) + Encode(bytes[3..])
  {
  }

  /** A full group in front of text that reads back reads back with its three bytes in front. */
  lemma GroupStep(x: Byte, y: Byte, z: Byte, tail: seq<Byte>, rest: string)
    requires Decode(rest) == Some(tail)
    ensures Decode(EncodeGroup(x, y, z) + rest) == Some([x, y, z] + tail)
  {
    DecodeFullGroup(EncodeGroup(x, y, z), rest);
    GroupRoundTrip(x, y, z);
  }

  /** A full group in front of decodable text decodes to its three bytes in front. */
  lemma DecodeFullGroup(g: string, rest: string)
    requires |g| == 4 && forall i :: 0 <= i < 4 ==> IsChar64(g[i])
    requires Decode(rest).Some?
    ensures Decode(g + rest) == Some(DecodeGroup(g) + Decode(rest).value)
  {
    var s := g + rest;
    assert s[..4] == g && s[4..] == rest;
    assert IsChar64(s[0]) && IsChar64(s[1]) && IsChar64(s[2]) && IsChar64(s[3]);
  }

  /** Different byte strings have different encodings. */
  lemma EncodeInjective(a: seq<Byte>, b: seq<Byte>)
    requires Encode(a) == Encode(b)
    ensures a == b
  {
    RoundTrip(a);
    RoundTrip(b);
  }
}
