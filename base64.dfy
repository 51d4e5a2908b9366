/**
 * The base 64 encoding of section 4 of RFC 4648, with `=` padding and no line
 * breaks, as `Data.base64EncodedString(options: [])` produces it. The decoder
 * is there to state that the encoding loses nothing.
 */
module Base64 {
  import opened Wrappers
  import opened Foundation

  /** The character for the 6-bit value `n` (Table 1 of RFC 4648). */
  function Char(n: int): char
    requires 0 <= n < 64
  {
    if n < 26 then ('A' as int + n) as char
    else if n < 52 then ('a' as int + n - 26) as char
    else if n < 62 then ('0' as int + n - 52) as char
    else if n == 62 then '+'
    else '/'
  }

  predicate IsAlphabet(c: char)
  {
    ('A' <= c <= 'Z') || ('a' <= c <= 'z') || ('0' <= c <= '9') || c == '+' || c == '/'
  }

  /** The 6-bit value of an alphabet character. */
  function Value(c: char): (n: int)
    requires IsAlphabet(c)
    ensures 0 <= n < 64 && Char(n) == c
  {
    if 'A' <= c <= 'Z' then c as int - 'A' as int
    else if 'a' <= c <= 'z' then c as int - 'a' as int + 26
    else if '0' <= c <= '9' then c as int - '0' as int + 52
    else if c == '+' then 62
    else 63
  }

  lemma ValueOfChar(n: int)
    requires 0 <= n < 64
    ensures IsAlphabet(Char(n)) && Value(Char(n)) == n
  {
  }

  /** Three bytes as four characters. */
  function EncodeBlock(b0: byte, b1: byte, b2: byte): string
  {
    [Char(b0 / 4), Char(b0 % 4 * 16 + b1 / 16), Char(b1 % 16 * 4 + b2 / 64), Char(b2 % 64)]
  }

  /** The encoding of `data`: whole blocks, then one padded block for the last one or two bytes. */
  function Encode(data: seq<byte>): (s: string)
    ensures |s| == 4 * ((|data| + 2) / 3)
    ensures forall i :: 0 <= i < |s| ==> IsAlphabet(s[i]) || (s[i] == '=' && |s| - 2 <= i)
    decreases |data|
  {
    if |data| == 0 then ""
    else if |data| == 1 then [Char(data[0] / 4), Char(data[0] % 4 * 16), '=', '=']
    else if |data| == 2 then [Char(data[0] / 4), Char(data[0] % 4 * 16 + data[1] / 16), Char(data[1] % 16 * 4), '=']
    else EncodeBlock(data[0], data[1], data[2]) + Encode(data[3..])
  }

  /** The one to three bytes four characters stand for. */
  function DecodeQuad(q: string): Option<seq<byte>>
    requires |q| == 4
  {
    if !IsAlphabet(q[0]) || !IsAlphabet(q[1]) then None
    else
      var v0, v1 := Value(q[0]), Value(q[1]);
      if q[2] == '=' && q[3] == '=' then Some([v0 * 4 + v1 / 16])
      else if !IsAlphabet(q[2]) then None
      else
        var v2 := Value(q[2]);
        if q[3] == '=' then Some([v0 * 4 + v1 / 16, v1 % 16 * 16 + v2 / 4])
        else if !IsAlphabet(q[3]) then None
        else Some([v0 * 4 + v1 / 16, v1 % 16 * 16 + v2 / 4, v2 % 4 * 64 + Value(q[3])])
  }

  /** The bytes an encoded string stands for; padding may only end the string. */
  function Decode(s: string): Option<seq<byte>>
    decreases |s|
  {
    if |s| == 0 then Some([])
    else if |s| < 4 then None
    else
      match DecodeQuad(s[..4])
      case None => None
      case Some(block) =>
        if |s| == 4 then Some(block)
        else if |block| < 3 then None
        else
          match Decode(s[4..])
          case None => None
          case Some(rest) => Some(block + rest)
  }

  /** Six bits made of two high bits and four low bits are split back by `/ 16` and `% 16`. */
  lemma SplitSixteen(hi: int, lo: int)
    requires 0 <= hi < 4 && 0 <= lo < 16
    ensures (hi * 16 + lo) / 16 == hi && (hi * 16 + lo) % 16 == lo
  {
  }

  /** Six bits made of four high bits and two low bits are split back by `/ 4` and `% 4`. */
  lemma SplitFour(hi: int, lo: int)
    requires 0 <= hi < 16 && 0 <= lo < 4
    ensures (hi * 4 + lo) / 4 == hi && (hi * 4 + lo) % 4 == lo
  {
  }

  lemma BlockRoundTrip(b0: byte, b1: byte, b2: byte)
    ensures DecodeQuad(EncodeBlock(b0, b1, b2)) == Some([b0, b1, b2])
  {
    var v0, v1, v2, v3 := b0 / 4, b0 % 4 * 16 + b1 / 16, b1 % 16 * 4 + b2 / 64, b2 % 64;
    var q := EncodeBlock(b0, b1, b2);
    assert q == [Char(v0), Char(v1), Char(v2), Char(v3)];
    ValueOfChar(v0);
    ValueOfChar(v1);
    ValueOfChar(v2);
    ValueOfChar(v3);
    assert q[2] != '=' && q[3] != '=';
    SplitSixteen(b0 % 4, b1 / 16);
    SplitFour(b1 % 16, b2 / 64);
    assert DecodeQuad(q) == Some([v0 * 4 + v1 / 16, v1 % 16 * 16 + v2 / 4, v2 % 4 * 64 + v3]);
  }

  lemma OneByteRoundTrip(b0: byte)
    ensures DecodeQuad([Char(b0 / 4), Char(b0 % 4 * 16), '=', '=']) == Some([b0])
  {
    ValueOfChar(b0 / 4);
    ValueOfChar(b0 % 4 * 16);
  }

  lemma TwoByteRoundTrip(b0: byte, b1: byte)
    ensures DecodeQuad([Char(b0 / 4), Char(b0 % 4 * 16 + b1 / 16), Char(b1 % 16 * 4), '=']) == Some([b0, b1])
  {
    var v1, v2 := b0 % 4 * 16 + b1 / 16, b1 % 16 * 4;
    ValueOfChar(b0 / 4);
    ValueOfChar(v1);
    ValueOfChar(v2);
    assert v1 / 16 == b0 % 4 && v1 % 16 == b1 / 16 && v2 / 4 == b1 % 16;
  }

  lemma {:induction false} DecodeEncode(data: seq<byte>)
    ensures Decode(Encode(data)) == Some(data)
    decreases |data|
  {
    if |data| == 1 {
      var s := Encode(data);
      OneByteRoundTrip(data[0]);
      assert s[..4] == s;
      assert DecodeQuad(s[..4]) == Some([data[0]]);
      assert data == [data[0]];
    } else if |data| == 2 {
      var s := Encode(data);
      TwoByteRoundTrip(data[0], data[1]);
      assert s[..4] == s;
      assert DecodeQuad(s[..4]) == Some([data[0], data[1]]);
      assert data == [data[0], data[1]];
    } else if |data| >= 3 {
      BlocksRoundTrip(data);
    }
  }

  lemma {:induction false} BlocksRoundTrip(data: seq<byte>)
    requires |data| >= 3
    ensures Decode(Encode(data)) == Some(data)
    decreases |data|, 0
  {
    var block := data[..3];
    var q := EncodeBlock(data[0], data[1], data[2]);
    var rest := Encode(data[3..]);
    assert Encode(data) == q + rest;
    BlockRoundTrip(data[0], data[1], data[2]);
    assert block == [data[0], data[1], data[2]];
    DecodeEncode(data[3..]);
    DecodeWholeBlock(q, rest, block);
    assert Decode(q + rest) == Some(block + data[3..]);
    assert block + data[3..] == data;
  }

  /** A full block in front of a string decodes to its three bytes in front of what the string decodes to. */
  lemma DecodeWholeBlock(q: string, rest: string, block: seq<byte>)
    requires |q| == 4 && |block| == 3 && DecodeQuad(q) == Some(block)
    ensures Decode(q + rest) == if Decode(rest).Some? then Some(block + Decode(rest).value) else None
  {
    var s := q + rest;
    assert s[..4] == q;
    assert s[4..] == rest;
    if rest == [] {
      assert block + [] == block;
    }
  }

  /** Encoding is one-to-one: different byte sequences never share an encoding. */
  lemma EncodeInjective(a: seq<byte>, b: seq<byte>)
    requires Encode(a) == Encode(b)
    ensures a == b
  {
    DecodeEncode(a);
    DecodeEncode(b);
  }
}
