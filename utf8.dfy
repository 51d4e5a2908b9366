/**
 * UTF-8, as `String.data(using: .utf8)` produces it: each Unicode scalar
 * value becomes one to four bytes. The decoder is there to state that the
 * encoding loses nothing.
 */
module Utf8 {
  import opened Wrappers
  import opened Foundation

  predicate IsScalarValue(n: int)
  {
    0 <= n < 0xD800 || 0xE000 <= n < 0x11_0000
  }

  predicate IsContinuation(b: byte)
  {
    0x80 <= b < 0xC0
  }

  /** The bytes of one character. */
  function EncodeChar(c: char): (r: seq<byte>)
    ensures 1 <= |r| <= 4
    ensures |r| == 1 <==> c as int < 0x80
    ensures |r| == 1 ==> r[0] == c as int
    ensures forall i :: 1 <= i < |r| ==> IsContinuation(r[i])
  {
    var n := c as int;
    if n < 0x80 then [n]
    else if n < 0x800 then [0xC0 + n / 0x40, 0x80 + n % 0x40]
    else if n < 0x1_0000 then [0xE0 + n / 0x1000, 0x80 + n / 0x40 % 0x40, 0x80 + n % 0x40]
    else [0xF0 + n / 0x4_0000, 0x80 + n / 0x1000 % 0x40, 0x80 + n / 0x40 % 0x40, 0x80 + n % 0x40]
  }

  /** `s.data(using: .utf8)` */
  function Encode(s: string): (r: seq<byte>)
    ensures |s| <= |r| <= 4 * |s|
  {
    if s == [] then [] else EncodeChar(s[0]) + Encode(s[1..])
  }

  /** How many bytes a sequence starting with `lead` takes; 0 when `lead` cannot start one. */
  function SequenceLength(lead: byte): nat
  {
    if lead < 0x80 then 1
    else if 0xC0 <= lead < 0xE0 then 2
    else if 0xE0 <= lead < 0xF0 then 3
    else if 0xF0 <= lead < 0xF8 then 4
    else 0
  }

  /** The scalar value a well-shaped sequence of `n` bytes stands for. */
  function CodePoint(b: seq<byte>, n: nat): int
    requires 1 <= n <= 4 && n <= |b|
  {
    if n == 1 then b[0]
    else if n == 2 then (b[0] as int - 0xC0) * 0x40 + Low(b[1])
    else if n == 3 then (b[0] as int - 0xE0) * 0x1000 + Low(b[1]) * 0x40 + Low(b[2])
    else (b[0] as int - 0xF0) * 0x4_0000 + Low(b[1]) * 0x1000 + Low(b[2]) * 0x40 + Low(b[3])
  }

  /** The six payload bits of a continuation byte. */
  function Low(b: byte): int
  {
    b as int - 0x80
  }

  function Prepend(c: char, r: Option<string>): Option<string>
  {
    if r.Some? then Some([c] + r.value) else None
  }

  /** The smallest code point an n-byte sequence may carry; anything below is an overlong form, which RFC 3629 forbids. */
  function MinCodePoint(n: int): int
  {
    if n <= 1 then 0 else if n == 2 then 0x80 else if n == 3 then 0x800 else 0x1_0000
  }

  /** The string a byte sequence encodes, if it is UTF-8 without overlong forms. */
  function Decode(b: seq<byte>): Option<string>
    decreases |b|
  {
    if b == [] then Some("")
    else
      var n := SequenceLength(b[0]);
      if n == 0 || |b| < n || exists i :: 1 <= i < n && !IsContinuation(b[i]) then None
      else
        var v := CodePoint(b, n);
        if IsScalarValue(v) && v >= MinCodePoint(n) then Prepend(v as char, Decode(b[n..])) else None
  }

  /** The bytes of one character read back as that character. */
  lemma CodePointOfChar(c: char)
    ensures SequenceLength(EncodeChar(c)[0]) == |EncodeChar(c)|
    ensures CodePoint(EncodeChar(c), |EncodeChar(c)|) == c as int
  {
    var n := c as int;
    if n < 0x80 {
    } else if n < 0x800 {
      TwoByteCodePoint(n);
    } else if n < 0x1_0000 {
      ThreeByteCodePoint(n);
    } else {
      FourByteCodePoint(n);
    }
  }

  lemma TwoByteCodePoint(n: int)
    requires 0x80 <= n < 0x800
    ensures var e: seq<byte> := [0xC0 + n / 0x40, 0x80 + n % 0x40];
      SequenceLength(e[0]) == 2 && CodePoint(e, 2) == n
  {
  }

  lemma ThreeByteCodePoint(n: int)
    requires 0x800 <= n < 0x1_0000
    ensures var e: seq<byte> := [0xE0 + n / 0x1000, 0x80 + n / 0x40 % 0x40, 0x80 + n % 0x40];
      SequenceLength(e[0]) == 3 && CodePoint(e, 3) == n
  {
    assert n / 0x1000 * 0x1000 + n / 0x40 % 0x40 * 0x40 + n % 0x40 == n;
  }

  lemma FourByteCodePoint(n: int)
    requires 0x1_0000 <= n < 0x11_0000
    ensures var e: seq<byte> := [0xF0 + n / 0x4_0000, 0x80 + n / 0x1000 % 0x40, 0x80 + n / 0x40 % 0x40, 0x80 + n % 0x40];
      SequenceLength(e[0]) == 4 && CodePoint(e, 4) == n
  {
    assert n / 0x4_0000 * 0x4_0000 + n / 0x1000 % 0x40 * 0x1000 + n / 0x40 % 0x40 * 0x40 + n % 0x40 == n;
  }

  lemma DecodeChar(c: char, rest: seq<byte>)
    ensures Decode(EncodeChar(c) + rest) == Prepend(c, Decode(rest))
  {
    var e := EncodeChar(c);
    var b := e + rest;
    CodePointOfChar(c);
    var n := |e|;
    assert b[0] == e[0];
    assert forall i :: 1 <= i < n ==> b[i] == e[i];
    assert CodePoint(b, n) == CodePoint(e, n);
    assert b[n..] == rest;
  }

  lemma {:induction false} DecodeEncode(s: string)
    ensures Decode(Encode(s)) == Some(s)
  {
    if s != [] {
      DecodeChar(s[0], Encode(s[1..]));
      DecodeEncode(s[1..]);
      assert [s[0]] + s[1..] == s;
    }
  }

  lemma {:induction false} EncodeAppend(s: string, t: string)
    ensures Encode(s + t) == Encode(s) + Encode(t)
  {
    if s != [] {
      assert (s + t)[1..] == s[1..] + t;
      EncodeAppend(s[1..], t);
    } else {
      assert s + t == t;
    }
  }

  /** Text made of ASCII characters encodes to one byte per character, each its code. */
  lemma {:induction false} EncodeAscii(s: string)
    requires forall i :: 0 <= i < |s| ==> s[i] as int < 0x80
    ensures |Encode(s)| == |s|
    ensures forall i :: 0 <= i < |s| ==> Encode(s)[i] == s[i] as int
  {
    if s != [] {
      EncodeAscii(s[1..]);
    }
  }
}
