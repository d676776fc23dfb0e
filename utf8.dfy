/** Strict UTF-8 (the well-formed byte sequences of RFC 3629, section 4):
    the encoding of a string, and a decoder that refuses overlong forms,
    surrogates, values above U+10FFFF and truncated sequences instead of
    replacing them. */
module Utf8 {
  import opened Base

  predicate IsContinuation(b: byte)
  {
    0x80 <= b < 0xC0
  }

  function EncodeChar(c: char): (r: seq<byte>)
    ensures 1 <= |r| <= 4
  {
    var n := c as int;
    if n < 0x80 then [n]
    else if n < 0x800 then [0xC0 + n / 64, 0x80 + n % 64]
    else if n < 0x1_0000 then [0xE0 + n / 4096, 0x80 + (n / 64) % 64, 0x80 + n % 64]
    else [0xF0 + n / 262144, 0x80 + (n / 4096) % 64, 0x80 + (n / 64) % 64, 0x80 + n % 64]
  }

  /** The code point of a two-, three- or four-byte sequence. */
  function Point2(b0: int, b1: int): int { (b0 - 0xC0) * 64 + (b1 - 0x80) }
  function Point3(b0: int, b1: int, b2: int): int { (b0 - 0xE0) * 4096 + (b1 - 0x80) * 64 + (b2 - 0x80) }
  function Point4(b0: int, b1: int, b2: int, b3: int): int
  {
    (b0 - 0xF0) * 262144 + (b1 - 0x80) * 4096 + (b2 - 0x80) * 64 + (b3 - 0x80)
  }

  /** The first character of `s` and the number of bytes it takes, or None
      when `s` does not start with a well-formed sequence. */
  function DecodeChar(s: seq<byte>): (r: Option<(char, nat)>)
    ensures r.Some? ==> 1 <= r.value.1 <= |s|
  {
    if |s| == 0 then None
    else if s[0] < 0x80 then Some((s[0] as char, 1))
    else if 0xC2 <= s[0] < 0xE0 then
      if |s| < 2 || !IsContinuation(s[1]) then None
      else Some((Point2(s[0], s[1]) as char, 2))
    else if 0xE0 <= s[0] < 0xF0 then
      if |s| < 3 || !IsContinuation(s[1]) || !IsContinuation(s[2]) then None
      else
        var n := Point3(s[0], s[1], s[2]);
        if n < 0x800 || 0xD800 <= n < 0xE000 then None else Some((n as char, 3))
    else if 0xF0 <= s[0] < 0xF5 then
      if |s| < 4 || !IsContinuation(s[1]) || !IsContinuation(s[2]) || !IsContinuation(s[3]) then None
      else
        var n := Point4(s[0], s[1], s[2], s[3]);
        if n < 0x1_0000 || n >= 0x11_0000 then None else Some((n as char, 4))
    else None
  }

  /** `s.encode("utf-8")`. */
  function Encode(s: string): (r: seq<byte>)
  {
    if s == [] then [] else EncodeChar(s[0]) + Encode(s[1..])
  }

  /** `bs.decode("utf-8")` with strict error handling. */
  function Decode(bs: seq<byte>): (r: Option<string>)
    decreases |bs|
  {
    if |bs| == 0 then Some([])
    else
      match DecodeChar(bs)
      case None => None
      case Some((c, n)) =>
        match Decode(bs[n..])
        case None => None
        case Some(t) => Some([c] + t)
  }

  lemma {:induction false} EncodeLength(s: string)
    ensures |Encode(s)| <= 4 * |s|
  {
    if s != [] {
      EncodeLength(s[1..]);
    }
  }

  lemma Split2(n: int)
    requires 0x80 <= n < 0x800
    ensures Point2(0xC0 + n / 64, 0x80 + n % 64) == n
  {
  }

  lemma Split3(n: int)
    requires 0x800 <= n < 0x1_0000
    ensures Point3(0xE0 + n / 4096, 0x80 + (n / 64) % 64, 0x80 + n % 64) == n
  {
    var q := n / 64;
    assert n == 64 * q + n % 64;
    assert q == 64 * (n / 4096) + q % 64;
  }

  lemma Split4(n: int)
    requires 0x1_0000 <= n < 0x11_0000
    ensures Point4(0xF0 + n / 262144, 0x80 + (n / 4096) % 64, 0x80 + (n / 64) % 64, 0x80 + n % 64) == n
  {
    var q := n / 64;
    var q2 := q / 64;
    assert n == 64 * q + n % 64;
    assert q == 64 * q2 + q % 64;
    assert q2 == n / 4096;
    assert q2 == 64 * (n / 262144) + q2 % 64;
  }

  lemma DecodeEncodeChar(c: char, rest: seq<byte>)
    ensures DecodeChar(EncodeChar(c) + rest) == Some((c, |EncodeChar(c)|))
  {
    var n := c as int;
    if 0x80 <= n < 0x800 {
      Split2(n);
    } else if 0x800 <= n < 0x1_0000 {
      Split3(n);
    } else if 0x1_0000 <= n {
      Split4(n);
    }
  }

  lemma Join2(b0: int, b1: int)
    requires 0xC2 <= b0 < 0xE0 && 0x80 <= b1 < 0xC0
    ensures var n := Point2(b0, b1); n / 64 == b0 - 0xC0 && n % 64 == b1 - 0x80
  {
  }

  lemma Join3(b0: int, b1: int, b2: int)
    requires 0xE0 <= b0 < 0xF0 && 0x80 <= b1 < 0xC0 && 0x80 <= b2 < 0xC0
    ensures var n := Point3(b0, b1, b2);
      n / 4096 == b0 - 0xE0 && (n / 64) % 64 == b1 - 0x80 && n % 64 == b2 - 0x80
  {
    var n := Point3(b0, b1, b2);
    assert n == 64 * ((b0 - 0xE0) * 64 + (b1 - 0x80)) + (b2 - 0x80);
    assert n / 64 == (b0 - 0xE0) * 64 + (b1 - 0x80);
  }

  lemma Join4(b0: int, b1: int, b2: int, b3: int)
    requires 0xF0 <= b0 < 0xF5 && 0x80 <= b1 < 0xC0 && 0x80 <= b2 < 0xC0 && 0x80 <= b3 < 0xC0
    ensures var n := Point4(b0, b1, b2, b3);
      && n / 262144 == b0 - 0xF0 && (n / 4096) % 64 == b1 - 0x80
      && (n / 64) % 64 == b2 - 0x80 && n % 64 == b3 - 0x80
  {
    var n := Point4(b0, b1, b2, b3);
    var hi := (b0 - 0xF0) * 64 + (b1 - 0x80);
    assert n == 64 * (64 * hi + (b2 - 0x80)) + (b3 - 0x80);
    assert n / 64 == 64 * hi + (b2 - 0x80);
    assert n / 4096 == hi;
  }

  /** Strictness: a decoded character is re-encoded as exactly the bytes it
      was decoded from, so no other byte form of it is accepted. */
  lemma EncodeDecodeChar(s: seq<byte>)
    requires DecodeChar(s).Some?
    ensures EncodeChar(DecodeChar(s).value.0) == s[..DecodeChar(s).value.1]
  {
    var k := DecodeChar(s).value.1;
    if k == 2 {
      Join2(s[0], s[1]);
    } else if k == 3 {
      Join3(s[0], s[1], s[2]);
    } else if k == 4 {
      Join4(s[0], s[1], s[2], s[3]);
    }
  }

  /** Round trip: every string decodes back from its own encoding. */
  lemma {:induction false} DecodeEncode(s: string)
    ensures Decode(Encode(s)) == Some(s)
  {
    if s != [] {
      var head := EncodeChar(s[0]);
      var bs := Encode(s);
      assert bs == head + Encode(s[1..]);
      DecodeEncodeChar(s[0], Encode(s[1..]));
      assert bs[|head|..] == Encode(s[1..]);
      DecodeEncode(s[1..]);
      assert Decode(bs) == Some([s[0]] + s[1..]);
      assert [s[0]] + s[1..] == s;
    }
  }

  /** One step of the decoder: an accepted input starts with an accepted
      character, and the rest decodes on its own. */
  lemma DecodeStep(bs: seq<byte>)
    requires |bs| > 0 && Decode(bs).Some?
    ensures DecodeChar(bs).Some?
    ensures var (c, n) := DecodeChar(bs).value;
      Decode(bs[n..]).Some? && Decode(bs).value == [c] + Decode(bs[n..]).value
  {
  }

  /** The converse: whatever the decoder accepts is the encoding of what it
      returns, so strict decoding accepts exactly the encodings. */
  lemma {:induction false} EncodeDecode(bs: seq<byte>)
    requires Decode(bs).Some?
    ensures Encode(Decode(bs).value) == bs
    decreases |bs|
  {
    if |bs| > 0 {
      DecodeStep(bs);
      var (c, n) := DecodeChar(bs).value;
      var t := Decode(bs[n..]).value;
      EncodeDecodeChar(bs);
      EncodeDecode(bs[n..]);
      assert ([c] + t)[0] == c && ([c] + t)[1..] == t;
      assert Encode([c] + t) == EncodeChar(c) + Encode(t);
      assert bs == bs[..n] + bs[n..];
    }
  }
}
