/** Unsigned base-128 varints as the Buffer writes and reads them: seven
    payload bits per byte, least-significant group first, the high bit set
    on every byte but the last. Every varint of the protocol has a 32-bit
    budget: at most five groups, and a value below 2^32. */
module Varint {
  import opened Base

  /** The number of 7-bit groups a 32-bit value may take. */
  const Groups32: nat := 5

  function Pow128(k: nat): nat
  {
    if k == 0 then 1 else 128 * Pow128(k - 1)
  }

  /** The groups of `v`, least significant first. */
  function Encode(v: nat): (r: seq<byte>)
    decreases v
    ensures |r| >= 1
    ensures r[|r| - 1] < 128
    ensures forall i :: 0 <= i < |r| - 1 ==> r[i] >= 128
  {
    if v < 128 then [v] else [v % 128 + 128] + Encode(v / 128)
  }

  /** A value below 128^k takes at most k groups. */
  lemma {:induction false} EncodeLengthBound(v: nat, k: nat)
    requires 1 <= k && v < Pow128(k)
    ensures |Encode(v)| <= k
  {
    if v >= 128 {
      assert k > 1;
      EncodeLengthBound(v / 128, k - 1);
    }
  }

  /** Every value within the 32-bit budget takes at most five groups. */
  lemma Encode32Length(v: nat)
    requires v < Limit32
    ensures |Encode(v)| <= Groups32
  {
    assert Pow128(5) == 34359738368;
    EncodeLengthBound(v, 5);
  }

  /** `write_varint(v, max_bits=32)`: the bytes, or None where the source
      raises ValueError because `v` is outside the budget. */
  function Write32(v: int): (r: Option<seq<byte>>)
    ensures r.Some? <==> 0 <= v < Limit32
    ensures r.Some? ==> 1 <= |r.value| <= Groups32
  {
    if 0 <= v < Limit32 then Encode32Length(v); Some(Encode(v)) else None
  }

  /** Decoding of at most `groups` groups from the front of `s`: the value
      and the number of bytes it took. */
  function DecodeGroups(s: seq<byte>, groups: nat): (r: Result<(nat, nat), IOError>)
    decreases groups
    ensures r.Ok? ==> 1 <= r.value.1 <= |s| && r.value.1 <= groups
  {
    if groups == 0 then Err(VarintTooLong)
    else if |s| == 0 then Err(OutOfData(1, 0))
    else if s[0] < 128 then Ok((s[0], 1))
    else
      match DecodeGroups(s[1..], groups - 1)
      case Ok((v, n)) => Ok((s[0] - 128 + 128 * v, n + 1))
      case Err(e) => Err(e)
  }

  /** `Buffer.read_varint(max_bits=32)`: the value and the unread rest of
      the buffer (the bytes after the cursor). */
  function Read32(s: seq<byte>): (r: Result<(nat, seq<byte>), IOError>)
    ensures r.Ok? ==> r.value.0 < Limit32
    ensures r.Ok? ==> |r.value.1| < |s| && s[|s| - |r.value.1|..] == r.value.1
  {
    match DecodeGroups(s, Groups32)
    case Err(e) => Err(e)
    case Ok((v, n)) => if v < Limit32 then Ok((v, s[n..])) else Err(VarintOutOfRange)
  }

  lemma {:induction false} DecodeEncode(v: nat, groups: nat, rest: seq<byte>)
    requires |Encode(v)| <= groups
    ensures DecodeGroups(Encode(v) + rest, groups) == Ok((v, |Encode(v)|))
  {
    var s := Encode(v) + rest;
    if v >= 128 {
      assert s[1..] == Encode(v / 128) + rest;
      DecodeEncode(v / 128, groups - 1, rest);
    }
  }

  /** Round trip: a value within the budget reads back from its own bytes,
      and the cursor stops right after them. */
  lemma Read32Write32(v: int, rest: seq<byte>)
    requires 0 <= v < Limit32
    ensures Read32(Write32(v).value + rest) == Ok((v, rest))
  {
    Encode32Length(v);
    DecodeEncode(v, Groups32, rest);
    assert (Encode(v) + rest)[|Encode(v)|..] == rest;
  }
}
