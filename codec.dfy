/** The Buffer's string primitives: a UTF-8 string is written as a varint
    byte count (32-bit budget) followed by its bytes. As everywhere in this
    model a Buffer read returns the decoded value together with the unread
    rest of the buffer, which stands for the advanced cursor. */
module Codec {
  import opened Base
  import Varint
  import Utf8

  /** `write_utf(s)`: None where the byte count does not fit the budget
      (the varint write raises ValueError). */
  function WriteUtf(s: string): (r: Option<seq<byte>>)
    ensures r.Some? <==> |Utf8.Encode(s)| < Limit32
  {
    var body := Utf8.Encode(s);
    match Varint.Write32(|body|)
    case None => None
    case Some(header) => Some(header + body)
  }

  /** `read_utf()`: reading past the end is an IOError, a byte string that
      is not strict UTF-8 a UnicodeDecodeError. */
  function ReadUtf(s: seq<byte>): (r: Result<(string, seq<byte>), BuiltinError>)
    ensures r.Ok? ==> |r.value.1| < |s| && s[|s| - |r.value.1|..] == r.value.1
  {
    match Varint.Read32(s)
    case Err(e) => Err(IOErr(e))
    case Ok((n, rest)) =>
      if |rest| < n then Err(IOErr(OutOfData(n, |rest|)))
      else
        match Utf8.Decode(rest[..n])
        case None => Err(UnicodeDecode)
        case Some(text) => Ok((text, rest[n..]))
  }

  /** Round trip: a written string reads back, and the cursor stops right
      after it. */
  lemma ReadUtfWriteUtf(s: string, rest: seq<byte>)
    requires WriteUtf(s).Some?
    ensures ReadUtf(WriteUtf(s).value + rest) == Ok((s, rest))
  {
    var body := Utf8.Encode(s);
    var header := Varint.Write32(|body|).value;
    assert WriteUtf(s).value + rest == header + (body + rest);
    Varint.Read32Write32(|body|, body + rest);
    assert (body + rest)[..|body|] == body;
    assert (body + rest)[|body|..] == rest;
    Utf8.DecodeEncode(s);
  }

  /** Every string of fewer than 2^30 characters can be written, in at
      most five bytes of count and four bytes per character. */
  lemma WriteUtfDefined(s: string)
    requires |s| < 0x4000_0000
    ensures WriteUtf(s).Some?
    ensures |WriteUtf(s).value| <= Varint.Groups32 + 4 * |s|
  {
    Utf8.EncodeLength(s);
    Varint.Encode32Length(|Utf8.Encode(s)|);
  }
}
