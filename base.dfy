/** Shared vocabulary of the protocol stack: bytes, optional values and
    results, and the built-in Python exceptions that the lower layers raise
    and the upper layers catch and reclassify. */
module Base {

  /** One octet on the wire. */
  type byte = x: int | 0 <= x < 256

  datatype Option<+T> = None | Some(value: T) {
    function GetOr(default: T): T {
      match this
      case Some(v) => v
      case None => default
    }
  }

  datatype Result<+T, +E> = Ok(value: T) | Err(error: E)

  /** Exclusive upper bound of a value that fits a 32-bit varint budget. */
  const Limit32: nat := 0x1_0000_0000

  /** The IOError (OSError) instances raised below the framing layer. */
  datatype IOError =
      /** The peer closed before any byte of the current read arrived. */
    | NoResponse
      /** The peer closed after `got` of the `expected` bytes arrived. */
    | StoppedResponding(got: nat, expected: nat, partial: seq<byte>)
      /** A Buffer read asked for more bytes than remain. */
    | OutOfData(requested: nat, available: nat)
      /** No terminating varint group was seen within the 32-bit budget. */
    | VarintTooLong
      /** A varint decoded to a value that does not fit 32 bits. */
    | VarintOutOfRange

  /** Built-in exceptions that are not part of the protocol's own taxonomy. */
  datatype BuiltinError =
    | IOErr(io: IOError)
      /** `asyncio.TimeoutError`: a read did not complete within the timeout. */
    | Timeout
      /** `UnicodeDecodeError` (a ValueError) from strict UTF-8 decoding. */
    | UnicodeDecode
      /** `ValueError` from writing a varint outside the 32-bit budget. */
    | ValueOutOfRange
      /** `AttributeError` from reading an attribute of a missing value. */
    | MissingAttribute

  const NoResponseText: string := "Server did not respond with any information."

  /** The decimal rendering of `n`, as Python's `str(n)`. */
  function DecimalString(n: int): string
  {
    if n < 0 then "-" + Digits(-n) else Digits(n)
  }

  function Digits(n: nat): string
    decreases n
  {
    if n < 10 then [DigitChar(n)] else Digits(n / 10) + [DigitChar(n % 10)]
  }

  function DigitChar(d: nat): char
    requires d < 10
  {
    ('0' as int + d) as char
  }

  function HexChar(d: nat): char
    requires d < 16
  {
    if d < 10 then DigitChar(d) else ('a' as int + d - 10) as char
  }

  /** The rendering of one byte inside a Python bytes literal. */
  function ByteLiteral(b: byte): string
  {
    if b == '\\' as int then "\\\\"
    else if b == '\'' as int then "\\'"
    else if b == 9 then "\\t"
    else if b == 10 then "\\n"
    else if b == 13 then "\\r"
    else if 32 <= b < 127 then [b as char]
    else "\\x" + [HexChar(b / 16), HexChar(b % 16)]
  }

  function BytesLiteral(bs: seq<byte>): string
  {
    if bs == [] then [] else ByteLiteral(bs[0]) + BytesLiteral(bs[1..])
  }

  /** Stand-in for `repr(bytearray(bs))`: always single quotes, and bytes
      rendered by `ByteLiteral` (Python would switch quotes when the data
      holds a `'`). */
  function BytearrayRepr(bs: seq<byte>): string
  {
    "bytearray(b'" + BytesLiteral(bs) + "')"
  }

  /** The message (`args[0]`) carried by each IOError. The connection's two
      texts are those of the source; the codec's are stand-ins. */
  function Text(e: IOError): string
  {
    match e
    case NoResponse => NoResponseText
    case StoppedResponding(got, expected, partial) =>
      "Server stopped responding (got " + DecimalString(got) + " bytes, but expected "
      + DecimalString(expected) + " bytes). Partial obtained data: " + BytearrayRepr(partial)
    case OutOfData(_, _) => "Requested to read more data than available."
    case VarintTooLong => "Varint is longer than its 32-bit budget allows."
    case VarintOutOfRange => "Received varint was outside the range of 32-bit int."
  }

  /** Stand-in for `repr(exc)` of an IOError: the text is put between single
      quotes unescaped, where Python would pick double quotes for a text
      holding `'` and escape backslashes. */
  function IOErrorRepr(e: IOError): string
  {
    "OSError('" + Text(e) + "')"
  }

  /** Only the no-response IOError carries the text the server compares
      against; this is what makes its timeout test exact. */
  lemma TextIsNoResponseText(e: IOError)
    ensures Text(e) == NoResponseText <==> e == NoResponse
  {
    if e.StoppedResponding? {
      StoppedText(e.got, e.expected, e.partial);
    } else if e != NoResponse {
      OtherTexts(e);
    }
  }

  lemma StoppedText(got: nat, expected: nat, partial: seq<byte>)
    ensures Text(StoppedResponding(got, expected, partial)) != NoResponseText
  {
    var t := Text(StoppedResponding(got, expected, partial));
    assert t[7] == 's';
    assert NoResponseText[7] == 'd';
  }

  lemma OtherTexts(e: IOError)
    requires e.OutOfData? || e.VarintTooLong? || e.VarintOutOfRange?
    ensures |Text(e)| != |NoResponseText|
  {
  }

  lemma Associative<T>(a: seq<T>, b: seq<T>, c: seq<T>)
    ensures a + (b + c) == (a + b) + c
  {
  }

  /** The concatenation of `f(x)` over the elements `x` of `xs`, in order. */
  function Flatten<T, U>(f: T -> seq<U>, xs: seq<T>): seq<U>
  {
    if |xs| == 0 then [] else f(xs[0]) + Flatten(f, xs[1..])
  }

  lemma {:induction false} FlattenAppend<T, U>(f: T -> seq<U>, a: seq<T>, b: seq<T>)
    ensures Flatten(f, a + b) == Flatten(f, a) + Flatten(f, b)
  {
    if |a| > 0 {
      assert (a + b)[1..] == a[1..] + b;
      FlattenAppend(f, a[1..], b);
    } else {
      assert a + b == b;
    }
  }
}
