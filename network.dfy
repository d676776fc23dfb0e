/** The Connection: a stream reader, a stream writer and a timeout.
    `read(length)` accumulates deliveries of the underlying reader, asking
    each time only for the bytes still missing, until it holds exactly
    `length` bytes; a zero-byte delivery is the peer closing. The timeout is
    not modelled as time: a delivery may instead be scripted to stall, which
    is the TimeoutError of `asyncio.wait_for`. */
module Network {
  import opened Base

  /** What the peer's side of the stream does next: deliver bytes (an empty
      delivery is the closure) or let the pending read run into the timeout. */
  datatype Chunk = Bytes(data: seq<byte>) | Stall

  /** The outcome of one `reader.read(n)`. */
  datatype Delivery = Data(bytes: seq<byte>) | Eof | TimedOut

  /** One `reader.read(n)` on the scripted stream: at most `n` bytes of the
      first chunk, the rest of which stays buffered for the next read. After
      the script, and at an empty chunk, the stream stays at end of file. */
  function Deliver(script: seq<Chunk>, n: nat): (r: (Delivery, seq<Chunk>))
    requires n > 0
    ensures r.0.Data? ==> 0 < |r.0.bytes| <= n
  {
    if |script| == 0 then (Eof, script)
    else
      match script[0]
      case Stall => (TimedOut, script[1..])
      case Bytes(d) =>
        if |d| == 0 then (Eof, script)
        else if |d| <= n then (Data(d), script[1..])
        else (Data(d[..n]), [Bytes(d[n..])] + script[1..])
  }

  /** All bytes the stream delivers before it closes or stalls. */
  function Available(script: seq<Chunk>): seq<byte>
  {
    if |script| == 0 then []
    else
      match script[0]
      case Stall => []
      case Bytes(d) => if |d| == 0 then [] else d + Available(script[1..])
  }

  /** Whether the available bytes are followed by a stall rather than by
      the closure. */
  predicate StallsAfter(script: seq<Chunk>)
  {
    if |script| == 0 then false
    else
      match script[0]
      case Stall => true
      case Bytes(d) => if |d| == 0 then false else StallsAfter(script[1..])
  }

  /** A nonempty chunk of bytes is the front of what is available, and the
      stream's ending is that of the chunks after it. */
  lemma BytesFront(script: seq<Chunk>)
    requires |script| > 0 && script[0].Bytes? && |script[0].data| > 0
    ensures Available(script) == script[0].data + Available(script[1..])
    ensures StallsAfter(script) == StallsAfter(script[1..])
  {
  }

  /** A chunk longer than the read leaves its tail as the first chunk. */
  lemma SplitChunk(script: seq<Chunk>, n: nat)
    requires n > 0 && |script| > 0 && script[0].Bytes? && |script[0].data| > n
    ensures var d := script[0].data;
      var rest := [Bytes(d[n..])] + script[1..];
      && Available(script) == d[..n] + Available(rest)
      && StallsAfter(rest) == StallsAfter(script)
  {
    var d := script[0].data;
    var rest := [Bytes(d[n..])] + script[1..];
    assert rest[0] == Bytes(d[n..]) && rest[1..] == script[1..];
    BytesFront(script);
    BytesFront(rest);
    SplitAppend(d, n, Available(script[1..]));
  }

  lemma SplitAppend<T>(d: seq<T>, n: nat, tail: seq<T>)
    requires n <= |d|
    ensures d + tail == d[..n] + (d[n..] + tail)
  {
    assert d == d[..n] + d[n..];
  }

  /** A delivery hands out the front of the available bytes, in order, and
      leaves the rest and the stream's ending untouched. */
  lemma DeliverTakesFront(script: seq<Chunk>, n: nat)
    requires n > 0
    ensures var (d, rest) := Deliver(script, n);
      && (d.Data? <==> |Available(script)| > 0)
      && (d.TimedOut? <==> |Available(script)| == 0 && StallsAfter(script))
      && (d.Data? ==> Available(script) == d.bytes + Available(rest)
                      && StallsAfter(rest) == StallsAfter(script))
  {
    if |script| > 0 && script[0].Bytes? && |script[0].data| > 0 {
      if |script[0].data| > n {
        SplitChunk(script, n);
      } else {
        BytesFront(script);
      }
    }
  }

  /** The loop of `read(length)` with `acc` accumulated so far. */
  function ReadLoop(script: seq<Chunk>, length: nat, acc: seq<byte>): (r: (Result<seq<byte>, BuiltinError>, seq<Chunk>))
    requires |acc| <= length
    decreases length - |acc|
    ensures r.0.Ok? ==> |r.0.value| == length
  {
    if |acc| == length then (Ok(acc), script)
    else
      match Deliver(script, length - |acc|)
      case (TimedOut, rest) => (Err(Timeout), rest)
      case (Eof, rest) =>
        (Err(IOErr(if |acc| == 0 then NoResponse else StoppedResponding(|acc|, length, acc))), rest)
      case (Data(d), rest) => ReadLoop(rest, length, acc + d)
  }

  /** `Connection.read(length)`: the result and the stream afterwards. */
  function ReadExact(script: seq<Chunk>, length: nat): (Result<seq<byte>, BuiltinError>, seq<Chunk>)
  {
    ReadLoop(script, length, [])
  }

  /** With enough bytes available the loop returns exactly the next
      `length - |acc|` of them after `acc`. */
  lemma {:induction false} ReadLoopEnough(script: seq<Chunk>, length: nat, acc: seq<byte>)
    requires |acc| <= length <= |acc + Available(script)|
    decreases length - |acc|
    ensures var (r, rest) := ReadLoop(script, length, acc);
      var all := acc + Available(script);
      && r == Ok(all[..length])
      && Available(rest) == all[length..]
      && StallsAfter(rest) == StallsAfter(script)
  {
    var all := acc + Available(script);
    if |acc| == length {
      assert all[..length] == acc;
      assert all[length..] == Available(script);
    } else {
      DeliverTakesFront(script, length - |acc|);
      var (d, rest) := Deliver(script, length - |acc|);
      assert (acc + d.bytes) + Available(rest) == all;
      ReadLoopEnough(rest, length, acc + d.bytes);
    }
  }

  /** With too few bytes available the loop fails with the timeout, the
      no-data error or the partial-data error, by how the stream ends. */
  lemma {:induction false} ReadLoopShort(script: seq<Chunk>, length: nat, acc: seq<byte>)
    requires |acc + Available(script)| < length
    decreases length - |acc|
    ensures var all := acc + Available(script);
      ReadLoop(script, length, acc).0 ==
        Err(if StallsAfter(script) then Timeout
            else if |all| == 0 then IOErr(NoResponse)
            else IOErr(StoppedResponding(|all|, length, all)))
  {
    DeliverTakesFront(script, length - |acc|);
    var (d, rest) := Deliver(script, length - |acc|);
    if d.Data? {
      assert (acc + d.bytes) + Available(rest) == acc + Available(script);
      ReadLoopShort(rest, length, acc + d.bytes);
    } else {
      assert acc + Available(script) == acc;
    }
  }

  /** The outcome of the read loop in terms of what the stream has to give:
      enough bytes gives exactly the next `length` of them; too few fail with
      the timeout, the no-data error or the partial-data error. */
  lemma ReadLoopOutcome(script: seq<Chunk>, length: nat, acc: seq<byte>)
    requires |acc| <= length
    ensures var (r, rest) := ReadLoop(script, length, acc);
      var all := acc + Available(script);
      && (length <= |all| ==>
            && r == Ok(all[..length])
            && Available(rest) == all[length..]
            && StallsAfter(rest) == StallsAfter(script))
      && (length > |all| ==>
            r == Err(if StallsAfter(script) then Timeout
                     else if |all| == 0 then IOErr(NoResponse)
                     else IOErr(StoppedResponding(|all|, length, all))))
  {
    if length <= |acc + Available(script)| {
      ReadLoopEnough(script, length, acc);
    } else {
      ReadLoopShort(script, length, acc);
    }
  }

  /** `read(length)` asked of a stream: success exactly when the stream has
      `length` bytes to give before closing or stalling, and then the result
      is those bytes in order; `read(0)` consults nothing. */
  lemma ReadExactOutcome(script: seq<Chunk>, length: nat)
    ensures var (r, rest) := ReadExact(script, length);
      var avail := Available(script);
      && (length == 0 ==> r == Ok([]) && rest == script)
      && (length <= |avail| ==>
            && r == Ok(avail[..length])
            && Available(rest) == avail[length..]
            && StallsAfter(rest) == StallsAfter(script))
      && (length > |avail| && StallsAfter(script) ==> r == Err(Timeout))
      && (length > |avail| && !StallsAfter(script) && |avail| == 0 ==> r == Err(IOErr(NoResponse)))
      && (length > |avail| && !StallsAfter(script) && |avail| > 0 ==>
            r == Err(IOErr(StoppedResponding(|avail|, length, avail))))
  {
    ReadLoopOutcome(script, length, []);
    assert [] + Available(script) == Available(script);
  }

  class Connection {
    /** The peer's side of the stream that is still to be read. */
    var incoming: seq<Chunk>
    /** Everything handed to the stream writer, in order. */
    var written: seq<byte>
    /** How often `writer.close()` was called. */
    var closeCalls: nat

    constructor (incoming: seq<Chunk>)
      ensures this.incoming == incoming && written == [] && closeCalls == 0
    {
      this.incoming := incoming;
      written := [];
      closeCalls := 0;
    }

    /** `read(length)`. */
    method Read(length: nat) returns (r: Result<seq<byte>, BuiltinError>)
      modifies this
      ensures (r, incoming) == ReadExact(old(incoming), length)
      ensures written == old(written) && closeCalls == old(closeCalls)
    {
      var result: seq<byte> := [];
      while |result| < length
        invariant |result| <= length
        invariant ReadLoop(incoming, length, result) == ReadLoop(old(incoming), length, [])
        invariant written == old(written) && closeCalls == old(closeCalls)
        decreases length - |result|
      {
        var (d, rest) := Deliver(incoming, length - |result|);
        incoming := rest;
        match d
        case TimedOut =>
          return Err(Timeout);
        case Eof =>
          if |result| == 0 {
            return Err(IOErr(NoResponse));
          }
          return Err(IOErr(StoppedResponding(|result|, length, result)));
        case Data(bytes) =>
          result := result + bytes;
      }
      return Ok(result);
    }

    /** `write(data)`: the bytes go to the writer unchanged. */
    method Write(data: seq<byte>)
      modifies this
      ensures written == old(written) + data
      ensures incoming == old(incoming) && closeCalls == old(closeCalls)
    {
      written := written + data;
    }

    /** `close()`: delegates to `writer.close()`. */
    method Close()
      modifies this
      ensures closeCalls == old(closeCalls) + 1
      ensures incoming == old(incoming) && written == old(written)
    {
      closeCalls := closeCalls + 1;
    }
  }
}
