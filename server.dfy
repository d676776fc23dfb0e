/** The server side of one client connection: the accept callback runs the
    handshake gate (`on_connect`), then the serve loop, which processes one
    packet per iteration until a DisconnectError, and then calls `on_close`
    once and closes the connection once. Reads are driven by the sequence
    of outcomes `read_packet` yields on this connection; after the last one
    the stream behaves as closed. */
module Server {
  import opened Base
  import Utf8
  import Varint
  import opened Packets
  import opened Exceptions
  import opened Network
  import opened Framing

  /** `PROTOCOL_VERSION` of the bytelink configuration. */
  const ProtocolVersion: int := 1

  /** What one `read_packet(client_conn)` yields. */
  type ReadOutcome = Result<Packet, Exception>

  /** What `read_packet` yields on a stream the peer has closed. */
  const ClosedStream: ReadOutcome := Err(DataError(NoResponse))

  /** The reason `Server.on_error` disconnects with. */
  const OnErrorReason: string := "..."
  const TimedOutReason: string := "Timed out"
  const ReadNote: string := "Unexpected error while reading packet"
  const ProcessNote: string := "Unexpected error while processing packet"

  /** The calls the callback makes into the server's event handlers. */
  datatype Event =
    | Handled(packet: Packet)          // on_packet(conn, packet)
    | ErrorHandled(error: Exception)   // on_error(conn, error)
    | ClosedWith(reason: string)       // on_close(conn, DisconnectError(reason))

  /** How the callback ends: closed after a DisconnectError, or left by an
      exception that escapes it, with the connection still open. */
  datatype Ending = Disconnected(reason: string) | Crashed(error: Exception)

  /** The handler calls, the packets written to the client and the ending. */
  datatype Trace = Trace(events: seq<Event>, sent: seq<Packet>, ending: Ending)

  /** The next outcome of `read_packet`, and those after it. */
  function Next(pending: seq<ReadOutcome>): ReadOutcome
  {
    if |pending| > 0 then pending[0] else ClosedStream
  }

  function Later(pending: seq<ReadOutcome>): seq<ReadOutcome>
  {
    if |pending| > 0 then pending[1..] else []
  }

  /** `BaseServer.read_packet`: a decoded packet that is not server-bound
      is rejected as UNEXPECTED_PACKET; failures pass through. */
  function ServerRead(o: ReadOutcome): (r: ReadOutcome)
    ensures r.Ok? ==> r == o && Bound(TypeOf(r.value)) == ServerBound
    ensures o.Ok? && Bound(TypeOf(o.value)) == ServerBound ==> r == o
    ensures o.Err? ==> r == o
  {
    match o
    case Err(_) => o
    case Ok(p) =>
      if Bound(TypeOf(p)) == ServerBound then o
      else Err(Malformed(NewMalformed(UnexpectedPacket, None, None, Some(p))))
  }

  /** A client-bound Pong sent to the server is rejected, and the message
      names the state, the Pong's ID and the packet. */
  lemma PongUnexpected(token: string)
    ensures ServerRead(Ok(Pong(token))) == Err(Malformed(NewMalformed(UnexpectedPacket, None, None, Some(Pong(token)))))
    ensures ServerRead(Ok(Pong(token))).error.malformed.msg ==
      ComposeMessage(UnexpectedPacket, [IdEntry(2), PacketEntry(Pong(token))])
  {
    var p := Pong(token);
    assert MessageTail(Some(2), None, Some(p)) == [IdEntry(2)] + [] + [PacketEntry(p)];
    assert [IdEntry(2)] + [] + [PacketEntry(p)] == [IdEntry(2), PacketEntry(p)];
  }

  /** `Server.process_handshake` on the outcome of the first
      `self.read_packet`: None on success, else the DisconnectError reason. */
  function HandshakeVerdict(r: ReadOutcome, version: int): Option<string>
  {
    match r
    case Err(_) => Some("Failed to read handshake packet")
    case Ok(p) =>
      if !p.Handshake? then Some("First packet must be a handshake packet.")
      else if p.protocolVersion != version then
        Some("Mismatched protocol versions, server version: " + DecimalString(version))
      else None
  }

  /** The gate admits exactly a Handshake with the server's own version. */
  lemma HandshakeAccepts(o: ReadOutcome, version: int)
    ensures HandshakeVerdict(ServerRead(o), version).None? <==> o == Ok(Handshake(version))
  {
  }

  /** Whether a Pong with this token can be framed: its payload and its
      frame length both fit their 32-bit varints. */
  predicate PongFits(token: string)
  {
    var n := |Utf8.Encode(token)|;
    n < Limit32 && |Varint.Encode(Id(PongType))| + |Varint.Encode(n)| + n < Limit32
  }

  lemma PongFitsFrame(token: string)
    ensures PongFits(token) <==> FrameOf(Pong(token)).Some?
  {
  }

  /** `Server.on_packet`: the packets it writes back. A Ping is answered
      with a Pong with the same token; other packets get no reply. A Pong
      that cannot be framed makes `write_packet` raise ValueError. */
  function Reply(p: Packet): Result<seq<Packet>, Exception>
  {
    if p.Ping? then
      if PongFits(p.token) then Ok([Pong(p.token)]) else Err(Builtin(ValueOutOfRange))
    else Ok([])
  }

  /** The reply to a Ping is a frame the client reads back as a Pong with
      the identical token, however the stream splits it. */
  lemma PingReply(token: string, reg: Registry, script: seq<Chunk>, more: seq<byte>)
    requires Id(PongType) in reg && reg[Id(PongType)] == PongType
    requires Reply(Ping(token)).Ok?
    requires Available(script) == Frames(Reply(Ping(token)).value) + more
    ensures Reply(Ping(token)).value == [Pong(token)]
    ensures ReadPacketFrom(script, reg).0 == Ok(Pong(token))
  {
    PongFitsFrame(token);
    FramesSingle(Pong(token));
    StreamRoundTrip(Pong(token), reg, script, more);
  }

  lemma NoReplyUnlessPing(p: Packet)
    requires !p.Ping?
    ensures Reply(p) == Ok([])
  {
  }

  /** One iteration of the serve loop (`_process_packet`), from the outcome
      of `self.read_packet`. */
  datatype Step =
    | Continue(packet: Packet, sent: seq<Packet>)
    | Stop(events: seq<Event>, reason: string)
    | Crash(error: Exception)

  /** The read failure branch: a DisconnectError is re-raised; NO_DATA
      whose IOError text is the no-response text becomes "Timed out" (and
      NO_DATA without an IOError fails on reading its `args`); anything
      else is wrapped in a ReadError for `on_error`, which disconnects. */
  function ReadFailure(e: Exception): Step
  {
    if e.Disconnect? then Stop([], e.message)
    else if e.Malformed? && e.malformed.state == NoData then
      match e.malformed.ioerror
      case None => Crash(Builtin(MissingAttribute))
      case Some(io) =>
        if Text(io) == NoResponseText then Stop([], TimedOutReason)
        else Stop([ErrorHandled(ReadErr(e, ReadNote))], OnErrorReason)
    else Stop([ErrorHandled(ReadErr(e, ReadNote))], OnErrorReason)
  }

  function Handle(r: ReadOutcome): Step
  {
    match r
    case Err(e) => ReadFailure(e)
    case Ok(p) =>
      match Reply(p)
      case Ok(sent) => Continue(p, sent)
      case Err(e) => Stop([Handled(p), ErrorHandled(ProcessingErr(e, ProcessNote))], OnErrorReason)
  }

  function Process(o: ReadOutcome): Step
  {
    Handle(ServerRead(o))
  }

  /** A DisconnectError raised while reading is re-raised unchanged:
      the loop stops with its message and no handler runs. */
  lemma DisconnectReraised(m: string)
    ensures Process(Err(Disconnect(m))) == Stop([], m)
  {
  }

  /** Every read failure other than a DisconnectError and NO_DATA is
      wrapped in a ReadError for `on_error`, and `on_packet` is skipped. */
  lemma ReadFailureWraps(e: Exception)
    requires !e.Disconnect? && !(e.Malformed? && e.malformed.state == NoData)
    ensures Process(Err(e)) == Stop([ErrorHandled(ReadErr(e, ReadNote))], OnErrorReason)
  {
  }

  /** A failing `on_packet` (a Ping whose Pong cannot be framed) is wrapped
      in a ProcessingError for `on_error`, after the packet was handed over. */
  lemma ProcessingFailure(t: string)
    requires !PongFits(t)
    ensures Process(Ok(Ping(t)))
      == Stop([Handled(Ping(t)), ErrorHandled(ProcessingErr(Builtin(ValueOutOfRange), ProcessNote))], OnErrorReason)
  {
  }

  /** The timeout special case: of the NO_DATA failures that carry an
      IOError exactly the no-response one becomes "Timed out", without
      `on_error`; every other one goes through `on_error`. */
  lemma TimeoutCase(e: MalformedPacketError)
    requires e.state == NoData && e.ioerror.Some?
    ensures Process(Err(Malformed(e))) ==
      if e.ioerror.value == NoResponse then Stop([], TimedOutReason)
      else Stop([ErrorHandled(ReadErr(Malformed(e), ReadNote))], OnErrorReason)
  {
    TextIsNoResponseText(e.ioerror.value);
  }

  /** The loop goes on exactly after a server-bound packet whose handling
      did not fail; every read or processing failure ends it. */
  lemma ProcessContinues(o: ReadOutcome)
    ensures Process(o).Continue? <==>
      && o.Ok? && Bound(TypeOf(o.value)) == ServerBound
      && (o.value.Ping? ==> FrameOf(Pong(o.value.token)).Some?)
    ensures Process(o).Continue? ==> Process(o).packet == o.value
  {
    if o.Ok? && o.value.Ping? {
      PongFitsFrame(o.value.token);
    }
  }

  /** A Ping whose Pong can be framed lets the loop go on, answered by
      that Pong. */
  lemma PingContinues(token: string)
    requires PongFits(token)
    ensures Process(Ok(Ping(token))) == Continue(Ping(token), [Pong(token)])
  {
  }

  /** A framing error over an IOError, the closed stream among them, goes
      through `on_error`, which disconnects. */
  lemma DataErrorStops(io: IOError)
    ensures Process(Err(DataError(io))) ==
      Stop([ErrorHandled(ReadErr(DataError(io), ReadNote))], OnErrorReason)
  {
  }

  /** The end of the callback after a step that stops the loop: `on_close`
      and `close` after a DisconnectError. */
  function Ended(s: Step): Trace
    requires !s.Continue?
  {
    match s
    case Stop(evs, reason) => Trace(evs + [ClosedWith(reason)], [], Disconnected(reason))
    case Crash(e) => Trace([], [], Crashed(e))
  }

  /** The serve loop over the remaining outcomes. */
  function Serve(pending: seq<ReadOutcome>): Trace
    decreases |pending|
  {
    if |pending| == 0 then Ended(Process(ClosedStream))
    else
      match Process(pending[0])
      case Continue(p, sent) =>
        var later := Serve(pending[1..]);
        Trace([Handled(p)] + later.events, sent + later.sent, later.ending)
      case s => Ended(s)
  }

  /** One turn of the loop: the next outcome either lets it go on, with the
      rest still to serve, or decides how the callback ends. */
  lemma ServeContinues(pending: seq<ReadOutcome>)
    requires |pending| > 0 && Process(pending[0]).Continue?
    ensures var later := Serve(pending[1..]);
      Serve(pending) == Trace([Handled(Process(pending[0]).packet)] + later.events,
                              Process(pending[0]).sent + later.sent, later.ending)
  {
  }

  /** The closed stream never lets the loop go on. */
  lemma ClosedStreamStops()
    ensures !Process(ClosedStream).Continue?
  {
    DataErrorStops(NoResponse);
  }

  lemma ServeStops(pending: seq<ReadOutcome>)
    requires !Process(Next(pending)).Continue?
    ensures Serve(pending) == Ended(Process(Next(pending)))
  {
  }

  /** The only exception that escapes the loop is the AttributeError of a
      NO_DATA error without an IOError. */
  lemma CrashIsMissingAttribute(o: ReadOutcome)
    requires Process(o).Crash?
    ensures Process(o).error == Builtin(MissingAttribute)
    ensures o.Err? && o.error.Malformed? && o.error.malformed.state == NoData && o.error.malformed.ioerror.None?
  {
  }

  /** The handler calls of a step that stops the loop come before any
      `on_close`. */
  lemma StopCallsNoClose(o: ReadOutcome)
    requires Process(o).Stop?
    ensures forall k :: 0 <= k < |Process(o).events| ==> !Process(o).events[k].ClosedWith?
  {
  }

  /** Once the outcomes run out the closed stream ends the loop through
      `on_error`. */
  lemma ServeClosed()
    ensures Serve([]) ==
      Trace([ErrorHandled(ReadErr(ClosedStream.error, ReadNote)), ClosedWith(OnErrorReason)], [],
            Disconnected(OnErrorReason))
  {
    DataErrorStops(NoResponse);
    ServeStops([]);
  }

  /** `_on_connect_callback`: the handshake on the first outcome, then the
      serve loop on the others. */
  function Lifecycle(pending: seq<ReadOutcome>, version: int): Trace
  {
    match HandshakeVerdict(ServerRead(Next(pending)), version)
    case Some(reason) => Trace([ClosedWith(reason)], [], Disconnected(reason))
    case None => Serve(Later(pending))
  }

  /** After a handshake with the server's own version the callback is
      the serve loop on the outcomes that follow. */
  lemma HandshakeAdmits(version: int, later: seq<ReadOutcome>)
    ensures Lifecycle([Ok(Handshake(version))] + later, version) == Serve(later)
  {
    var pending := [Ok(Handshake(version))] + later;
    assert Next(pending) == Ok(Handshake(version)) && Later(pending) == later;
  }

  /** The packets passed to `on_packet`, in order. */
  function HandledPackets(events: seq<Event>): seq<Packet>
  {
    if |events| == 0 then []
    else (if events[0].Handled? then [events[0].packet] else []) + HandledPackets(events[1..])
  }

  lemma {:induction false} HandledPacketsAppend(a: seq<Event>, b: seq<Event>)
    ensures HandledPackets(a + b) == HandledPackets(a) + HandledPackets(b)
  {
    if |a| > 0 {
      assert (a + b)[1..] == a[1..] + b;
      HandledPacketsAppend(a[1..], b);
    } else {
      assert a + b == b;
    }
  }

  /** `on_close` runs exactly once, as the last call, with the reason the
      connection closed for; after a crash it never runs. */
  predicate ClosesOnce(run: Trace)
  {
    match run.ending
    case Disconnected(reason) =>
      && |run.events| > 0 && run.events[|run.events| - 1] == ClosedWith(reason)
      && forall k :: 0 <= k < |run.events| - 1 ==> !run.events[k].ClosedWith?
    case Crashed(_) =>
      forall k :: 0 <= k < |run.events| ==> !run.events[k].ClosedWith?
  }

  /** A handled packet in front of a run does not change how it closes. */
  lemma HandledKeepsClosesOnce(p: Packet, sent: seq<Packet>, run: Trace)
    requires ClosesOnce(run)
    ensures ClosesOnce(Trace([Handled(p)] + run.events, sent + run.sent, run.ending))
  {
    var evs := [Handled(p)] + run.events;
    assert forall k :: 1 <= k < |evs| ==> evs[k] == run.events[k - 1];
  }

  lemma {:induction false} ServeClosesOnce(pending: seq<ReadOutcome>)
    decreases |pending|
    ensures ClosesOnce(Serve(pending))
  {
    if |pending| > 0 && Process(pending[0]).Continue? {
      ServeContinues(pending);
      var later := Serve(pending[1..]);
      ServeClosesOnce(pending[1..]);
      HandledKeepsClosesOnce(Process(pending[0]).packet, Process(pending[0]).sent, later);
    } else {
      if |pending| == 0 {
        ClosedStreamStops();
      }
      ServeStops(pending);
      if Process(Next(pending)).Stop? {
        StopCallsNoClose(Next(pending));
      }
    }
  }

  lemma LifecycleClosesOnce(pending: seq<ReadOutcome>, version: int)
    ensures ClosesOnce(Lifecycle(pending, version))
  {
    ServeClosesOnce(Later(pending));
  }

  /** A rejected handshake closes the connection for the gate's reason
      before the serve loop is entered: no packet is handled and nothing
      is written. */
  lemma HandshakeRejected(pending: seq<ReadOutcome>, version: int)
    requires HandshakeVerdict(ServerRead(Next(pending)), version).Some?
    ensures Lifecycle(pending, version)
      == Trace([ClosedWith(HandshakeVerdict(ServerRead(Next(pending)), version).value)], [],
               Disconnected(HandshakeVerdict(ServerRead(Next(pending)), version).value))
    ensures var run := Lifecycle(pending, version);
      && run.ending == Disconnected(HandshakeVerdict(ServerRead(Next(pending)), version).value)
      && HandledPackets(run.events) == [] && run.sent == []
  {
  }

  /** Every outcome of `good` lets the loop go on. */
  predicate AllContinue(good: seq<ReadOutcome>)
  {
    |good| == 0 || (Process(good[0]).Continue? && AllContinue(good[1..]))
  }

  /** The packets of outcomes that all let the loop go on, and the packets
      sent in reply to them. */
  function ContinuedPackets(good: seq<ReadOutcome>): seq<Packet>
    requires AllContinue(good)
  {
    if |good| == 0 then [] else [Process(good[0]).packet] + ContinuedPackets(good[1..])
  }

  function Replies(good: seq<ReadOutcome>): seq<Packet>
    requires AllContinue(good)
  {
    if |good| == 0 then [] else Process(good[0]).sent + Replies(good[1..])
  }

  function HandledAll(ps: seq<Packet>): seq<Event>
  {
    if |ps| == 0 then [] else [Handled(ps[0])] + HandledAll(ps[1..])
  }

  /** The first of the outcomes that let the loop go on contributes its
      packet and its replies in front of those of the rest. */
  lemma ContinuedStep(good: seq<ReadOutcome>)
    requires |good| > 0 && AllContinue(good)
    ensures HandledAll(ContinuedPackets(good)) ==
      [Handled(Process(good[0]).packet)] + HandledAll(ContinuedPackets(good[1..]))
    ensures Replies(good) == Process(good[0]).sent + Replies(good[1..])
  {
    var ps := ContinuedPackets(good);
    assert ps[0] == Process(good[0]).packet && ps[1..] == ContinuedPackets(good[1..]);
  }

  /** The loop stops at the first failing outcome: every outcome before it
      is handled and answered in order, the failure decides the ending,
      and no outcome after it is read. */
  lemma {:induction false} ServeUpToFailure(good: seq<ReadOutcome>, o: ReadOutcome, more: seq<ReadOutcome>)
    requires AllContinue(good)
    requires !Process(o).Continue?
    ensures var end := Ended(Process(o));
      Serve(good + [o] + more) ==
        Trace(HandledAll(ContinuedPackets(good)) + end.events, Replies(good), end.ending)
    decreases |good|
  {
    var pending := good + [o] + more;
    if |good| == 0 {
      assert Next(pending) == o;
      ServeStops(pending);
    } else {
      assert pending[0] == good[0];
      assert pending[1..] == good[1..] + [o] + more;
      ServeContinues(pending);
      ServeUpToFailure(good[1..], o, more);
      var end := Ended(Process(o));
      ContinuedStep(good);
      Associative([Handled(Process(good[0]).packet)], HandledAll(ContinuedPackets(good[1..])), end.events);
      assert end.sent == [];
    }
  }

  /** The Pongs answering the Pings among `ps` whose Pong can be framed,
      in order. */
  function PongsFor(ps: seq<Packet>): seq<Packet>
  {
    if |ps| == 0 then []
    else
      (if ps[0].Ping? && PongFits(ps[0].token) then [Pong(ps[0].token)] else []) + PongsFor(ps[1..])
  }

  lemma {:induction false} PongsForAppend(a: seq<Packet>, b: seq<Packet>)
    ensures PongsFor(a + b) == PongsFor(a) + PongsFor(b)
  {
    if |a| > 0 {
      assert (a + b)[1..] == a[1..] + b;
      PongsForAppend(a[1..], b);
    } else {
      assert a + b == b;
    }
  }

  /** The only packet a step that ends the loop hands to `on_packet` is a
      Ping whose Pong cannot be framed. */
  lemma EndedHandlesUnframablePing(o: ReadOutcome)
    requires !Process(o).Continue?
    ensures var evs := Ended(Process(o)).events;
      forall k :: 0 <= k < |evs| && evs[k].Handled? ==>
        evs[k].packet.Ping? && !PongFits(evs[k].packet.token)
  {
  }

  /** A step that ends the loop sends nothing, and hands `on_packet` no
      Ping whose Pong could be framed. */
  lemma EndedSendsNothing(o: ReadOutcome)
    requires !Process(o).Continue?
    ensures Ended(Process(o)).sent == []
    ensures PongsFor(HandledPackets(Ended(Process(o)).events)) == []
  {
    var s := Process(o);
    if s.Stop? {
      HandledPacketsAppend(s.events, [ClosedWith(s.reason)]);
      if |s.events| == 2 {
        assert s.events == [s.events[0]] + [s.events[1]];
        HandledPacketsAppend([s.events[0]], [s.events[1]]);
      }
    }
  }

  /** A step that lets the loop go on sends the Pong a Ping asks for, and
      nothing for any other packet. */
  lemma ContinueSends(o: ReadOutcome)
    requires Process(o).Continue?
    ensures Process(o).sent == PongsFor([Process(o).packet])
  {
    assert [Process(o).packet][1..] == [];
  }

  /** What the server sends is exactly one Pong with the same token for
      each handled Ping, in order, and nothing else. */
  lemma {:induction false} ServeSendsPongs(pending: seq<ReadOutcome>)
    decreases |pending|
    ensures Serve(pending).sent == PongsFor(HandledPackets(Serve(pending).events))
  {
    if |pending| > 0 && Process(pending[0]).Continue? {
      ServeContinues(pending);
      var p := Process(pending[0]).packet;
      var later := Serve(pending[1..]);
      ServeSendsPongs(pending[1..]);
      HandledPacketsAppend([Handled(p)], later.events);
      assert HandledPackets([Handled(p)]) == [p];
      PongsForAppend([p], HandledPackets(later.events));
      ContinueSends(pending[0]);
    } else {
      if |pending| == 0 {
        ClosedStreamStops();
      }
      ServeStops(pending);
      EndedSendsNothing(Next(pending));
    }
  }

  lemma LifecycleSendsPongs(pending: seq<ReadOutcome>, version: int)
    ensures Lifecycle(pending, version).sent == PongsFor(HandledPackets(Lifecycle(pending, version).events))
  {
    ServeSendsPongs(Later(pending));
  }

  /** With the zerocom framing below it, the loop never takes the "Timed
      out" branch and never crashes: every read failure goes through
      `on_error` and ends with its reason. */
  lemma FramedFailuresGoThroughOnError(script: seq<Chunk>, reg: Registry)
    ensures var s := Process(ReadPacketFrom(script, reg).0);
      && !s.Crash?
      && (s.Stop? ==> s.reason == OnErrorReason && s.events[|s.events| - 1].ErrorHandled?)
    ensures var r := ReadPacketFrom(script, reg).0;
      r.Err? ==> Process(r) == Stop([ErrorHandled(ReadErr(r.error, ReadNote))], OnErrorReason)
  {
    ReadPacketErrors(script, reg);
  }

  datatype Phase = Created | Serving | Closed | Aborted

  /** One accepted client connection, as `_on_connect_callback` runs it. */
  class Session {
    const conn: Connection
    /** The server's protocol version. */
    const version: int
    /** The outcomes the remaining `read_packet` calls yield. */
    var pending: seq<ReadOutcome>
    var phase: Phase
    /** The handler calls so far. */
    var events: seq<Event>

    constructor (conn: Connection, version: int, pending: seq<ReadOutcome>)
      ensures this.conn == conn && this.version == version && this.pending == pending
      ensures phase == Created && events == []
    {
      this.conn := conn;
      this.version := version;
      this.pending := pending;
      phase := Created;
      events := [];
    }

    /** `self.read_packet(client_conn)`. */
    method ReadPacket() returns (r: ReadOutcome)
      modifies this
      ensures r == ServerRead(Next(old(pending))) && pending == Later(old(pending))
      ensures phase == old(phase) && events == old(events)
    {
      r := ServerRead(Next(pending));
      pending := Later(pending);
    }

    /** `on_packet(client_conn, packet)`. */
    method OnPacket(p: Packet) returns (r: Result<(), Exception>)
      modifies this, conn
      ensures events == old(events) + [Handled(p)]
      ensures r.Ok? <==> Reply(p).Ok?
      ensures r.Err? ==> r.error == Reply(p).error
      ensures conn.written == old(conn.written) + (if r.Ok? then Frames(Reply(p).value) else [])
      ensures conn.closeCalls == old(conn.closeCalls)
      ensures pending == old(pending) && phase == old(phase)
    {
      events := events + [Handled(p)];
      if p.Ping? {
        PongFitsFrame(p.token);
        var w := WritePacket(conn, Pong(p.token));
        if w.Err? {
          return Err(Builtin(w.error));
        }
        FramesSingle(Pong(p.token));
      }
      return Ok(());
    }

    /** `on_error(client_conn, error)`: always disconnects. */
    method OnError(error: Exception) returns (reason: string)
      modifies this
      ensures events == old(events) + [ErrorHandled(error)] && reason == OnErrorReason
      ensures pending == old(pending) && phase == old(phase)
    {
      events := events + [ErrorHandled(error)];
      reason := OnErrorReason;
    }

    /** `on_close(client_conn, exc)` followed by `client_conn.close()`. */
    method CloseWith(reason: string)
      modifies this, conn
      ensures events == old(events) + [ClosedWith(reason)] && phase == Closed
      ensures conn.closeCalls == old(conn.closeCalls) + 1
      ensures conn.written == old(conn.written) && pending == old(pending)
    {
      events := events + [ClosedWith(reason)];
      conn.Close();
      phase := Closed;
    }

    /** `_process_packet(client_conn)`: the exception it raises, if any
        (a DisconnectError, or one that escapes the callback). */
    method ProcessPacket() returns (raised: Option<Exception>)
      modifies this, conn
      ensures var s := Process(Next(old(pending)));
        && (s.Continue? ==> raised.None? && events == old(events) + [Handled(s.packet)]
                            && conn.written == old(conn.written) + Frames(s.sent))
        && (s.Stop? ==> raised == Some(Disconnect(s.reason)) && events == old(events) + s.events
                        && conn.written == old(conn.written))
        && (s.Crash? ==> raised == Some(s.error) && events == old(events)
                         && conn.written == old(conn.written))
      ensures pending == Later(old(pending)) && phase == old(phase)
      ensures conn.closeCalls == old(conn.closeCalls)
    {
      var r := ReadPacket();
      match r
      case Err(e) =>
        if e.Disconnect? {
          return Some(e);
        }
        if e.Malformed? && e.malformed.state == NoData {
          if e.malformed.ioerror.None? {
            return Some(Builtin(MissingAttribute));
          }
          if Text(e.malformed.ioerror.value) == NoResponseText {
            return Some(Disconnect(TimedOutReason));
          }
        }
        var reason := OnError(ReadErr(e, ReadNote));
        return Some(Disconnect(reason));
      case Ok(p) =>
        var ok := OnPacket(p);
        if ok.Err? {
          var reason := OnError(ProcessingErr(ok.error, ProcessNote));
          assert events == old(events) + [Handled(p), ErrorHandled(ProcessingErr(ok.error, ProcessNote))];
          return Some(Disconnect(reason));
        }
        return None;
    }

    /** How the callback ends on an exception out of the serve loop: a
        DisconnectError leads to `on_close` and `close`, any other
        exception leaves the callback with the connection open. */
    method Finish(e: Exception) returns (ending: Ending)
      modifies this, conn
      ensures ending == (if e.Disconnect? then Disconnected(e.message) else Crashed(e))
      ensures events == old(events) + (if e.Disconnect? then [ClosedWith(e.message)] else [])
      ensures conn.closeCalls == old(conn.closeCalls) + (if e.Disconnect? then 1 else 0)
      ensures phase == (if e.Disconnect? then Closed else Aborted)
      ensures conn.written == old(conn.written) && pending == old(pending)
    {
      if e.Disconnect? {
        CloseWith(e.message);
        return Disconnected(e.message);
      }
      phase := Aborted;
      return Crashed(e);
    }

    /** One pass of the `while True` body: `_process_packet`, and when it
        raises, the end of the callback. */
    method Turn() returns (done: Option<Ending>, ghost evs: seq<Event>, ghost sent: seq<Packet>)
      requires phase == Serving
      modifies this, conn
      ensures done.Some? ==>
        && var t := Serve(old(pending));
        && events == old(events) + t.events && done.value == t.ending
        && conn.written == old(conn.written) + Frames(t.sent)
        && conn.closeCalls == old(conn.closeCalls) + (if done.value.Disconnected? then 1 else 0)
        && phase == (if done.value.Disconnected? then Closed else Aborted)
      ensures done.None? ==>
        && |pending| < |old(pending)| && phase == Serving
        && events == old(events) + evs && conn.written == old(conn.written) + Frames(sent)
        && conn.closeCalls == old(conn.closeCalls)
        && var t := Serve(pending);
        Serve(old(pending)) == Trace(evs + t.events, sent + t.sent, t.ending)
    {
      ghost var before := pending;
      ghost var s := Process(Next(before));
      var raised := ProcessPacket();
      if raised.Some? {
        ServeStops(before);
        if s.Crash? {
          CrashIsMissingAttribute(Next(before));
        }
        var ending := Finish(raised.value);
        assert Ended(s).sent == [];
        return Some(ending), [], [];
      }
      ClosedStreamStops();
      ServeContinues(before);
      return None, [Handled(s.packet)], s.sent;
    }

    /** The `while True` serve loop of `_on_connect_callback`. */
    method ServeLoop() returns (ending: Ending)
      requires phase == Serving
      modifies this, conn
      ensures var t := Serve(old(pending));
        && events == old(events) + t.events && ending == t.ending
        && conn.written == old(conn.written) + Frames(t.sent)
      ensures conn.closeCalls == old(conn.closeCalls) + (if ending.Disconnected? then 1 else 0)
      ensures phase == (if ending.Disconnected? then Closed else Aborted)
    {
      ghost var whole := Serve(pending);
      ghost var sent: seq<Packet> := [];
      ghost var handled: seq<Event> := [];
      while true
        invariant phase == Serving
        invariant conn.closeCalls == old(conn.closeCalls)
        invariant conn.written == old(conn.written) + Frames(sent)
        invariant events == old(events) + handled
        invariant var t := Serve(pending);
          handled + t.events == whole.events && sent + t.sent == whole.sent && t.ending == whole.ending
        decreases |pending|
      {
        ghost var before := Serve(pending);
        var done, evs, more := Turn();
        if done.Some? {
          Associative(old(events), handled, before.events);
          FramesAppend(sent, before.sent);
          Associative(old(conn.written), Frames(sent), Frames(before.sent));
          return done.value;
        }
        var t := Serve(pending);
        Associative(handled, evs, t.events);
        Associative(sent, more, t.sent);
        FramesAppend(sent, more);
        Associative(old(conn.written), Frames(sent), Frames(more));
        Associative(old(events), handled, evs);
        handled := handled + evs;
        sent := sent + more;
      }
    }

    /** `_on_connect_callback`. */
    method Run() returns (ending: Ending)
      requires phase == Created && events == []
      modifies this, conn
      ensures var run := Lifecycle(old(pending), version);
        && ending == run.ending && events == run.events
        && conn.written == old(conn.written) + Frames(run.sent)
      ensures conn.closeCalls == old(conn.closeCalls) + (if ending.Disconnected? then 1 else 0)
      ensures phase == (if ending.Disconnected? then Closed else Aborted)
    {
      var hs := ReadPacket();
      var gate := HandshakeVerdict(hs, version);
      if gate.Some? {
        CloseWith(gate.value);
        return Disconnected(gate.value);
      }
      phase := Serving;
      ending := ServeLoop();
    }
  }
}
