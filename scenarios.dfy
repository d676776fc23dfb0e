/** Whole conversations between the client and the server, each from the
    packets one side writes to what the other side makes of them. */
module Scenarios {
  import opened Base
  import opened Packets
  import opened Exceptions
  import opened Network
  import opened Framing
  import opened Server
  import Client

  /** The readings of a stream after a matching handshake and a Ping: the
      Ping is handled and answered with a Pong with its token; the next
      read finds the stream closed, which `on_error` turns into the
      disconnect. */
  lemma PingConversation(token: string)
    requires |token| < 0x1000_0000
    ensures var run := Lifecycle([Ok(Handshake(ProtocolVersion)), Ok(Ping(token))], ProtocolVersion);
      && run.events == [Handled(Ping(token)), ErrorHandled(ReadErr(ClosedStream.error, ReadNote)),
                        ClosedWith(OnErrorReason)]
      && run.sent == [Pong(token)]
      && run.ending == Disconnected(OnErrorReason)
  {
    var pending := [Ok(Ping(token))];
    assert [Ok(Handshake(ProtocolVersion)), Ok(Ping(token))] == [Ok(Handshake(ProtocolVersion))] + pending;
    HandshakeAdmits(ProtocolVersion, pending);
    Client.PingFrames(token);
    PongFitsFrame(token);
    PingContinues(token);
    assert Next(pending) == Ok(Ping(token)) && Later(pending) == [];
    ServeContinues(pending);
    ServeClosed();
  }

  /** The bytes the server writes in that conversation are accepted by the
      client's `connect`, under any registry that knows Pong. */
  lemma PingAnswered(token: string, reg: Registry, script: seq<Chunk>, more: seq<byte>)
    requires |token| < 0x1000_0000
    requires Id(PongType) in reg && reg[Id(PongType)] == PongType
    requires Available(script) ==
      Frames(Lifecycle([Ok(Handshake(ProtocolVersion)), Ok(Ping(token))], ProtocolVersion).sent) + more
    ensures Client.ConnectVerdict(ReadPacketFrom(script, reg).0, token) == Ok(())
  {
    PingConversation(token);
    Client.ConnectSucceeds(token, script, reg, more);
  }

  /** A client of another protocol version is turned away by the gate with
      the server's version in the reason, before anything else is read. */
  lemma VersionMismatch(clientVersion: int, serverVersion: int, later: seq<ReadOutcome>)
    requires clientVersion != serverVersion
    ensures Lifecycle([Ok(Handshake(clientVersion))] + later, serverVersion) ==
      var reason := "Mismatched protocol versions, server version: " + DecimalString(serverVersion);
      Trace([ClosedWith(reason)], [], Disconnected(reason))
  {
    assert Next([Ok(Handshake(clientVersion))] + later) == Ok(Handshake(clientVersion));
  }

  /** The client's first frame under the zerocom registry, which has no
      Handshake: the server fails to read the handshake and disconnects. */
  lemma RegistryMismatch(token: string, script: seq<Chunk>, more: seq<byte>, later: seq<ReadOutcome>)
    requires |token| < 0x1000_0000
    requires Available(script) == Frames(Client.Hello(token)) + more
    ensures var r := ReadPacketFrom(script, RegistryOf(PacketClasses)).0;
      && r == Err(Malformed(NewMalformed(UnrecognizedPacketId, None, Some(3), None)))
      && Lifecycle([r] + later, ProtocolVersion) ==
           Trace([ClosedWith("Failed to read handshake packet")], [], Disconnected("Failed to read handshake packet"))
  {
    var h := Handshake(ProtocolVersion);
    Client.HelloBytes(token);
    var tail := FrameOf(Ping(token)).value + more;
    assert Available(script) == FrameOf(h).value + tail;
    StreamFrame(h, RegistryOf(PacketClasses), script, tail);
    HandshakeUnrecognized(ProtocolVersion);
    var r := ReadPacketFrom(script, RegistryOf(PacketClasses)).0;
    assert Next([r] + later) == r;
  }

  /** A registry that lists all three classes maps each class's ID to it. */
  lemma AllClassesRegistry()
    ensures forall t :: (Id(t) in RegistryOf([PingType, PongType, HandshakeType])
      && RegistryOf([PingType, PongType, HandshakeType])[Id(t)] == t)
  {
    var types := [PingType, PongType, HandshakeType];
    RegistryContents(types);
    assert types[0] == PingType && types[1] == PongType && types[2] == HandshakeType;
  }

  /** With a registry that maps every class's ID to that class, such as
      the one of `AllClassesRegistry`, the client's bytes read back as its
      Handshake and then its Ping, and nothing more of them. */
  lemma FullRegistry(token: string, reg: Registry, script: seq<Chunk>, more: seq<byte>)
    requires |token| < 0x1000_0000
    requires forall t :: Id(t) in reg && reg[Id(t)] == t
    requires Available(script) == Frames(Client.Hello(token)) + more
    ensures var (first, rest) := ReadPacketFrom(script, reg);
      var (second, rest2) := ReadPacketFrom(rest, reg);
      && first == Ok(Handshake(ProtocolVersion)) && second == Ok(Ping(token))
      && Available(rest2) == more && StallsAfter(rest2) == StallsAfter(script)
  {
    var h, q := Handshake(ProtocolVersion), Ping(token);
    assert PacketId(h) in reg && PacketId(q) in reg;
    Client.HelloBytes(token);
    var tail := FrameOf(q).value + more;
    assert Available(script) == FrameOf(h).value + tail;
    StreamRoundTrip(h, reg, script, tail);
    var rest := ReadPacketFrom(script, reg).1;
    StreamRoundTrip(q, reg, rest, more);
  }
}
