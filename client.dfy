/** The client: `connect` sends a Handshake with the protocol version and a
    Ping with a fixed token, reads one packet back and accepts only a Pong
    carrying the same token; leaving the client closes its connection. */
module Client {
  import opened Base
  import Varint
  import Codec
  import opened Packets
  import opened Exceptions
  import opened Network
  import opened Framing
  import Server

  /** The token `connect` sends. */
  const Token: string := "myrandomtoken"

  /** The two packets `connect` writes, in order, for the token `token`. */
  function Hello(token: string): seq<Packet>
  {
    [Handshake(Server.ProtocolVersion), Ping(token)]
  }

  /** The check `connect` applies to the packet it reads back, for the
      token `token` it sent. */
  function ConnectVerdict(resp: Result<Packet, Exception>, token: string): Result<(), Exception>
  {
    match resp
    case Err(e) => Err(e)
    case Ok(p) =>
      if !p.Pong? then Err(Plain("..."))
      else if p.token != token then Err(Plain("not match"))
      else Ok(())
  }

  /** `connect` succeeds exactly on a Pong with its own token; a read
      failure is passed on unchanged. */
  lemma ConnectAccepts(resp: Result<Packet, Exception>, token: string)
    ensures ConnectVerdict(resp, token).Ok? <==> resp == Ok(Pong(token))
    ensures resp.Err? ==> ConnectVerdict(resp, token) == Err(resp.error)
    ensures resp.Ok? && !resp.value.Pong? ==> ConnectVerdict(resp, token) == Err(Plain("..."))
    ensures resp.Ok? && resp.value.Pong? && resp.value.token != token ==>
      ConnectVerdict(resp, token) == Err(Plain("not match"))
  {
  }

  /** Both packets of `connect` can be framed for any token of fewer than
      2^28 characters, so its writes never raise. */
  lemma HelloFrames(token: string)
    requires |token| < 0x1000_0000
    ensures FrameOf(Handshake(Server.ProtocolVersion)).Some?
    ensures FrameOf(Ping(token)).Some?
  {
    PingFrames(token);
    FrameDefined(Handshake(Server.ProtocolVersion));
  }

  /** A Ping or Pong with a token of fewer than 2^28 characters can be
      framed. */
  lemma PingFrames(token: string)
    requires |token| < 0x1000_0000
    ensures FrameOf(Ping(token)).Some? && FrameOf(Pong(token)).Some?
  {
    Codec.WriteUtfDefined(token);
    assert Serialize(Ping(token)) == Codec.WriteUtf(token) == Serialize(Pong(token));
    assert |Varint.Encode(1)| == 1 && |Varint.Encode(2)| == 1;
    FrameDefined(Ping(token));
    FrameDefined(Pong(token));
  }

  /** The bytes `connect` writes: the Handshake frame, then the Ping frame. */
  lemma HelloBytes(token: string)
    requires |token| < 0x1000_0000
    ensures FrameOf(Handshake(Server.ProtocolVersion)).Some? && FrameOf(Ping(token)).Some?
    ensures Frames(Hello(token)) ==
      FrameOf(Handshake(Server.ProtocolVersion)).value + FrameOf(Ping(token)).value
  {
    HelloFrames(token);
    var h, q := Handshake(Server.ProtocolVersion), Ping(token);
    assert Hello(token) == [h] + [q];
    FramesAppend([h], [q]);
    FramesSingle(h);
    FramesSingle(q);
  }

  class Client {
    /** The connection to the server. */
    const conn: Connection
    /** The registry `read_packet` decodes the reply with. */
    const registry: Registry
    /** The token `connect` sends and expects back. */
    const token: string

    constructor (conn: Connection, registry: Registry)
      ensures this.conn == conn && this.registry == registry && token == Token
    {
      this.conn := conn;
      this.registry := registry;
      token := Token;
    }

    /** The two writes of `connect`: the Handshake, then the Ping. Neither
        can fail for a token of fewer than 2^28 characters. */
    method SendHello()
      requires |token| < 0x1000_0000
      modifies conn
      ensures conn.written == old(conn.written) + Frames(Hello(token))
      ensures conn.incoming == old(conn.incoming) && conn.closeCalls == old(conn.closeCalls)
    {
      HelloBytes(token);
      var w1 := WritePacket(conn, Handshake(Server.ProtocolVersion));
      var w2 := WritePacket(conn, Ping(token));
    }

    /** `connect()`: the exception it raises, if any. */
    method Connect() returns (r: Result<(), Exception>)
      requires |token| < 0x1000_0000
      modifies conn
      ensures conn.written == old(conn.written) + Frames(Hello(token))
      ensures var (resp, rest) := ReadPacketFrom(old(conn.incoming), registry);
        r == ConnectVerdict(resp, token) && conn.incoming == rest
      ensures conn.closeCalls == old(conn.closeCalls)
    {
      SendHello();
      var resp := ReadPacket(conn, registry);
      if resp.Err? {
        return Err(resp.error);
      }
      if !resp.value.Pong? {
        return Err(Plain("..."));
      }
      if resp.value.token != token {
        return Err(Plain("not match"));
      }
      return Ok(());
    }

    /** `__aexit__`: closes the connection. */
    method Exit()
      modifies conn
      ensures conn.closeCalls == old(conn.closeCalls) + 1
      ensures conn.written == old(conn.written) && conn.incoming == old(conn.incoming)
    {
      conn.Close();
    }
  }

  /** A server that answers with the frame of a Pong with the token, under
      a registry that maps the Pong's ID to Pong, satisfies `connect`. */
  lemma ConnectSucceeds(token: string, script: seq<Chunk>, reg: Registry, more: seq<byte>)
    requires |token| < 0x1000_0000
    requires Id(PongType) in reg && reg[Id(PongType)] == PongType
    requires Available(script) == Frames([Pong(token)]) + more
    ensures ConnectVerdict(ReadPacketFrom(script, reg).0, token) == Ok(())
  {
    PingFrames(token);
    FramesSingle(Pong(token));
    assert FrameOf(Pong(token)).value + more == Frames([Pong(token)]) + more;
    StreamRoundTrip(Pong(token), reg, script, more);
  }
}
