/** The reference packet types. Each concrete type has a fixed packet ID and
    a direction tag; instances are immutable values. Ping (ID 1, server-bound)
    and Pong (ID 2, client-bound) share one payload, a UTF-8 token; Handshake
    (ID 3, server-bound) carries a protocol version as a 32-bit varint. */
module Packets {
  import opened Base
  import Varint
  import Utf8
  import Codec

  datatype Direction = ServerBound | ClientBound

  /** The concrete packet classes: what a registry maps IDs to. */
  datatype PacketType = PingType | PongType | HandshakeType

  datatype Packet =
    | Ping(token: string)
    | Pong(token: string)
    | Handshake(protocolVersion: int)

  function TypeOf(p: Packet): PacketType
  {
    match p
    case Ping(_) => PingType
    case Pong(_) => PongType
    case Handshake(_) => HandshakeType
  }

  /** The class-level `PACKET_ID`. */
  function Id(t: PacketType): nat
  {
    match t
    case PingType => 1
    case PongType => 2
    case HandshakeType => 3
  }

  function PacketId(p: Packet): nat
  {
    Id(TypeOf(p))
  }

  function Bound(t: PacketType): Direction
  {
    match t
    case PingType => ServerBound
    case PongType => ClientBound
    case HandshakeType => ServerBound
  }

  /** The packet type with a given ID, if any. */
  function TypeWithId(id: nat): (r: Option<PacketType>)
  {
    if id == 1 then Some(PingType)
    else if id == 2 then Some(PongType)
    else if id == 3 then Some(HandshakeType)
    else None
  }

  /** IDs are unique: `TypeWithId` inverts `Id`, and no other ID names a type. */
  lemma IdsUnique(t: PacketType, id: nat)
    ensures TypeWithId(Id(t)) == Some(t)
    ensures TypeWithId(id) == Some(t) ==> id == Id(t)
  {
  }

  /** `serialize()`: the payload bytes, or None where a varint write raises
      ValueError (a version outside 32 bits, a token of 2^32 bytes or more). */
  function Serialize(p: Packet): (r: Option<seq<byte>>)
  {
    match p
    case Ping(token) => Codec.WriteUtf(token)
    case Pong(token) => Codec.WriteUtf(token)
    case Handshake(version) => Varint.Write32(version)
  }

  /** `cls.deserialize(buffer)` for the class `t`. The bytes after the
      payload are left unread and are not rejected. */
  function Deserialize(t: PacketType, data: seq<byte>): (r: Result<Packet, BuiltinError>)
    ensures r.Ok? ==> TypeOf(r.value) == t
  {
    match t
    case PingType =>
      (match Codec.ReadUtf(data)
       case Ok((token, _)) => Ok(Ping(token))
       case Err(e) => Err(e))
    case PongType =>
      (match Codec.ReadUtf(data)
       case Ok((token, _)) => Ok(Pong(token))
       case Err(e) => Err(e))
    case HandshakeType =>
      (match Varint.Read32(data)
       case Ok((version, _)) => Ok(Handshake(version))
       case Err(e) => Err(IOErr(e)))
  }

  /** Ping and Pong share one payload format, and each deserializes to an
      instance of the class it is called on. */
  lemma PingPongShareFormat(token: string, data: seq<byte>)
    ensures Serialize(Ping(token)) == Serialize(Pong(token))
    ensures Deserialize(PingType, data).Ok? <==> Deserialize(PongType, data).Ok?
    ensures Deserialize(PingType, data).Ok? ==>
      Deserialize(PongType, data).value == Pong(Deserialize(PingType, data).value.token)
  {
  }

  /** Which packets can be serialized at all. */
  lemma SerializeDefined(p: Packet)
    ensures Serialize(p).Some? <==>
      (if p.Handshake? then 0 <= p.protocolVersion < Limit32
       else |Utf8.Encode(p.token)| < Limit32)
  {
  }

  /** Round trip: the payload of a packet deserializes, with its own class,
      to an equal packet, whatever bytes follow it. */
  lemma {:induction false} RoundTrip(p: Packet, trailing: seq<byte>)
    requires Serialize(p).Some?
    ensures Deserialize(TypeOf(p), Serialize(p).value + trailing) == Ok(p)
  {
    match p
    case Ping(token) => Codec.ReadUtfWriteUtf(token, trailing);
    case Pong(token) => Codec.ReadUtfWriteUtf(token, trailing);
    case Handshake(version) => Varint.Read32Write32(version, trailing);
  }

  /** The handshake payload is exactly the 32-bit varint of the version. */
  lemma HandshakePayload(version: int)
    requires 0 <= version < Limit32
    ensures Serialize(Handshake(version)) == Some(Varint.Encode(version))
    ensures Deserialize(HandshakeType, Varint.Encode(version)) == Ok(Handshake(version))
  {
    Varint.Read32Write32(version, []);
    assert Varint.Encode(version) + [] == Varint.Encode(version);
  }
}
