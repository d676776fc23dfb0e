/** Packet framing and registry dispatch. A frame on the wire is
      varint32(length) ++ varint32(packet ID) ++ payload
    where the length counts the ID and payload bytes. Decoding sorts every
    failure it recognises into one of three MalformedPacketError states:
    unreadable framing (MALFORMED_PACKET_DATA), an ID the registry does not
    know (UNRECOGNIZED_PACKET_ID) and a payload the packet class cannot
    read (MALFORMED_PACKET_BODY). */
module Framing {
  import opened Base
  import Varint
  import opened Packets
  import opened Exceptions
  import opened Network

  /** `PACKET_MAP`: packet ID to packet class. */
  type Registry = map<nat, PacketType>

  /** `_PACKETS`: the classes the zerocom registry is built from. */
  const PacketClasses: seq<PacketType> := [PingType, PongType]

  /** The registry the building loop leaves after inserting `types` in order. */
  function RegistryOf(types: seq<PacketType>): Registry
  {
    if |types| == 0 then map[]
    else
      var last := types[|types| - 1];
      RegistryOf(types[..|types| - 1])[Id(last) := last]
  }

  /** The registry-building loop. */
  method BuildRegistry(types: seq<PacketType>) returns (m: Registry)
    ensures m == RegistryOf(types)
  {
    m := map[];
    for i := 0 to |types|
      invariant m == RegistryOf(types[..i])
    {
      assert types[..i + 1][..i] == types[..i];
      m := m[Id(types[i]) := types[i]];
    }
    assert types[..|types|] == types;
  }

  /** The registry maps the ID of each listed class to that class, and has
      no other keys. */
  lemma {:induction false} RegistryContents(types: seq<PacketType>)
    ensures forall t :: t in types ==> Id(t) in RegistryOf(types) && RegistryOf(types)[Id(t)] == t
    ensures forall id :: id in RegistryOf(types) ==>
      RegistryOf(types)[id] in types && Id(RegistryOf(types)[id]) == id
  {
    if |types| > 0 {
      var init := types[..|types| - 1];
      var last := types[|types| - 1];
      RegistryContents(init);
      assert types == init + [last];
      forall t | t in types
        ensures Id(t) in RegistryOf(types) && RegistryOf(types)[Id(t)] == t
      {
        if t != last {
          assert t in init;
          IdsUnique(t, Id(last));
          IdsUnique(last, Id(t));
        }
      }
    }
  }

  /** The zerocom registry holds exactly Ping under 1 and Pong under 2, so
      the Handshake ID 3 is not a key. */
  lemma ZerocomRegistry()
    ensures RegistryOf(PacketClasses) == map[1 := PingType, 2 := PongType]
    ensures Id(HandshakeType) !in RegistryOf(PacketClasses)
  {
    assert PacketClasses[..1] == [PingType];
    assert [PingType][..0] == [];
  }

  /** `_serialize_packet(packet)`: varint32 of the ID, then the payload. */
  function SerializePacket(p: Packet): Option<seq<byte>>
  {
    match (Varint.Write32(PacketId(p)), Serialize(p))
    case (Some(id), Some(payload)) => Some(id + payload)
    case _ => None
  }

  /** What `write_packet(writer, packet)` emits: the varint32 length of the
      serialized packet, then the serialized packet. */
  function FrameOf(p: Packet): Option<seq<byte>>
  {
    match SerializePacket(p)
    case None => None
    case Some(buf) =>
      match Varint.Write32(|buf|)
      case None => None
      case Some(length) => Some(length + buf)
  }

  /** The layout of a frame: its length field reads back as the count of
      the bytes that follow it, which are the varint ID and the payload. */
  lemma FrameLayout(p: Packet)
    requires FrameOf(p).Some?
    ensures var body := Varint.Encode(PacketId(p)) + Serialize(p).value;
      && SerializePacket(p) == Some(body)
      && FrameOf(p) == Some(Varint.Encode(|body|) + body)
      && Varint.Read32(FrameOf(p).value) == Ok((|body|, body))
  {
    var body := SerializePacket(p).value;
    Varint.Read32Write32(|body|, body);
  }

  /** Which packets can be framed: those whose payload can be serialized
      and whose ID and payload together stay below 2^32 bytes. */
  lemma FrameDefined(p: Packet)
    ensures FrameOf(p).Some? <==>
      Serialize(p).Some? && |Varint.Encode(PacketId(p))| + |Serialize(p).value| < Limit32
  {
  }

  /** What `write_packet` puts on the wire for one packet: its frame, or
      nothing when it cannot be framed. */
  function FrameBytes(p: Packet): seq<byte>
  {
    FrameOf(p).GetOr([])
  }

  /** The bytes `write_packet` puts on the wire for the packets `ps`, in
      order. */
  function Frames(ps: seq<Packet>): seq<byte>
  {
    Flatten(FrameBytes, ps)
  }

  lemma FramesAppend(a: seq<Packet>, b: seq<Packet>)
    ensures Frames(a + b) == Frames(a) + Frames(b)
  {
    FlattenAppend(FrameBytes, a, b);
  }

  lemma FramesSingle(p: Packet)
    ensures Frames([p]) == FrameBytes(p)
  {
    assert [p][1..] == [];
    assert Flatten(FrameBytes, [p]) == FrameBytes(p) + Flatten(FrameBytes, []);
  }

  /** `_deserialize_packet(Buffer(data))` against the registry `reg`. All
      bytes after the ID go to the packet class, which may leave some. */
  function DeserializePacket(data: seq<byte>, reg: Registry): (r: Result<Packet, Exception>)
    ensures r.Ok? ==> Varint.Read32(data).Ok? && Varint.Read32(data).value.0 in reg
                      && TypeOf(r.value) == reg[Varint.Read32(data).value.0]
  {
    match Varint.Read32(data)
    case Err(e) => Err(Malformed(NewMalformed(MalformedPacketData, Some(e), None, None)))
    case Ok((id, body)) =>
      if id !in reg then Err(Malformed(NewMalformed(UnrecognizedPacketId, None, Some(id), None)))
      else
        match Deserialize(reg[id], body)
        case Ok(p) => Ok(p)
        case Err(IOErr(e)) => Err(Malformed(NewMalformed(MalformedPacketBody, Some(e), Some(id), None)))
        case Err(e) => Err(Builtin(e))
  }

  /** Round trip of the serialized packet: it deserializes to an equal
      packet under every registry that maps its ID to its class, and bytes
      after the payload are not rejected (`trailing == []` is the plain
      round trip). */
  lemma PacketRoundTrip(p: Packet, reg: Registry, trailing: seq<byte>)
    requires SerializePacket(p).Some?
    requires PacketId(p) in reg && reg[PacketId(p)] == TypeOf(p)
    ensures DeserializePacket(SerializePacket(p).value + trailing, reg) == Ok(p)
  {
    var payload := Serialize(p).value;
    var idb := Varint.Write32(PacketId(p)).value;
    assert SerializePacket(p).value == idb + payload;
    Associative(idb, payload, trailing);
    Varint.Read32Write32(PacketId(p), payload + trailing);
    RoundTrip(p, trailing);
  }

  /** The closed set of decode failures: one of the three framing states,
      or the UnicodeDecodeError of a token, which is not an IOError and
      passes through unclassified. */
  lemma DeserializeErrors(data: seq<byte>, reg: Registry)
    ensures var r := DeserializePacket(data, reg);
      r.Err? ==>
        || (r.error.Malformed? &&
            r.error.malformed.state in {MalformedPacketData, UnrecognizedPacketId, MalformedPacketBody})
        || r.error == Builtin(UnicodeDecode)
  {
  }

  /** Each failure carries what caused it: the varint IOError of the ID,
      the unknown ID, or the payload's IOError together with the ID. */
  lemma DeserializeErrorDetails(data: seq<byte>, reg: Registry)
    ensures var r := DeserializePacket(data, reg);
      var id := Varint.Read32(data);
      && (id.Err? <==> r.Err? && r.error.Malformed? && r.error.malformed.state == MalformedPacketData)
      && (id.Err? ==> r.error.malformed.ioerror == Some(id.error) && r.error.malformed.packetId.None?)
      && (id.Ok? && id.value.0 !in reg ==>
            r == Err(Malformed(NewMalformed(UnrecognizedPacketId, None, Some(id.value.0), None))))
      && (r.Err? && r.error.Malformed? && r.error.malformed.state == UnrecognizedPacketId ==>
            id.Ok? && id.value.0 !in reg)
      && (r.Err? && r.error.Malformed? && r.error.malformed.state == MalformedPacketBody ==>
            && id.Ok? && id.value.0 in reg
            && var body := Deserialize(reg[id.value.0], id.value.1);
            && body.Err? && body.error.IOErr?
            && r.error.malformed.ioerror == Some(body.error.io)
            && r.error.malformed.packetId == Some(id.value.0))
  {
    var r := DeserializePacket(data, reg);
    var id := Varint.Read32(data);
    if id.Ok? && id.value.0 !in reg {
      PacketDecidesId(UnrecognizedPacketId, None, Some(id.value.0), None);
    }
  }

  /** An unknown ID fails the same way whatever the payload: the payload is
      never handed to a packet class. */
  lemma UnrecognizedIgnoresBody(id: nat, body1: seq<byte>, body2: seq<byte>, reg: Registry)
    requires id < Limit32 && id !in reg
    ensures DeserializePacket(Varint.Encode(id) + body1, reg) ==
            DeserializePacket(Varint.Encode(id) + body2, reg) ==
            Err(Malformed(NewMalformed(UnrecognizedPacketId, None, Some(id), None)))
  {
    Varint.Read32Write32(id, body1);
    Varint.Read32Write32(id, body2);
  }

  /** With the zerocom registry a Handshake frame does not decode: its ID 3
      is reported as unrecognized. */
  lemma HandshakeUnrecognized(version: int)
    requires 0 <= version < Limit32
    ensures SerializePacket(Handshake(version)).Some?
    ensures DeserializePacket(SerializePacket(Handshake(version)).value, RegistryOf(PacketClasses)) ==
            Err(Malformed(NewMalformed(UnrecognizedPacketId, None, Some(3), None)))
  {
    ZerocomRegistry();
    UnrecognizedIgnoresBody(3, Serialize(Handshake(version)).value, [], RegistryOf(PacketClasses));
  }

  /** `reader.read_varint(max_bits=32)` on the stream, one byte per
      `read(1)`, with at most `groups` groups left. */
  function StreamVarintGroups(script: seq<Chunk>, groups: nat): (Result<nat, BuiltinError>, seq<Chunk>)
    decreases groups
  {
    if groups == 0 then (Err(IOErr(VarintTooLong)), script)
    else
      match ReadExact(script, 1)
      case (Err(e), rest) => (Err(e), rest)
      case (Ok(b), rest) =>
        if b[0] < 128 then (Ok(b[0]), rest)
        else
          match StreamVarintGroups(rest, groups - 1)
          case (Ok(v), rest2) => (Ok(b[0] - 128 + 128 * v), rest2)
          case (Err(e), rest2) => (Err(e), rest2)
  }

  function StreamVarint32(script: seq<Chunk>): (Result<nat, BuiltinError>, seq<Chunk>)
  {
    match StreamVarintGroups(script, Varint.Groups32)
    case (Ok(v), rest) => (if v < Limit32 then Ok(v) else Err(IOErr(VarintOutOfRange)), rest)
    case (Err(e), rest) => (Err(e), rest)
  }

  /** `read(1)` on the stream: the first available byte, or the closure or
      the timeout when there is none. */
  lemma ReadOneByte(script: seq<Chunk>)
    ensures var (r, rest) := ReadExact(script, 1);
      var avail := Available(script);
      && (|avail| > 0 ==> && r == Ok([avail[0]])
                          && Available(rest) == avail[1..]
                          && StallsAfter(rest) == StallsAfter(script))
      && (|avail| == 0 ==> r == Err(if StallsAfter(script) then Timeout else IOErr(NoResponse)))
  {
    ReadExactOutcome(script, 1);
    var avail := Available(script);
    if |avail| > 0 {
      assert avail[..1] == [avail[0]];
    }
  }

  /** Reading a varint from the stream decodes the bytes it has to give, as
      the Buffer does; running out of them is the closure or the timeout. */
  lemma {:induction false} StreamVarintGroupsAgrees(script: seq<Chunk>, groups: nat)
    decreases groups
    ensures var (r, rest) := StreamVarintGroups(script, groups);
      var d := Varint.DecodeGroups(Available(script), groups);
      && (d.Ok? ==> && r == Ok(d.value.0)
                    && Available(rest) == Available(script)[d.value.1..]
                    && StallsAfter(rest) == StallsAfter(script))
      && (d == Err(VarintTooLong) ==> r == Err(IOErr(VarintTooLong)))
      && (d.Err? && d.error != VarintTooLong ==>
            r == Err(if StallsAfter(script) then Timeout else IOErr(NoResponse)))
  {
    var avail := Available(script);
    if groups > 0 {
      ReadOneByte(script);
      if |avail| > 0 {
        var rest := ReadExact(script, 1).1;
        if avail[0] >= 128 {
          StreamVarintGroupsAgrees(rest, groups - 1);
          var d := Varint.DecodeGroups(avail[1..], groups - 1);
          if d.Ok? {
            assert avail[1..][d.value.1..] == avail[d.value.1 + 1..];
          }
        }
      }
    }
  }

  lemma StreamVarint32Agrees(script: seq<Chunk>)
    ensures var (r, rest) := StreamVarint32(script);
      var d := Varint.Read32(Available(script));
      && (d.Ok? ==> && r == Ok(d.value.0)
                    && Available(rest) == d.value.1
                    && StallsAfter(rest) == StallsAfter(script))
      && (d.Err? && (d.error == VarintTooLong || d.error == VarintOutOfRange) ==> r == Err(IOErr(d.error)))
      && (d.Err? && d.error != VarintTooLong && d.error != VarintOutOfRange ==>
            r == Err(if StallsAfter(script) then Timeout else IOErr(NoResponse)))
  {
    var avail := Available(script);
    StreamVarintGroupsAgrees(script, Varint.Groups32);
    var dg := Varint.DecodeGroups(avail, Varint.Groups32);
    if dg.Ok? {
      assert Varint.Read32(avail) ==
        if dg.value.0 < Limit32 then Ok((dg.value.0, avail[dg.value.1..])) else Err(VarintOutOfRange);
    } else {
      assert Varint.Read32(avail) == Err(dg.error);
    }
  }

  /** The framing error of an IOError raised while the frame is read. */
  function DataError(e: IOError): Exception
  {
    Malformed(NewMalformed(MalformedPacketData, Some(e), None, None))
  }

  /** `read_packet(reader)` on the stream `script` with the registry `reg`:
      the outcome and the stream afterwards. */
  function ReadPacketFrom(script: seq<Chunk>, reg: Registry): (Result<Packet, Exception>, seq<Chunk>)
  {
    match StreamVarint32(script)
    case (Err(IOErr(e)), rest) => (Err(DataError(e)), rest)
    case (Err(e), rest) => (Err(Builtin(e)), rest)
    case (Ok(length), rest) =>
      match ReadExact(rest, length)
      case (Err(IOErr(e)), rest2) => (Err(DataError(e)), rest2)
      case (Err(e), rest2) => (Err(Builtin(e)), rest2)
      case (Ok(data), rest2) => (DeserializePacket(data, reg), rest2)
  }

  /** A whole frame on the stream is read off it, whatever the registry
      then makes of its body, and the stream is left right after it. */
  lemma StreamFrame(p: Packet, reg: Registry, script: seq<Chunk>, more: seq<byte>)
    requires FrameOf(p).Some?
    requires Available(script) == FrameOf(p).value + more
    ensures var (r, rest) := ReadPacketFrom(script, reg);
      && r == DeserializePacket(SerializePacket(p).value, reg)
      && Available(rest) == more && StallsAfter(rest) == StallsAfter(script)
  {
    var body := SerializePacket(p).value;
    assert FrameOf(p).value == Varint.Write32(|body|).value + body;
    Associative(Varint.Write32(|body|).value, body, more);
    StreamLengthPrefix(script, |body|, body + more);
    var rest := StreamVarint32(script).1;
    StreamBody(rest, body, more);
    ReadPacketFromParts(script, reg, |body|, body);
  }

  /** `read_packet` is the length read, the body read and the decode, in
      that order. */
  lemma ReadPacketFromParts(script: seq<Chunk>, reg: Registry, n: nat, data: seq<byte>)
    requires StreamVarint32(script).0 == Ok(n)
    requires ReadExact(StreamVarint32(script).1, n).0 == Ok(data)
    ensures ReadPacketFrom(script, reg)
      == (DeserializePacket(data, reg), ReadExact(StreamVarint32(script).1, n).1)
  {
  }

  /** A stream whose bytes start with the varint of `n` yields `n` as the
      frame length and keeps the bytes after the varint. */
  lemma StreamLengthPrefix(script: seq<Chunk>, n: nat, tail: seq<byte>)
    requires n < Limit32
    requires Available(script) == Varint.Write32(n).value + tail
    ensures var (r, rest) := StreamVarint32(script);
      r == Ok(n) && Available(rest) == tail && StallsAfter(rest) == StallsAfter(script)
  {
    Varint.Read32Write32(n, tail);
    StreamVarint32Agrees(script);
  }

  /** Reading `|body|` bytes off a stream that holds `body + more` yields
      `body` and leaves `more`. */
  lemma StreamBody(rest: seq<Chunk>, body: seq<byte>, more: seq<byte>)
    requires Available(rest) == body + more
    ensures var (r, rest2) := ReadExact(rest, |body|);
      r == Ok(body) && Available(rest2) == more && StallsAfter(rest2) == StallsAfter(rest)
  {
    ReadExactOutcome(rest, |body|);
    assert (body + more)[..|body|] == body;
    assert (body + more)[|body|..] == more;
  }

  /** Round trip over the stream: a written frame reads back as an equal
      packet however the stream splits it into deliveries, and exactly the
      frame's bytes are consumed. */
  lemma StreamRoundTrip(p: Packet, reg: Registry, script: seq<Chunk>, more: seq<byte>)
    requires FrameOf(p).Some?
    requires PacketId(p) in reg && reg[PacketId(p)] == TypeOf(p)
    requires Available(script) == FrameOf(p).value + more
    ensures var (r, rest) := ReadPacketFrom(script, reg);
      r == Ok(p) && Available(rest) == more && StallsAfter(rest) == StallsAfter(script)
  {
    StreamFrame(p, reg, script, more);
    PacketRoundTrip(p, reg, []);
    assert SerializePacket(p).value + [] == SerializePacket(p).value;
  }

  /** The closed set of `read_packet` failures: never NO_DATA and never
      UNEXPECTED_PACKET; besides the three framing states only the timeout
      and a token's UnicodeDecodeError escape, unclassified. */
  lemma ReadPacketErrors(script: seq<Chunk>, reg: Registry)
    ensures var r := ReadPacketFrom(script, reg).0;
      r.Err? ==>
        || (r.error.Malformed? &&
            r.error.malformed.state in {MalformedPacketData, UnrecognizedPacketId, MalformedPacketBody})
        || r.error in {Builtin(Timeout), Builtin(UnicodeDecode)}
  {
    var (len, rest) := StreamVarint32(script);
    StreamVarint32Agrees(script);
    if len.Ok? {
      ReadExactOutcome(rest, len.value);
      var data := ReadExact(rest, len.value).0;
      if data.Ok? {
        DeserializeErrors(data.value, reg);
      }
    }
  }

  /** A stream that closes before any byte of a frame arrives fails with
      the framing error carrying the no-response IOError; one that stalls
      instead fails with the timeout. */
  lemma EmptyStream(script: seq<Chunk>, reg: Registry)
    requires Available(script) == []
    ensures ReadPacketFrom(script, reg).0 ==
      (if StallsAfter(script) then Err(Builtin(Timeout)) else Err(DataError(NoResponse)))
  {
    StreamVarint32Agrees(script);
  }

  /** A frame cut short after its length field: the framing error carries
      the partial-data IOError with the bytes that did arrive. */
  lemma TruncatedFrame(script: seq<Chunk>, reg: Registry, length: nat, part: seq<byte>)
    requires length < Limit32 && 0 < |part| < length
    requires Available(script) == Varint.Encode(length) + part && !StallsAfter(script)
    ensures ReadPacketFrom(script, reg).0 == Err(DataError(StoppedResponding(|part|, length, part)))
  {
    Varint.Read32Write32(length, part);
    StreamVarint32Agrees(script);
    ReadExactOutcome(StreamVarint32(script).1, length);
  }

  /** `write_packet(conn, packet)`. */
  method WritePacket(conn: Connection, p: Packet) returns (r: Result<(), BuiltinError>)
    modifies conn
    ensures r.Ok? <==> FrameOf(p).Some?
    ensures r.Err? ==> r.error == ValueOutOfRange
    ensures conn.written == old(conn.written) + (if FrameOf(p).Some? then FrameOf(p).value else [])
    ensures conn.incoming == old(conn.incoming) && conn.closeCalls == old(conn.closeCalls)
  {
    match SerializePacket(p)
    case None =>
      return Err(ValueOutOfRange);
    case Some(buf) =>
      FrameParts(p, buf);
      match Varint.Write32(|buf|)
      case None =>
        return Err(ValueOutOfRange);
      case Some(length) =>
        ghost var before := conn.written;
        conn.Write(length);
        conn.Write(buf);
        Associative(before, length, buf);
        return Ok(());
  }

  /** A frame is the length field of the serialized packet, then that
      packet; it exists exactly when the length field does. */
  lemma FrameParts(p: Packet, buf: seq<byte>)
    requires SerializePacket(p) == Some(buf)
    ensures FrameOf(p).Some? <==> Varint.Write32(|buf|).Some?
    ensures FrameOf(p).Some? ==> FrameOf(p).value == Varint.Write32(|buf|).value + buf
  {
  }

  /** `read_varint(max_bits=32)` of the connection, with at most `groups`
      groups left. */
  method ReadVarintGroups(conn: Connection, groups: nat) returns (r: Result<nat, BuiltinError>)
    modifies conn
    decreases groups
    ensures (r, conn.incoming) == StreamVarintGroups(old(conn.incoming), groups)
    ensures conn.written == old(conn.written) && conn.closeCalls == old(conn.closeCalls)
  {
    if groups == 0 {
      return Err(IOErr(VarintTooLong));
    }
    var b := conn.Read(1);
    match b
    case Err(e) =>
      return Err(e);
    case Ok(bs) =>
      if bs[0] < 128 {
        return Ok(bs[0]);
      }
      var v := ReadVarintGroups(conn, groups - 1);
      match v
      case Err(e) =>
        return Err(e);
      case Ok(high) =>
        return Ok(bs[0] - 128 + 128 * high);
  }

  /** `read_packet(conn)`. */
  method ReadPacket(conn: Connection, reg: Registry) returns (r: Result<Packet, Exception>)
    modifies conn
    ensures (r, conn.incoming) == ReadPacketFrom(old(conn.incoming), reg)
    ensures conn.written == old(conn.written) && conn.closeCalls == old(conn.closeCalls)
  {
    var len := ReadVarintGroups(conn, Varint.Groups32);
    if len.Ok? && len.value >= Limit32 {
      return Err(DataError(VarintOutOfRange));
    }
    match len
    case Err(IOErr(e)) =>
      return Err(DataError(e));
    case Err(e) =>
      return Err(Builtin(e));
    case Ok(length) =>
      var data := conn.Read(length);
      match data
      case Err(IOErr(e)) =>
        return Err(DataError(e));
      case Err(e) =>
        return Err(Builtin(e));
      case Ok(bytes) =>
        return DeserializePacket(bytes, reg);
  }
}
