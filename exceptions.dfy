/** The protocol's error taxonomy: the five malformed-packet states with their
    fixed texts, the message a MalformedPacketError composes from its
    state and its optional details, the ReadError / ProcessingError wrappers
    and DisconnectError. Python's exceptions are values of `Exception`. */
module Exceptions {
  import opened Base
  import opened Packets

  datatype MalformedPacketState =
    | NoData
    | MalformedPacketData
    | UnrecognizedPacketId
    | MalformedPacketBody
    | UnexpectedPacket

  /** `state.value`. */
  function StateText(s: MalformedPacketState): string
  {
    match s
    case NoData => "No data were received"
    case MalformedPacketData => "Failed to read packet data"
    case UnrecognizedPacketId => "Unknown packet id"
    case MalformedPacketBody => "Failed to deserialize packet"
    case UnexpectedPacket => "This packet type was not expected"
  }

  datatype MalformedPacketError = MalformedPacketError(
    state: MalformedPacketState,
    ioerror: Option<IOError>,
    packetId: Option<nat>,
    packet: Option<Packet>,
    msg: string)

  datatype Exception =
    | Builtin(builtin: BuiltinError)
    | Malformed(malformed: MalformedPacketError)
    | Disconnect(message: string)
      /** `ReadError(exc, note)`: keeps the wrapped exception in `exc`. */
    | ReadErr(exc: Exception, note: string)
      /** `ProcessingError(exc, note)`: keeps the wrapped exception in `exc`. */
    | ProcessingErr(exc: Exception, note: string)
      /** A bare `Exception(msg)`. */
    | Plain(msg: string)

  /** `str(packet)`. Python's default rendering adds the object's address,
      which is not modelled. */
  function PacketText(p: Packet): string
  {
    match p
    case Ping(_) => "<zerocom.packets.ping.Ping object>"
    case Pong(_) => "<zerocom.packets.ping.Pong object>"
    case Handshake(_) => "<zerocom.packets.handshaking.Handshake object>"
  }

  /** The entries of the message tail, in their fixed order; each one only
      when its value is present and truthy (so packet ID 0 is left out). */
  function MessageTail(packetId: Option<nat>, ioerror: Option<IOError>, packet: Option<Packet>): seq<string>
  {
    (if packetId.Some? && packetId.value != 0 then [IdEntry(packetId.value)] else [])
    + (if ioerror.Some? then [IOErrorEntry(ioerror.value)] else [])
    + (if packet.Some? then [PacketEntry(packet.value)] else [])
  }

  function IdEntry(id: nat): string { "Packet ID: " + DecimalString(id) }
  function IOErrorEntry(e: IOError): string { "Underlying IOError data: " + IOErrorRepr(e) }
  function PacketEntry(p: Packet): string { "Packet: " + PacketText(p) }

  /** `", ".join(parts)`. */
  function Join(parts: seq<string>): string
  {
    if |parts| == 0 then ""
    else if |parts| == 1 then parts[0]
    else parts[0] + ", " + Join(parts[1..])
  }

  function ComposeMessage(state: MalformedPacketState, tail: seq<string>): string
  {
    StateText(state) + (if |tail| > 0 then " (" + Join(tail) + ")" else "")
  }

  /** `MalformedPacketError(state, ioerror=..., packet_id=..., packet=...)`. */
  function NewMalformed(state: MalformedPacketState, ioerror: Option<IOError>, packetId: Option<nat>,
                        packet: Option<Packet>): MalformedPacketError
  {
    var id := if packet.Some? then Some(PacketId(packet.value)) else packetId;
    MalformedPacketError(state, ioerror, id, packet, ComposeMessage(state, MessageTail(id, ioerror, packet)))
  }

  /** A supplied packet decides `packet_id`, whatever `packet_id` argument
      was given; otherwise the argument is kept. The other fields are kept.
      With a packet the message's tail therefore starts with that packet's
      ID, never with the argument. */
  lemma PacketDecidesId(state: MalformedPacketState, ioerror: Option<IOError>, packetId: Option<nat>,
                        packet: Option<Packet>)
    ensures var e := NewMalformed(state, ioerror, packetId, packet);
      && e.state == state && e.ioerror == ioerror && e.packet == packet
      && e.packetId == (if packet.Some? then Some(PacketId(packet.value)) else packetId)
    ensures packet.Some? ==>
      NewMalformed(state, ioerror, packetId, packet).msg
        == ComposeMessage(state, [IdEntry(PacketId(packet.value))] + MessageTail(None, ioerror, packet))
  {
    if packet.Some? {
      var io := if ioerror.Some? then [IOErrorEntry(ioerror.value)] else [];
      var pk := [PacketEntry(packet.value)];
      assert PacketId(packet.value) != 0;
      assert MessageTail(None, ioerror, packet) == io + pk;
      assert MessageTail(Some(PacketId(packet.value)), ioerror, packet)
          == [IdEntry(PacketId(packet.value))] + (io + pk);
    }
  }

  lemma PrefixOfAppend(a: string, b: string)
    ensures a <= a + b
  {
    assert (a + b)[..|a|] == a;
  }

  /** Two texts that differ at a position both reach cannot both start the
      same message. */
  lemma NotPrefix(o: string, t: string, msg: string, k: nat)
    requires t <= msg && k < |o| && k < |t| && o[k] != t[k]
    ensures !(o <= msg)
  {
    assert msg[k] == t[k];
  }

  /** A message that starts with one state's text starts with no other
      state's text. */
  lemma TextIdentifiesState(state: MalformedPacketState, msg: string)
    requires StateText(state) <= msg
    ensures forall other :: StateText(other) <= msg ==> other == state
  {
    var t := StateText(state);
    forall other | other != state
      ensures !(StateText(other) <= msg)
    {
      var o := StateText(other);
      var k := if o[0] != t[0] then 0 else 10;
      NotPrefix(o, t, msg, k);
    }
  }

  /** The message starts with the state's text, and that text identifies
      the state: no other state's text can start the same message. */
  lemma MessageNamesState(state: MalformedPacketState, tail: seq<string>)
    ensures StateText(state) <= ComposeMessage(state, tail)
    ensures forall other :: StateText(other) <= ComposeMessage(state, tail) ==> other == state
  {
    PrefixOfAppend(StateText(state), if |tail| > 0 then " (" + Join(tail) + ")" else "");
    TextIdentifiesState(state, ComposeMessage(state, tail));
  }

  /** The message is the bare state text exactly when nothing truthy was
      supplied; otherwise the tail is appended in parentheses. */
  lemma BareMessage(state: MalformedPacketState, ioerror: Option<IOError>, packetId: Option<nat>,
                    packet: Option<Packet>)
    ensures var e := NewMalformed(state, ioerror, packetId, packet);
      e.msg == StateText(state) <==>
        ioerror.None? && packet.None? && (packetId.None? || packetId.value == 0)
  {
    var e := NewMalformed(state, ioerror, packetId, packet);
    var tail := MessageTail(e.packetId, ioerror, packet);
    if |tail| > 0 {
      assert |e.msg| > |StateText(state)|;
    }
  }

  /** With every detail present the tail lists the ID, then the IOError,
      then the packet, each entry once. */
  lemma TailOrder(state: MalformedPacketState, ioerror: IOError, packet: Packet)
    ensures NewMalformed(state, Some(ioerror), None, Some(packet)).msg ==
      ComposeMessage(state, [IdEntry(PacketId(packet)), IOErrorEntry(ioerror), PacketEntry(packet)])
  {
    var a, b, c := IdEntry(PacketId(packet)), IOErrorEntry(ioerror), PacketEntry(packet);
    var tail := MessageTail(Some(PacketId(packet)), Some(ioerror), Some(packet));
    assert tail == [a, b, c] by {
      assert PacketId(packet) != 0;
      assert tail == [a] + [b] + [c];
      assert [a] + [b] + [c] == [a, b, c];
    }
  }
}
