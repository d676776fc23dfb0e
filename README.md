# zerocom / bytelink protocol stack in Dafny

This project models the core of a small binary client/server protocol and
proves properties of that model. The model covers four layers.

- **Packets and framing.** There are three packet types: Ping (ID 1,
  server-bound), Pong (ID 2, client-bound) and Handshake (ID 3,
  server-bound).
  - A frame on the wire is `varint32(len) ++ varint32(ID) ++ payload`.
  - A registry, built by a loop, maps IDs to packet classes.
  - Decoding sorts every IOError into one of the three framing states of
    `MalformedPacketState`. A token's UnicodeDecodeError and the read
    timeout are not IOErrors and escape unclassified.
- **The connection.** `read(length)` accumulates deliveries of the
  underlying stream reader until it holds exactly `length` bytes. The model
  of the peer's stream is a script of chunks: a chunk is either bytes,
  handed out at most `n` at a time, or a stall, which stands for the
  timeout. `write` and `close` act on the writer.
- **The error taxonomy.** This layer covers:
  - the five malformed-packet states and their texts
  - the message a `MalformedPacketError` composes
  - the `ReadError` and `ProcessingError` wrappers
  - `DisconnectError`.
- **The server and the client.**
  - The server's accept callback runs the handshake gate. It then runs the
    serve loop, which reclassifies read and processing failures and answers
    each Ping with a Pong. At the end it calls `on_close` and `close`.
  - The client's `connect` writes a Handshake and a Ping, then checks the
    Pong it reads back. Leaving the client closes its connection.

The modules follow the program:

| module | file |
|---|---|
| `Base` | bytes, Option/Result, the built-in exceptions |
| `Varint`, `Utf8`, `Codec` | the Buffer primitives the packets use |
| `Packets` | the packet types |
| `Exceptions` | the error taxonomy |
| `Network` | the stream and `Connection` |
| `Framing` | `zerocom/packets/__init__.py` |
| `Server` | the server callback: pure step functions plus a `Session` class whose methods follow the source |
| `Client` | the client |
| `Scenarios` | whole conversations between the two |

### What the server model is about

- The server is modelled on the outcomes its `read_packet` calls yield, one
  per call. After the last outcome the stream counts as closed.
- `Serve` and `Lifecycle` say which handler calls occur, which packets are
  written and how the callback ends. The `Session` methods are proved to
  follow them.
- `Ended` and `Crashed` are the two ways the callback ends. `Crashed` means
  an exception escaped the callback, leaving the connection open.

### Behaviour of the code worth noting

- **Client errors.** On a bad reply the client raises a plain `Exception`
  ("..." or "not match"), not a DisconnectError. The model follows the code.
- **The "Timed out" branch.** The server treats a NO_DATA read failure
  carrying the no-response IOError as "Timed out". The zerocom `read_packet`
  never produces NO_DATA, so with that framing every read failure goes
  through `on_error` (`Server.FramedFailuresGoThroughOnError`). The branch
  is still modelled, for other readers.
- **Registry mismatch.** The registry in `zerocom/packets/__init__.py`
  lists only Ping and Pong. A client Handshake read through it is therefore
  an unknown packet ID, and the server refuses the handshake
  (`Scenarios.RegistryMismatch`). For this reason every framing lemma takes
  the registry as a parameter.

### Reference definitions

These functions define the behaviour the lemmas and methods are proved
against; their properties are the rows below that cite the same lines.

- `Server.HandshakeVerdict` (bytelink/network/server.py:137-154): the handshake gate's refusal reason, if any.
- `Server.Reply` (bytelink/network/server.py:173-182): the packets `on_packet` writes, or its ValueError.
- `Server.Process` (bytelink/network/server.py:91-113): one iteration of `_process_packet`.
- `Server.Serve` (bytelink/network/server.py:81-89): the serve loop over the remaining read outcomes.
- `Server.Lifecycle` (bytelink/network/server.py:64-89): the whole accept callback, handshake gate included.
- `Client.ConnectVerdict` (bytelink/network/client.py:37-44): the client's check of the reply.

## Model

| member | source | states |
|---|---|---|
| Packets.IdsUnique | zerocom/packets/ping.py:28-37 | The IDs 1, 2, 3 name exactly one class each; an ID lookup inverts `PACKET_ID`. |
| Packets.Deserialize | zerocom/packets/ping.py:22-25 | `deserialize` called on a class builds an instance of that class. |
| Packets.PingPongShareFormat | zerocom/packets/ping.py:12-25 | Ping and Pong serialize a token identically; Ping's deserialize succeeds exactly when Pong's does, on the same token. |
| Packets.SerializeDefined | zerocom/packets/ping.py:17-20 | A payload can be written exactly when the version fits 32 bits or the token's UTF-8 length is below 2^32. |
| Packets.RoundTrip | zerocom/packets/ping.py:17-25 | Every serializable packet deserializes, with its own class, to an equal packet, whatever bytes follow. |
| Packets.HandshakePayload | zerocom/packets/handshaking.py:19-27 | The Handshake payload is exactly the varint of the version, and reads back as that version. |
| Varint.Encode | zerocom/packets/handshaking.py:21-22 | A varint ends with the one group below 128; every earlier group has the continuation bit. |
| Varint.EncodeLengthBound | zerocom/packets/handshaking.py:21-22 | A value below 128^k takes at most k groups. |
| Varint.Encode32Length | zerocom/packets/handshaking.py:21-22 | A 32-bit value takes at most five groups. |
| Varint.Write32 | zerocom/packets/handshaking.py:21-22 | `write_varint(max_bits=32)` succeeds exactly on 0 <= v < 2^32, with 1 to 5 bytes. |
| Varint.DecodeGroups | zerocom/packets/handshaking.py:26-27 | A decoded varint consumed between one byte and the group budget. |
| Varint.Read32 | zerocom/packets/handshaking.py:26-27 | `read_varint(max_bits=32)` yields a value below 2^32 and a strict suffix as the rest of the buffer. |
| Varint.DecodeEncode | zerocom/packets/handshaking.py:19-27 | An encoded value decodes back, whatever follows, within any sufficient budget. |
| Varint.Read32Write32 | zerocom/packets/handshaking.py:19-27 | Round trip of the 32-bit varint: it reads back as the value, leaving the bytes after it. |
| Utf8.EncodeChar | zerocom/packets/ping.py:17-20 | A character encodes to one to four bytes. |
| Utf8.DecodeChar | zerocom/packets/ping.py:22-25 | A decoded character consumes between one byte and the whole input. |
| Utf8.EncodeLength | zerocom/packets/ping.py:17-20 | A string's encoding is at most four bytes per character. |
| Utf8.DecodeEncodeChar | zerocom/packets/ping.py:17-25 | One encoded character decodes back, whatever follows. |
| Utf8.EncodeDecodeChar | zerocom/packets/ping.py:17-25 | A decoded character re-encodes to exactly the bytes it was read from. |
| Utf8.DecodeEncode | zerocom/packets/ping.py:17-25 | Strict decoding inverts encoding on every string. |
| Utf8.EncodeDecode | zerocom/packets/ping.py:17-25 | Every byte string that decodes is the encoding of its decoding, so decoding is injective. |
| Utf8.DecodeStep | zerocom/packets/ping.py:22-25 | A decodable byte string starts with a decodable character, followed by a decodable rest. |
| Codec.WriteUtf | zerocom/packets/ping.py:17-20 | `write_utf` succeeds exactly when the UTF-8 byte count is below 2^32. |
| Codec.ReadUtf | zerocom/packets/ping.py:22-25 | `read_utf` leaves a strict suffix of the buffer unread. |
| Codec.ReadUtfWriteUtf | zerocom/packets/ping.py:17-25 | A written string reads back, and the cursor stops right after it. |
| Codec.WriteUtfDefined | zerocom/packets/ping.py:17-20 | A string below 2^30 characters can be written, in at most 5 + 4n bytes. |
| Base.TextIsNoResponseText | bytelink/network/connection.py:28-34 | The no-response text belongs to the no-response IOError alone; the partial-data text never equals it. |
| Exceptions.PacketDecidesId | zerocom/exceptions.py:77-95 | A supplied packet overrides the `packet_id` argument with its `PACKET_ID`; state, IOError and packet are stored unchanged; the message's tail then starts with that packet's ID, whatever ID was passed. |
| Exceptions.TextIdentifiesState | zerocom/exceptions.py:36-43 | The five state texts are distinct: a message that starts with one starts with no other. |
| Exceptions.MessageNamesState | zerocom/exceptions.py:91-95 | The message starts with the state's text, and that text determines the state. |
| Exceptions.BareMessage | zerocom/exceptions.py:83-95 | The message is the bare state text exactly when no IOError, no packet and no truthy ID is given (ID 0 is omitted). |
| Exceptions.TailOrder | zerocom/exceptions.py:83-93 | With every detail present the tail lists the ID, then the IOError, then the packet, joined by ", " in parentheses. |
| Framing.BuildRegistry | zerocom/packets/__init__.py:9-13 | The registry loop computes `RegistryOf` of the listed classes. |
| Framing.RegistryContents | zerocom/packets/__init__.py:12-13 | Each listed class is stored under its own ID, and every key holds a listed class with that ID. |
| Framing.ZerocomRegistry | zerocom/packets/__init__.py:9-13 | The shipped registry is exactly {1: Ping, 2: Pong}; the Handshake ID 3 is not a key. |
| Framing.FrameLayout | zerocom/packets/__init__.py:24-29 | A frame is varint(length) followed by varint(ID) and the payload, and the length field reads back as the byte count of ID plus payload. |
| Framing.FrameDefined | zerocom/packets/__init__.py:51-55 | A packet can be framed exactly when its payload can be written and ID plus payload stay below 2^32 bytes. |
| Framing.FramesAppend | zerocom/packets/__init__.py:51-55 | The bytes written for two runs of packets are those of the first run, then those of the second. |
| Framing.DeserializePacket | zerocom/packets/__init__.py:32-48 | A decoded packet has the class the registry holds for the ID read from the buffer. |
| Framing.PacketRoundTrip | zerocom/packets/__init__.py:24-48 | A serialized packet deserializes to an equal packet under every registry that maps its ID to its class, whatever bytes follow the payload: the decoder does not reject leftovers. |
| Framing.DeserializeErrors | zerocom/packets/__init__.py:32-48 | Every decode failure is MALFORMED_PACKET_DATA, UNRECOGNIZED_PACKET_ID, MALFORMED_PACKET_BODY, or a token's UnicodeDecodeError passed through. |
| Framing.DeserializeErrorDetails | zerocom/packets/__init__.py:34-48 | Data failures occur exactly when the ID varint fails, and carry its IOError. An unknown ID carries the ID. Body failures carry the payload's IOError and the ID. |
| Framing.UnrecognizedIgnoresBody | zerocom/packets/__init__.py:40-43 | An unknown ID fails identically whatever the payload: it is never handed to a class. |
| Framing.HandshakeUnrecognized | zerocom/packets/__init__.py:9-13 | Under the shipped registry a serialized Handshake is an unrecognized packet ID 3. |
| Framing.StreamVarintGroupsAgrees | zerocom/packets/__init__.py:61 | Reading a varint byte by byte from the stream decodes the bytes the stream has to give. Running out is the closure or the timeout. |
| Framing.StreamVarint32Agrees | zerocom/packets/__init__.py:61 | Reading the 32-bit length from the stream agrees with the Buffer's `read_varint` on the available bytes, including both range errors. |
| Framing.StreamFrame | zerocom/packets/__init__.py:58-65 | A whole frame on the stream is consumed exactly and its body passed to `_deserialize_packet`, however the stream splits it. |
| Framing.StreamRoundTrip | zerocom/packets/__init__.py:51-65 | `read_packet` of the bytes `write_packet` produced yields an equal packet, consuming exactly the frame. |
| Framing.ReadPacketErrors | zerocom/packets/__init__.py:58-65 | `read_packet` fails only with the three framing states, the timeout, or a UnicodeDecodeError. It never fails with NO_DATA or UNEXPECTED_PACKET. |
| Framing.EmptyStream | zerocom/packets/__init__.py:60-64 | A stream closed before any byte fails as MALFORMED_PACKET_DATA with the no-response IOError; a stalled one fails with the timeout. |
| Framing.TruncatedFrame | zerocom/packets/__init__.py:60-64 | A frame cut short after its length fails as MALFORMED_PACKET_DATA with the partial-data IOError and the bytes that arrived. |
| Framing.WritePacket | zerocom/packets/__init__.py:51-55 | Writes exactly the frame; fails with ValueError, writing nothing, exactly when the packet cannot be framed. |
| Framing.ReadVarintGroups | zerocom/packets/__init__.py:61 | The byte-by-byte varint read computes the stream varint and leaves the writer alone. |
| Framing.ReadPacket | zerocom/packets/__init__.py:58-65 | `read_packet` on a connection computes `ReadPacketFrom` of its stream, and the stream advances accordingly. |
| Network.Deliver | bytelink/network/connection.py:27 | A delivery is nonempty and never longer than requested. |
| Network.DeliverTakesFront | bytelink/network/connection.py:27 | A delivery hands out the front of the available bytes in order, or signals closure or the timeout when none are available. |
| Network.ReadLoop | bytelink/network/connection.py:25-37 | A successful read has exactly the requested length. |
| Network.ReadLoopEnough | zerocom/network/connection.py:21-33 | With enough bytes available the loop returns the next bytes in order and leaves the rest on the stream. |
| Network.ReadLoopShort | bytelink/network/connection.py:28-34 | With too few bytes the loop fails: with the timeout, with the no-data error if nothing arrived, or with the partial-data error carrying count, length and bytes. |
| Network.ReadLoopOutcome | bytelink/network/connection.py:24-37 | Both cases of the read loop, by how many bytes the stream has to give. |
| Network.ReadExactOutcome | zerocom/network/connection.py:20-33 | `read(length)` succeeds exactly when `length` bytes are available, returning them in order. `read(0)` consults nothing. Closure and stall give the three errors. |
| Network.Connection.Read | bytelink/network/connection.py:24-37 | The accumulation loop computes `ReadExact` of the stream and leaves the writer untouched. |
| Network.Connection.Write | bytelink/network/connection.py:39-40 | The data is appended to the writer unchanged. |
| Network.Connection.Close | zerocom/network/connection.py:38-39 | One `writer.close()` call, nothing else changes. |
| Server.ServerRead | bytelink/network/server.py:51-58 | A packet passes exactly when it is server-bound; failures pass through unchanged. |
| Server.PongUnexpected | bytelink/network/server.py:55-56 | A Pong is rejected as UNEXPECTED_PACKET whose message names the Pong's ID and the packet. |
| Server.HandshakeAccepts | bytelink/network/server.py:137-154 | The gate admits exactly a Handshake with the server's own version. |
| Server.HandshakeRejected | bytelink/network/server.py:72-79 | A rejected handshake's whole trace is one `on_close` with the gate's reason, then close: no packet is handled and nothing is written. |
| Server.HandshakeAdmits | bytelink/network/server.py:72-81 | After an accepted handshake the callback is the serve loop on the following reads. |
| Server.PongFitsFrame | bytelink/network/server.py:176-179 | The reply's size condition is exactly that the Pong can be framed. |
| Server.PingReply | bytelink/network/server.py:173-179 | A Ping's reply is one Pong, and its frame reads back at the client as a Pong with the identical token. |
| Server.NoReplyUnlessPing | bytelink/network/server.py:180-182 | Any other packet gets no reply and no error. |
| Server.DisconnectReraised | bytelink/network/server.py:93-96 | A DisconnectError from reading is re-raised unchanged: the loop stops with its message and no handler runs. |
| Server.ReadFailureWraps | bytelink/network/server.py:97-105 | Every read failure other than a DisconnectError and NO_DATA is handed to `on_error` as `ReadError(exc, "Unexpected error while reading packet")`, `on_packet` is skipped, and the loop stops with "...". |
| Server.ProcessingFailure | bytelink/network/server.py:107-113 | A failing `on_packet` (a Ping whose Pong cannot be framed) is followed by `on_error` with `ProcessingError(ValueError, "Unexpected error while processing packet")`. |
| Server.TimeoutCase | bytelink/network/server.py:98-101 | A NO_DATA failure becomes "Timed out" exactly when its IOError is the no-response one; otherwise it goes through `on_error`. |
| Server.CrashIsMissingAttribute | bytelink/network/server.py:98-100 | The only exception escaping a step is the AttributeError of NO_DATA without an IOError. |
| Server.DataErrorStops | bytelink/network/server.py:103-105 | A MALFORMED_PACKET_DATA failure of the framing is wrapped in ReadError for `on_error`, which disconnects with "...". |
| Server.ClosedStreamStops | bytelink/network/server.py:160-168 | Reading a closed stream never lets the loop go on. |
| Server.ProcessContinues | bytelink/network/server.py:91-113 | The loop goes on exactly after a server-bound packet whose handling succeeded; every other outcome ends it. |
| Server.PingContinues | bytelink/network/server.py:176-179 | A Ping whose Pong fits continues the loop, answered by that Pong. |
| Server.StopCallsNoClose | bytelink/network/server.py:91-113 | `_process_packet` itself never calls `on_close`. |
| Server.ServeClosed | bytelink/network/server.py:81-89 | Once the reads run out, the closed stream ends the loop through `on_error`, `on_close` and `close`. |
| Server.ServeClosesOnce | bytelink/network/server.py:81-89 | `on_close` runs exactly once, last, with the disconnect reason; if an exception escapes it never runs. |
| Server.LifecycleClosesOnce | bytelink/network/server.py:64-89 | The same for the whole callback, gate included. |
| Server.ServeUpToFailure | bytelink/network/server.py:81-113 | The loop handles and answers every read before the first failing one, in order. That failure decides the ending, and nothing after it is read. |
| Server.EndedSendsNothing | bytelink/network/server.py:103-113 | An iteration that ends the loop writes nothing, and hands `on_packet` no Ping whose Pong could be framed. |
| Server.EndedHandlesUnframablePing | bytelink/network/server.py:103-113 | The only packet an iteration that ends the loop hands to `on_packet` is a Ping whose Pong cannot be framed. |
| Server.ContinueSends | bytelink/network/server.py:173-182 | A continuing iteration writes the Pong its Ping asks for, and nothing for other packets. |
| Server.ServeSendsPongs | bytelink/network/server.py:173-182 | Over the loop the server writes exactly one Pong with the same token per handled Ping, in order, and nothing else. |
| Server.LifecycleSendsPongs | bytelink/network/server.py:64-89 | The same for the whole callback. |
| Server.FramedFailuresGoThroughOnError | bytelink/network/server.py:93-105 | With the zerocom framing a read failure always goes through `on_error`, as a ReadError wrapping exactly that failure; it neither times out nor crashes. |
| Server.Session.constructor | bytelink/network/server.py:70 | A fresh session: nothing handled, nothing closed. |
| Server.Session.ReadPacket | bytelink/network/server.py:51-58 | Consumes one read outcome and applies the server-bound check. |
| Server.Session.OnPacket | bytelink/network/server.py:173-182 | Records the handler call and writes the frames of the reply; a write failure is raised, writing nothing. |
| Server.Session.OnError | bytelink/network/server.py:160-168 | Records the handler call and always disconnects with "...". |
| Server.Session.CloseWith | bytelink/network/server.py:85-89 | `on_close` with the reason, then exactly one `close`. |
| Server.Session.ProcessPacket | bytelink/network/server.py:91-113 | One `_process_packet`: its handler calls, writes and raised exception are those of the step function. |
| Server.Session.Finish | bytelink/network/server.py:84-89 | A DisconnectError leads to `on_close` and one `close`; any other exception leaves the connection open. |
| Server.Session.Turn | bytelink/network/server.py:81-89 | One loop iteration either ends the callback as the loop function says, or leaves a shorter rest whose loop completes the same run. |
| Server.Session.ServeLoop | bytelink/network/server.py:81-89 | The `while True` loop produces exactly the handler calls, bytes and ending of `Serve`, closing once on disconnect. |
| Server.Session.Run | bytelink/network/server.py:64-89 | The accept callback produces exactly the handler calls, bytes and ending of `Lifecycle`, closing once on disconnect. |
| Client.ConnectAccepts | bytelink/network/client.py:37-44 | `connect` succeeds exactly on a Pong with its own token; a read failure, a non-Pong and a token mismatch each raise their error. |
| Client.HelloFrames | bytelink/network/client.py:29-36 | Both packets of `connect` can be framed, so its writes never raise. |
| Client.PingFrames | bytelink/network/client.py:34-36 | A Ping or Pong with the token can be framed. |
| Client.HelloBytes | bytelink/network/client.py:29-36 | The bytes of `connect` are the Handshake frame followed by the Ping frame. |
| Client.Client.constructor | bytelink/network/client.py:17-20 | `__init__` keeps the connection; the token field holds "myrandomtoken", the literal `connect` puts in its Ping (client.py:35). |
| Client.Client.SendHello | bytelink/network/client.py:29-36 | Writes the Handshake frame, then the Ping frame, and reads nothing. |
| Client.Client.Connect | bytelink/network/client.py:29-44 | Writes Handshake then Ping, then reads exactly one packet, and raises exactly as `ConnectVerdict` says of the reply. |
| Client.Client.Exit | bytelink/network/client.py:49-50 | Leaving the client closes the connection once. |
| Client.ConnectSucceeds | bytelink/network/client.py:37-44 | A Pong frame with the token, under a registry that knows Pong, satisfies `connect`. |
| Scenarios.PingConversation | bytelink/network/server.py:64-113 | Handshake then Ping: the Ping is handled and answered with its Pong, and the closed stream then ends the connection through `on_error`. |
| Scenarios.PingAnswered | bytelink/network/client.py:37-44 | The bytes the server writes in that conversation satisfy the client's check. |
| Scenarios.VersionMismatch | bytelink/network/server.py:147-152 | Another protocol version is turned away with the server's version in the reason, before anything else is read. |
| Scenarios.RegistryMismatch | bytelink/network/server.py:137-141 | The client's Handshake under the shipped registry is an unknown ID 3, and the server refuses the handshake. |
| Scenarios.AllClassesRegistry | zerocom/packets/__init__.py:12-13 | A registry listing all three classes maps each ID to its class. |
| Scenarios.FullRegistry | zerocom/packets/__init__.py:51-65 | Under such a registry the client's bytes read back as its Handshake and then its Ping, and nothing more. |

## Left out

- asyncio is not modelled:
  - The event loop, `start_server`, `open_connection` and the server's `__aenter__`/`__aexit__` and `listen` are socket and scheduling plumbing.
  - `Client.create` and the addresses (`getsockname`) are the same. A connection is built directly from its stream script.
  - The timeout is not time: a scripted stall stands for `asyncio.wait_for` raising TimeoutError. TimeoutError is treated as not an IOError, so it escapes `read_packet` unclassified. This is the rule of Python before 3.11; from 3.11 on `asyncio.TimeoutError` is the built-in `TimeoutError`, an `OSError`, and `read_packet`'s `except IOError` would report it as MALFORMED_PACKET_DATA.
- Logging, `print` and the `!r`/`str` renderings of exceptions and packets are partly abstract. Packet texts omit Python's object addresses. IOError texts stand for the reprs of the messages.
- Configuration loading and the entry-point scripts are out of scope, as are `zerocom/network/server.py` (a stub loop) and the blocking-socket legacy code. Only `PROTOCOL_VERSION = 1` (bytelink/config.py:9) is used.
- `zerocom/protocol/buffer.py` and `base_io` are not part of this model. The Buffer is specified in its place:
  - Varints are unsigned base-128, least significant group first, within a 32-bit budget.
  - Strings are a varint byte count followed by strict UTF-8, following RFC 3629.
  - A write out of range raises ValueError. A short read raises IOError. Invalid UTF-8 raises UnicodeDecodeError, which is not an IOError.
  - The Buffer's own error texts are stand-ins.
- Dafny's `char` excludes lone surrogates, so strings holding them, which Python's encoder would reject, are not modelled.
- `bytelink.packets` is not part of this model. The bytelink client is given the zerocom framing, with the registry as a parameter. The server's `Session` reads abstract read outcomes and has no registry; only its writes and the bridging lemmas (`Server.FramedFailuresGoThroughOnError`, `Scenarios.RegistryMismatch`, `Scenarios.FullRegistry`) use the zerocom framing.
- The server's `close` in a `finally` after an `on_close` that raises is not modelled: `Server.on_close` only logs and cannot raise.
- Negative read lengths are not modelled: lengths are `nat`, and the framing never asks for a negative one.
- Client.Client.Connect: requires a token of fewer than 2^28 characters, so that both frames fit their 32-bit length field. The constructor fixes the token to the 13-character "myrandomtoken". Client.HelloFrames, Client.PingFrames, Client.HelloBytes, Client.ConnectSucceeds and the scenario lemmas carry the same bound.
