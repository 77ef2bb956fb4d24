# RTMP relay and transcoder: a Dafny model of the wire stack

This project models the parts of the repository that turn messages into bytes and bytes back into messages, and the
state machines around them:

* the RTMP **chunk layer**: the incremental parser with its per-stream header compression, reassembly, chunk-size
  switching and carry-over buffer, and the encoder;
* the **session** on top of it, AMF 0 values and command messages;
* the **client's write path** through a socket that takes only some of the bytes, the byte **buffer** below it, and
  the **relay pusher's** queue and drop policy;
* the **handshake** on both ends, the **H.264 framing** between encoder, wire and decoder, and the **time base** of
  the transcoder's output.

Objects that the source updates in place are classes whose methods follow the source's steps; each is tied by its
contract to a function of the old state, and the laws are lemmas about those functions.

| file | contents |
|---|---|
| `Bytes.dfy`, `Messages.dfy`, `Wrappers.dfy` | integers of fixed width, byte order, control payloads |
| `Chunks.dfy` | the chunk layer as functions |
| `ChunkParser.dfy` | the parser object and the encoder loop |
| `Fragmentation.dfy` | how far results depend on where reads are cut |
| `ParserInvariants.dfy` | carry-over and reassembly in every reachable state |
| `RoundTrip.dfy`, `RoundTripLimits.dfy` | parser against encoder, and exactly when they are inverse |
| `Conformance.dfy`, `WireFormat.dfy` | chunks as the RTMP specification has them, and the bytes of the wire one by one |
| `Multiplex.dfy` | interleaved messages on several chunk streams |
| `Amf0.dfy`, `Amf0Codec.dfy`, `Amf0Laws.dfy`, `Amf0Format.dfy`, `Commands.dfy` | AMF 0, its bytes, and command messages |
| `NetBuffer.dfy`, `Sessions.dfy`, `Delivery.dfy` | buffer, session, delivery between two sessions |
| `Clients.dfy` | the client: handshake, write path, and how it ends |
| `PushUrls.dfy`, `Relays.dfy`, `Pushers.dfy`, `Dialogues.dfy` | the relay queue, the pusher that drives a client, and what it says to its server |
| `EndToEnd.dfy` | everything joined together |
| `Handshakes.dfy`, `Connections.dfy` | the handshake's steps, and a whole connection from its first byte on |
| `Avc.dfy`, `AvcCodec.dfy`, `Passthrough.dfy` | H.264 framing and output timestamps |

## Main results

* **Delivery.** For every run of sends on a session and every way of cutting the bytes into reads, the peer reports a
  beginning of the messages sent at any time, and exactly those messages once all bytes have arrived, with the
  sender's chunk size (`Delivery.PrefixDelivered`, `Delivery.AllDelivered`; on the objects `EndToEnd.Transfer`).
  Joined with the write path, the handshake and the relay queue: `EndToEnd.ClientToServer`,
  `EndToEnd.BehindTheHandshake`, `EndToEnd.RelayedToServer`, `EndToEnd.RelayedOverConnection`.
* **Fragmentation.** Cutting any bytes in any way changes timestamps at most. A cut is harmless for every
  continuation exactly if no fmt 1 or fmt 2 header with a non-zero delta is left waiting, and otherwise the very next
  byte shows the difference: such a header is applied once per read (`Fragmentation.CutsAgreeUpToTime`,
  `CutIsHarmlessIff`, `DeltaCountsTwice`).
* **Round trip.** A message survives encoder and parser exactly if it is not empty and below 2^24 bytes, its chunk
  stream id is in 2..65599, and its timestamp is below 0xFFFFFF or its payload fits into one chunk
  (`RoundTripLimits.RoundTripIff`).
* **Conformance.** Of a sender that repeats extended timestamps as section 5.3.1.3 of the RTMP specification has it, the
  parser reads every message with its time, in any number of chunks; the repository's own encoder is such a sender
  exactly for the messages that survive (`Conformance.SpecMessageReadsBack`, `Conformance.EncoderConformsIff`). Headers,
  control messages, AMF 0 values and video tags are fixed byte by byte (`WireFormat`, `Amf0Format`,
  `Avc.ConfigTagBytes`).
* **Demultiplexing.** Any interleaving at chunk boundaries, also across changes of the chunk size, cut into any reads
  (`Multiplex.Demultiplexed`, `EachMessageOnce`).
* **AMF 0.** Round trip with any tail exactly for values whose strings and keys fit into 16-bit lengths; whatever bytes
  are decoded, the value encodes and decodes back to itself (`Amf0Laws.DecodeEncodeIff`, `Amf0Laws.Normalised`).
* **Relay.** Over whole runs a client is handed exactly what the policy kept, then every later media message, in order
  (`Relays.RunOrdered`, with `OldestKeeps`, `LatestStep`, `NewestKeeps` for what that is); byte accounting and limits
  (`Relays.RunBounded`). What a pusher says to its server, word by word, and that it says it before any media:
  `Dialogues.RunSays`, `Dialogues.RunIntroduced`, `EndToEnd.CommandsToServer`.
* **Write path.** Over any life of a client, reads, errors and hang-ups included, no byte is lost or reordered under
  partial writes, and no wake-up is lost if nothing is sent while it is connecting (`Clients.RunConserved`,
  `Clients.RunWatched`, on the object `Clients.Client.HandleAll`; joined with a receiving session in
  `EndToEnd.Upload`).
* **Handshake.** On a whole connection between this repository's client and server, whatever both ends do and however
  reads are cut, a server that gets through has passed on exactly a beginning of the client's messages
  (`Connections.RunAligned`, `Connections.MessagesPassedOn`); with any other client, `Connections.AlignedIff` and
  `Connections.AnsweredIff`.
* **Video.** `Avc.FramingRoundTripIff`, `Passthrough.RunIsExpected`.

## Where the code departs from what it promises

The model follows the code in each of these. Where the departure depends on the input, the exact condition is proved,
and one input that shows it.

* The encoder writes no extended timestamp on continuation chunks, the parser expects one
  (`src/rtmp/rtmp_chunks.cpp:129-135`, `src/rtmp/rtmp_chunks.cpp:286-307`): `RoundTripLimits.AmbiguousIsLost`,
  `RoundTripLimits.TwoBytesAreLost`.
* A delta header is applied again after every short read (`src/rtmp/rtmp_chunks.cpp:99-124`):
  `Fragmentation.CutIsHarmlessIff`, `Fragmentation.FiveBecomesTen`.
* A fmt 3 header on a chunk stream that never had a fmt 0 or fmt 1 header is taken for an empty message of chunk
  stream 0 (`src/rtmp/rtmp_chunks.cpp:127`): `ParserInvariants.NamelessIff`, `ParserInvariants.NamelessStep`,
  `ParserInvariants.NamedByFullHeaders`, `ParserInvariants.MessageFromNowhere`.
* The session sets an announced chunk size again without the parser's range check
  (`src/rtmp/rtmp_session.cpp:36-40`): `Delivery.ReapplyingIsHarmlessIff`, `Delivery.ZeroSizeIsApplied`.
* `Buffer::append` may compact into memory behind the vector's size, and a later resize overwrites those bytes with
  zeros (`src/net/buffer.cpp:9-15`): contract of `NetBuffer.Buffer.Append`, `NetBuffer.LastByteIsWiped`. Sessions never
  consume, so that their buffers stay intact.
* DropOldest drops one message only, which may not be enough (`src/relay/relay_manager.cpp:577-583`):
  `Relays.OldestExceedsIff`, `Relays.ElevenBytesQueued`.
* The server throws away bytes of C2 that it reads together with C1 (`src/relay/relay_manager.cpp:135-147`):
  `Connections.AlignedIff`, `Connections.ByteIsLost`.
* The server never answers a handshake that arrives in one read (`src/relay/relay_manager.cpp:100-112`):
  `Connections.AnsweredIff`, `Connections.NoAnswer`.
* The end of the connecting phase switches write events off even if something is waiting
  (`src/rtmp/rtmp_client.cpp:61-64`): `Clients.WakeUpLostIff`, `Clients.WakeUpIsLost`.
* After a partial write of C0 and C1 the client writes them again from the first byte
  (`src/rtmp/rtmp_client.cpp:59-69`): `Clients.HelloOnceIff`, `Clients.HelloIsRepeated`.
* The client writes pending messages as soon as C0 and C1 are out, whether or not C2 is; only its callers wait
  (`src/rtmp/rtmp_client.cpp:99-154`): `Clients.C2FollowsIff`, `Connections.EarlySendOvertakesC2`. What the callers keep
  to is `Connections.Orderly`.
* The repository's README speaks of edge-triggered epoll; the code asks for level-triggered events
  (`src/rtmp/rtmp_client.cpp:53`), and so does the model.

## Model

| member | source | states |
|---|---|---|
| Bytes.ReadsU16Be | include/core/bytes.hpp:9-50 | reading a big-endian 16-bit word finds v exactly where the bytes are those written for v |
| Bytes.ReadsU24Be | include/core/bytes.hpp:13-56 | the same for 24 bits; only the low 24 bits of a written word survive |
| Bytes.ReadsU32Be | include/core/bytes.hpp:19-63 | the same for 32 bits, most significant byte first |
| Bytes.ReadsU32Le | include/core/bytes.hpp:26-70 | the same for 32 bits, least significant byte first |
| Bytes.ReadsU64Be | include/core/bytes.hpp:33-83 | the same for the 64-bit pattern of a double |
| Bytes.ReadsByPlace | include/core/bytes.hpp:9-45 | what each reader makes of single bytes, by their places |
| Bytes.FourWritten | include/core/bytes.hpp:58-63 | the digits of a number in base 256, the highest first |
| Bytes.ThreeWritten | include/core/bytes.hpp:52-56 | the same for three bytes |
| Bytes.LittleWritten | include/core/bytes.hpp:65-70 | the digits the lowest first |
| Bytes.EightWritten | include/core/bytes.hpp:72-83 | the same for the 64-bit pattern of a double, the highest first |
| Messages.SetChunkSizeRoundTrip | src/rtmp/rtmp_messages.cpp:7-21 | an announced chunk size is read back exactly when its top bit is clear, which is masked off |
| Messages.WindowPayloads | src/rtmp/rtmp_messages.cpp:33-55 | the window size in front, and the limit type behind it |
| Chunks.BasicHeader | src/rtmp/rtmp_chunks.cpp:19-40 | a basic header takes one to three bytes and names a chunk stream in 2..65599, whatever the bytes |
| Chunks.Step | src/rtmp/rtmp_chunks.cpp:153-237 | a chunk that is taken uses at least one byte and no more than there are; one cut short leaves fewer than 18 + chunk size bytes |
| ChunkParsers.ChunkParser.ParseHeader | src/rtmp/rtmp_chunks.cpp:15-46 | changes the stream table, short reads included, and reports header and size as the chunk layer's functions say |
| ChunkParsers.ChunkParser.ParseMessageHeader | src/rtmp/rtmp_chunks.cpp:42-139 | the four formats: fields read, fields inherited, the remembered header, extended timestamps |
| ChunkParsers.ChunkParser.AddPayload | src/rtmp/rtmp_chunks.cpp:196-236 | a payload extends its stream's message; a finished one comes out, resets the stream and may change the chunk size |
| ChunkParsers.ChunkParser.TakeChunk | src/rtmp/rtmp_chunks.cpp:153-205 | a chunk is taken whole or not at all |
| ChunkParsers.ChunkParser.SetChunkSize | src/rtmp/rtmp_chunks.cpp:11-13 | changes the chunk size and nothing else |
| ChunkParsers.ChunkParser.Parse | src/rtmp/rtmp_chunks.cpp:141-255 | messages, new state, carry-over buffer and consumed count of one read on any bytes |
| ChunkParsers.EncodeChunk | src/rtmp/rtmp_chunks.cpp:257-325 | the encoder loop produces the chunks of the message, one behind the other |
| RoundTrip.BasicHeaderReadsBack | src/rtmp/rtmp_chunks.cpp:268-284 | the three forms of a basic header are read back for every chunk stream id in 2..65599 |
| RoundTrip.MessageHeaderReadsBack | src/rtmp/rtmp_chunks.cpp:286-307 | a full header, with or without an extended timestamp, is read back field by field |
| RoundTrip.CompressedReadsBack | src/rtmp/rtmp_chunks.cpp:77-125 | fmt 1 and fmt 2 headers written as in sections 5.3.1.2.2 and 5.3.1.2.3 of the RTMP specification give back the header they were compressed from, timestamps modulo 2^32 |
| RoundTrip.OneChunk | src/rtmp/rtmp_chunks.cpp:153-236 | one encoded chunk is taken whole, whatever follows and whatever the other streams hold |
| RoundTrip.MessageReadsBack | src/rtmp/rtmp_chunks.cpp:141-325 | an encoded message yields exactly one equal message; only its own stream and the chunk size can change, and parsing goes on behind it |
| Conformance.RepeatedTime | src/rtmp/rtmp_chunks.cpp:126-136 | the four bytes behind a fmt 3 basic header are the time, most significant first |
| Conformance.SpecMessageReadsBack | src/rtmp/rtmp_chunks.cpp:141-255 | a message cut as section 5.3.1 of the RTMP specification has it comes back with its time, whatever that is, whatever the number of chunks and whatever follows |
| Conformance.EncoderConformsIff | src/rtmp/rtmp_chunks.cpp:257-325 | the encoder's bytes are those of the specification exactly for messages that survive the round trip |
| WireFormat.BasicHeaderBytes | src/rtmp/rtmp_chunks.cpp:268-284 | the one, two or three bytes of a basic header |
| WireFormat.FullHeaderBytes | src/rtmp/rtmp_chunks.cpp:286-307 | the 11 or 15 bytes of a fmt 0 message header |
| WireFormat.CompressedHeaderBytes | src/rtmp/rtmp_chunks.cpp:77-125 | the bytes of the fmt 1 and fmt 2 message headers that are read |
| RoundTripLimits.EmissionCost | src/rtmp/rtmp_chunks.cpp:175-236 | on any bytes, the first message to come out has cost its missing payload and one basic header per chunk |
| RoundTripLimits.ContinuationCost | src/rtmp/rtmp_chunks.cpp:126-136 | a continuation chunk after an extended timestamp costs four bytes more than the encoder spends |
| RoundTripLimits.AmbiguousIsLost | src/rtmp/rtmp_chunks.cpp:129-135 | no message with an extended timestamp and more than one chunk comes back |
| RoundTripLimits.TwoBytesAreLost | src/rtmp/rtmp_chunks.cpp:129-135 | two bytes in two chunks at time 0xFFFFFF do not come back |
| RoundTripLimits.RoundTripIff | src/rtmp/rtmp_chunks.cpp:141-325 | exactly which messages survive encoder and parser |
| Fragmentation.StepExtends | src/rtmp/rtmp_chunks.cpp:185-205 | bytes behind a whole chunk do not change how it is taken |
| Fragmentation.MessageHeaderAgain | src/rtmp/rtmp_chunks.cpp:48-136 | reading a header again changes nothing but the timestamp, by its delta |
| Fragmentation.StepAgain | src/rtmp/rtmp_chunks.cpp:188-191 | taking a chunk up again after a short read does what it would have done at once, up to timestamps, and entirely without a delta |
| Fragmentation.ParseTwice | src/rtmp/rtmp_chunks.cpp:141-255 | two reads against one read of all the bytes, from any parser state |
| Fragmentation.CutsAgreeUpToTime | src/rtmp/rtmp_chunks.cpp:141-255 | any number of reads gives the messages, streams, chunk size and carry-over of one read, up to timestamps |
| Fragmentation.CutsAgree | src/rtmp/rtmp_chunks.cpp:141-255 | equal in timestamps too if no cut leaves a header with a non-zero delta waiting |
| Fragmentation.CutIsHarmlessIff | src/rtmp/rtmp_chunks.cpp:99-124 | a cut is harmless for all continuations of at least one byte exactly if no such header is left waiting; otherwise no next byte hides it |
| Fragmentation.StalledStepDrifts | src/rtmp/rtmp_chunks.cpp:99-124 | after a short read of such a header the remembered timestamps differ, whatever comes next |
| Fragmentation.AnyCutsAgree | src/rtmp/rtmp_chunks.cpp:141-255 | bytes none of whose beginnings leaves such a header waiting may be cut in any way |
| Fragmentation.FiveBecomesTen | src/rtmp/rtmp_chunks.cpp:99-124 | a fmt 1 header cut off from its payload byte: time 5 is reported as time 10 |
| Fragmentation.DeltaCountsTwice | src/rtmp/rtmp_chunks.cpp:99-124 | a message finished by a chunk that was cut short is reported late by that chunk's delta |
| Fragmentation.StepShrinks | src/rtmp/rtmp_chunks.cpp:185-205 | a chunk is taken as soon as its own bytes are there |
| ParserInvariants.CarryOver | src/rtmp/rtmp_chunks.cpp:150-252 | waiting and new bytes are the consumed front and the new carry-over; that holds no whole chunk and is shorter than 18 + chunk size; nothing is consumed or more than had been waiting; the reported count |
| ParserInvariants.NamelessIff | src/rtmp/rtmp_chunks.cpp:126-136 | a header is that of no chunk stream exactly if it is fmt 3 and its stream has remembered no full header |
| ParserInvariants.NamelessStep | src/rtmp/rtmp_chunks.cpp:126-236 | such a chunk uses its basic header alone and comes out as an empty message of chunk stream 0 |
| ParserInvariants.NamedByFullHeaders | src/rtmp/rtmp_chunks.cpp:48-136 | a stream has remembered a full header exactly once a whole fmt 0 or fmt 1 header came |
| ParserInvariants.MessageFromNowhere | src/rtmp/rtmp_chunks.cpp:126-136 | one fmt 3 byte to a fresh parser |
| ParserInvariants.AbsorbSound | src/rtmp/rtmp_chunks.cpp:175-236 | 32-bit byte counts do not wrap, and a message is as long as announced exactly if no more had been received when its header came |
| ParserInvariants.OverrunTaken | src/rtmp/rtmp_chunks.cpp:175-236 | a header that cuts a message below what was received takes a whole chunk size of bytes more |
| ParserInvariants.StepSound | src/rtmp/rtmp_chunks.cpp:153-236 | byte counts equal the partial messages and stay below 2^24 |
| ParserInvariants.RunSound | src/rtmp/rtmp_chunks.cpp:141-255 | the same in every state reached by reads and outside changes of the chunk size; no message comes out shorter than announced |
| Multiplex.TurnMirrored | src/rtmp/rtmp_chunks.cpp:153-237 | after each chunk the parser holds exactly the sender's unfinished messages |
| Multiplex.Demultiplexed | src/rtmp/rtmp_chunks.cpp:141-255 | any interleaving of chunks, cut into any reads: a beginning of the messages at any time, and in the end each message once, in the order of the last chunks, with the sender's chunk size |
| Multiplex.CutSchedule | src/rtmp/rtmp_chunks.cpp:141-255 | a schedule that breaks off anywhere leaves a beginning of its messages and no delta header waiting |
| Multiplex.EachMessageOnce | src/rtmp/rtmp_chunks.cpp:207-236 | on each chunk stream the messages begun come out in order, or are still in flight |
| Multiplex.StreamsCarryEncodedMessages | src/rtmp/rtmp_chunks.cpp:257-325 | in any interleaving each chunk stream carries just the encoder's bytes for its messages |
| Amf0.Decode | src/rtmp/amf0.cpp:107-189 | a successful decode takes between one and all of the bytes |
| Amf0.DecodeText | src/rtmp/amf0.cpp:77-105 | a decoded string takes its length and two bytes, and is at most 65535 bytes long |
| Amf0Format.EncodedKind | src/rtmp/amf0.cpp:31-61 | first bytes 0, 1, 2, 3 and 5 |
| Amf0Format.EncodedScalars | src/rtmp/amf0.cpp:20-48 | null, booleans, numbers and strings, byte by byte |
| Amf0Format.EncodedEntries | src/rtmp/amf0.cpp:49-60 | the bytes of an object |
| Amf0Format.DecodedScalars | src/rtmp/amf0.cpp:115-143 | 5 is null, 1 a boolean, 0 a number, whatever follows |
| Amf0Format.CutValues | src/rtmp/amf0.cpp:107-152 | the errors of values that are cut short |
| Amf0Format.CutKeys | src/rtmp/amf0.cpp:155-181 | the end marker, keys that are cut short, empty keys, and the errors of an entry's value |
| Amf0Format.UnknownTypeIff | src/rtmp/amf0.cpp:186-188 | exactly when a type is unknown |
| Amf0Laws.LessIsLexicographic | include/rtmp/amf0.hpp:23-24 | the order of keys in the map |
| Amf0Laws.PutIsMapUpdate | src/rtmp/amf0.cpp:179-179 | setting an entry of the sorted list is setting it in a map |
| Amf0Laws.EntriesDecode | src/rtmp/amf0.cpp:155-181 | entries in any order, keys repeated or empty, are set one after the other |
| Amf0Laws.ObjectDecodes | src/rtmp/amf0.cpp:145-184 | an object up to its end marker, with any bytes behind |
| Amf0Laws.EcmaArrayDecodes | src/rtmp/amf0.cpp:145-184 | an ECMA array is the object of its entries, its count skipped |
| Amf0Laws.UnterminatedDecodes | src/rtmp/amf0.cpp:155-183 | an object that is not terminated leaves up to two bytes unread |
| Amf0Laws.DecodeEncode | src/rtmp/amf0.cpp:31-61 | decoding an encoded value with any tail gives the value and its length |
| Amf0Laws.DecodeEncodeIff | src/rtmp/amf0.cpp:20-189 | this holds exactly if every string and key has at most 65535 bytes |
| Amf0Laws.DecodedIsSound | src/rtmp/amf0.cpp:107-189 | every decoded value has sorted keys and short strings at every depth |
| Amf0Laws.Normalised | src/rtmp/amf0.cpp:145-184 | every value decoded from any bytes encodes and decodes back to itself |
| Amf0Laws.ListStops | src/rtmp/amf0.cpp:195-214 | values in front of bytes that do not decode come back; in the first place such bytes are an error |
| Amf0Laws.DecodeEncodeArrayIff | src/rtmp/amf0.cpp:195-214 | a list of values comes back exactly if each of them would |
| Amf0Codec.EncodeString | src/rtmp/amf0.cpp:20-29 | appends marker, length cut to 16 bits, and bytes |
| Amf0Codec.EncodeValue | src/rtmp/amf0.cpp:31-61 | appends the encoding of a value |
| Amf0Codec.EncodeEntries | src/rtmp/amf0.cpp:50-59 | the loop over an object's entries and the end marker |
| Amf0Codec.EncodeAll | src/rtmp/amf0.cpp:69-75 | the loop over a list of values |
| Amf0Codec.DecodeString | src/rtmp/amf0.cpp:77-105 | the string decoder without type marker, errors included |
| Amf0Codec.DecodeValue | src/rtmp/amf0.cpp:107-189 | the decoder, errors included |
| Amf0Codec.DecodeEntries | src/rtmp/amf0.cpp:154-181 | the loop over offset and map |
| Amf0Codec.DecodeAll | src/rtmp/amf0.cpp:195-214 | the loop over values: an error counts only before the first value |
| Commands.EncodeCommand | src/rtmp/rtmp_messages.cpp:87-98 | name, transaction id and arguments as a list of values |
| Commands.ParseCommand | src/rtmp/rtmp_messages.cpp:57-85 | refusals, the transaction id left unset if it is not a number, the arguments |
| Commands.ListsAsCommands | src/rtmp/rtmp_messages.cpp:57-85 | which lists of values are commands, and with which id and arguments |
| Commands.ParsedIsEncodable | src/rtmp/rtmp_messages.cpp:57-85 | only commands with short strings are ever parsed |
| Commands.ParsesBackIff | src/rtmp/rtmp_messages.cpp:57-98 | a command comes back exactly if its name and every string in its arguments has at most 65535 bytes |
| NetBuffer.Buffer.MakeRoom | src/net/buffer.cpp:8-15 | when the contents move, when the vector grows, and what growing overwrites |
| NetBuffer.Buffer.Append | src/net/buffer.cpp:8-18 | contents grow at the end, and where the read position and the vector's size end up; intact contents survive, and stay intact unless compaction reaches behind the vector's size |
| NetBuffer.LastByteIsWiped | src/net/buffer.cpp:9-15 | a new buffer, four bytes, one byte, four consumed, and, if the capacity is eight, two appends of which the second turns the last byte of the first into zero |
| NetBuffer.Buffer.Consume | src/net/buffer.cpp:28-34 | drops bytes at the front, no more than there are, and where the positions end up |
| NetBuffer.Buffer.Compact | src/net/buffer.cpp:48-55 | moves the contents to the front unchanged |
| NetBuffer.Buffer.Clear | src/net/buffer.cpp:36-39 | empties the buffer |
| Sessions.Session.ProcessInput | src/rtmp/rtmp_session.cpp:8-51 | refuses before the handshake; then parses, applies announced sizes again, gives every message to the callback in order |
| Sessions.Session.HandOver | src/rtmp/rtmp_session.cpp:24-47 | one message: its size applied, its fields handed over |
| Sessions.Session.SendMessage | src/rtmp/rtmp_session.cpp:53-72 | appends the message's chunks on its type's chunk stream |
| Sessions.Session.SendSetChunkSize | src/rtmp/rtmp_session.cpp:74-86 | announced at the old chunk size, in force afterwards |
| Sessions.Session.SendWindowAckSize | src/rtmp/rtmp_session.cpp:88-99 | appends the control message |
| Sessions.Session.SendSetPeerBandwidth | src/rtmp/rtmp_session.cpp:101-113 | appends the control message |
| Sessions.Session.SendCommand | src/rtmp/rtmp_session.cpp:115-133 | appends the command's chunks on the given chunk stream |
| Sessions.Session.GetOutgoingData | src/rtmp/rtmp_session.cpp:135-140 | hands over all outgoing bytes and keeps none |
| WireFormat.SmallSendBytes | src/rtmp/rtmp_session.cpp:53-72 | a message in one chunk, byte by byte |
| WireFormat.StreamsByType | src/rtmp/rtmp_session.cpp:62-67 | chunk streams 4, 5, 6 and 2 for types 8, 18, 9 and the others |
| WireFormat.ControlBytes | src/rtmp/rtmp_session.cpp:74-113 | the three control messages, byte by byte |
| WireFormat.FirstChunkIs128 | src/rtmp/rtmp_session.cpp:6-72 | the first 128 bytes of a payload, and the chunk that follows |
| WireFormat.SizesTakenOver | src/rtmp/rtmp_chunks.cpp:213-230 | a size is taken over from type 1 if it is in 1..16777216, its top bit cleared |
| Delivery.SizesAgree | src/rtmp/rtmp_session.cpp:74-86 | the receiver's chunk-size rule agrees with the sender's for sizes in 1..16 MiB |
| Delivery.SendsParsed | src/rtmp/rtmp_session.cpp:53-133 | the parser makes of the whole wire exactly the messages sent |
| Delivery.CutWire | src/rtmp/rtmp_session.cpp:8-22 | no beginning of a session's wire leaves a delta header waiting |
| Delivery.ReapplyingIsHarmlessIff | src/rtmp/rtmp_session.cpp:36-40 | setting announced sizes again changes nothing exactly if the last one of the read is in 1..16 MiB |
| Delivery.ZeroSizeIsApplied | src/rtmp/rtmp_session.cpp:36-40 | an announced size of zero, which the parser ignores, becomes its chunk size |
| Delivery.CutsCaught | src/rtmp/rtmp_session.cpp:8-51 | a session after several reads is where one read of all bytes would have put it |
| Delivery.PrefixDelivered | src/rtmp/rtmp_session.cpp:8-140 | wherever the bytes break off, the peer has reported a beginning of the messages sent |
| Delivery.AllDelivered | src/rtmp/rtmp_session.cpp:8-140 | all messages in order with equal type, timestamp, stream id and payload; chunk sizes in lock-step; nothing half received |
| Delivery.CommandDelivered | src/rtmp/rtmp_session.cpp:115-133 | however the wire is cut, every command among the sends is reported at its own place and parses to the command that was sent |
| Clients.Client.SendMessage | src/rtmp/rtmp_client.cpp:99-106 | the message's bytes become pending, and write events are asked for |
| Clients.Client.SendCommand | src/rtmp/rtmp_client.cpp:108-115 | the same for a command |
| Clients.Client.Flush | src/rtmp/rtmp_client.cpp:117-154 | a front part of what is pending goes out; what is left stays, and write events are asked for |
| Clients.Client.HandleWritable | src/rtmp/rtmp_client.cpp:156-191 | the same from the event loop; write events stay on exactly while something is pending; an error closes the client |
| Clients.Client.HandleWriteEvent | src/rtmp/rtmp_client.cpp:53-73 | C0 and C1 while connecting, all of them or from the first byte again; later the pending bytes |
| Clients.Client.HandleReadable | src/rtmp/rtmp_client.cpp:193-269 | collects the server's answer, writes C2 once it is whole, closes on errors and at the end of the stream |
| Clients.Client.Cleanup | src/rtmp/rtmp_client.cpp:271-283 | closed, and neither connecting nor connected |
| Clients.Client.Handle | src/rtmp/rtmp_client.cpp:53-283 | any event, as the state function says |
| Clients.Client.HandleAll | src/rtmp/rtmp_client.cpp:53-283 | over any events: the sends are those asked for, no byte is lost or reordered, and no wake-up is lost if nothing is sent while connecting |
| Clients.RunConserved | src/rtmp/rtmp_client.cpp:99-191 | over any events: what the socket took and what is pending are the bytes of the sends |
| Clients.RunWatched | src/rtmp/rtmp_client.cpp:53-191 | if nothing is sent while connecting, pending bytes on an open socket always mean that write events are asked for |
| Clients.OpenIff | src/rtmp/rtmp_client.cpp:53-283 | exactly which events close a client |
| Clients.ClosedStays | src/rtmp/rtmp_client.cpp:117-120 | a closed client stays closed and writes nothing |
| Clients.FailedWrites | src/rtmp/rtmp_client.cpp:134-176 | a failed write closes the client, a failed flush does not, and neither loses a byte |
| Clients.WriteSettles | src/rtmp/rtmp_client.cpp:156-191 | behind a write event, write events stay on exactly while something is pending |
| Clients.WakeUpLostIff | src/rtmp/rtmp_client.cpp:61-64 | the end of the connecting phase loses a wake-up exactly if something is pending by then |
| Clients.WakeUpIsLost | src/rtmp/rtmp_client.cpp:61-64 | a message sent while connecting waits with write events switched off |
| Clients.HelloOnceIff | src/rtmp/rtmp_client.cpp:57-69 | C0 and C1 are on the wire once exactly if no write before the complete one took a part of them |
| Clients.C2FollowsIff | src/rtmp/rtmp_client.cpp:213-250 | C2 comes right behind C0 and C1 exactly if no message byte was written before |
| Clients.HelloIsRepeated | src/rtmp/rtmp_client.cpp:59-69 | the first byte of C0 and C1 taken alone is on the wire twice |
| Relays.ReactAccounted | src/relay/relay_manager.cpp:492-594 | pending bytes are the sum of the queue, and publishing means an empty queue |
| Relays.RelayKept | src/relay/relay_manager.cpp:574-593 | one more message: the queue stays what the policy keeps of all messages that came while not publishing |
| Relays.LatestStep | src/relay/relay_manager.cpp:577-592 | DropOldest: a new message is always queued, costs at most the oldest one and never shortens the queue; which of the two, by the limit |
| Relays.OldestKeeps | src/relay/relay_manager.cpp:577-583 | DropOldest keeps a suffix of what came |
| Relays.NewestKeeps | src/relay/relay_manager.cpp:584-588 | DropNewest refuses a message exactly if it would exceed the limit, which what is kept never does |
| Relays.NothingLostIfAllFits | src/relay/relay_manager.cpp:574-593 | nothing is lost while everything fits, and only DropOldest gives up what is queued |
| Relays.ContinueOrdered | src/relay/relay_manager.cpp:439-594 | each event keeps the order of messages |
| Relays.RunOrdered | src/relay/relay_manager.cpp:459-594 | over whole runs a publishing client has been handed exactly what the policy kept and then every later media message, in order, once |
| Relays.RunBounded | src/relay/relay_manager.cpp:575-592 | DropNewest keeps the byte limit; DropOldest with non-empty payloads keeps the queue length within max(1, limit) |
| Relays.OldestBytes | src/relay/relay_manager.cpp:577-583 | the bytes DropOldest may hold, in terms of the largest message |
| Relays.OldestExceedsIff | src/relay/relay_manager.cpp:577-583 | exactly when dropping one message is not enough |
| Relays.ElevenBytesQueued | src/relay/relay_manager.cpp:577-583 | a limit of ten bytes, and eleven bytes pending |
| PushUrls.UrlParts | src/relay/relay_manager.cpp:413-418 | of a URL with scheme, host and application, the application's name and the URL up to its end are cut out |
| PushUrls.SpelledUrl | src/relay/relay_manager.cpp:413-418 | the same with the characters of the URL spelled out |
| PushUrls.NoPath | src/relay/relay_manager.cpp:413-428 | without a path neither name nor address |
| PushUrls.NoScheme | src/relay/relay_manager.cpp:413-418 | without a scheme the first two characters are skipped |
| Pushers.CutUrl | src/relay/relay_manager.cpp:413-428 | the same cuts on any URL, one without scheme or path included |
| Relays.RelayedTypes | src/relay/relay_manager.cpp:556-561 | types 8, 9 and 18 only |
| Relays.DelayAfterLosses | src/relay/relay_manager.cpp:407-521 | 100 after a connection, doubled with every loss, up to 5000 |
| Dialogues.RunSays | src/relay/relay_manager.cpp:407-490 | over every run the commands on the present connection are connect with id 1; createStream with id 2 and a null after each result 1; publish with id 0, a null, the stream's name and "live" after the first result 2; all in order |
| Dialogues.RunIntroduced | src/relay/relay_manager.cpp:459-481 | no media before the publish command, and all commands on chunk stream 3 |
| Pushers.Pusher.RelayMessage | src/relay/relay_manager.cpp:556-594 | media only; given to the client or queued by policy |
| Pushers.Pusher.HandleMessage | src/relay/relay_manager.cpp:439-490 | the answers that move the pusher on, and what its client is asked to send and flush |
| Pushers.ToldIsWritten | src/relay/relay_manager.cpp:432-469 | a command is written at once behind what was pending, as far as the socket takes it; an error keeps all of it |
| Pushers.QueueWaits | src/relay/relay_manager.cpp:459-481 | the publish command is written at once, the queued messages wait for a write event |
| Pushers.Pusher.StartPublishing | src/relay/relay_manager.cpp:459-481 | the publish command flushed, then the queue in order, then an empty queue |
| Pushers.Pusher.HandleConnected | src/relay/relay_manager.cpp:407-437 | resets the delay, sends the connect command built from the push URL, and flushes |
| Pushers.Pusher.HandleDisconnected | src/relay/relay_manager.cpp:492-521 | a new client that begins to connect, publishing off, the queue kept, the delay doubled up to 5000 |
| EndToEnd.WireSnoc | src/rtmp/rtmp_session.cpp:53-133 | one more send extends the wire at the chunk size left by the sends before it |
| EndToEnd.ClientToServer | src/rtmp/rtmp_client.cpp:99-191 | at any time the server has reported a beginning of the client's messages, and all of them when nothing is pending |
| EndToEnd.BehindTheHandshake | src/relay/relay_manager.cpp:81-158 | the same on a whole connection from its first byte on: a beginning at any time, everything once all is read and nothing pending |
| EndToEnd.RelayedToServer | src/relay/relay_manager.cpp:459-594 | for media that chunks can carry and names below 65536 bytes: at any time the media messages the far server has reported are a beginning of what the relay kept and every later one, in order, and all of that once all bytes have arrived |
| EndToEnd.CommandsToServer | src/relay/relay_manager.cpp:407-490 | at any time the commands the far server has heard are a beginning of those to be said, word by word, and all of them once all bytes have arrived |
| EndToEnd.GreetingUnderstood | src/relay/relay_manager.cpp:114-132 | whoever reads the server's greeting, however cut, reports messages of types 5, 6 and 1 with 2500000, 2500000 and 2, and 4096, and resizes to 4096 |
| EndToEnd.RelayedOverConnection | src/relay/relay_manager.cpp:407-594 | the same with the pusher's client and the far server on one connection from the first byte of the handshake on |
| EndToEnd.RunFits | src/relay/relay_manager.cpp:407-594 | whatever such a pusher asks its client to send can be delivered |
| EndToEnd.Upload | src/rtmp/rtmp_client.cpp:53-283 | a client object through any events and a session object behind it: a beginning of the client's messages has been reported, and all of them once everything was taken and has arrived |
| EndToEnd.SendAll | src/rtmp/rtmp_session.cpp:53-133 | a sending session's outgoing bytes are the wire of its sends |
| EndToEnd.FeedAll | src/relay/relay_manager.cpp:150-158 | successive reads passed to a receiving session |
| EndToEnd.Transfer | src/rtmp/rtmp_session.cpp:8-140 | two session objects: after any sends and any reads, the receiver has the sender's messages and chunk size |
| Handshakes.Handshake.GenerateC0C1 | src/rtmp/rtmp_handshake.cpp:10-30 | version and the client's block, which is remembered |
| Handshakes.Handshake.GenerateS0S1S2 | src/rtmp/rtmp_handshake.cpp:32-55 | version, the server's block, the client's block |
| Handshakes.Handshake.GenerateC2 | src/rtmp/rtmp_handshake.cpp:57-62 | repeats the server's block and ends the handshake |
| Handshakes.Handshake.ProcessClientHandshake | src/rtmp/rtmp_handshake.cpp:64-94 | the server's two steps, errors included |
| Handshakes.Handshake.ProcessServerHandshake | src/rtmp/rtmp_handshake.cpp:96-123 | the client's step, errors included |
| Handshakes.StepErrors | src/rtmp/rtmp_handshake.cpp:64-123 | exactly when each step fails, and that it then changes nothing |
| Handshakes.StepsTaken | src/rtmp/rtmp_handshake.cpp:64-123 | the bytes each step uses and the block it remembers |
| Connections.PublisherConnection.OnReadable | src/relay/relay_manager.cpp:57-160 | one read event: drop, answer, greet, discard or pass on to the session, failed writes included |
| Connections.PublisherConnection.Greet | src/relay/relay_manager.cpp:114-132 | the three control messages behind the handshake, on the wire in this order |
| Connections.MessagesPassedOn | src/relay/relay_manager.cpp:81-158 | in every run a server that got through has passed on a beginning of what the client's socket took of its messages, and all of it once it has read everything |
| Connections.ClientActsAligned | src/rtmp/rtmp_client.cpp:53-191 | sends, flushes, write events, hang-ups and disconnects of the client keep the alignment |
| Connections.ServerReadAligned | src/relay/relay_manager.cpp:81-158 | every server read keeps the alignment of bytes |
| Connections.ClientReadAligned | src/rtmp/rtmp_client.cpp:213-264 | every client read keeps it, a failed write of C2 included, and C2 is S1 |
| Connections.RunAligned | src/relay/relay_manager.cpp:81-158 | in every run a server that got through has passed on exactly the client's bytes behind the first 3073; S2 is C1 and C2 is S1 |
| Connections.AlignedIff | src/relay/relay_manager.cpp:71-147 | for any client and any reads: exactly which of them get through the handshake, and that then the bytes behind the first 3073 are passed on exactly if the first read ends right behind C1 or not before the end of C2 |
| Connections.EarlySendOvertakesC2 | src/rtmp/rtmp_client.cpp:99-154 | a message sent and flushed right after C0 and C1 is on the wire without C2 |
| Connections.AnsweredIff | src/relay/relay_manager.cpp:99-132 | a first read with C0 and C1 is answered with S0, S1 and S2 exactly if C2 is not in it; a handshake in one read gets the control messages only |
| Connections.NoAnswer | src/relay/relay_manager.cpp:99-132 | C0, C1 and C2 in one read |
| Connections.ByteIsLost | src/relay/relay_manager.cpp:135-147 | one byte of C2 read together with C1 costs the first byte behind the handshake |
| Avc.UnitsUnpacked | src/transcode/transcoder.cpp:100-126 | for every length size the units come out in order behind start codes; a unit cut short is dropped |
| Avc.ConfigParsed | src/transcode/transcoder.cpp:653-768 | the record built for SPS and PPS feeds exactly these two |
| Avc.AnyRecordParsed | src/transcode/transcoder.cpp:653-709 | any record: length size taken over, all parameter sets fed in order |
| Avc.OneUnit | src/transcode/encoder_openh264.cpp:13-201 | behind a start code of three or four bytes stands the unit, if it is not empty |
| Avc.NoUnitWithoutStartCode | src/transcode/encoder_openh264.cpp:138-142 | a piece without a start code gives no unit |
| Avc.LayerPieces | src/transcode/encoder_openh264.cpp:171-205 | the pieces of a layer are those its buffer was filled with |
| Avc.AvccBytes | src/transcode/encoder_openh264.cpp:188-201 | a unit stands behind its length in four bytes |
| Avc.VideoTagBytes | src/transcode/transcoder.cpp:365-386 | frame type, codec, packet type and composition time of a packet |
| Avc.ConfigTagBytes | src/transcode/transcoder.cpp:711-768 | the sequence header, byte by byte |
| Avc.TagsIgnored | src/transcode/transcoder.cpp:64-92 | what changes nothing: other codecs and packet types, tags and records that are too short |
| Avc.CutSetSkipped | src/transcode/transcoder.cpp:672-706 | a parameter set that is cut short is passed over, and its bytes read as the next one |
| Avc.FramingRoundTripIff | src/transcode/transcoder.cpp:64-126 | record and frames feed the SPS, the PPS and every given unit in order behind 00 00 00 01, whichever start codes the encoder used, exactly if both sets fit into 16-bit lengths |
| Avc.PacketsRoundTripIff | src/transcode/transcoder.cpp:64-126 | the same for any pieces, those without a unit included |
| AvcCodec.Repackage | src/transcode/encoder_openh264.cpp:169-205 | the loops over layers and NAL units put every unit behind its length and leave out the others |
| AvcCodec.RepackagePiece | src/transcode/encoder_openh264.cpp:174-204 | one piece: start code off, length in front |
| AvcCodec.BuildFlvVideoPacket | src/transcode/transcoder.cpp:365-386 | the video tag around a packet |
| AvcCodec.BuildAvcDecoderConfig | src/transcode/transcoder.cpp:711-768 | the sequence header for SPS and PPS, lengths cut to 16 bits |
| AvcCodec.VideoInput.OnVideo | src/transcode/transcoder.cpp:64-136 | dispatch on codec and packet type, and what the decoder is fed |
| AvcCodec.VideoInput.ParseAvcDecoderConfig | src/transcode/transcoder.cpp:653-709 | length size and parameter sets of any record |
| AvcCodec.VideoInput.FeedSets | src/transcode/transcoder.cpp:672-706 | the loop over parameter sets; one cut short is passed over |
| AvcCodec.ToAnnexB | src/transcode/transcoder.cpp:106-126 | the unit loop |
| AvcCodec.ReadPrefix | src/transcode/transcoder.cpp:107-110 | the length loop, which never leaves 32 bits |
| Passthrough.TimeBase.OnPublishReady | src/transcode/transcoder.cpp:605-610 | only the first output to become ready resets the base |
| Passthrough.TimeBase.ProcessVideoFrame | src/transcode/transcoder.cpp:205-237 | frames before the first key frame are dropped, later ones counted from it |
| Passthrough.RunIsExpected | src/transcode/transcoder.cpp:205-237 | over every run the outputs see each frame from the first key frame after the first output became ready, relative to it |
| Passthrough.DistancesKept | src/transcode/transcoder.cpp:228-237 | the first time is zero, and frames not older than the first keep their distances |
| Passthrough.OlderFramesAreZero | src/transcode/transcoder.cpp:228-237 | a frame older than the first comes out at time zero |

## Left out

- Epoll, socket system calls, address resolution, logging, signals, clocks and statistics: foreign effects. A socket is a choice of how many bytes it takes or gives.
- The OpenH264, FDK-AAC and libyuv calls: the decoder is the list of buffers it was fed, the encoder an arbitrary list of layers. Taking SPS and PPS out of a key frame is not modelled: the framing results hold for any two parameter sets. Neither is the audio path; no result here speaks of audio frames.
- Message, connected and disconnected callbacks: a session keeps the list of messages handed over; what a callback does is an event of its own.
- Random bytes in C1 and S1: any blocks of 1536 bytes.
- Partial writes of C2, of S0, S1 and S2, and of the server's first control messages: the source does not continue them; in the model such a write is complete, or fails and closes the connection.
- Connection attempts that cannot begin (a push URL without a scheme, an address that does not parse, a refused socket): the pusher is left with a client that never connects.
- `Client::process_buffered_data` keeps bytes that the parser keeps as well; exactly-once delivery does not hold for it, and only the publisher's way of passing on new bytes is modelled.
- Publisher commands: answers to single messages, on which no result here depends.
- The push URL's template: the URL with its names filled in is a parameter.
- Reconnect delays: the value is tracked as in the source, nothing waits for it.
- The error return of the parser at `src/rtmp/rtmp_chunks.cpp:161-166`: every header error asks for more data, so that it is never taken; the error type has no other case.
- Chunk size zero: encoding a non-empty payload does not end in the source; the encoder and the send methods require a positive size.
- `size_t` and byte-count arithmetic on 64 bits is unbounded here; 32-bit sums of the chunk layer wrap as in the source.
- The writers of `include/core/bytes.hpp` fill a caller's array; here they return the bytes.
- Vector growth in `Buffer`: the new capacity is any sufficient one.
