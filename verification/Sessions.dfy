/** One end of an RTMP connection: what it sends, and what it makes of the bytes it receives. */
module Sessions {
  import opened Bytes
  import opened Wrappers
  import opened Messages
  import opened Chunks
  import opened ChunkParsers
  import opened NetBuffer
  import Commands
  import Handshakes

  const INITIAL_CHUNK_SIZE: u32 := 128

  // ---- Sending

  datatype Send =
    | SendMessage(msg: Message)
    | SendSetChunkSize(size: u32)
    | SendWindowAckSize(size: u32)
    | SendSetPeerBandwidth(size: u32, limitType: byte)
    | SendCommand(cmd: Commands.Command, csid: u32)

  function MessageOf(s: Send): Message {
    match s
    case SendMessage(m) => m
    case SendSetChunkSize(n) => Message(SET_CHUNK_SIZE, 0, 0, EncodeSetChunkSize(n))
    case SendWindowAckSize(n) => Message(WINDOW_ACK_SIZE, 0, 0, EncodeWindowAckSize(n))
    case SendSetPeerBandwidth(n, t) => Message(SET_PEER_BANDWIDTH, 0, 0, EncodeSetPeerBandwidth(n, t))
    case SendCommand(cmd, _) => Message(COMMAND_AMF0, 0, 0, Commands.Encoded(cmd))
  }

  /** Media types have chunk streams of their own. */
  function MediaStream(typeId: byte): u32 {
    if typeId == AUDIO then 4 else if typeId == VIDEO then 6 else if typeId == DATA_AMF0 then 5 else 2
  }

  function StreamOf(s: Send): u32 {
    if s.SendCommand? then s.csid else MediaStream(MessageOf(s).typeId)
  }

  function HeaderFor(m: Message, csid: u32): ChunkHeader {
    ChunkHeader(0, csid, m.timestamp, |m.payload| % WORD, m.typeId, m.streamId, false)
  }

  function EncodedSend(s: Send, size: u32): seq<byte>
    requires size > 0
  {
    Chunks.EncodeChunk(HeaderFor(MessageOf(s), StreamOf(s)), MessageOf(s).payload, size)
  }

  /** Only announcing a chunk size changes the sender's own. */
  function SizeAfterSend(s: Send, size: u32): u32 {
    if s.SendSetChunkSize? then s.size else size
  }

  // ---- Receiving

  function Reported(c: Chunk): Message {
    Message(c.header.typeId, c.header.timestamp, c.header.streamId, c.payload)
  }

  function AllReported(cs: seq<Chunk>): (ms: seq<Message>)
    ensures |ms| == |cs| && forall i :: 0 <= i < |cs| ==> ms[i] == Reported(cs[i])
  {
    seq(|cs|, i requires 0 <= i < |cs| => Reported(cs[i]))
  }

  /** The chunk size a message announces, of whatever value. */
  function Announced(c: Chunk): Option<u32> {
    if c.header.typeId == SET_CHUNK_SIZE then ParseSetChunkSize(c.payload) else None
  }

  function Applied(size: u32, c: Chunk): u32 {
    match Announced(c)
    case None => size
    case Some(n) => n
  }

  /** The session sets every announced size once more, without looking at its value. */
  function Reapplied(size: u32, cs: seq<Chunk>): u32
    decreases |cs|
  {
    if cs == [] then size else Reapplied(Applied(size, cs[0]), cs[1..])
  }

  datatype Received = Received(parser: Parser, messages: seq<Message>)

  function Receive(p: Parser, data: seq<byte>): Received {
    var r := Chunks.Parse(p, data);
    Received(r.parser.(size := Reapplied(r.parser.size, r.chunks)), AllReported(r.chunks))
  }

  function ReceiveAll(p: Parser, cuts: seq<seq<byte>>): Received
    decreases |cuts|
  {
    if cuts == [] then Received(p, [])
    else
      var first := Receive(p, cuts[0]);
      var others := ReceiveAll(first.parser, cuts[1..]);
      Received(others.parser, first.messages + others.messages)
  }

  // ---- The session object

  datatype SessionError = HandshakeNotComplete

  class Session {
    const handshake: Handshakes.Handshake
    const parser: ChunkParser
    const writeBuffer: Buffer
    var outChunkSize: u32
    /** What the message callback has been given so far. */
    var delivered: seq<Message>

    ghost predicate Valid()
      reads this, writeBuffer
    {
      writeBuffer.Intact() && writeBuffer.readPos == 0
    }

    ghost function Outgoing(): seq<byte>
      requires Valid()
      reads this, writeBuffer, writeBuffer.mem
    {
      writeBuffer.Contents()
    }

    constructor ()
      ensures Valid() && fresh(handshake) && fresh(parser) && fresh(writeBuffer) && fresh(writeBuffer.mem)
      ensures Outgoing() == [] && outChunkSize == INITIAL_CHUNK_SIZE && delivered == []
      ensures handshake.Now() == Handshakes.Progress(Handshakes.Uninitialized, [], [])
      ensures parser.State() == Parser(INITIAL_CHUNK_SIZE, map[], [])
    {
      handshake := new Handshakes.Handshake();
      parser := new ChunkParser(INITIAL_CHUNK_SIZE);
      writeBuffer := new Buffer();
      outChunkSize := INITIAL_CHUNK_SIZE;
      delivered := [];
    }

    method ProcessInput(data: seq<byte>) returns (r: Result<nat, SessionError>)
      modifies this`delivered, parser
      ensures handshake.state != Handshakes.Done ==>
                r == Err(HandshakeNotComplete) && delivered == old(delivered) && parser.State() == old(parser.State())
      ensures handshake.state == Handshakes.Done ==>
                var x := Receive(old(parser.State()), data);
                && r == Ok(Consumed(old(parser.State()), data))
                && parser.State() == x.parser && delivered == old(delivered) + x.messages
    {
      hide Chunks.Parse, Consumed, Applied, Reported;
      if handshake.state != Handshakes.Done {
        return Err(HandshakeNotComplete);
      }
      var chunks, consumed := parser.Parse(data);
      ghost var p := parser.State();
      for i := 0 to |chunks|
        invariant parser.State() == p.(size := parser.chunkSize)
        invariant Reapplied(parser.chunkSize, chunks[i..]) == Reapplied(p.size, chunks)
        invariant delivered == old(delivered) + AllReported(chunks)[..i]
      {
        assert chunks[i..][0] == chunks[i] && chunks[i..][1..] == chunks[i + 1..];
        HandOver(chunks[i]);
        assert AllReported(chunks)[..i + 1] == AllReported(chunks)[..i] + [Reported(chunks[i])];
      }
      assert AllReported(chunks)[..|chunks|] == AllReported(chunks) && chunks[|chunks|..] == [];
      return Ok(consumed);
    }

    /** Applies an announced chunk size and gives the message to the callback. */
    method HandOver(chunk: Chunk)
      modifies this`delivered, parser
      ensures parser.State() == old(parser.State()).(size := Applied(old(parser.chunkSize), chunk))
      ensures delivered == old(delivered) + [Reported(chunk)]
    {
      var msg := Message(chunk.header.typeId, chunk.header.timestamp, chunk.header.streamId, chunk.payload);
      if msg.typeId == SET_CHUNK_SIZE {
        var parsed := ParseSetChunkSize(msg.payload);
        if parsed.Some? {
          parser.SetChunkSize(parsed.value);
        }
      }
      delivered := delivered + [msg];
    }

    /** Encodes a message on a chunk stream and appends it to the outgoing bytes. */
    method Emit(m: Message, csid: u32)
      requires Valid() && (outChunkSize > 0 || m.payload == [])
      modifies writeBuffer, writeBuffer.mem
      ensures Valid() && (writeBuffer.mem == old(writeBuffer.mem) || fresh(writeBuffer.mem))
      ensures Outgoing() == old(Outgoing()) + Chunks.EncodeChunk(HeaderFor(m, csid), m.payload, outChunkSize)
    {
      var header := ChunkHeader(0, csid, m.timestamp, |m.payload| % WORD, m.typeId, m.streamId, false);
      var data := ChunkParsers.EncodeChunk(header, m.payload, outChunkSize);
      writeBuffer.Append(data);
    }

    method SendMessage(m: Message)
      requires Valid() && outChunkSize > 0
      modifies writeBuffer, writeBuffer.mem
      ensures Valid() && (writeBuffer.mem == old(writeBuffer.mem) || fresh(writeBuffer.mem))
      ensures Outgoing() == old(Outgoing()) + EncodedSend(Send.SendMessage(m), outChunkSize)
    {
      var csid: u32 := 2;
      if m.typeId == AUDIO || m.typeId == VIDEO || m.typeId == DATA_AMF0 {
        csid := if m.typeId == AUDIO then 4 else if m.typeId == VIDEO then 6 else 5;
      }
      Emit(m, csid);
    }

    method SendSetChunkSize(size: u32)
      requires Valid() && outChunkSize > 0
      modifies this`outChunkSize, writeBuffer, writeBuffer.mem
      ensures Valid() && (writeBuffer.mem == old(writeBuffer.mem) || fresh(writeBuffer.mem))
      ensures Outgoing() == old(Outgoing()) + EncodedSend(Send.SendSetChunkSize(size), old(outChunkSize))
      ensures outChunkSize == size
    {
      var m := Message(SET_CHUNK_SIZE, 0, 0, EncodeSetChunkSize(size));
      SendMessage(m);
      outChunkSize := size;
    }

    method SendWindowAckSize(size: u32)
      requires Valid() && outChunkSize > 0
      modifies writeBuffer, writeBuffer.mem
      ensures Valid() && (writeBuffer.mem == old(writeBuffer.mem) || fresh(writeBuffer.mem))
      ensures Outgoing() == old(Outgoing()) + EncodedSend(Send.SendWindowAckSize(size), outChunkSize)
    {
      SendMessage(Message(WINDOW_ACK_SIZE, 0, 0, EncodeWindowAckSize(size)));
    }

    method SendSetPeerBandwidth(size: u32, limitType: byte)
      requires Valid() && outChunkSize > 0
      modifies writeBuffer, writeBuffer.mem
      ensures Valid() && (writeBuffer.mem == old(writeBuffer.mem) || fresh(writeBuffer.mem))
      ensures Outgoing() == old(Outgoing()) + EncodedSend(Send.SendSetPeerBandwidth(size, limitType), outChunkSize)
    {
      SendMessage(Message(SET_PEER_BANDWIDTH, 0, 0, EncodeSetPeerBandwidth(size, limitType)));
    }

    method SendCommand(cmd: Commands.Command, csid: u32)
      requires Valid() && outChunkSize > 0
      modifies writeBuffer, writeBuffer.mem
      ensures Valid() && (writeBuffer.mem == old(writeBuffer.mem) || fresh(writeBuffer.mem))
      ensures Outgoing() == old(Outgoing()) + EncodedSend(Send.SendCommand(cmd, csid), outChunkSize)
    {
      var payload := Commands.EncodeCommand(cmd);
      Emit(Message(COMMAND_AMF0, 0, 0, payload), csid);
    }

    method GetOutgoingData() returns (data: seq<byte>)
      requires Valid()
      modifies writeBuffer
      ensures Valid() && writeBuffer.mem == old(writeBuffer.mem)
      ensures data == old(Outgoing()) && Outgoing() == []
    {
      data := writeBuffer.Readable();
      writeBuffer.Clear();
    }
  }
}
