/** The bytes that sessions put on the wire, one by one. */
module WireFormat {
  import opened Bytes
  import opened Messages
  import opened Wrappers
  import opened Chunks
  import opened RoundTrip
  import opened Sessions

  // ---- Chunk headers, section 5.3.1 of the RTMP specification

  /** The first bytes of a chunk by its format and chunk stream. */
  lemma BasicHeaderBytes(fmt: byte, csid: u32)
    requires fmt < 4 && 2 <= csid <= 65599
    ensures EncodeBasic(fmt, csid)
         == if csid <= 63 then [64 * (fmt as int) + csid]
            else if csid <= 319 then [64 * (fmt as int), csid - 64]
            else [64 * (fmt as int) + 1, (csid - 64) % 256, (csid - 64) / 256]
  {
  }

  /** The time, or three bytes of ones; length, type and message stream; and the time, if it had no room before. */
  lemma FullHeaderBytes(h: ChunkHeader)
    requires h.length < 16777216
    ensures EncodeMessageHeader(h)
         == (if h.timestamp < 16777215 then ThreeBytes(h.timestamp) else [255, 255, 255])
            + ThreeBytes(h.length) + [h.typeId]
            + [h.streamId % 256, h.streamId / 256 % 256, h.streamId / 65536 % 256, h.streamId / 16777216]
            + (if h.timestamp < 16777215 then [] else FourBytes(h.timestamp))
  {
    ThreeWritten(Min(h.timestamp, EXTENDED));
    ThreeWritten(h.length);
    LittleWritten(h.streamId);
    FourWritten(h.timestamp);
    assert ThreeBytes(16777215) == [255, 255, 255];
    hide WriteU24Be, WriteU32Be, WriteU32Le, ThreeBytes, FourBytes;
  }

  /** Compressed headers say no more than the delta, or the delta, length and type. */
  lemma CompressedHeaderBytes(fmt: byte, prev: ChunkHeader, h: ChunkHeader)
    requires Compressible(fmt, prev, h)
    ensures var delta := ((h.timestamp as int) - prev.timestamp) % 4294967296;
            Compressed(fmt, prev, h)
              == (if delta < 16777215 then ThreeBytes(delta) else [255, 255, 255])
                 + (if fmt == 1 then ThreeBytes(h.length) + [h.typeId] else [])
                 + (if delta < 16777215 then [] else FourBytes(delta))
  {
    var delta := TimeDelta(prev, h);
    ThreeWritten(Min(delta, EXTENDED));
    ThreeWritten(h.length);
    FourWritten(delta);
    assert ThreeBytes(16777215) == [255, 255, 255];
    hide WriteU24Be, WriteU32Be, ThreeBytes, FourBytes;
  }

  // ---- What a session sends

  /** A message that fits into one chunk and whose time fits into three bytes. */
  lemma SmallSendBytes(s: Send, size: u32)
    requires var m := MessageOf(s); 0 < |m.payload| <= size && |m.payload| < 16777216 && m.timestamp < 16777215
    requires 2 <= StreamOf(s) <= 63
    ensures EncodedSend(s, size) == SmallHead(MessageOf(s), StreamOf(s)) + MessageOf(s).payload
  {
    var m, csid := MessageOf(s), StreamOf(s);
    hide MessageOf, StreamOf;
    SmallChunk(HeaderFor(m, csid), m.payload, size);
    SmallHeadBytes(m, csid);
    hide EncodeChunk, EncodeHead, SmallHead;
  }

  /** Chunk stream, time, length and type, most significant byte first; message stream, least significant first. */
  function SmallHead(m: Message, csid: byte): seq<byte>
    requires |m.payload| < 16777216 && m.timestamp < 16777216
  {
    [csid] + ThreeBytes(m.timestamp) + ThreeBytes(|m.payload|) + [m.typeId]
    + [m.streamId % 256, m.streamId / 256 % 256, m.streamId / 65536 % 256, m.streamId / 16777216]
  }

  lemma SmallHeadBytes(m: Message, csid: byte)
    requires |m.payload| < 16777216 && m.timestamp < 16777215 && 2 <= csid <= 63
    ensures EncodeHead(HeaderFor(m, csid), 0) == SmallHead(m, csid)
  {
    BasicHeaderBytes(0, csid);
    FullHeaderBytes(HeaderFor(m, csid));
    hide EncodeBasic, EncodeMessageHeader, ThreeBytes, FourBytes;
  }

  lemma SmallChunk(h: ChunkHeader, payload: seq<byte>, size: u32)
    requires 0 < |payload| <= size
    ensures EncodeChunk(h, payload, size) == EncodeHead(h, 0) + payload
  {
    hide EncodeHead;
    assert payload[0..|payload|] == payload;
    assert EncodeFrom(h, payload, |payload|, size) == [];
    assert EncodeChunk(h, payload, size) == EncodeOne(h, payload, 0, size) + [];
  }

  /** Audio goes on chunk stream 4, data on 5, video on 6, everything else on 2, commands where they are told to. */
  lemma StreamsByType(m: Message)
    ensures m.typeId == 8 ==> StreamOf(SendMessage(m)) == 4
    ensures m.typeId == 18 ==> StreamOf(SendMessage(m)) == 5
    ensures m.typeId == 9 ==> StreamOf(SendMessage(m)) == 6
    ensures m.typeId !in {8, 9, 18} ==> StreamOf(SendMessage(m)) == 2
  {
  }

  /** The control messages, byte by byte: all on chunk stream 2, at time zero and on message stream zero. */
  lemma ControlBytes(n: u32, limitType: byte, size: u32)
    requires size >= 5
    ensures n < 0x8000_0000 ==>
              EncodedSend(SendSetChunkSize(n), size) == [2, 0, 0, 0, 0, 0, 4, 1, 0, 0, 0, 0] + FourBytes(n)
    ensures EncodedSend(SendWindowAckSize(n), size) == [2, 0, 0, 0, 0, 0, 4, 5, 0, 0, 0, 0] + FourBytes(n)
    ensures EncodedSend(SendSetPeerBandwidth(n, limitType), size)
         == [2, 0, 0, 0, 0, 0, 5, 6, 0, 0, 0, 0] + FourBytes(n) + [limitType]
  {
    FourWritten(n);
    FourWritten(n % 0x8000_0000);
    hide WriteU32Be, EncodedSend, FourBytes, ControlHead;
    var c, w, b := SendSetChunkSize(n), SendWindowAckSize(n), SendSetPeerBandwidth(n, limitType);
    ControlMessageBytes(c, MessageOf(c), size);
    ControlMessageBytes(w, MessageOf(w), size);
    ControlMessageBytes(b, MessageOf(b), size);
    assert n < 0x8000_0000 ==> n % 0x8000_0000 == n;
    ControlHeads();
    Regroup([2, 0, 0, 0, 0, 0, 5, 6, 0, 0, 0, 0], FourBytes(n), [limitType]);
  }

  function ControlHead(length: byte, typeId: byte): seq<byte> {
    [2, 0, 0, 0, 0, 0, length, typeId, 0, 0, 0, 0]
  }

  lemma ControlHeads()
    ensures ControlHead(4, 1) == [2, 0, 0, 0, 0, 0, 4, 1, 0, 0, 0, 0]
    ensures ControlHead(4, 5) == [2, 0, 0, 0, 0, 0, 4, 5, 0, 0, 0, 0]
    ensures ControlHead(5, 6) == [2, 0, 0, 0, 0, 0, 5, 6, 0, 0, 0, 0]
  {
  }

  lemma ControlMessageBytes(s: Send, m: Message, size: u32)
    requires size >= 5 && StreamOf(s) == 2 && MessageOf(s) == m && 0 < |m.payload| <= 5
    requires m.timestamp == 0 && m.streamId == 0
    ensures EncodedSend(s, size) == ControlHead(|m.payload|, m.typeId) + m.payload
  {
    hide StreamOf, MessageOf;
    SmallSendBytes(s, size);
    assert ThreeBytes(0) == [0, 0, 0] && ThreeBytes(|m.payload|) == [0, 0, |m.payload|];
    hide EncodedSend, ThreeBytes;
    assert SmallHead(m, 2) == ControlHead(|m.payload|, m.typeId);
  }

  /** Both ends of a session begin with 128-byte chunks: the first byte that does not fit opens a second one. */
  lemma FirstChunkIs128(m: Message)
    requires |m.payload| == 129 && m.timestamp < 16777215 && m.typeId == 9
    ensures var d := EncodedSend(SendMessage(m), INITIAL_CHUNK_SIZE);
            |d| == 12 + 128 + 1 + 1 && d[12..140] == m.payload[..128] && d[140..] == [0xC6, m.payload[128]]
  {
    var h := HeaderFor(m, 6);
    FullHeaderBytes(h);
    hide EncodeMessageHeader;
    var one, two := EncodeOne(h, m.payload, 0, 128), EncodeOne(h, m.payload, 128, 128);
    assert EncodeFrom(h, m.payload, 129, 128) == [];
    assert EncodeFrom(h, m.payload, 128, 128) == two + [];
    assert EncodedSend(SendMessage(m), INITIAL_CHUNK_SIZE) == one + (two + []);
    assert two == [0xC6] + m.payload[128..129];
    assert |EncodeHead(h, 0)| == 12 && one[12..] == m.payload[0..128];
  }

  /** A size is taken over from a message of type 1 if it is in 1..16777216, and from no other. */
  lemma SizesTakenOver(size: u32, typeId: byte, n: u32)
    ensures SizeAfter(size, typeId, FourBytes(n))
         == if typeId == 1 && 1 <= n % 2147483648 <= 16777216 then n % 2147483648 else size
    ensures forall short: seq<byte> :: |short| < 4 ==> SizeAfter(size, typeId, short) == size
  {
    FourWritten(n);
    ReadsU32Be(FourBytes(n), 0, n);
    assert FourBytes(n)[0..4] == FourBytes(n);
    hide ReadU32Be, WriteU32Be, FourBytes;
  }
}
