/** The chunk layer as functions: what one header, one chunk and one read do to the parser's state. */
module Chunks {
  import opened Bytes
  import opened Messages
  import opened Wrappers

  /** In a 24-bit time field: the real value follows in four extra bytes. */
  const EXTENDED: u32 := 0xFF_FFFF

  /** The largest chunk size the parser itself accepts from a peer. */
  const MAX_CHUNK_SIZE: u32 := 16 * 1024 * 1024

  datatype ChunkHeader = ChunkHeader(
    fmt: byte, csid: u32, timestamp: u32, length: u32, typeId: byte, streamId: u32, extended: bool)

  datatype Chunk = Chunk(header: ChunkHeader, payload: seq<byte>)

  /** What the parser remembers of one chunk stream. */
  datatype Stream = Stream(prev: ChunkHeader, partial: seq<byte>, received: u32)

  type Streams = map<u32, Stream>

  const NO_HEADER := ChunkHeader(0, 0, 0, 0, 0, 0, false)
  const FRESH := Stream(NO_HEADER, [], 0)

  /** The entry of a chunk stream; a stream never seen before starts out fresh. */
  function At(streams: Streams, csid: u32): Stream {
    if csid in streams then streams[csid] else FRESH
  }

  // ---- Headers

  datatype Basic = Basic(fmt: byte, csid: u32, size: nat)

  function BasicHeader(d: seq<byte>): (r: Option<Basic>)
    ensures r.Some? ==> r.value.fmt < 4 && 2 <= r.value.csid <= 65599 && 1 <= r.value.size <= 3
    ensures r.Some? ==> r.value.size <= |d|
    ensures r.None? ==> |d| < 3
  {
    if |d| == 0 then None
    else
      var fmt, low := d[0] / 64, d[0] % 64;
      if low == 0 then
        if |d| < 2 then None else Some(Basic(fmt, 64 + (d[1] as int), 2))
      else if low == 1 then
        if |d| < 3 then None else Some(Basic(fmt, 64 + (d[1] as int) + 256 * (d[2] as int), 3))
      else
        Some(Basic(fmt, low, 1))
  }

  /** 32-bit timestamps wrap around. */
  function Later(time: u32, delta: u32): u32 {
    ((time as int) + delta) % WORD
  }

  /** A decoded message header, the header remembered for the stream, and the bytes it took. */
  datatype Decoded = Decoded(header: ChunkHeader, prev: ChunkHeader, size: nat)

  function MessageHeader(fmt: byte, csid: u32, prev: ChunkHeader, d: seq<byte>): (r: Option<Decoded>)
    requires fmt < 4
    ensures r.Some? ==> r.value.size <= |d| && r.value.size <= 15
    ensures r.None? ==> |d| < 15
  {
    if fmt == 0 then
      if |d| < 11 then None else
      var time := ReadU24Be(d, 0);
      var extended := time == EXTENDED;
      if extended && |d| < 15 then None else
      var header := ChunkHeader(0, csid, if extended then ReadU32Be(d, 11) else time,
                                ReadU24Be(d, 3), d[6], ReadU32Le(d, 7), extended);
      Some(Decoded(header, header, if extended then 15 else 11))
    else if fmt == 1 then
      if |d| < 7 then None else
      var field := ReadU24Be(d, 0);
      var extended := field == EXTENDED;
      if extended && |d| < 11 then None else
      var delta := if extended then ReadU32Be(d, 7) else field;
      var header := ChunkHeader(1, csid, Later(prev.timestamp, delta),
                                ReadU24Be(d, 3), d[6], prev.streamId, extended);
      Some(Decoded(header, header, if extended then 11 else 7))
    else if fmt == 2 then
      if |d| < 3 then None else
      var field := ReadU24Be(d, 0);
      var extended := field == EXTENDED;
      if extended && |d| < 7 then None else
      var delta := if extended then ReadU32Be(d, 3) else field;
      var header := ChunkHeader(2, csid, Later(prev.timestamp, delta),
                                prev.length, prev.typeId, prev.streamId, extended);
      Some(Decoded(header, prev.(timestamp := header.timestamp), if extended then 7 else 3))
    else if prev.extended then
      if |d| < 4 then None
      else Some(Decoded(prev.(timestamp := ReadU32Be(d, 0)), prev, 4))
    else
      Some(Decoded(prev, prev, 0))
  }

  /** Reading a header changes the stream table even when the read falls short. */
  datatype HeaderRead =
    | Short(streams: Streams)
    | Whole(streams: Streams, header: ChunkHeader, size: nat)

  function ReadHeader(streams: Streams, d: seq<byte>): (r: HeaderRead)
    ensures r.Short? ==> |d| < 18
    ensures r.Whole? ==> 1 <= r.size <= |d| && r.size <= 18
  {
    match BasicHeader(d)
    case None => Short(streams)
    case Some(b) =>
      var known := At(streams, b.csid);
      match MessageHeader(b.fmt, b.csid, known.prev, d[b.size..])
      case None => Short(streams[b.csid := known])
      case Some(m) => Whole(streams[b.csid := known.(prev := m.prev)], m.header, b.size + m.size)
  }

  // ---- One chunk

  /** The stale bytes of a finished message are dropped when the next one begins. */
  function Opened(s: Stream): Stream {
    if s.received == 0 then s.(partial := []) else s
  }

  /** The table once the stream that receives the payload has been opened. */
  function Cleared(r: HeaderRead): Streams
    requires r.Whole?
  {
    r.streams[r.header.csid := Opened(At(r.streams, r.header.csid))]
  }

  /** How many payload bytes the next chunk carries; the difference wraps like the source's. */
  function Take(size: u32, header: ChunkHeader, received: u32): (n: nat)
    ensures n <= size
  {
    Min(size, ((header.length as int) - received) % WORD)
  }

  /** The size in force after a message of the given type has been reassembled. */
  function SizeAfter(size: u32, typeId: byte, payload: seq<byte>): u32 {
    if typeId != SET_CHUNK_SIZE then size
    else
      match ParseSetChunkSize(payload)
      case None => size
      case Some(n) => if 1 <= n <= MAX_CHUNK_SIZE then n else size
  }

  datatype StepOutcome =
    | Stuck(streams: Streams)
    | Advance(streams: Streams, size: u32, used: nat, chunks: seq<Chunk>)

  /** What becomes of a stream, the chunk size and the output when a chunk's payload arrives. */
  function Absorb(streams: Streams, size: u32, header: ChunkHeader, used: nat, body: seq<byte>): StepOutcome {
    var s := At(streams, header.csid);
    var partial := s.partial + body;
    var received := ((s.received as int) + |body|) % WORD;
    if received >= header.length then
      Advance(streams[header.csid := s.(partial := [], received := 0)],
              SizeAfter(size, header.typeId, partial), used, [Chunk(header, partial)])
    else
      Advance(streams[header.csid := s.(partial := partial, received := received)], size, used, [])
  }

  /** The payload behind a header of n bytes, if d holds all of it. */
  function Deliver(ready: Streams, size: u32, header: ChunkHeader, n: nat, d: seq<byte>): (r: StepOutcome)
    requires n <= |d|
    ensures r.Advance? ==> n <= r.used <= |d|
    ensures r.Stuck? ==> |d| < n + size
  {
    var used := n + Take(size, header, At(ready, header.csid).received);
    if used > |d| then Stuck(ready) else Absorb(ready, size, header, used, d[n..used])
  }

  function Step(streams: Streams, size: u32, d: seq<byte>): (r: StepOutcome)
    ensures r.Advance? ==> 1 <= r.used <= |d|
    ensures r.Stuck? ==> |d| < 18 + size
  {
    var r := ReadHeader(streams, d);
    if r.Short? then Stuck(r.streams) else Deliver(Cleared(r), size, r.header, r.size, d)
  }

  /** A step of the parser in terms of the header it reads. */
  lemma StepIs(s: Streams, size: u32, d: seq<byte>)
    ensures var r := ReadHeader(s, d);
            if r.Short? then Step(s, size, d) == Stuck(r.streams)
            else
              var c := r.header.csid;
              var used := r.size + Take(size, r.header, At(r.streams, c).received);
              var ready := r.streams[c := Opened(At(r.streams, c))];
              Step(s, size, d)
                == if used > |d| then Stuck(ready) else Absorb(ready, size, r.header, used, d[r.size..used])
  {
  }

  // ---- One read

  datatype Drained = Drained(streams: Streams, size: u32, rest: seq<byte>, chunks: seq<Chunk>)

  function Prepend(out: seq<Chunk>, r: Drained): Drained {
    r.(chunks := out + r.chunks)
  }

  /** Takes whole chunks off the front of d until the next one is cut short. */
  function Drain(streams: Streams, size: u32, d: seq<byte>): (r: Drained)
    decreases |d|
  {
    match Step(streams, size, d)
    case Stuck(after) => Drained(after, size, d, [])
    case Advance(after, size', used, out) => Prepend(out, Drain(after, size', d[used..]))
  }

  lemma NothingToDrain(streams: Streams, size: u32)
    ensures Drain(streams, size, []) == Drained(streams, size, [], [])
  {
  }

  lemma PrependTwice(a: seq<Chunk>, b: seq<Chunk>, r: Drained)
    ensures Prepend(a, Prepend(b, r)) == Prepend(a + b, r)
    ensures Prepend([], r) == r
  {
  }

  /** The state of a chunk parser between reads. */
  datatype Parser = Parser(size: u32, streams: Streams, carry: seq<byte>)

  datatype ReadResult = ReadResult(parser: Parser, chunks: seq<Chunk>)

  function Parse(p: Parser, data: seq<byte>): ReadResult {
    var r := Drain(p.streams, p.size, p.carry + data);
    ReadResult(Parser(r.size, r.streams, r.rest), r.chunks)
  }

  /** How many of the new bytes a call of Parse reports as consumed; bytes that had been waiting do not count. */
  function Consumed(p: Parser, data: seq<byte>): nat {
    var taken := |p.carry| + |data| - |Parse(p, data).parser.carry|;
    if taken >= |p.carry| then taken - |p.carry| else 0
  }

  /** Successive reads, one call of Parse each. */
  function ParseAll(p: Parser, cuts: seq<seq<byte>>): ReadResult
    decreases |cuts|
  {
    if cuts == [] then ReadResult(p, [])
    else
      var first := Parse(p, cuts[0]);
      var others := ParseAll(first.parser, cuts[1..]);
      ReadResult(others.parser, first.chunks + others.chunks)
  }

  // ---- The encoder

  function EncodeBasic(fmt: byte, csid: u32): (d: seq<byte>)
    requires fmt < 4
    ensures 1 <= |d| <= 3
  {
    if csid < 64 then [64 * (fmt as int) + csid]
    else if csid < 320 then [64 * (fmt as int), csid - 64]
    else [64 * (fmt as int) + 1, (csid - 64) % 256, (csid - 64) / 256 % 256]
  }

  function EncodeMessageHeader(h: ChunkHeader): (d: seq<byte>)
    ensures |d| == if h.timestamp >= EXTENDED then 15 else 11
  {
    WriteU24Be(Min(h.timestamp, EXTENDED)) + WriteU24Be(h.length) + [h.typeId] + WriteU32Le(h.streamId)
    + (if h.timestamp >= EXTENDED then WriteU32Be(h.timestamp) else [])
  }

  /** The first chunk of a message has a full header, the others have none. */
  function EncodeHead(h: ChunkHeader, sent: nat): (d: seq<byte>)
    ensures |d| >= 1
  {
    if sent == 0 then EncodeBasic(0, h.csid) + EncodeMessageHeader(h) else EncodeBasic(3, h.csid)
  }

  /** The chunk that carries the payload from position sent on. */
  function EncodeOne(h: ChunkHeader, payload: seq<byte>, sent: nat, size: u32): (d: seq<byte>)
    requires sent <= |payload|
    ensures |d| == |EncodeHead(h, sent)| + Min(size, |payload| - sent)
  {
    EncodeHead(h, sent) + payload[sent..sent + Min(size, |payload| - sent)]
  }

  function EncodeFrom(h: ChunkHeader, payload: seq<byte>, sent: nat, size: u32): seq<byte>
    requires sent <= |payload|
    requires size > 0 || sent == |payload|
    decreases |payload| - sent
  {
    if sent == |payload| then []
    else
      EncodeOne(h, payload, sent, size) + EncodeFrom(h, payload, sent + Min(size, |payload| - sent), size)
  }

  function EncodeChunk(h: ChunkHeader, payload: seq<byte>, size: u32): seq<byte>
    requires size > 0 || payload == []
  {
    EncodeFrom(h, payload, 0, size)
  }
}
