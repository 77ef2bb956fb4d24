/** Encoding a message into chunks and parsing them back. */
module RoundTrip {
  import opened Bytes
  import opened Messages
  import opened Wrappers
  import opened Chunks
  import opened Fragmentation

  /** The header as the parser reports it. */
  function ReadBack(h: ChunkHeader): ChunkHeader {
    h.(fmt := 0, extended := h.timestamp >= EXTENDED)
  }

  /** A message the wire format has room for. */
  predicate Sendable(h: ChunkHeader, payload: seq<byte>) {
    2 <= h.csid <= 65599 && h.length == |payload| && 0 < |payload| < 0x100_0000
  }

  /** A continuation chunk never carries the extended timestamp the parser would look for. */
  predicate Unambiguous(h: ChunkHeader, payload: seq<byte>, size: u32) {
    h.timestamp < EXTENDED || |payload| <= size
  }

  /** The parser has received the given number of payload bytes of this message. */
  predicate Holds(s: Streams, h: ChunkHeader, payload: seq<byte>, sent: nat)
    requires sent <= |payload|
  {
    var st := At(s, h.csid);
    st.received == sent && (sent > 0 ==> st.partial == payload[..sent] && st.prev == ReadBack(h))
  }

  /** The stream table once the given number of payload bytes has been received. */
  function After(s: Streams, h: ChunkHeader, payload: seq<byte>, sent: nat): Streams
    requires sent <= |payload| < WORD
  {
    s[h.csid := if sent == |payload| then Stream(ReadBack(h), [], 0) else Stream(ReadBack(h), payload[..sent], sent)]
  }

  function NextSent(payload: seq<byte>, sent: nat, size: u32): (n: nat)
    requires sent <= |payload|
    ensures sent <= n <= |payload|
  {
    sent + Min(size, |payload| - sent)
  }

  // ---- Headers

  lemma BasicHeaderReadsBack(fmt: byte, csid: u32, tail: seq<byte>)
    requires fmt < 4 && 2 <= csid <= 65599
    ensures BasicHeader(EncodeBasic(fmt, csid) + tail) == Some(Basic(fmt, csid, |EncodeBasic(fmt, csid)|))
  {
  }

  lemma MessageHeaderReadsBack(h: ChunkHeader, prev: ChunkHeader, tail: seq<byte>)
    requires h.length < 0x100_0000
    ensures MessageHeader(0, h.csid, prev, EncodeMessageHeader(h) + tail)
              == Some(Decoded(ReadBack(h), ReadBack(h), |EncodeMessageHeader(h)|))
  {
    MessageHeaderParts(h, tail);
    hide ReadU24Be, ReadU32Be, ReadU32Le, EncodeMessageHeader;
  }

  /** The fields of a full header, read one by one. */
  lemma MessageHeaderParts(h: ChunkHeader, tail: seq<byte>)
    requires h.length < 0x100_0000
    ensures var d := EncodeMessageHeader(h) + tail;
            && ReadU24Be(d, 0) == Min(h.timestamp, EXTENDED)
            && ReadU24Be(d, 3) == h.length && d[6] == h.typeId && ReadU32Le(d, 7) == h.streamId
            && (h.timestamp >= EXTENDED ==> ReadU32Be(d, 11) == h.timestamp)
  {
    hide ReadU24Be, ReadU32Be, ReadU32Le, WriteU24Be, WriteU32Be, WriteU32Le;
    var d := EncodeMessageHeader(h) + tail;
    var time := Min(h.timestamp, EXTENDED);
    assert d[0..3] == WriteU24Be(time);
    assert d[3..6] == WriteU24Be(h.length);
    assert d[6] == h.typeId;
    assert d[7..11] == WriteU32Le(h.streamId);
    ReadsU24Be(d, 0, time);
    ReadsU24Be(d, 3, h.length);
    ReadsU32Le(d, 7, h.streamId);
    if h.timestamp >= EXTENDED {
      assert d[11..15] == WriteU32Be(h.timestamp);
      ReadsU32Be(d, 11, h.timestamp);
    }
  }

  // ---- Headers relative to the one before, which this repository only reads

  /** A header of the given format says no more than what differs from the one before. */
  predicate Compressible(fmt: byte, prev: ChunkHeader, h: ChunkHeader) {
    && (fmt == 1 || fmt == 2) && h.streamId == prev.streamId && h.length < 0x100_0000
    && (fmt == 2 ==> h.length == prev.length && h.typeId == prev.typeId)
  }

  function TimeDelta(prev: ChunkHeader, h: ChunkHeader): u32 {
    ((h.timestamp as int) - prev.timestamp) % WORD
  }

  /** The fields of a fmt 1 or fmt 2 message header, sections 5.3.1.2.2 and 5.3.1.2.3 of the RTMP specification. */
  function Compressed(fmt: byte, prev: ChunkHeader, h: ChunkHeader): seq<byte> {
    var delta := TimeDelta(prev, h);
    WriteU24Be(Min(delta, EXTENDED))
    + (if fmt == 1 then WriteU24Be(h.length) + [h.typeId] else [])
    + (if delta >= EXTENDED then WriteU32Be(delta) else [])
  }

  lemma LaterUndoesDelta(prev: ChunkHeader, h: ChunkHeader)
    ensures Later(prev.timestamp, TimeDelta(prev, h)) == h.timestamp
  {
  }

  /** A compressed header read after the header it was compressed against gives back every field. */
  lemma CompressedReadsBack(fmt: byte, prev: ChunkHeader, h: ChunkHeader, tail: seq<byte>)
    requires Compressible(fmt, prev, h)
    ensures var m := MessageHeader(fmt, h.csid, prev, Compressed(fmt, prev, h) + tail);
            && m.Some? && m.value.size == |Compressed(fmt, prev, h)|
            && m.value.header == h.(fmt := fmt, extended := TimeDelta(prev, h) >= EXTENDED)
            && m.value.prev == if fmt == 1 then m.value.header else prev.(timestamp := h.timestamp)
  {
    var delta := TimeDelta(prev, h);
    LaterUndoesDelta(prev, h);
    CompressedParts(fmt, prev, h, tail);
    hide Compressed, TimeDelta, Later, ReadU24Be, ReadU32Be;
  }

  /** The fields of a compressed header, read one by one. */
  lemma CompressedParts(fmt: byte, prev: ChunkHeader, h: ChunkHeader, tail: seq<byte>)
    requires Compressible(fmt, prev, h)
    ensures var delta, d := TimeDelta(prev, h), Compressed(fmt, prev, h) + tail;
            var at := if fmt == 1 then 7 else 3;
            && |Compressed(fmt, prev, h)| == (if delta >= EXTENDED then at + 4 else at)
            && ReadU24Be(d, 0) == Min(delta, EXTENDED)
            && (fmt == 1 ==> ReadU24Be(d, 3) == h.length && d[6] == h.typeId)
            && (delta >= EXTENDED ==> ReadU32Be(d, at) == delta)
  {
    var delta, d := TimeDelta(prev, h), Compressed(fmt, prev, h) + tail;
    hide TimeDelta, ReadU24Be, ReadU32Be, WriteU24Be, WriteU32Be;
    var time := Min(delta, EXTENDED);
    assert d[0..3] == WriteU24Be(time);
    ReadsU24Be(d, 0, time);
    var at := if fmt == 1 then 7 else 3;
    if fmt == 1 {
      assert d[3..6] == WriteU24Be(h.length) && d[6] == h.typeId;
      ReadsU24Be(d, 3, h.length);
    }
    if delta >= EXTENDED {
      assert d[at..at + 4] == WriteU32Be(delta);
      ReadsU32Be(d, at, delta);
    }
  }

  /** The head of a chunk prepares exactly its own stream for the payload. */
  lemma HeadReadsBack(s: Streams, h: ChunkHeader, payload: seq<byte>, sent: nat, tail: seq<byte>)
    requires Sendable(h, payload) && sent < |payload| && Holds(s, h, payload, sent)
    requires sent > 0 ==> h.timestamp < EXTENDED
    ensures var r := ReadHeader(s, EncodeHead(h, sent) + tail);
            && r.Whole? && r.header == ReadBack(h) && r.size == |EncodeHead(h, sent)|
            && Cleared(r) == s[h.csid := Stream(ReadBack(h), payload[..sent], sent)]
  {
    var fmt := if sent == 0 then 0 else 3;
    var basic := EncodeBasic(fmt, h.csid);
    var head := EncodeHead(h, sent);
    var behind := if sent == 0 then EncodeMessageHeader(h) + tail else tail;
    assert head + tail == basic + behind;
    BasicHeaderReadsBack(fmt, h.csid, behind);
    assert (basic + behind)[|basic|..] == behind;
    var known := At(s, h.csid);
    if sent == 0 {
      MessageHeaderReadsBack(h, known.prev, tail);
      assert payload[..0] == [];
    } else {
      assert MessageHeader(3, h.csid, known.prev, behind) == Some(Decoded(known.prev, known.prev, 0));
    }
    hide BasicHeader, MessageHeader, EncodeHead, EncodeBasic, EncodeMessageHeader;
  }

  /** The outcome the parser should reach for the chunk that starts at position sent. */
  function Expected(s: Streams, size: u32, h: ChunkHeader, payload: seq<byte>, sent: nat): StepOutcome
    requires sent <= |payload| < WORD
  {
    var n := NextSent(payload, sent, size);
    var used := |EncodeOne(h, payload, sent, size)|;
    if n == |payload| then
      Advance(After(s, h, payload, n), SizeAfter(size, h.typeId, payload), used, [Chunk(ReadBack(h), payload)])
    else
      Advance(After(s, h, payload, n), size, used, [])
  }

  lemma PayloadAbsorbed(s: Streams, size: u32, h: ChunkHeader, payload: seq<byte>, sent: nat)
    requires Sendable(h, payload) && sent < |payload|
    ensures var n := NextSent(payload, sent, size);
            var ready := s[h.csid := Stream(ReadBack(h), payload[..sent], sent)];
            Absorb(ready, size, ReadBack(h), |EncodeOne(h, payload, sent, size)|, payload[sent..n])
              == Expected(s, size, h, payload, sent)
  {
    hide SizeAfter, EncodeOne;
    var n := NextSent(payload, sent, size);
    assert payload[..sent] + payload[sent..n] == payload[..n];
    assert n == |payload| ==> payload[..n] == payload;
    assert (sent + (n - sent)) % WORD == n;
    var ready := s[h.csid := Stream(ReadBack(h), payload[..sent], sent)];
    var next := if n == |payload| then Stream(ReadBack(h), [], 0) else Stream(ReadBack(h), payload[..n], n);
    assert ready[h.csid := next] == s[h.csid := next];
  }

  lemma TakesWhatIsLeft(h: ChunkHeader, payload: seq<byte>, sent: nat, size: u32)
    requires Sendable(h, payload) && sent < |payload|
    ensures Take(size, ReadBack(h), sent) == NextSent(payload, sent, size) - sent
  {
  }

  /** One encoded chunk is read back whole, whatever follows it and whatever the other streams are doing. */
  lemma OneChunk(s: Streams, size: u32, h: ChunkHeader, payload: seq<byte>, sent: nat, tail: seq<byte>)
    requires Sendable(h, payload) && sent < |payload| && Holds(s, h, payload, sent)
    requires sent > 0 ==> h.timestamp < EXTENDED
    ensures Step(s, size, EncodeOne(h, payload, sent, size) + tail) == Expected(s, size, h, payload, sent)
  {
    hide ReadHeader, EncodeHead, Cleared, Absorb, Expected, Holds, Take;
    var n := NextSent(payload, sent, size);
    var one, head, body := EncodeOne(h, payload, sent, size), EncodeHead(h, sent), payload[sent..n];
    var d := one + tail;
    assert d == head + (body + tail);
    assert d[|head|..|one|] == body;
    HeadReadsBack(s, h, payload, sent, body + tail);
    hide EncodeOne;
    PayloadAbsorbed(s, size, h, payload, sent);
    assert Take(size, ReadBack(h), sent) == n - sent by { TakesWhatIsLeft(h, payload, sent, size); }
  }

  // ---- A whole message

  /** The rest of an encoded message, followed by anything. */
  lemma {:induction false} RestOfMessage(
    s: Streams, size: u32, h: ChunkHeader, payload: seq<byte>, sent: nat, tail: seq<byte>)
    requires size > 0 && Sendable(h, payload) && sent < |payload| && Holds(s, h, payload, sent)
    requires Unambiguous(h, payload, size) && (sent > 0 ==> h.timestamp < EXTENDED)
    ensures Drain(s, size, EncodeFrom(h, payload, sent, size) + tail)
              == Prepend([Chunk(ReadBack(h), payload)],
                         Drain(After(s, h, payload, |payload|), SizeAfter(size, h.typeId, payload), tail))
    decreases |payload| - sent
  {
    hide Step, SizeAfter, EncodeOne, Drain, Holds, After;
    var n := NextSent(payload, sent, size);
    var one, others := EncodeOne(h, payload, sent, size), EncodeFrom(h, payload, n, size);
    assert (one + others) + tail == one + (others + tail);
    OneChunkDrained(s, size, h, payload, sent, others + tail);
    if n == |payload| {
      assert others + tail == tail;
    } else {
      AfterHolds(s, h, payload, n);
      RestOfMessage(After(s, h, payload, n), size, h, payload, n, tail);
    }
  }

  lemma OneChunkDrained(s: Streams, size: u32, h: ChunkHeader, payload: seq<byte>, sent: nat, tail: seq<byte>)
    requires size > 0 && Sendable(h, payload) && sent < |payload| && Holds(s, h, payload, sent)
    requires sent > 0 ==> h.timestamp < EXTENDED
    ensures var n := NextSent(payload, sent, size);
            var one := EncodeOne(h, payload, sent, size);
            var s' := After(s, h, payload, n);
            Drain(s, size, one + tail)
              == if n == |payload| then
                   Prepend([Chunk(ReadBack(h), payload)], Drain(s', SizeAfter(size, h.typeId, payload), tail))
                 else Drain(s', size, tail)
  {
    hide Step, SizeAfter, EncodeOne, After, Holds, ReadBack;
    var one := EncodeOne(h, payload, sent, size);
    OneChunk(s, size, h, payload, sent, tail);
    assert (one + tail)[|one|..] == tail;
    PrependTwice([], [], Drain(After(s, h, payload, NextSent(payload, sent, size)), size, tail));
  }

  lemma AfterHolds(s: Streams, h: ChunkHeader, payload: seq<byte>, n: nat)
    requires 0 < n < |payload| < WORD
    ensures Holds(After(s, h, payload, n), h, payload, n)
    ensures After(After(s, h, payload, n), h, payload, |payload|) == After(s, h, payload, |payload|)
  {
  }

  /**
    * From any state with nothing partial on its chunk stream, an encoded message comes back as exactly one
    * equal message, and only its own stream and the chunk size can change.
    */
  lemma MessageReadsBack(s: Streams, size: u32, h: ChunkHeader, payload: seq<byte>, tail: seq<byte>)
    requires size > 0 && Sendable(h, payload) && Unambiguous(h, payload, size) && At(s, h.csid).received == 0
    ensures Drain(s, size, EncodeChunk(h, payload, size) + tail)
              == Prepend([Chunk(ReadBack(h), payload)],
                         Drain(s[h.csid := Stream(ReadBack(h), [], 0)], SizeAfter(size, h.typeId, payload), tail))
  {
    RestOfMessage(s, size, h, payload, 0, tail);
  }

  // ---- An encoded message that is cut short

  /** The bytes begin with a full header, with none at all, or are not there. */
  predicate Plain(d: seq<byte>) {
    d == [] || d[0] / 64 == 0 || d[0] / 64 == 3
  }

  lemma PlainHasNoDelta(d: seq<byte>)
    requires Plain(d)
    ensures !StalledDelta(d)
  {
  }

  lemma HeadIsPlain(h: ChunkHeader, payload: seq<byte>, sent: nat, size: u32)
    requires sent <= |payload|
    ensures EncodeOne(h, payload, sent, size)[0] / 64 == (if sent == 0 then 0 else 3)
  {
  }

  lemma CutChunkIsStuck(s: Streams, size: u32, h: ChunkHeader, payload: seq<byte>, sent: nat, a: seq<byte>)
    requires Sendable(h, payload) && sent < |payload| && Holds(s, h, payload, sent)
    requires sent > 0 ==> h.timestamp < EXTENDED
    requires a < EncodeOne(h, payload, sent, size)
    ensures Step(s, size, a).Stuck? && Plain(a)
  {
    hide Step, EncodeOne, Sendable, Holds;
    var one := EncodeOne(h, payload, sent, size);
    var rest := one[|a|..];
    OneChunk(s, size, h, payload, sent, []);
    assert one + [] == one && a + rest == one;
    if Step(s, size, a).Advance? {
      StepExtends(s, size, a, rest);
    }
    HeadIsPlain(h, payload, sent, size);
  }

  lemma {:induction false} CutMessage(
    s: Streams, size: u32, h: ChunkHeader, payload: seq<byte>, sent: nat, a: seq<byte>)
    requires size > 0 && Sendable(h, payload) && sent < |payload| && Holds(s, h, payload, sent)
    requires Unambiguous(h, payload, size) && (sent > 0 ==> h.timestamp < EXTENDED)
    requires a <= EncodeFrom(h, payload, sent, size)
    ensures Plain(Drain(s, size, a).rest)
    decreases |payload| - sent
  {
    hide Step, EncodeOne;
    var n := NextSent(payload, sent, size);
    var one, others := EncodeOne(h, payload, sent, size), EncodeFrom(h, payload, n, size);
    if |a| < |one| {
      assert a < one;
      CutChunkIsStuck(s, size, h, payload, sent, a);
    } else {
      var a' := a[|one|..];
      assert a == one + a' && a' <= others;
      OneChunk(s, size, h, payload, sent, a');
      if n == |payload| {
        NothingToDrain(After(s, h, payload, n), SizeAfter(size, h.typeId, payload));
      } else {
        CutMessage(After(s, h, payload, n), size, h, payload, n, a');
      }
    }
  }
}
