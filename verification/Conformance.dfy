/** Messages cut into chunks as section 5.3.1 of the RTMP specification has it, and what the parser makes of them. */
module Conformance {
  import opened Bytes
  import opened Messages
  import opened Wrappers
  import opened Chunks
  import opened RoundTrip

  /** A continuation chunk repeats an extended timestamp, section 5.3.1.3. */
  function SpecHead(h: ChunkHeader, sent: nat): (d: seq<byte>)
    ensures |d| >= 1
  {
    if sent == 0 then EncodeHead(h, 0)
    else EncodeBasic(3, h.csid) + (if h.timestamp >= 0xFF_FFFF then WriteU32Be(h.timestamp) else [])
  }

  function SpecOne(h: ChunkHeader, payload: seq<byte>, sent: nat, size: u32): (d: seq<byte>)
    requires sent <= |payload|
    ensures |d| == |SpecHead(h, sent)| + Min(size, |payload| - sent)
  {
    SpecHead(h, sent) + payload[sent..sent + Min(size, |payload| - sent)]
  }

  function SpecFrom(h: ChunkHeader, payload: seq<byte>, sent: nat, size: u32): seq<byte>
    requires sent <= |payload| && size > 0
    decreases |payload| - sent
  {
    if sent == |payload| then []
    else SpecOne(h, payload, sent, size) + SpecFrom(h, payload, sent + Min(size, |payload| - sent), size)
  }

  /** Four bytes behind a fmt 3 basic header are the message's time, if its first header had an extended one. */
  lemma RepeatedTime(c: u32, prev: ChunkHeader, time: u32, tail: seq<byte>)
    requires prev.extended
    ensures MessageHeader(3, c, prev, WriteU32Be(time) + tail) == Some(Decoded(prev.(timestamp := time), prev, 4))
  {
    var d := WriteU32Be(time) + tail;
    assert d[0..4] == WriteU32Be(time);
    ReadsU32Be(d, 0, time);
    hide ReadU32Be, WriteU32Be;
  }

  lemma SpecHeadReadsBack(s: Streams, h: ChunkHeader, payload: seq<byte>, sent: nat, tail: seq<byte>)
    requires Sendable(h, payload) && sent < |payload| && Holds(s, h, payload, sent)
    ensures var r := ReadHeader(s, SpecHead(h, sent) + tail);
            && r.Whole? && r.header == ReadBack(h) && r.size == |SpecHead(h, sent)|
            && Cleared(r) == s[h.csid := Stream(ReadBack(h), payload[..sent], sent)]
  {
    if sent == 0 || h.timestamp < 0xFF_FFFF {
      assert SpecHead(h, sent) == EncodeHead(h, sent);
      HeadReadsBack(s, h, payload, sent, tail);
    } else {
      RepeatedHeadReadsBack(s, h, payload, sent, tail);
    }
  }

  lemma RepeatedHeadReadsBack(s: Streams, h: ChunkHeader, payload: seq<byte>, sent: nat, tail: seq<byte>)
    requires Sendable(h, payload) && 0 < sent < |payload| && Holds(s, h, payload, sent) && h.timestamp >= 0xFF_FFFF
    ensures var r := ReadHeader(s, SpecHead(h, sent) + tail);
            && r.Whole? && r.header == ReadBack(h) && r.size == |SpecHead(h, sent)|
            && Cleared(r) == s[h.csid := Stream(ReadBack(h), payload[..sent], sent)]
  {
    var basic, time := EncodeBasic(3, h.csid), WriteU32Be(h.timestamp);
    var d := SpecHead(h, sent) + tail;
    assert d == basic + (time + tail);
    BasicHeaderReadsBack(3, h.csid, time + tail);
    assert d[|basic|..] == time + tail;
    RepeatedTime(h.csid, ReadBack(h), h.timestamp, tail);
    assert ReadBack(h).(timestamp := h.timestamp) == ReadBack(h);
    hide BasicHeader, MessageHeader, EncodeBasic, WriteU32Be;
  }

  lemma SpecChunkTaken(s: Streams, size: u32, h: ChunkHeader, payload: seq<byte>, sent: nat, tail: seq<byte>)
    requires Sendable(h, payload) && sent < |payload| && Holds(s, h, payload, sent)
    ensures var n := NextSent(payload, sent, size);
            var r := Step(s, size, SpecOne(h, payload, sent, size) + tail);
            && r.Advance? && r.used == |SpecOne(h, payload, sent, size)| && r.streams == After(s, h, payload, n)
            && r.size == (if n == |payload| then SizeAfter(size, h.typeId, payload) else size)
            && r.chunks == if n == |payload| then [Chunk(ReadBack(h), payload)] else []
  {
    hide ReadHeader, SpecHead, Cleared, Absorb, Holds, Take, SizeAfter;
    var n := NextSent(payload, sent, size);
    var one, head, body := SpecOne(h, payload, sent, size), SpecHead(h, sent), payload[sent..n];
    var d := one + tail;
    assert d == head + (body + tail);
    assert d[|head|..|one|] == body;
    SpecHeadReadsBack(s, h, payload, sent, body + tail);
    hide SpecOne;
    PayloadTaken(s, size, h, payload, sent, |one|);
    assert Take(size, ReadBack(h), sent) == n - sent by { TakesWhatIsLeft(h, payload, sent, size); }
  }

  lemma PayloadTaken(s: Streams, size: u32, h: ChunkHeader, payload: seq<byte>, sent: nat, used: nat)
    requires Sendable(h, payload) && sent < |payload|
    ensures var n := NextSent(payload, sent, size);
            var ready := s[h.csid := Stream(ReadBack(h), payload[..sent], sent)];
            Absorb(ready, size, ReadBack(h), used, payload[sent..n])
              == if n == |payload| then
                   Advance(After(s, h, payload, n), SizeAfter(size, h.typeId, payload), used,
                           [Chunk(ReadBack(h), payload)])
                 else Advance(After(s, h, payload, n), size, used, [])
  {
    hide SizeAfter;
    PayloadAbsorbed(s, size, h, payload, sent);
  }

  lemma SpecChunkDrained(s: Streams, size: u32, h: ChunkHeader, payload: seq<byte>, sent: nat, tail: seq<byte>)
    requires size > 0 && Sendable(h, payload) && sent < |payload| && Holds(s, h, payload, sent)
    ensures var n := NextSent(payload, sent, size);
            var one := SpecOne(h, payload, sent, size);
            var s' := After(s, h, payload, n);
            Drain(s, size, one + tail)
              == if n == |payload| then
                   Prepend([Chunk(ReadBack(h), payload)], Drain(s', SizeAfter(size, h.typeId, payload), tail))
                 else Drain(s', size, tail)
  {
    hide Step, SizeAfter, SpecOne, After, Holds, ReadBack;
    var one := SpecOne(h, payload, sent, size);
    SpecChunkTaken(s, size, h, payload, sent, tail);
    assert (one + tail)[|one|..] == tail;
    PrependTwice([], [], Drain(After(s, h, payload, NextSent(payload, sent, size)), size, tail));
  }

  lemma {:induction false} RestOfSpecMessage(
    s: Streams, size: u32, h: ChunkHeader, payload: seq<byte>, sent: nat, tail: seq<byte>)
    requires size > 0 && Sendable(h, payload) && sent < |payload| && Holds(s, h, payload, sent)
    ensures Drain(s, size, SpecFrom(h, payload, sent, size) + tail)
              == Prepend([Chunk(ReadBack(h), payload)],
                         Drain(After(s, h, payload, |payload|), SizeAfter(size, h.typeId, payload), tail))
    decreases |payload| - sent
  {
    hide Step, SizeAfter, SpecOne, Drain, Holds, After;
    var n := NextSent(payload, sent, size);
    var one, others := SpecOne(h, payload, sent, size), SpecFrom(h, payload, n, size);
    assert (one + others) + tail == one + (others + tail);
    SpecChunkDrained(s, size, h, payload, sent, others + tail);
    if n == |payload| {
      assert others + tail == tail;
    } else {
      AfterHolds(s, h, payload, n);
      RestOfSpecMessage(After(s, h, payload, n), size, h, payload, n, tail);
    }
  }

  /**
    * Of a sender that follows the specification the parser reads every message, whatever its timestamp and however
    * many chunks it takes: from any state with nothing partial on its chunk stream, and with anything behind it.
    */
  lemma SpecMessageReadsBack(s: Streams, size: u32, h: ChunkHeader, payload: seq<byte>, tail: seq<byte>)
    requires size > 0 && Sendable(h, payload) && At(s, h.csid).received == 0
    ensures Drain(s, size, SpecFrom(h, payload, 0, size) + tail)
              == Prepend([Chunk(h.(fmt := 0, extended := h.timestamp >= 0xFF_FFFF), payload)],
                         Drain(s[h.csid := Stream(ReadBack(h), [], 0)], SizeAfter(size, h.typeId, payload), tail))
  {
    RestOfSpecMessage(s, size, h, payload, 0, tail);
  }

  /** The repository's own encoder keeps to the specification exactly if the message is unambiguous. */
  lemma EncoderConformsIff(h: ChunkHeader, payload: seq<byte>, size: u32)
    requires size > 0 && Sendable(h, payload)
    ensures EncodeChunk(h, payload, size) == SpecFrom(h, payload, 0, size) <==> Unambiguous(h, payload, size)
  {
    if Unambiguous(h, payload, size) {
      SameChunks(h, payload, 0, size);
    } else {
      LongerChunks(h, payload, size, size);
      hide EncodeHead;
    }
  }

  lemma {:induction false} SameChunks(h: ChunkHeader, payload: seq<byte>, sent: nat, size: u32)
    requires size > 0 && sent <= |payload| && Unambiguous(h, payload, size)
    requires sent == 0 || h.timestamp < 0xFF_FFFF || sent == |payload|
    ensures EncodeFrom(h, payload, sent, size) == SpecFrom(h, payload, sent, size)
    decreases |payload| - sent
  {
    hide EncodeBasic, EncodeMessageHeader;
    if sent < |payload| {
      SameChunks(h, payload, NextSent(payload, sent, size), size);
    }
  }

  lemma {:induction false} LongerChunks(h: ChunkHeader, payload: seq<byte>, sent: nat, size: u32)
    requires size > 0 && 0 < sent <= |payload| && h.timestamp >= 0xFF_FFFF
    ensures |EncodeFrom(h, payload, sent, size)| <= |SpecFrom(h, payload, sent, size)|
    ensures sent < |payload| ==> |EncodeFrom(h, payload, sent, size)| < |SpecFrom(h, payload, sent, size)|
    decreases |payload| - sent
  {
    hide EncodeBasic, EncodeMessageHeader;
    if sent < |payload| {
      LongerChunks(h, payload, NextSent(payload, sent, size), size);
    }
  }
}
