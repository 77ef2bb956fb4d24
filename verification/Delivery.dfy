/** Two sessions joined by a byte stream: what one sends is what the other reports. */
module Delivery {
  import opened Bytes
  import opened Wrappers
  import opened Messages
  import opened Chunks
  import opened Fragmentation
  import opened RoundTrip
  import opened Sessions
  import Amf0
  import Commands

  /** A send the wire format can carry at the chunk size in force. */
  predicate Deliverable(s: Send, size: u32) {
    var m, csid := MessageOf(s), StreamOf(s);
    && Sendable(HeaderFor(m, csid), m.payload) && Unambiguous(HeaderFor(m, csid), m.payload, size)
    && (if s.SendSetChunkSize? then 1 <= s.size <= MAX_CHUNK_SIZE else m.typeId != SET_CHUNK_SIZE)
  }

  predicate DeliverableRun(sends: seq<Send>, size: u32)
    decreases |sends|
  {
    && size > 0
    && (sends != [] ==> Deliverable(sends[0], size) && DeliverableRun(sends[1..], SizeAfterSend(sends[0], size)))
  }

  function Wire(sends: seq<Send>, size: u32): seq<byte>
    requires DeliverableRun(sends, size)
    decreases |sends|
  {
    if sends == [] then [] else EncodedSend(sends[0], size) + Wire(sends[1..], SizeAfterSend(sends[0], size))
  }

  function FinalSize(sends: seq<Send>, size: u32): u32
    decreases |sends|
  {
    if sends == [] then size else FinalSize(sends[1..], SizeAfterSend(sends[0], size))
  }

  /** A run of sends in terms of the first one. */
  lemma FirstSend(sends: seq<Send>, size: u32)
    requires sends != []
    ensures DeliverableRun(sends, size)
            <==> size > 0 && Deliverable(sends[0], size) && DeliverableRun(sends[1..], SizeAfterSend(sends[0], size))
    ensures FinalSize(sends, size) == FinalSize(sends[1..], SizeAfterSend(sends[0], size))
    ensures DeliverableRun(sends, size) ==>
              Wire(sends, size) == EncodedSend(sends[0], size) + Wire(sends[1..], SizeAfterSend(sends[0], size))
  {
    hide Deliverable, EncodedSend, SizeAfterSend;
  }

  function ChunkOf(s: Send): Chunk {
    Chunk(ReadBack(HeaderFor(MessageOf(s), StreamOf(s))), MessageOf(s).payload)
  }

  function ChunksOf(sends: seq<Send>): (cs: seq<Chunk>)
    ensures |cs| == |sends| && forall i :: 0 <= i < |cs| ==> cs[i] == ChunkOf(sends[i])
  {
    seq(|sends|, i requires 0 <= i < |sends| => ChunkOf(sends[i]))
  }

  function MessagesOf(sends: seq<Send>): (ms: seq<Message>)
    ensures |ms| == |sends| && forall i :: 0 <= i < |ms| ==> ms[i] == MessageOf(sends[i])
  {
    seq(|sends|, i requires 0 <= i < |sends| => MessageOf(sends[i]))
  }

  // ---- The parser against the whole wire

  /** No message is half received. */
  ghost predicate Idle(s: Streams) {
    forall c :: c in s ==> s[c].received == 0
  }

  function StreamsAfterSends(s: Streams, sends: seq<Send>): Streams
    decreases |sends|
  {
    if sends == [] then s
    else StreamsAfterSends(s[StreamOf(sends[0]) := Stream(ChunkOf(sends[0]).header, [], 0)], sends[1..])
  }

  /** The receiver's rule for the chunk size agrees with the sender's. */
  lemma SizesAgree(s: Send, size: u32)
    requires Deliverable(s, size)
    ensures SizeAfter(size, MessageOf(s).typeId, MessageOf(s).payload) == SizeAfterSend(s, size)
    ensures s.SendSetChunkSize? ==> Announced(ChunkOf(s)) == Some(s.size)
    ensures !s.SendSetChunkSize? ==> Announced(ChunkOf(s)) == None
  {
    if s.SendSetChunkSize? {
      SetChunkSizeRoundTrip(s.size);
    }
  }

  lemma SendParsed(s: Streams, size: u32, one: Send, tail: seq<byte>)
    requires Idle(s) && size > 0 && Deliverable(one, size)
    ensures var s' := s[StreamOf(one) := Stream(ChunkOf(one).header, [], 0)];
            && Idle(s')
            && Drain(s, size, EncodedSend(one, size) + tail)
                 == Prepend([ChunkOf(one)], Drain(s', SizeAfterSend(one, size), tail))
  {
    SizesAgree(one, size);
    hide SizeAfter, MessageOf, StreamOf, HeaderFor;
    MessageReadsBack(s, size, HeaderFor(MessageOf(one), StreamOf(one)), MessageOf(one).payload, tail);
    hide Chunks.EncodeChunk, Drain, ReadBack;
    assert HeaderFor(MessageOf(one), StreamOf(one)).csid == StreamOf(one) by {
      HeaderStream(MessageOf(one), StreamOf(one));
    }
    assert HeaderFor(MessageOf(one), StreamOf(one)).typeId == MessageOf(one).typeId by {
      HeaderStream(MessageOf(one), StreamOf(one));
    }
  }

  lemma HeaderStream(m: Message, csid: u32)
    ensures HeaderFor(m, csid).csid == csid && HeaderFor(m, csid).typeId == m.typeId
  {
  }

  lemma {:induction false} SendsParsed(s: Streams, size: u32, sends: seq<Send>, tail: seq<byte>)
    requires Idle(s) && DeliverableRun(sends, size)
    ensures Idle(StreamsAfterSends(s, sends))
    ensures Drain(s, size, Wire(sends, size) + tail)
         == Prepend(ChunksOf(sends), Drain(StreamsAfterSends(s, sends), FinalSize(sends, size), tail))
    decreases |sends|
  {
    hide Deliverable, Drain, Idle, EncodedSend, ChunkOf;
    if sends == [] {
      assert [] + tail == tail;
      PrependTwice([], [], Drain(s, size, tail));
      assert ChunksOf(sends) == [];
    } else {
      var size', s' := SizeAfterSend(sends[0], size), s[StreamOf(sends[0]) := Stream(ChunkOf(sends[0]).header, [], 0)];
      var first, others := EncodedSend(sends[0], size), Wire(sends[1..], size');
      assert (first + others) + tail == first + (others + tail);
      SendParsed(s, size, sends[0], others + tail);
      SendsParsed(s', size', sends[1..], tail);
      assert ChunksOf(sends) == [ChunkOf(sends[0])] + ChunksOf(sends[1..]);
      PrependTwice([ChunkOf(sends[0])], ChunksOf(sends[1..]),
                   Drain(StreamsAfterSends(s, sends), FinalSize(sends, size), tail));
    }
  }

  // ---- No read can end in the middle of a delta header

  lemma CutSend(s: Streams, size: u32, one: Send, a: seq<byte>)
    requires Idle(s) && size > 0 && Deliverable(one, size) && a <= EncodedSend(one, size)
    ensures !StalledDelta(Drain(s, size, a).rest)
  {
    hide Drain, StalledDelta, Plain;
    CutMessage(s, size, HeaderFor(MessageOf(one), StreamOf(one)), MessageOf(one).payload, 0, a);
    PlainHasNoDelta(Drain(s, size, a).rest);
  }

  lemma {:induction false} CutWire(s: Streams, size: u32, sends: seq<Send>, a: seq<byte>)
    requires Idle(s) && DeliverableRun(sends, size) && a <= Wire(sends, size)
    ensures !StalledDelta(Drain(s, size, a).rest)
    decreases |sends|
  {
    if sends == [] {
      NothingToDrain(s, size);
      PlainHasNoDelta([]);
    } else {
      FirstSend(sends, size);
      hide Drain, StalledDelta, Idle, DeliverableRun, Wire, Deliverable, EncodedSend, SizeAfterSend, ChunkOf;
      var first, size' := EncodedSend(sends[0], size), SizeAfterSend(sends[0], size);
      var others := Wire(sends[1..], size');
      if |a| <= |first| {
        assert a <= first;
        CutSend(s, size, sends[0], a);
      } else {
        var a' := a[|first|..];
        assert a == first + a' && a' <= others;
        SendParsed(s, size, sends[0], a');
        CutWire(s[StreamOf(sends[0]) := Stream(ChunkOf(sends[0]).header, [], 0)], size', sends[1..], a');
      }
    }
  }

  // ---- Setting an announced size twice

  /** The last size announced in a list of messages. */
  function LastAnnounced(cs: seq<Chunk>): Option<u32>
    decreases |cs|
  {
    if cs == [] then None
    else
      var later := LastAnnounced(cs[1..]);
      if later.Some? then later else Announced(cs[0])
  }

  function SizeAfterAll(size: u32, cs: seq<Chunk>): u32
    decreases |cs|
  {
    if cs == [] then size else SizeAfterAll(SizeAfter(size, cs[0].header.typeId, cs[0].payload), cs[1..])
  }

  lemma {:induction false} ReappliedIsLast(size: u32, cs: seq<Chunk>)
    ensures Reapplied(size, cs) == match LastAnnounced(cs) { case None => size case Some(n) => n }
    decreases |cs|
  {
    hide Announced;
    if cs != [] {
      ReappliedIsLast(Applied(size, cs[0]), cs[1..]);
    }
  }

  lemma {:induction false} SizeAfterAllLast(size: u32, cs: seq<Chunk>)
    ensures var n := SizeAfterAll(size, cs);
            && (n == size || 1 <= n <= MAX_CHUNK_SIZE)
            && (LastAnnounced(cs).Some? && 1 <= LastAnnounced(cs).value <= MAX_CHUNK_SIZE ==>
                  n == LastAnnounced(cs).value)
    ensures LastAnnounced(cs) == None ==> SizeAfterAll(size, cs) == size
    decreases |cs|
  {
    hide ParseSetChunkSize;
    if cs != [] {
      SizeAfterAllLast(SizeAfter(size, cs[0].header.typeId, cs[0].payload), cs[1..]);
    }
  }

  lemma StepSize(s: Streams, size: u32, d: seq<byte>)
    requires Step(s, size, d).Advance?
    ensures var r := Step(s, size, d); r.size == SizeAfterAll(size, r.chunks)
  {
  }

  lemma {:induction false} SizeAfterAllConcat(size: u32, a: seq<Chunk>, b: seq<Chunk>)
    ensures SizeAfterAll(size, a + b) == SizeAfterAll(SizeAfterAll(size, a), b)
    decreases |a|
  {
    hide SizeAfter;
    if a == [] {
      assert a + b == b;
    } else {
      assert (a + b)[0] == a[0] && (a + b)[1..] == a[1..] + b;
      SizeAfterAllConcat(SizeAfter(size, a[0].header.typeId, a[0].payload), a[1..], b);
    }
  }

  lemma {:induction false} DrainSize(s: Streams, size: u32, d: seq<byte>)
    ensures Drain(s, size, d).size == SizeAfterAll(size, Drain(s, size, d).chunks)
    decreases |d|
  {
    hide Step, SizeAfterAll;
    var r := Step(s, size, d);
    if r.Advance? {
      StepSize(s, size, d);
      DrainSize(r.streams, r.size, d[r.used..]);
      SizeAfterAllConcat(size, r.chunks, Drain(r.streams, r.size, d[r.used..]).chunks);
    } else {
      assert SizeAfterAll(size, []) == size by { NoSizes(size); }
    }
  }

  lemma NoSizes(size: u32)
    ensures SizeAfterAll(size, []) == size
  {
  }

  /**
    * Setting the announced sizes again after a read changes nothing exactly when the last one announced in that
    * read, if there was one, is in the range the parser itself accepts.
    */
  lemma ReapplyingIsHarmlessIff(p: Parser, data: seq<byte>)
    requires 1 <= p.size <= MAX_CHUNK_SIZE
    ensures var r, last := Chunks.Parse(p, data), LastAnnounced(Chunks.Parse(p, data).chunks);
            Receive(p, data).parser == r.parser <==> (last.Some? ==> 1 <= last.value <= MAX_CHUNK_SIZE)
  {
    hide Drain;
    var r := Chunks.Parse(p, data);
    DrainSize(p.streams, p.size, p.carry + data);
    SizeAfterAllLast(p.size, r.chunks);
    ReappliedIsLast(r.parser.size, r.chunks);
  }

  /** A peer that announces the chunk size zero: the parser keeps its own size, the session sets it to zero. */
  lemma ZeroSizeIsApplied()
    ensures var p, zero := Parser(INITIAL_CHUNK_SIZE, map[], []), [0, 0, 0, 0];
            var d := Chunks.EncodeChunk(ChunkHeader(0, 2, 0, 4, SET_CHUNK_SIZE, 0, false), zero, 128);
            Chunks.Parse(p, d).parser.size == INITIAL_CHUNK_SIZE && Receive(p, d).parser.size == 0
  {
    hide Chunks.EncodeChunk, Drain, SizeAfter, ParseSetChunkSize;
    var p, zero := Parser(INITIAL_CHUNK_SIZE, map[], []), [0, 0, 0, 0];
    var h := ChunkHeader(0, 2, 0, 4, SET_CHUNK_SIZE, 0, false);
    var k := Chunk(ReadBack(h), zero);
    ZeroSizeIgnored(h, zero);
    MessageReadsBack(map[], 128, h, zero, []);
    NothingToDrain(map[2 := Stream(ReadBack(h), [], 0)], 128);
    var d := Chunks.EncodeChunk(h, zero, 128);
    assert d + [] == d && [] + d == d;
    var r := Chunks.Parse(p, d);
    assert r.parser.size == 128 && r.chunks == [k] + [] == [k];
    hide Chunks.Parse;
    assert [k][1..] == [];
    assert Reapplied(128, [k]) == 0;
  }

  lemma ZeroSizeIgnored(h: ChunkHeader, zero: seq<byte>)
    requires h.typeId == SET_CHUNK_SIZE && zero == [0, 0, 0, 0]
    ensures SizeAfter(128, SET_CHUNK_SIZE, zero) == 128 && Announced(Chunk(ReadBack(h), zero)) == Some(0)
  {
  }

  // ---- The receiving session on any cut of the wire

  lemma NoBadSize(cs: seq<Chunk>)
    requires forall k :: k in cs ==> Announced(k) == None || 1 <= Announced(k).value <= MAX_CHUNK_SIZE
    ensures LastAnnounced(cs).Some? ==> 1 <= LastAnnounced(cs).value <= MAX_CHUNK_SIZE
    decreases |cs|
  {
    hide Announced;
    if cs != [] {
      NoBadSize(cs[1..]);
    }
  }

  lemma SendsAnnounceWell(sends: seq<Send>, size: u32)
    requires DeliverableRun(sends, size)
    ensures forall k :: k in ChunksOf(sends) ==> Announced(k) == None || 1 <= Announced(k).value <= MAX_CHUNK_SIZE
    decreases |sends|
  {
    hide Announced, ChunkOf;
    if sends != [] {
      SizesAgree(sends[0], size);
      SendsAnnounceWell(sends[1..], SizeAfterSend(sends[0], size));
      assert ChunksOf(sends) == [ChunkOf(sends[0])] + ChunksOf(sends[1..]);
    }
  }

  /** A parser that waits for the first byte of a message. */
  ghost predicate Waiting(p: Parser) {
    p.carry == [] && 1 <= p.size <= MAX_CHUNK_SIZE && Idle(p.streams)
  }

  /** What the parser has reported after a part of the wire is a part of what was sent. */
  lemma PartOfWire(p: Parser, sends: seq<Send>, a: seq<byte>)
    requires Waiting(p) && DeliverableRun(sends, p.size) && a <= Wire(sends, p.size)
    ensures Chunks.Parse(p, a).chunks <= ChunksOf(sends)
    ensures !StalledDelta(Chunks.Parse(p, a).parser.carry)
  {
    hide Drain, StalledDelta, Idle;
    var wire := Wire(sends, p.size);
    var b := wire[|a|..];
    assert [] + a == a && a + b == wire && wire + [] == wire;
    CutWire(p.streams, p.size, sends, a);
    DrainSplit(p.streams, p.size, a, b);
    SendsParsed(p.streams, p.size, sends, []);
    NothingToDrain(StreamsAfterSends(p.streams, sends), FinalSize(sends, p.size));
    assert ChunksOf(sends) + [] == ChunksOf(sends);
  }

  /** The state of the receiving session after the bytes a have arrived, however they were cut. */
  ghost predicate Caught(p: Parser, a: seq<byte>, r: Received) {
    r == Received(Chunks.Parse(p, a).parser, AllReported(Chunks.Parse(p, a).chunks))
  }

  lemma OneMoreParse(p: Parser, sends: seq<Send>, a: seq<byte>, data: seq<byte>)
    requires Waiting(p) && DeliverableRun(sends, p.size) && a + data <= Wire(sends, p.size)
    ensures var q := Chunks.Parse(p, a);
            var r := Chunks.Parse(q.parser, data);
            && Chunks.Parse(p, a + data) == ReadResult(r.parser, q.chunks + r.chunks)
            && (LastAnnounced(r.chunks).Some? ==> 1 <= LastAnnounced(r.chunks).value <= MAX_CHUNK_SIZE)
  {
    hide StalledDelta, Idle, Chunks.Parse, Announced, Wire, DeliverableRun, LastAnnounced;
    var q := Chunks.Parse(p, a);
    var r := Chunks.Parse(q.parser, data);
    assert a <= a + data;
    PartOfWire(p, sends, a);
    PartOfWire(p, sends, a + data);
    ParseTwice(p, a, data);
    SendsAnnounceWell(sends, p.size);
    forall k | k in r.chunks ensures Announced(k) == None || 1 <= Announced(k).value <= MAX_CHUNK_SIZE {
      assert k in q.chunks + r.chunks;
      assert k in ChunksOf(sends);
    }
    NoBadSize(r.chunks);
  }

  lemma OneMoreRead(p: Parser, sends: seq<Send>, a: seq<byte>, data: seq<byte>)
    requires Waiting(p) && DeliverableRun(sends, p.size) && a + data <= Wire(sends, p.size)
    ensures var q := Chunks.Parse(p, a);
            var r := Receive(q.parser, data);
            Caught(p, a + data, Received(r.parser, AllReported(q.chunks) + r.messages))
  {
    hide Idle, Chunks.Parse, Wire, DeliverableRun, LastAnnounced, Reapplied;
    var q := Chunks.Parse(p, a);
    var r := Chunks.Parse(q.parser, data);
    OneMoreParse(p, sends, a, data);
    ParserSizeStays(p, a);
    ReapplyingIsHarmlessIff(q.parser, data);
    assert AllReported(q.chunks + r.chunks) == AllReported(q.chunks) + AllReported(r.chunks);
  }

  lemma ParserSizeStays(p: Parser, a: seq<byte>)
    requires 1 <= p.size <= MAX_CHUNK_SIZE
    ensures 1 <= Chunks.Parse(p, a).parser.size <= MAX_CHUNK_SIZE
  {
    hide Drain;
    DrainSize(p.streams, p.size, p.carry + a);
    SizeAfterAllLast(p.size, Chunks.Parse(p, a).chunks);
  }

  lemma {:induction false} ReadsCatchUp(p: Parser, sends: seq<Send>, a: seq<byte>, cuts: seq<seq<byte>>)
    requires Waiting(p) && DeliverableRun(sends, p.size) && a + Concat(cuts) <= Wire(sends, p.size)
    ensures var q := Chunks.Parse(p, a);
            var r := ReceiveAll(q.parser, cuts);
            Caught(p, a + Concat(cuts), Received(r.parser, AllReported(q.chunks) + r.messages))
    decreases |cuts|
  {
    hide Chunks.Parse, Receive, Waiting, Wire, DeliverableRun, AllReported;
    var q := Chunks.Parse(p, a);
    if cuts == [] {
      assert a + [] == a;
      assert AllReported(q.chunks) + [] == AllReported(q.chunks);
    } else {
      var a' := a + cuts[0];
      Regroup(a, cuts[0], Concat(cuts[1..]));
      assert a' <= a' + Concat(cuts[1..]);
      OneMoreRead(p, sends, a, cuts[0]);
      ReadsCatchUp(p, sends, a', cuts[1..]);
      var first := Receive(q.parser, cuts[0]);
      var others := ReceiveAll(first.parser, cuts[1..]);
      Regroup(AllReported(q.chunks), first.messages, others.messages);
    }
  }

  // ---- The main results

  /** The session after several reads is where one read of all their bytes would have put it. */
  lemma CutsCaught(p: Parser, sends: seq<Send>, cuts: seq<seq<byte>>)
    requires Waiting(p) && DeliverableRun(sends, p.size) && Concat(cuts) <= Wire(sends, p.size)
    ensures var r := Chunks.Parse(p, Concat(cuts)); ReceiveAll(p, cuts) == Received(r.parser, AllReported(r.chunks))
  {
    hide Chunks.Parse, Wire, DeliverableRun, AllReported, Idle;
    NothingParsed(p);
    assert [] + Concat(cuts) == Concat(cuts);
    ReadsCatchUp(p, sends, [], cuts);
    assert AllReported([]) == [] by { NoneReported(); }
    assert [] + ReceiveAll(p, cuts).messages == ReceiveAll(p, cuts).messages;
  }

  lemma NoneReported()
    ensures AllReported([]) == []
  {
  }

  lemma SendsReported(sends: seq<Send>)
    ensures AllReported(ChunksOf(sends)) == MessagesOf(sends)
  {
  }

  /** However the wire is cut, and wherever it breaks off, the peer has reported a beginning of what was sent. */
  lemma PrefixDelivered(p: Parser, sends: seq<Send>, cuts: seq<seq<byte>>)
    requires Waiting(p) && DeliverableRun(sends, p.size) && Concat(cuts) <= Wire(sends, p.size)
    ensures ReceiveAll(p, cuts).messages <= MessagesOf(sends)
  {
    hide Chunks.Parse, Wire, DeliverableRun, Waiting, ReceiveAll;
    CutsCaught(p, sends, cuts);
    PartOfWire(p, sends, Concat(cuts));
    SendsReported(sends);
  }

  /**
    * Once all bytes have arrived, however they were cut into reads, the peer has reported exactly the messages
    * sent, in order, and its chunk size is the sender's.
    */
  lemma AllDelivered(p: Parser, sends: seq<Send>, cuts: seq<seq<byte>>)
    requires Waiting(p) && DeliverableRun(sends, p.size) && Concat(cuts) == Wire(sends, p.size)
    ensures var r := ReceiveAll(p, cuts);
            r.messages == MessagesOf(sends) && Waiting(r.parser) && r.parser.size == FinalSize(sends, p.size)
  {
    hide Chunks.Parse, Wire, DeliverableRun, Idle, ReceiveAll, FinalSize;
    CutsCaught(p, sends, cuts);
    WholeWireParsed(p, sends);
    ParserSizeStays(p, Wire(sends, p.size));
    SendsReported(sends);
  }

  lemma WholeWireParsed(p: Parser, sends: seq<Send>)
    requires Waiting(p) && DeliverableRun(sends, p.size)
    ensures var r := Chunks.Parse(p, Wire(sends, p.size));
            r.chunks == ChunksOf(sends) && r.parser.carry == [] && Idle(r.parser.streams)
            && r.parser.size == FinalSize(sends, p.size)
  {
    hide Drain, Idle;
    var wire := Wire(sends, p.size);
    assert [] + wire == wire && wire + [] == wire;
    SendsParsed(p.streams, p.size, sends, []);
    NothingToDrain(StreamsAfterSends(p.streams, sends), FinalSize(sends, p.size));
    assert ChunksOf(sends) + [] == ChunksOf(sends);
  }

  /** A command whose strings and keys fit their length fields and whose objects list each key once, in order. */
  predicate IntactCommand(send: Send) {
    && send.SendCommand? && Commands.EncodableCommand(send.cmd)
    && forall v :: v in send.cmd.arguments ==> Amf0.WellFormed(v)
  }

  /** Every delivered command parses to the command that was sent. */
  lemma CommandDelivered(p: Parser, sends: seq<Send>, cuts: seq<seq<byte>>, unset: u64)
    requires Waiting(p) && DeliverableRun(sends, p.size) && Concat(cuts) == Wire(sends, p.size)
    ensures |ReceiveAll(p, cuts).messages| == |sends|
    ensures forall i :: 0 <= i < |sends| && IntactCommand(sends[i]) ==>
              var m := ReceiveAll(p, cuts).messages[i];
              m.typeId == COMMAND_AMF0 && Commands.Parse(m.payload, unset) == Some(sends[i].cmd)
  {
    hide ReceiveAll, Wire, DeliverableRun, Waiting, Commands.Parse, Commands.Encoded;
    AllDelivered(p, sends, cuts);
    forall i | 0 <= i < |sends| && IntactCommand(sends[i])
      ensures var m := ReceiveAll(p, cuts).messages[i];
              m.typeId == COMMAND_AMF0 && Commands.Parse(m.payload, unset) == Some(sends[i].cmd)
    {
      assert ReceiveAll(p, cuts).messages[i] == MessagesOf(sends)[i] == MessageOf(sends[i]);
      Commands.ParsesBack(sends[i].cmd, unset);
    }
  }
}
