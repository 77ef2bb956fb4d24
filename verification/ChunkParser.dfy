/** The stateful chunk parser and the chunk encoder. */
module ChunkParsers {
  import opened Bytes
  import opened Messages
  import opened Wrappers
  import opened Chunks

  /** Both errors mean that more bytes have to arrive. */
  datatype HeaderError = EmptyData | NotEnoughData

  class ChunkParser {
    var chunkSize: u32
    var streams: Streams
    var buffer: seq<byte>

    /** The state the functions of module Chunks speak about. */
    function State(): Parser
      reads this
    {
      Parser(chunkSize, streams, buffer)
    }

    constructor (size: u32)
      ensures State() == Parser(size, map[], [])
    {
      chunkSize, streams, buffer := size, map[], [];
    }

    method SetChunkSize(size: u32)
      modifies this
      ensures State() == old(State()).(size := size)
    {
      chunkSize := size;
    }

    /** Reads one chunk header; the stream's entry is made, and its remembered header changed, on the way. */
    method ParseHeader(data: seq<byte>) returns (r: Result<(ChunkHeader, nat), HeaderError>)
      modifies this`streams
      ensures var x := ReadHeader(old(streams), data);
              && streams == x.streams
              && (x.Whole? ==> r == Ok((x.header, x.size)))
              && (x.Short? ==> r == Err(if data == [] then EmptyData else NotEnoughData))
    {
      if |data| == 0 {
        return Err(EmptyData);
      }
      var fmt: byte := data[0] / 64;
      var csid: u32 := data[0] % 64;
      var offset := 1;
      if csid == 0 {
        if |data| < 2 {
          return Err(NotEnoughData);
        }
        csid := 64 + (data[1] as int);
        offset := 2;
      } else if csid == 1 {
        if |data| < 3 {
          return Err(NotEnoughData);
        }
        csid := 64 + (data[1] as int) + 256 * (data[2] as int);
        offset := 3;
      }
      assert BasicHeader(data) == Some(Basic(fmt, csid, offset));
      hide BasicHeader, MessageHeader;
      r := ParseMessageHeader(data, fmt, csid, offset);
    }

    /** The part of the header that depends on its format. */
    method ParseMessageHeader(data: seq<byte>, fmt: byte, csid: u32, start: nat)
      returns (r: Result<(ChunkHeader, nat), HeaderError>)
      requires fmt < 4 && start <= |data|
      modifies this`streams
      ensures var known := At(old(streams), csid);
              var m := MessageHeader(fmt, csid, known.prev, data[start..]);
              match m
              case None => streams == old(streams)[csid := known] && r == Err(NotEnoughData)
              case Some(m) =>
                streams == old(streams)[csid := known.(prev := m.prev)] && r == Ok((m.header, start + m.size))
    {
      Shifted(data, start);
      hide ReadU24Be, ReadU32Be, ReadU32Le;
      var state := At(streams, csid);
      streams := streams[csid := state];
      var offset := start;
      var header := NO_HEADER.(fmt := fmt, csid := csid);
      if fmt == 0 {
        if |data| < offset + 11 {
          return Err(NotEnoughData);
        }
        header := header.(timestamp := ReadU24Be(data, offset));
        offset := offset + 3;
        header := header.(length := ReadU24Be(data, offset));
        offset := offset + 3;
        header := header.(typeId := data[offset]);
        offset := offset + 1;
        header := header.(streamId := ReadU32Le(data, offset));
        offset := offset + 4;
        if header.timestamp == EXTENDED {
          if |data| < offset + 4 {
            return Err(NotEnoughData);
          }
          header := header.(timestamp := ReadU32Be(data, offset), extended := true);
          offset := offset + 4;
        }
        streams := streams[csid := state.(prev := header)];
      } else if fmt == 1 {
        if |data| < offset + 7 {
          return Err(NotEnoughData);
        }
        var delta: u32 := ReadU24Be(data, offset);
        offset := offset + 3;
        header := header.(length := ReadU24Be(data, offset));
        offset := offset + 3;
        header := header.(typeId := data[offset], streamId := state.prev.streamId);
        offset := offset + 1;
        if delta == EXTENDED {
          if |data| < offset + 4 {
            return Err(NotEnoughData);
          }
          delta := ReadU32Be(data, offset);
          header := header.(extended := true);
          offset := offset + 4;
        }
        header := header.(timestamp := Later(state.prev.timestamp, delta));
        streams := streams[csid := state.(prev := header)];
      } else if fmt == 2 {
        if |data| < offset + 3 {
          return Err(NotEnoughData);
        }
        var delta: u32 := ReadU24Be(data, offset);
        offset := offset + 3;
        header := header.(length := state.prev.length, typeId := state.prev.typeId, streamId := state.prev.streamId);
        if delta == EXTENDED {
          if |data| < offset + 4 {
            return Err(NotEnoughData);
          }
          delta := ReadU32Be(data, offset);
          header := header.(extended := true);
          offset := offset + 4;
        }
        header := header.(timestamp := Later(state.prev.timestamp, delta));
        streams := streams[csid := state.(prev := state.prev.(timestamp := header.timestamp))];
      } else {
        header := state.prev;
        if header.extended {
          if |data| < offset + 4 {
            return Err(NotEnoughData);
          }
          header := header.(timestamp := ReadU32Be(data, offset));
          offset := offset + 4;
        }
        assert state.(prev := state.prev) == state;
      }
      return Ok((header, offset));
    }

    /** Appends a chunk's payload to its stream; a finished message comes out and may change the chunk size. */
    method AddPayload(h: ChunkHeader, body: seq<byte>, ghost used: nat) returns (out: seq<Chunk>)
      modifies this`streams, this`chunkSize
      ensures Advance(streams, chunkSize, used, out) == Absorb(old(streams), old(chunkSize), h, used, body)
    {
      hide ParseSetChunkSize;
      out := [];
      var state := At(streams, h.csid);
      state := state.(partial := state.partial + body, received := ((state.received as int) + |body|) % WORD);
      if state.received >= h.length {
        if h.typeId == SET_CHUNK_SIZE {
          var size := ParseSetChunkSize(state.partial);
          if size.Some? && size.value != 0 && size.value <= MAX_CHUNK_SIZE {
            chunkSize := size.value;
          }
        }
        out := [Chunk(h, state.partial)];
        state := state.(received := 0, partial := []);
      }
      streams := streams[h.csid := state];
    }

    /** Takes the chunk at the front of the data, header and payload together; uses no byte if it is cut short. */
    method TakeChunk(data: seq<byte>) returns (used: nat, out: seq<Chunk>)
      modifies this`streams, this`chunkSize
      ensures Step(old(streams), old(chunkSize), data)
           == if used == 0 then Stuck(streams) else Advance(streams, chunkSize, used, out)
      ensures used == 0 ==> chunkSize == old(chunkSize) && out == []
    {
      StepIs(streams, chunkSize, data);
      hide ReadHeader, Absorb, Step;
      var header := ParseHeader(data);
      if header.Err? {
        return 0, [];
      }
      var (h, headerSize) := header.value;
      var state := At(streams, h.csid);
      if state.received == 0 {
        state := state.(partial := []);
      }
      streams := streams[h.csid := state];
      var bytesToRead: nat := Min(chunkSize, ((h.length as int) - state.received) % WORD);
      if headerSize + bytesToRead > |data| {
        return 0, [];
      }
      out := AddPayload(h, data[headerSize..headerSize + bytesToRead], headerSize + bytesToRead);
      used := headerSize + bytesToRead;
    }

    /** Consumes every whole chunk of the buffered and the new bytes and keeps the rest for the next call. */
    method Parse(data: seq<byte>) returns (chunks: seq<Chunk>, consumed: nat)
      modifies this
      ensures State() == Chunks.Parse(old(State()), data).parser
      ensures chunks == Chunks.Parse(old(State()), data).chunks
      ensures consumed == Consumed(old(State()), data)
    {
      hide Step;
      chunks := [];
      var combined := buffer + data;
      var offset, lastGood := 0, 0;
      ghost var all := Drain(streams, chunkSize, combined);
      assert combined[0..] == combined && [] + all.chunks == all.chunks;
      while offset < |combined|
        invariant 0 <= offset == lastGood <= |combined|
        invariant buffer == old(buffer)
        invariant all == Prepend(chunks, Drain(streams, chunkSize, combined[offset..]))
      {
        ghost var rest := combined[offset..];
        var used, out := TakeChunk(combined[offset..]);
        if used == 0 {
          break;
        }
        offset := offset + used;
        lastGood := offset;
        assert rest[used..] == combined[offset..];
        PrependTwice(chunks, out, Drain(streams, chunkSize, combined[offset..]));
        chunks := chunks + out;
      }
      if lastGood == |combined| {
        NothingToDrain(streams, chunkSize);
      }
      assert chunks + [] == chunks;
      assert all == Drained(streams, chunkSize, combined[lastGood..], chunks);
      consumed := if lastGood >= |buffer| then lastGood - |buffer| else 0;
      buffer := combined[lastGood..];
    }
  }

  method AppendBasic(before: seq<byte>, fmt: byte, csid: u32) returns (output: seq<byte>)
    requires fmt < 4
    ensures output == before + EncodeBasic(fmt, csid)
  {
    if csid < 64 {
      output := before + [64 * (fmt as int) + csid];
    } else if csid < 320 {
      output := before + [64 * (fmt as int)];
      output := output + [csid - 64];
    } else {
      output := before + [64 * (fmt as int) + 1];
      var csidOffset := csid - 64;
      output := output + [csidOffset % 256];
      output := output + [csidOffset / 256 % 256];
    }
  }

  method AppendMessageHeader(before: seq<byte>, header: ChunkHeader) returns (output: seq<byte>)
    ensures output == before + EncodeMessageHeader(header)
  {
    hide WriteU24Be, WriteU32Le, WriteU32Be;
    var timestamp := if header.timestamp < EXTENDED then header.timestamp else EXTENDED;
    output := before + WriteU24Be(timestamp);
    output := output + WriteU24Be(header.length);
    output := output + [header.typeId];
    output := output + WriteU32Le(header.streamId);
    if header.timestamp >= EXTENDED {
      output := output + WriteU32Be(header.timestamp);
    }
  }

  /** Cuts a message into chunks: a full header in front of the first one, one to three bytes in front of the others. */
  method EncodeChunk(header: ChunkHeader, payload: seq<byte>, size: u32) returns (output: seq<byte>)
    requires size > 0 || payload == []
    ensures output == Chunks.EncodeChunk(header, payload, size)
  {
    hide EncodeFrom, EncodeHead;
    output := [];
    var payloadOffset, firstChunk := 0, true;
    ghost var whole := EncodeFrom(header, payload, 0, size);
    while payloadOffset < |payload|
      invariant 0 <= payloadOffset <= |payload| && firstChunk == (payloadOffset == 0)
      invariant output + EncodeFrom(header, payload, payloadOffset, size) == whole
    {
      ghost var start, before := payloadOffset, output;
      var fmt: byte := if firstChunk then 0 else 3;
      output := AppendBasic(output, fmt, header.csid);
      if firstChunk {
        output := AppendMessageHeader(output, header);
      }
      HeadIs(before, output, header, start);
      var bytesToWrite := Min(size, |payload| - payloadOffset);
      output := output + payload[payloadOffset..payloadOffset + bytesToWrite];
      payloadOffset := payloadOffset + bytesToWrite;
      firstChunk := false;
      EncodeFromFirst(before, output, header, payload, start, size);
    }
    EncodeFromEnd(header, payload, size);
    assert output + [] == output;
  }

  lemma HeadIs(before: seq<byte>, output: seq<byte>, h: ChunkHeader, sent: nat)
    requires output == if sent == 0 then before + EncodeBasic(0, h.csid) + EncodeMessageHeader(h)
                       else before + EncodeBasic(3, h.csid)
    ensures output == before + EncodeHead(h, sent)
  {
  }

  lemma EncodeFromFirst(before: seq<byte>, output: seq<byte>, h: ChunkHeader, payload: seq<byte>, sent: nat, size: u32)
    requires sent < |payload| && size > 0
    requires output == before + EncodeHead(h, sent) + payload[sent..sent + Min(size, |payload| - sent)]
    ensures output + EncodeFrom(h, payload, sent + Min(size, |payload| - sent), size)
         == before + EncodeFrom(h, payload, sent, size)
  {
  }

  lemma EncodeFromEnd(h: ChunkHeader, payload: seq<byte>, size: u32)
    requires size > 0 || payload == []
    ensures EncodeFrom(h, payload, |payload|, size) == []
  {
  }

  /** Reading behind an offset is reading from the rest. */
  lemma Shifted(d: seq<byte>, start: nat)
    requires start <= |d|
    ensures forall k :: 0 <= k && start + k + 3 <= |d| ==> ReadU24Be(d[start..], k) == ReadU24Be(d, start + k)
    ensures forall k :: 0 <= k && start + k + 4 <= |d| ==> ReadU32Be(d[start..], k) == ReadU32Be(d, start + k)
    ensures forall k :: 0 <= k && start + k + 4 <= |d| ==> ReadU32Le(d[start..], k) == ReadU32Le(d, start + k)
  {
  }
}
