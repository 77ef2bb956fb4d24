/** What every reachable state of the chunk parser satisfies. */
module ParserInvariants {
  import opened Bytes
  import opened Messages
  import opened Wrappers
  import opened Chunks
  import opened Fragmentation

  // ---- The carry-over buffer

  /** The carry-over buffer does not hold a whole chunk. */
  ghost predicate Settled(p: Parser) {
    Step(p.streams, p.size, p.carry).Stuck?
  }

  lemma DrainSuffix(s: Streams, size: u32, d: seq<byte>)
    ensures var x := Drain(s, size, d);
            && |x.rest| <= |d| && x.rest == d[|d| - |x.rest|..]
            && (|x.rest| < |d| ==> Step(s, size, d).Advance? && |x.rest| <= |d| - Step(s, size, d).used)
    decreases |d|
  {
    hide Step;
    var step := Step(s, size, d);
    if step.Advance? {
      DrainSuffix(step.streams, step.size, d[step.used..]);
    }
  }

  /**
    * Every read splits the waiting and the new bytes into a consumed front and the new carry-over, which holds
    * no whole chunk. Nothing is consumed, or more than everything that had been waiting.
    */
  lemma CarryOver(p: Parser, data: seq<byte>)
    ensures var all, q := p.carry + data, Parse(p, data).parser;
            && Settled(q) && |q.carry| < 18 + q.size
            && |q.carry| <= |all| && all == all[..|all| - |q.carry|] + q.carry
            && (Settled(p) && q.carry != all ==> |all| - |q.carry| > |p.carry|)
            && (Settled(p) ==> Consumed(p, data) == if q.carry == all then 0 else |data| - |q.carry|)
  {
    hide Step, Drain;
    var all, q := p.carry + data, Parse(p, data).parser;
    DrainStops(p.streams, p.size, all);
    DrainSuffix(p.streams, p.size, all);
    assert all == all[..|all| - |q.carry|] + q.carry;
    if Settled(p) && q.carry != all {
      var step := Step(p.streams, p.size, all);
      if step.used <= |p.carry| {
        assert all[..|p.carry|] == p.carry;
        StepShrinks(p.streams, p.size, all, |p.carry|);
      }
    }
  }

  // ---- Reassembly

  /** The largest chunk size for which 32-bit byte counts cannot wrap. */
  const SAFE_SIZE: u32 := 0xFF00_0000

  predicate SoundStream(c: u32, s: Stream) {
    && s.received == |s.partial| < 0x100_0000
    && s.prev.length < 0x100_0000
    && (s.prev.csid == 0 ==> s.prev == NO_HEADER.(timestamp := s.prev.timestamp))
    && (if c == 0 then s.prev == NO_HEADER && s.received == 0 else s.prev.csid == 0 || s.prev.csid == c)
    && (c == 0 || 2 <= c <= 65599)
  }

  ghost predicate Sound(s: Streams) {
    forall c :: c in s ==> SoundStream(c, s[c])
  }

  /** A header read on stream c belongs to c, or is the empty header of a stream that never had one. */
  predicate SoundHeader(c: u32, h: ChunkHeader) {
    h.length < 0x100_0000 && (if h.csid == 0 then h.length == 0 && h.typeId == 0 else h.csid == c)
  }

  lemma MessageHeaderSound(fmt: byte, csid: u32, s: Stream, d: seq<byte>)
    requires fmt < 4 && 2 <= csid <= 65599 && SoundStream(csid, s) && MessageHeader(fmt, csid, s.prev, d).Some?
    ensures var m := MessageHeader(fmt, csid, s.prev, d).value;
            SoundHeader(csid, m.header) && SoundStream(csid, s.(prev := m.prev))
  {
  }

  lemma ReadHeaderSound(s: Streams, d: seq<byte>)
    requires Sound(s)
    ensures var r := ReadHeader(s, d);
            && Sound(r.streams)
            && (r.Whole? ==>
                  && BasicHeader(d).Some? && Sound(Cleared(r)) && SoundHeader(BasicHeader(d).value.csid, r.header)
                  && r.header.csid in Cleared(r)
                  && Cleared(r)[r.header.csid].received == At(s, r.header.csid).received)
  {
    var b := BasicHeader(d);
    if b.Some? {
      var known := At(s, b.value.csid);
      assert b.value.csid !in s ==> SoundStream(b.value.csid, FRESH);
      var m := MessageHeader(b.value.fmt, b.value.csid, known.prev, d[b.value.size..]);
      if m.Some? {
        MessageHeaderSound(b.value.fmt, b.value.csid, known, d[b.value.size..]);
      }
    }
  }

  /** A header is that of no chunk stream exactly if it has no fields of its own and there are none to repeat. */
  lemma NamelessIff(s: Streams, d: seq<byte>)
    requires Sound(s) && ReadHeader(s, d).Whole?
    ensures var b := BasicHeader(d).value;
            ReadHeader(s, d).header.csid == 0 <==> b.fmt == 3 && At(s, b.csid).prev.csid == 0
  {
    ReadHeaderSound(s, d);
    var b := BasicHeader(d).value;
    assert b.csid in s ==> SoundStream(b.csid, s[b.csid]);
    hide Sound, BasicHeader;
  }

  /** Such a chunk is its basic header alone, and comes out as an empty message of chunk stream 0. */
  lemma NamelessStep(s: Streams, size: u32, d: seq<byte>)
    requires Sound(s) && BasicHeader(d).Some?
    requires BasicHeader(d).value.fmt == 3 && At(s, BasicHeader(d).value.csid).prev.csid == 0
    ensures var b, r := BasicHeader(d).value, Step(s, size, d);
            && r.Advance? && r.used == b.size && r.size == size
            && r.chunks == [Chunk(At(s, b.csid).prev, [])]
            && At(s, b.csid).prev == NO_HEADER.(timestamp := At(s, b.csid).prev.timestamp)
  {
    var b := BasicHeader(d).value;
    var prev := At(s, b.csid).prev;
    assert b.csid in s ==> SoundStream(b.csid, s[b.csid]);
    assert 0 in s ==> SoundStream(0, s[0]);
    hide Sound, BasicHeader;
    var t := s[b.csid := At(s, b.csid)];
    assert ReadHeader(s, d) == Whole(t, prev, b.size);
    StepIs(s, size, d);
    hide ReadHeader, Step, Absorb;
    assert prev.csid == 0 && At(t, 0).received == 0 && Take(size, prev, 0) == 0;
    assert d[b.size..b.size + 0] == [];
    EmptyAbsorbed(t[0 := Opened(At(t, 0))], size, prev, b.size);
  }

  lemma EmptyAbsorbed(s: Streams, size: u32, h: ChunkHeader, used: nat)
    requires h.length == 0 && h.typeId != SET_CHUNK_SIZE && At(s, h.csid).received == 0 && At(s, h.csid).partial == []
    ensures var r := Absorb(s, size, h, used, []);
            r.Advance? && r.used == used && r.size == size && r.chunks == [Chunk(h, [])]
  {
    assert At(s, h.csid).partial + [] == [];
  }

  /** Only whole fmt 0 and fmt 1 headers put a chunk stream's own fields into its remembered header. */
  lemma NamedByFullHeaders(s: Streams, d: seq<byte>, c: u32)
    requires ReadHeader(s, d).Whole?
    ensures var b := BasicHeader(d).value;
            At(Cleared(ReadHeader(s, d)), c).prev.csid
              == if c == b.csid && b.fmt < 2 then c else At(s, c).prev.csid
  {
    hide BasicHeader;
  }

  /** One fmt 3 byte to a fresh parser. */
  lemma MessageFromNowhere()
    ensures Parse(Parser(128, map[], []), [0xC2]).chunks == [Chunk(NO_HEADER, [])]
  {
    var d: seq<byte> := [0xC2];
    assert BasicHeader(d) == Some(Basic(3, 2, 1));
    NamelessStep(map[], 128, d);
    hide Step;
    var r := Step(map[], 128, d);
    assert [] + d == d && d[1..] == [];
    NothingToDrain(r.streams, r.size);
  }

  /** What can be said of the message a chunk completes. */
  ghost predicate Intact(s: Streams, c: Chunk) {
    && |c.payload| >= c.header.length
    && (|c.payload| == c.header.length <==> At(s, c.header.csid).received <= c.header.length)
    && (if c.header.csid == 0 then c.payload == [] else 2 <= c.header.csid <= 65599)
    && c.header.length < 0x100_0000
  }

  lemma AbsorbSound(s: Streams, size: u32, c: u32, h: ChunkHeader, used: nat, body: seq<byte>)
    requires Sound(s) && h.csid in s && SoundHeader(c, h) && 2 <= c <= 65599
    requires size <= SAFE_SIZE && |body| == Take(size, h, s[h.csid].received)
    ensures var r := Absorb(s, size, h, used, body);
            && Sound(r.streams)
            && (r.size == size || 1 <= r.size <= MAX_CHUNK_SIZE)
            && forall k :: k in r.chunks ==> k.header == h && Intact(s, k)
  {
    var st := s[h.csid];
    if st.received <= h.length {
      assert st.received + |body| <= h.length;
    } else {
      assert st.received + |body| >= st.received;
      assert st.received + |body| < WORD;
    }
    assert h.csid == 0 ==> st.received + |body| == 0;
  }

  /**
    * Byte counts are the lengths of the partial messages and stay below 2^24, and a completed message is exactly
    * as long as its header says unless the header came when more than that had already been received.
    */
  lemma StepSound(s: Streams, size: u32, d: seq<byte>)
    requires Sound(s) && size <= SAFE_SIZE
    ensures var r := Step(s, size, d);
            && Sound(r.streams)
            && (r.Advance? ==>
                  && (r.size == size || 1 <= r.size <= MAX_CHUNK_SIZE)
                  && forall k :: k in r.chunks ==> Intact(s, k))
  {
    hide ReadHeader, Absorb, Cleared;
    ReadHeaderSound(s, d);
    var r := ReadHeader(s, d);
    if r.Whole? {
      var ready := Cleared(r);
      var used := r.size + Take(size, r.header, At(ready, r.header.csid).received);
      if used <= |d| {
        AbsorbSound(ready, size, BasicHeader(d).value.csid, r.header, used, d[r.size..used]);
      }
    }
  }

  /**
    * A header that cuts a message below what was received: the difference wraps, so that the chunk takes a whole chunk
    * size of bytes, and the message that comes out is longer than its header says.
    */
  lemma OverrunTaken(s: Streams, size: u32, d: seq<byte>)
    requires Sound(s) && size <= SAFE_SIZE && ReadHeader(s, d).Whole?
    requires var r := ReadHeader(s, d); r.header.length < At(s, r.header.csid).received && r.size + size <= |d|
    ensures var h, r := ReadHeader(s, d), Step(s, size, d);
            && r.Advance? && r.used == h.size + size
            && r.chunks == [Chunk(h.header, At(s, h.header.csid).partial + d[h.size..h.size + size])]
  {
    ReadHeaderSound(s, d);
    var h := ReadHeader(s, d);
    var c := h.header.csid;
    OpenedKeeps(s, d);
    StepIs(s, size, d);
    hide ReadHeader, Step, Cleared;
    assert Take(size, h.header, At(s, c).received) == size;
    assert At(h.streams, c).received == At(s, c).received;
  }

  /** Reading a header touches no partial message that has begun. */
  lemma OpenedKeeps(s: Streams, d: seq<byte>)
    requires Sound(s) && ReadHeader(s, d).Whole?
    ensures var h := ReadHeader(s, d);
            var c := h.header.csid;
            At(s, c).received > 0 ==>
              At(h.streams, c).received == At(s, c).received && At(h.streams, c).partial == At(s, c).partial
  {
    hide BasicHeader, MessageHeader;
  }

  // ---- Whole runs

  /** What happens to a parser from outside: bytes arrive, or its chunk size is set. */
  datatype Event = Arrive(data: seq<byte>) | Resize(size: u32)

  function Run(p: Parser, events: seq<Event>): ReadResult
    decreases |events|
  {
    if events == [] then ReadResult(p, [])
    else
      var first := match events[0]
                   case Arrive(data) => Parse(p, data)
                   case Resize(size) => ReadResult(p.(size := size), []);
      var later := Run(first.parser, events[1..]);
      ReadResult(later.parser, first.chunks + later.chunks)
  }

  ghost predicate WellReported(c: Chunk) {
    && c.header.length <= |c.payload| && c.header.length < 0x100_0000
    && (if c.header.csid == 0 then c.payload == [] else 2 <= c.header.csid <= 65599)
  }

  lemma {:induction false} DrainSound(s: Streams, size: u32, d: seq<byte>)
    requires Sound(s) && size <= SAFE_SIZE
    ensures var r := Drain(s, size, d);
            Sound(r.streams) && r.size <= SAFE_SIZE && forall k :: k in r.chunks ==> WellReported(k)
    decreases |d|
  {
    hide Step, Sound;
    StepSound(s, size, d);
    var r := Step(s, size, d);
    if r.Advance? {
      DrainSound(r.streams, r.size, d[r.used..]);
    }
  }

  /** In every run the byte counts are right and no message comes out shorter than announced. */
  lemma {:induction false} RunSound(p: Parser, events: seq<Event>)
    requires Sound(p.streams) && p.size <= SAFE_SIZE
    requires forall e :: e in events && e.Resize? ==> e.size <= SAFE_SIZE
    ensures var r := Run(p, events);
            Sound(r.parser.streams) && r.parser.size <= SAFE_SIZE && forall k :: k in r.chunks ==> WellReported(k)
    decreases |events|
  {
    hide Sound;
    if events != [] {
      match events[0] {
        case Arrive(data) =>
          DrainSound(p.streams, p.size, p.carry + data);
          RunSound(Parse(p, data).parser, events[1..]);
        case Resize(size) =>
          RunSound(p.(size := size), events[1..]);
      }
    }
  }
}
