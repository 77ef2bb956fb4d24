/** Exactly which messages survive the trip through encoder and parser. */
module RoundTripLimits {
  import opened Bytes
  import opened Messages
  import opened Wrappers
  import opened Chunks
  import opened Fragmentation
  import opened ParserInvariants
  import opened RoundTrip

  /** The bytes of the shortest basic header for a chunk stream. */
  function BasicSize(csid: u32): nat {
    if csid < 64 then 1 else if csid < 320 then 2 else 3
  }

  /** What the basic headers of continuation chunks cost for n payload bytes. */
  function HeadBytes(n: nat, size: u32, each: nat): nat
    requires size > 0
  {
    if n == 0 then 0 else each + HeadBytes(n - Min(n, size), size, each)
  }

  lemma {:induction false} HeadBytesGrow(n: nat, m: nat, size: u32, each: nat)
    requires size > 0 && m <= n
    ensures HeadBytes(m, size, each) <= HeadBytes(n, size, each)
    ensures n - m <= size ==> HeadBytes(n, size, each) <= each + HeadBytes(m, size, each)
    decreases n
  {
    if n > 0 {
      var n' := n - Min(n, size);
      if m > 0 {
        HeadBytesGrow(n', m - Min(m, size), size, each);
      }
      if m < n && n - m <= size {
        HeadBytesGrow(m, n', size, each);
      }
    }
  }

  lemma {:induction false} EncodedLength(h: ChunkHeader, payload: seq<byte>, sent: nat, size: u32)
    requires 0 < sent <= |payload| && size > 0
    ensures |EncodeFrom(h, payload, sent, size)|
              == |payload| - sent + HeadBytes(|payload| - sent, size, BasicSize(h.csid))
    decreases |payload| - sent
  {
    if sent < |payload| {
      EncodedLength(h, payload, NextSent(payload, sent, size), size);
    }
  }

  lemma BasicHeaderCost(d: seq<byte>)
    requires BasicHeader(d).Some?
    ensures BasicHeader(d).value.size >= BasicSize(BasicHeader(d).value.csid)
  {
  }

  /** The bytes stream c holds, or the length of the message it has just completed. */
  function Progress(r: StepOutcome, c: u32): nat
    requires r.Advance?
  {
    if r.chunks != [] && r.chunks[0].header.csid == c then |r.chunks[0].payload| else At(r.streams, c).received
  }

  lemma AbsorbProgress(s: Streams, size: u32, h: ChunkHeader, used: nat, body: seq<byte>, c: u32)
    requires Sound(s) && h.csid in s && h.length < 0x100_0000 && size <= SAFE_SIZE
    requires |body| == Take(size, h, s[h.csid].received)
    ensures var r := Absorb(s, size, h, used, body);
            && Progress(r, c) == At(s, c).received + (if h.csid == c then |body| else 0)
            && (r.chunks == [] ==> r.size == size)
  {
  }

  /** Every payload byte on a stream costs at least its share of basic headers. */
  lemma StepCost(s: Streams, size: u32, d: seq<byte>, c: u32)
    requires Sound(s) && size <= SAFE_SIZE && c >= 2 && Step(s, size, d).Advance?
    ensures var r := Step(s, size, d);
            var gain := Progress(r, c) - At(s, c).received;
            && 0 <= gain <= size
            && (gain > 0 ==> r.used >= BasicSize(c) + gain)
            && (r.chunks == [] ==> r.size == size)
  {
    hide Absorb, Cleared, Sound;
    ReadHeaderSound(s, d);
    BasicHeaderCost(d);
    var h := ReadHeader(s, d);
    var ready := Cleared(h);
    var used := h.size + Take(size, h.header, ready[h.header.csid].received);
    AbsorbProgress(ready, size, h.header, used, d[h.size..used], c);
    AbsorbUses(ready, size, h.header, used, d[h.size..used]);
    OthersUntouched(s, d, c);
  }

  lemma OthersUntouched(s: Streams, d: seq<byte>, c: u32)
    requires ReadHeader(s, d).Whole?
    ensures At(Cleared(ReadHeader(s, d)), c).received == At(s, c).received
  {
  }

  /** The first message to come out cannot have cost fewer bytes than its chunks need. */
  lemma {:induction false} EmissionCost(s: Streams, size: u32, d: seq<byte>, c: u32)
    requires Sound(s) && 0 < size <= SAFE_SIZE && c >= 2
    ensures var out := Drain(s, size, d).chunks;
            out != [] && out[0].header.csid == c ==>
              var missing := |out[0].payload| - At(s, c).received;
              missing >= 0 && |d| >= missing + HeadBytes(missing, size, BasicSize(c))
    decreases |d|
  {
    hide Step, Sound, Progress, HeadBytes, Drain, At, BasicSize;
    var r, out := Step(s, size, d), Drain(s, size, d).chunks;
    FirstOut(s, size, d);
    if r.Stuck? || out == [] || out[0].header.csid != c {
      return;
    }
    StepCost(s, size, d, c);
    StepSound(s, size, d);
    ProgressIs(r, c);
    if r.chunks == [] {
      EmissionCost(r.streams, size, d[r.used..], c);
    }
    HeadBytesGrow(|out[0].payload| - At(s, c).received, |out[0].payload| - Progress(r, c), size, BasicSize(c));
    if r.chunks != [] {
      assert HeadBytes(0, size, BasicSize(c)) == 0 by { NoHeadBytes(size, BasicSize(c)); }
    }
  }

  lemma NoHeadBytes(size: u32, each: nat)
    requires size > 0
    ensures HeadBytes(0, size, each) == 0
  {
  }

  /** The first message to come out is the step's own or comes out of the rest. */
  lemma FirstOut(s: Streams, size: u32, d: seq<byte>)
    ensures var r, out := Step(s, size, d), Drain(s, size, d).chunks;
            && (r.Stuck? ==> out == [])
            && (r.Advance? && r.chunks == [] ==> out == Drain(r.streams, r.size, d[r.used..]).chunks)
            && (r.Advance? && r.chunks != [] ==> out != [] && out[0] == r.chunks[0])
  {
    hide Step;
    var r := Step(s, size, d);
    if r.Advance? && r.chunks == [] {
      PrependTwice([], [], Drain(r.streams, r.size, d[r.used..]));
    }
  }

  lemma ProgressIs(r: StepOutcome, c: u32)
    requires r.Advance?
    ensures r.chunks == [] ==> Progress(r, c) == At(r.streams, c).received
    ensures r.chunks != [] && r.chunks[0].header.csid == c ==> Progress(r, c) == |r.chunks[0].payload|
  {
  }

  /** The parser takes the first four payload bytes of such a chunk for a timestamp. */
  lemma ContinuationHead(s: Streams, h: ChunkHeader, payload: seq<byte>, sent: nat, behind: seq<byte>)
    requires Sendable(h, payload) && 0 < sent < |payload| && h.timestamp >= EXTENDED && Holds(s, h, payload, sent)
    ensures var r := ReadHeader(s, EncodeBasic(3, h.csid) + behind);
            r.Whole? ==>
              && r.size == BasicSize(h.csid) + 4
              && r.header.csid == h.csid && r.header.length == |payload|
              && h.csid in Cleared(r) && Cleared(r)[h.csid] == At(s, h.csid)
  {
    var basic := EncodeBasic(3, h.csid);
    BasicHeaderReadsBack(3, h.csid, behind);
    assert (basic + behind)[|basic|..] == behind;
    var prev := ReadBack(h);
    var m := MessageHeader(3, h.csid, prev, behind);
    assert m.Some? ==> m.value == Decoded(prev.(timestamp := ReadU32Be(behind, 0)), prev, 4);
    assert |basic| == BasicSize(h.csid);
    hide BasicHeader, MessageHeader, ReadU32Be, EncodeBasic;
  }

  /** A continuation chunk after an extended timestamp costs four bytes more than the encoder spends on it. */
  lemma ContinuationCost(s: Streams, size: u32, h: ChunkHeader, payload: seq<byte>, sent: nat)
    requires Sendable(h, payload) && 0 < sent < |payload| && h.timestamp >= EXTENDED && size > 0
    requires Holds(s, h, payload, sent)
    ensures var r := Step(s, size, EncodeFrom(h, payload, sent, size));
            r.Advance? ==>
              && r.used == BasicSize(h.csid) + 4 + NextSent(payload, sent, size) - sent
              && Progress(r, h.csid) == NextSent(payload, sent, size)
              && (r.chunks == [] ==> r.size == size)
  {
    hide Step, Progress, Absorb, ReadHeader;
    if Step(s, size, EncodeFrom(h, payload, sent, size)).Stuck? {
      return;
    }
    var d, n := EncodeFrom(h, payload, sent, size), NextSent(payload, sent, size);
    var behind := payload[sent..n] + EncodeFrom(h, payload, n, size);
    ContinuationIs(h, payload, sent, size);
    hide EncodeFrom, EncodeBasic;
    StepIs(s, size, d);
    ContinuationHead(s, h, payload, sent, behind);
    TakesWhatIsLeft(h, payload, sent, size);
    var r := ReadHeader(s, d);
    SameTake(size, r.header, ReadBack(h), sent);
    HoldsCounts(s, h, payload, sent);
    hide Holds, ReadBack, NextSent, Take;
    var used := r.size + (n - sent);
    AbsorbContinues(Cleared(r), size, r.header, used, d[r.size..used]);
  }

  lemma ContinuationIs(h: ChunkHeader, payload: seq<byte>, sent: nat, size: u32)
    requires 0 < sent < |payload| && size > 0
    ensures var n := NextSent(payload, sent, size);
            EncodeFrom(h, payload, sent, size)
              == EncodeBasic(3, h.csid) + (payload[sent..n] + EncodeFrom(h, payload, n, size))
  {
  }

  lemma HoldsCounts(s: Streams, h: ChunkHeader, payload: seq<byte>, sent: nat)
    requires 0 < sent <= |payload| && Holds(s, h, payload, sent)
    ensures At(s, h.csid).received == |At(s, h.csid).partial| == sent
  {
  }

  lemma SameTake(size: u32, h: ChunkHeader, k: ChunkHeader, received: u32)
    requires h.length == k.length
    ensures Take(size, h, received) == Take(size, k, received)
  {
  }

  lemma AbsorbContinues(s: Streams, size: u32, h: ChunkHeader, used: nat, body: seq<byte>)
    requires h.csid in s && s[h.csid].received == |s[h.csid].partial| && s[h.csid].received + |body| < WORD
    ensures var r := Absorb(s, size, h, used, body);
            && r.Advance? && r.used == used && Progress(r, h.csid) == s[h.csid].received + |body|
            && (r.chunks == [] ==> r.size == size)
  {
  }

  /** The single message reported is the one that was sent. */
  predicate Reports(chunks: seq<Chunk>, h: ChunkHeader, payload: seq<byte>) {
    && |chunks| == 1 && chunks[0].payload == payload
    && chunks[0].header.csid == h.csid && chunks[0].header.timestamp == h.timestamp
    && chunks[0].header.length == h.length && chunks[0].header.typeId == h.typeId
    && chunks[0].header.streamId == h.streamId
  }

  /** With an extended timestamp and more than one chunk, the message cannot come back. */
  lemma AmbiguousIsLost(s: Streams, size: u32, h: ChunkHeader, payload: seq<byte>)
    requires Sound(s) && 0 < size <= SAFE_SIZE && At(s, h.csid).received == 0
    requires Sendable(h, payload) && !Unambiguous(h, payload, size)
    ensures !Reports(Drain(s, size, EncodeChunk(h, payload, size)).chunks, h, payload)
  {
    hide Step, Sound, Progress, HeadBytes, Drain, At, BasicSize, EncodeFrom, Holds, After;
    var c, each := h.csid, BasicSize(h.csid);
    var d := EncodeChunk(h, payload, size);
    var rest := EncodeFrom(h, payload, size, size);
    FirstChunkTaken(s, size, h, payload);
    var s' := After(s, h, payload, size);
    StepSound(s, size, d);
    EncodedLength(h, payload, size, size);
    if Reports(Drain(s', size, rest).chunks, h, payload) {
      var r := Step(s', size, rest);
      FirstOut(s', size, rest);
      ContinuationCost(s', size, h, payload, size);
      var left := |payload| - NextSent(payload, size, size);
      HeadBytesGrow(|payload| - size, left, size, each);
      ProgressIs(r, c);
      if r.chunks == [] {
        StepSound(s', size, rest);
        EmissionCost(r.streams, size, rest[r.used..], c);
      } else {
        NoHeadBytes(size, each);
      }
    }
  }

  lemma FirstChunkTaken(s: Streams, size: u32, h: ChunkHeader, payload: seq<byte>)
    requires size > 0 && At(s, h.csid).received == 0 && Sendable(h, payload) && |payload| > size
    ensures var s', rest := After(s, h, payload, size), EncodeFrom(h, payload, size, size);
            && Holds(s', h, payload, size)
            && Step(s, size, EncodeChunk(h, payload, size)).Advance?
            && Step(s, size, EncodeChunk(h, payload, size)).streams == s'
            && Drain(s, size, EncodeChunk(h, payload, size)) == Drain(s', size, rest)
  {
    hide Step;
    var one, rest := EncodeOne(h, payload, 0, size), EncodeFrom(h, payload, size, size);
    OneChunk(s, size, h, payload, 0, rest);
    assert (one + rest)[|one|..] == rest;
    var x := Drain(After(s, h, payload, size), size, rest);
    assert [] + x.chunks == x.chunks;
  }

  /**
    * A message survives the trip exactly when it is not empty and shorter than 2^24 bytes, its chunk stream id is
    * in 2..65599, and its timestamp is below 0xFFFFFF or its payload fits into one chunk.
    */
  lemma RoundTripIff(p: Parser, h: ChunkHeader, payload: seq<byte>)
    requires Sound(p.streams) && p.carry == [] && 0 < p.size <= SAFE_SIZE && At(p.streams, h.csid).received == 0
    requires h.length == |payload|
    ensures Reports(Parse(p, EncodeChunk(h, payload, p.size)).chunks, h, payload)
            <==> (Sendable(h, payload) && Unambiguous(h, payload, p.size))
  {
    hide Step, Sound;
    var d := EncodeChunk(h, payload, p.size);
    assert [] + d == d;
    if Sendable(h, payload) && Unambiguous(h, payload, p.size) {
      MessageReadsBack(p.streams, p.size, h, payload, []);
      assert d + [] == d;
      NothingToDrain(p.streams[h.csid := Stream(ReadBack(h), [], 0)], SizeAfter(p.size, h.typeId, payload));
    } else if Sendable(h, payload) {
      AmbiguousIsLost(p.streams, p.size, h, payload);
    } else {
      var out := Drain(p.streams, p.size, d).chunks;
      DrainSound(p.streams, p.size, d);
      assert out != [] ==> WellReported(out[0]);
      if payload == [] {
        NothingToDrain(p.streams, p.size);
      }
    }
  }

  /** Two bytes in two chunks with the first extended timestamp there is. */
  lemma TwoBytesAreLost()
    ensures var h, payload := ChunkHeader(0, 3, EXTENDED, 2, 9, 1, false), [1, 2];
            !Reports(Parse(Parser(1, map[], []), EncodeChunk(h, payload, 1)).chunks, h, payload)
  {
    hide Parse, EncodeChunk, Reports;
    RoundTripIff(Parser(1, map[], []), ChunkHeader(0, 3, EXTENDED, 2, 9, 1, false), [1, 2]);
  }
}
