/** How far the result of parsing depends on where the incoming bytes are cut into reads. */
module Fragmentation {
  import opened Bytes
  import opened Wrappers
  import opened Chunks

  // ---- Equality up to timestamps

  ghost predicate SameHeader(h: ChunkHeader, k: ChunkHeader) {
    h.(timestamp := 0) == k.(timestamp := 0)
  }

  ghost predicate SameStream(s: Stream, t: Stream) {
    SameHeader(s.prev, t.prev) && s.partial == t.partial && s.received == t.received
  }

  ghost predicate SameStreams(s: Streams, t: Streams) {
    s.Keys == t.Keys && forall c :: c in s ==> SameStream(s[c], t[c])
  }

  ghost predicate SameChunks(a: seq<Chunk>, b: seq<Chunk>) {
    |a| == |b| && forall i :: 0 <= i < |a| ==> SameHeader(a[i].header, b[i].header) && a[i].payload == b[i].payload
  }

  ghost predicate SameStep(x: StepOutcome, y: StepOutcome) {
    match (x, y)
    case (Stuck(s), Stuck(t)) => SameStreams(s, t)
    case (Advance(s, m, i, a), Advance(t, n, j, b)) => SameStreams(s, t) && m == n && i == j && SameChunks(a, b)
    case _ => false
  }

  ghost predicate SameDrained(x: Drained, y: Drained) {
    SameStreams(x.streams, y.streams) && x.size == y.size && x.rest == y.rest && SameChunks(x.chunks, y.chunks)
  }

  /** Equal in every respect but the timestamps of messages and of remembered headers. */
  ghost predicate SameResult(x: ReadResult, y: ReadResult) {
    && SameStreams(x.parser.streams, y.parser.streams)
    && x.parser.size == y.parser.size
    && x.parser.carry == y.parser.carry
    && SameChunks(x.chunks, y.chunks)
  }

  /** The delta of a whole fmt 1 or fmt 2 header at the front of d; zero if there is none. */
  function Delta(d: seq<byte>): u32 {
    match BasicHeader(d)
    case None => 0
    case Some(b) =>
      if b.fmt != 1 && b.fmt != 2 then 0
      else
        match MessageHeader(b.fmt, b.csid, NO_HEADER, d[b.size..])
        case None => 0
        case Some(m) => m.header.timestamp
  }

  /** Some header at the front of d moves the remembered timestamp every time it is read. */
  predicate StalledDelta(d: seq<byte>) {
    Delta(d) != 0
  }

  // ---- More bytes behind a chunk do not change how it is read

  lemma BasicHeaderExtends(a: seq<byte>, b: seq<byte>)
    requires BasicHeader(a).Some?
    ensures BasicHeader(a + b) == BasicHeader(a)
  {
  }

  lemma MessageHeaderExtends(fmt: byte, csid: u32, prev: ChunkHeader, a: seq<byte>, b: seq<byte>)
    requires fmt < 4
    requires MessageHeader(fmt, csid, prev, a).Some?
    ensures MessageHeader(fmt, csid, prev, a + b) == MessageHeader(fmt, csid, prev, a)
  {
  }

  lemma ReadHeaderExtends(s: Streams, a: seq<byte>, b: seq<byte>)
    requires ReadHeader(s, a).Whole?
    ensures ReadHeader(s, a + b) == ReadHeader(s, a)
  {
    BasicHeaderExtends(a, b);
    var h := BasicHeader(a).value;
    assert (a + b)[h.size..] == a[h.size..] + b;
    MessageHeaderExtends(h.fmt, h.csid, At(s, h.csid).prev, a[h.size..], b);
  }

  lemma DeliverExtends(s: Streams, size: u32, h: ChunkHeader, n: nat, a: seq<byte>, b: seq<byte>)
    requires n <= |a| && Deliver(s, size, h, n, a).Advance?
    ensures Deliver(s, size, h, n, a + b) == Deliver(s, size, h, n, a)
  {
    var used := n + Take(size, h, At(s, h.csid).received);
    assert (a + b)[n..used] == a[n..used];
  }

  lemma StepExtends(s: Streams, size: u32, a: seq<byte>, b: seq<byte>)
    requires Step(s, size, a).Advance?
    ensures Step(s, size, a + b) == Step(s, size, a)
  {
    ReadHeaderExtends(s, a, b);
    var r := ReadHeader(s, a);
    DeliverExtends(Cleared(r), size, r.header, r.size, a, b);
  }

  // ---- Nor does taking away bytes behind it

  lemma BasicHeaderShrinks(d: seq<byte>, m: nat)
    requires BasicHeader(d).Some? && BasicHeader(d).value.size <= m <= |d|
    ensures BasicHeader(d[..m]) == BasicHeader(d)
  {
  }

  lemma MessageHeaderShrinks(fmt: byte, csid: u32, prev: ChunkHeader, d: seq<byte>, m: nat)
    requires fmt < 4 && MessageHeader(fmt, csid, prev, d).Some?
    requires MessageHeader(fmt, csid, prev, d).value.size <= m <= |d|
    ensures MessageHeader(fmt, csid, prev, d[..m]) == MessageHeader(fmt, csid, prev, d)
  {
  }

  lemma ReadHeaderShrinks(s: Streams, d: seq<byte>, m: nat)
    requires ReadHeader(s, d).Whole? && ReadHeader(s, d).size <= m <= |d|
    ensures ReadHeader(s, d[..m]) == ReadHeader(s, d)
  {
    BasicHeaderShrinks(d, m);
    var b := BasicHeader(d).value;
    assert d[..m][b.size..] == d[b.size..][..m - b.size];
    MessageHeaderShrinks(b.fmt, b.csid, At(s, b.csid).prev, d[b.size..], m - b.size);
  }

  /** A chunk is taken as soon as its own bytes are there. */
  lemma StepShrinks(s: Streams, size: u32, d: seq<byte>, m: nat)
    requires Step(s, size, d).Advance? && Step(s, size, d).used <= m <= |d|
    ensures Step(s, size, d[..m]) == Step(s, size, d)
  {
    hide ReadHeader, Cleared, Absorb;
    var r := ReadHeader(s, d);
    ReadHeaderShrinks(s, d, m);
    AbsorbUses(Cleared(r), size, r.header, r.size + Take(size, r.header, At(Cleared(r), r.header.csid).received),
               d[r.size..r.size + Take(size, r.header, At(Cleared(r), r.header.csid).received)]);
    var used := Step(s, size, d).used;
    assert d[..m][r.size..used] == d[r.size..used];
  }

  lemma AbsorbUses(s: Streams, size: u32, h: ChunkHeader, used: nat, body: seq<byte>)
    ensures Absorb(s, size, h, used, body).Advance? && Absorb(s, size, h, used, body).used == used
  {
  }

  // ---- Control flow and payloads do not depend on timestamps

  lemma MessageHeaderSame(fmt: byte, csid: u32, prev: ChunkHeader, prev': ChunkHeader, d: seq<byte>)
    requires fmt < 4 && SameHeader(prev, prev')
    ensures var m, m' := MessageHeader(fmt, csid, prev, d), MessageHeader(fmt, csid, prev', d);
            m.Some? == m'.Some? &&
            (m.Some? ==> SameHeader(m.value.header, m'.value.header) && SameHeader(m.value.prev, m'.value.prev)
                         && m.value.size == m'.value.size)
  {
  }

  lemma AbsorbSame(s: Streams, t: Streams, size: u32, h: ChunkHeader, k: ChunkHeader, used: nat, body: seq<byte>)
    requires SameStreams(s, t) && SameHeader(h, k)
    ensures SameStep(Absorb(s, size, h, used, body), Absorb(t, size, k, used, body))
  {
  }

  lemma SameTaken(s: Streams, t: Streams, size: u32, h: ChunkHeader, k: ChunkHeader)
    requires SameStreams(s, t) && SameHeader(h, k)
    ensures Take(size, h, At(s, h.csid).received) == Take(size, k, At(t, k.csid).received)
  {
  }

  lemma DeliverSame(s: Streams, t: Streams, size: u32, h: ChunkHeader, k: ChunkHeader, n: nat, d: seq<byte>)
    requires SameStreams(s, t) && SameHeader(h, k) && n <= |d|
    ensures SameStep(Deliver(s, size, h, n, d), Deliver(t, size, k, n, d))
  {
    hide Absorb, SameStreams, SameHeader, SameChunks, Take, At;
    SameTaken(s, t, size, h, k);
    var used := n + Take(size, h, At(s, h.csid).received);
    if used <= |d| {
      AbsorbSame(s, t, size, h, k, used, d[n..used]);
    }
  }

  lemma ReadHeaderSame(s: Streams, t: Streams, d: seq<byte>)
    requires SameStreams(s, t)
    ensures var x, y := ReadHeader(s, d), ReadHeader(t, d);
            x.Whole? == y.Whole? && SameStreams(x.streams, y.streams) &&
            (x.Whole? ==> SameHeader(x.header, y.header) && x.size == y.size)
  {
    if BasicHeader(d).Some? {
      var b := BasicHeader(d).value;
      MessageHeaderSame(b.fmt, b.csid, At(s, b.csid).prev, At(t, b.csid).prev, d[b.size..]);
    }
  }

  lemma StepSame(s: Streams, t: Streams, size: u32, d: seq<byte>)
    requires SameStreams(s, t)
    ensures SameStep(Step(s, size, d), Step(t, size, d))
  {
    hide ReadHeader, Cleared, Deliver, SameStreams;
    ReadHeaderSame(s, t, d);
    var x, y := ReadHeader(s, d), ReadHeader(t, d);
    if x.Whole? {
      ClearedSame(x, y);
      DeliverSame(Cleared(x), Cleared(y), size, x.header, y.header, x.size, d);
    }
  }

  lemma ClearedSame(x: HeaderRead, y: HeaderRead)
    requires x.Whole? && y.Whole? && SameStreams(x.streams, y.streams) && x.header.csid == y.header.csid
    ensures SameStreams(Cleared(x), Cleared(y))
  {
  }

  lemma {:induction false} DrainSame(s: Streams, t: Streams, size: u32, d: seq<byte>)
    requires SameStreams(s, t)
    ensures SameDrained(Drain(s, size, d), Drain(t, size, d))
    decreases |d|
  {
    hide Step;
    StepSame(s, t, size, d);
    var x, y := Step(s, size, d), Step(t, size, d);
    if x.Advance? {
      DrainSame(x.streams, y.streams, x.size, d[x.used..]);
    }
  }

  lemma StepStamps(s: Streams, size: u32, d: seq<byte>)
    ensures var r, h := Step(s, size, d), ReadHeader(s, d);
            && (r.Advance? ==> h.Whole?)
            && (r.Advance? && r.chunks != [] ==> |r.chunks| == 1 && r.chunks[0].header == h.header)
            && (r.Stuck? && h.Whole? ==> r.streams == Cleared(h))
  {
  }

  // ---- Reading the same chunk again after a read fell short

  lemma DeltaHeaderAgain(fmt: byte, csid: u32, prev: ChunkHeader, d: seq<byte>)
    requires (fmt == 1 || fmt == 2) && MessageHeader(fmt, csid, prev, d).Some?
    ensures MessageHeader(fmt, csid, NO_HEADER, d).Some?
    ensures var m := MessageHeader(fmt, csid, prev, d).value;
            var delta := MessageHeader(fmt, csid, NO_HEADER, d).value.header.timestamp;
            var later := Later(m.header.timestamp, delta);
            && m.header.timestamp == m.prev.timestamp
            && MessageHeader(fmt, csid, m.prev, d)
                 == Some(Decoded(m.header.(timestamp := later), m.prev.(timestamp := later), m.size))
  {
    var m := MessageHeader(fmt, csid, prev, d).value;
    var field := ReadU24Be(d, 0);
    var delta := if field != EXTENDED then field else if fmt == 1 then ReadU32Be(d, 7) else ReadU32Be(d, 3);
    assert m.header.timestamp == Later(prev.timestamp, delta);
    assert MessageHeader(fmt, csid, NO_HEADER, d).value.header.timestamp == Later(0, delta) == delta;
    assert MessageHeader(fmt, csid, m.prev, d).value.header.timestamp == Later(m.prev.timestamp, delta);
  }

  lemma MessageHeaderAgain(fmt: byte, csid: u32, prev: ChunkHeader, d: seq<byte>)
    requires fmt < 4 && MessageHeader(fmt, csid, prev, d).Some?
    ensures fmt == 1 || fmt == 2 ==> MessageHeader(fmt, csid, NO_HEADER, d).Some?
    ensures var m := MessageHeader(fmt, csid, prev, d).value;
            var delta := if fmt != 1 && fmt != 2 then 0
                         else MessageHeader(fmt, csid, NO_HEADER, d).value.header.timestamp;
            var again := MessageHeader(fmt, csid, m.prev, d);
            && again.Some? && again.value.size == m.size
            && SameHeader(again.value.header, m.header) && SameHeader(again.value.prev, m.prev)
            && again.value.header.timestamp == Later(m.header.timestamp, delta)
            && again.value.prev.timestamp == Later(m.prev.timestamp, delta)
  {
    if fmt == 1 || fmt == 2 {
      DeltaHeaderAgain(fmt, csid, prev, d);
    } else {
      assert MessageHeader(fmt, csid, MessageHeader(fmt, csid, prev, d).value.prev, d)
          == MessageHeader(fmt, csid, prev, d);
    }
  }

  /** The table after stream c remembered a header and stream k was opened for a payload. */
  function Commit(s: Streams, c: u32, prev: ChunkHeader, k: u32): Streams {
    var e := s[c := At(s, c).(prev := prev)];
    e[k := Opened(At(e, k))]
  }

  lemma CommitAgain(s: Streams, c: u32, p: ChunkHeader, q: ChunkHeader, k: u32)
    ensures Commit(Commit(s, c, p, k), c, q, k) == Commit(s, c, q, k)
    ensures SameHeader(p, q) ==> SameStreams(Commit(s, c, p, k), Commit(s, c, q, k))
    ensures At(Commit(s, c, p, k), c).prev == p
  {
  }

  /** A whole header, in terms of its two parts. */
  lemma ReadHeaderParts(s: Streams, d: seq<byte>)
    requires BasicHeader(d).Some?
    ensures var b := BasicHeader(d).value;
            var m := MessageHeader(b.fmt, b.csid, At(s, b.csid).prev, d[b.size..]);
            var r := ReadHeader(s, d);
            && r.Whole? == m.Some?
            && (m.Some? ==> r.header == m.value.header && r.size == b.size + m.value.size
                            && Cleared(r) == Commit(s, b.csid, m.value.prev, m.value.header.csid))
  {
  }

  /** Some stream's remembered timestamp is not the same. */
  ghost predicate Drifted(s: Streams, t: Streams) {
    exists c: u32 :: At(s, c).prev.timestamp != At(t, c).prev.timestamp
  }

  lemma ReadHeaderAgain(s: Streams, d: seq<byte>)
    requires ReadHeader(s, d).Whole?
    ensures var r := ReadHeader(s, d);
            var again := ReadHeader(Cleared(r), d);
            && again.Whole? && again.size == r.size
            && SameHeader(again.header, r.header) && SameStreams(Cleared(again), Cleared(r))
            && (!StalledDelta(d) ==> again.header == r.header && Cleared(again) == Cleared(r))
            && again.header.timestamp == Later(r.header.timestamp, Delta(d))
            && (StalledDelta(d) ==> Drifted(Cleared(r), Cleared(again)))
  {
    hide BasicHeader, MessageHeader, Cleared, Commit;
    var b := BasicHeader(d).value;
    var body := d[b.size..];
    MessageHeaderAgain(b.fmt, b.csid, At(s, b.csid).prev, body);
    var m := MessageHeader(b.fmt, b.csid, At(s, b.csid).prev, body).value;
    var again := MessageHeader(b.fmt, b.csid, m.prev, body).value;
    assert again.header.timestamp == Later(m.header.timestamp, Delta(d));
    assert again.prev.timestamp == Later(m.prev.timestamp, Delta(d));
    hide ReadHeader, Delta;
    ReadHeaderParts(s, d);
    CommitAgain(s, b.csid, m.prev, again.prev, m.header.csid);
    CommitAgain(s, b.csid, again.prev, m.prev, m.header.csid);
    ReadHeaderParts(Cleared(ReadHeader(s, d)), d);
  }

  /** An entry made for a header that fell short changes nothing later. */
  lemma ShortHeaderAgain(s: Streams, d: seq<byte>, e: seq<byte>)
    requires ReadHeader(s, d).Short?
    ensures ReadHeader(ReadHeader(s, d).streams, d + e) == ReadHeader(s, d + e)
  {
    if BasicHeader(d).Some? {
      BasicHeaderExtends(d, e);
      var b := BasicHeader(d).value;
      var known := At(s, b.csid);
      var t := s[b.csid := known];
      assert t[b.csid := known] == s[b.csid := known];
      var m := MessageHeader(b.fmt, b.csid, known.prev, (d + e)[b.size..]);
      if m.Some? {
        assert t[b.csid := known.(prev := m.value.prev)] == s[b.csid := known.(prev := m.value.prev)];
      }
    }
  }

  /** Taking up a chunk again after a short read does what the chunk would have done at once. */
  lemma StepAgain(s: Streams, size: u32, d: seq<byte>, e: seq<byte>)
    requires Step(s, size, d).Stuck?
    ensures var at := Step(s, size, d).streams;
            && SameStep(Step(at, size, d + e), Step(s, size, d + e))
            && (!StalledDelta(d) ==> Step(at, size, d + e) == Step(s, size, d + e))
  {
    hide ReadHeader, Cleared, Deliver, StalledDelta;
    StepStamps(s, size, d);
    var r := ReadHeader(s, d);
    if r.Short? {
      ShortHeaderAgain(s, d, e);
      StepSame(s, s, size, d + e);
    } else {
      ReadHeaderAgain(s, d);
      ReadHeaderExtends(s, d, e);
      ReadHeaderExtends(Cleared(r), d, e);
      var again := ReadHeader(Cleared(r), d);
      DeliverSame(Cleared(again), Cleared(r), size, again.header, r.header, r.size, d + e);
    }
  }

  // ---- Whole reads

  lemma PrependSame(a: seq<Chunk>, x: Drained, y: Drained)
    requires SameDrained(x, y)
    ensures SameDrained(Prepend(a, x), Prepend(a, y))
  {
  }

  lemma DrainAgain(s: Streams, size: u32, a: seq<byte>, b: seq<byte>)
    requires Step(s, size, a).Stuck?
    ensures var at := Step(s, size, a).streams;
            && SameDrained(Drain(at, size, a + b), Drain(s, size, a + b))
            && (!StalledDelta(a) ==> Drain(at, size, a + b) == Drain(s, size, a + b))
  {
    hide Step, StalledDelta;
    StepAgain(s, size, a, b);
    var again, once := Step(Step(s, size, a).streams, size, a + b), Step(s, size, a + b);
    if again.Advance? {
      DrainSame(again.streams, once.streams, once.size, (a + b)[once.used..]);
    }
  }

  /** Draining a and then b, against draining a + b at once. */
  lemma {:induction false} DrainSplit(s: Streams, size: u32, a: seq<byte>, b: seq<byte>)
    ensures var x := Drain(s, size, a);
            var y := Prepend(x.chunks, Drain(x.streams, x.size, x.rest + b));
            && SameDrained(y, Drain(s, size, a + b))
            && (!StalledDelta(x.rest) ==> y == Drain(s, size, a + b))
    decreases |a|
  {
    hide Step, StalledDelta;
    var step := Step(s, size, a);
    if step.Stuck? {
      DrainAgain(s, size, a, b);
      PrependTwice([], [], Drain(step.streams, size, a + b));
    } else {
      StepExtends(s, size, a, b);
      var a' := a[step.used..];
      assert (a + b)[step.used..] == a' + b;
      DrainSplit(step.streams, step.size, a', b);
      var x := Drain(step.streams, step.size, a');
      PrependTwice(step.chunks, x.chunks, Drain(x.streams, x.size, x.rest + b));
      PrependSame(step.chunks, Prepend(x.chunks, Drain(x.streams, x.size, x.rest + b)),
                  Drain(step.streams, step.size, a' + b));
    }
  }

  lemma ParseTwice(p: Parser, a: seq<byte>, b: seq<byte>)
    ensures var first := Parse(p, a);
            var second := Parse(first.parser, b);
            var two := ReadResult(second.parser, first.chunks + second.chunks);
            && SameResult(two, Parse(p, a + b))
            && (!StalledDelta(first.parser.carry) ==> two == Parse(p, a + b))
  {
    hide Drain, StalledDelta;
    assert (p.carry + a) + b == p.carry + (a + b);
    DrainSplit(p.streams, p.size, p.carry + a, b);
  }

  // ---- The main results

  /** However the bytes are cut into reads, only timestamps can differ from one single read. */
  lemma {:induction false} CutsAgreeUpToTime(p: Parser, cuts: seq<seq<byte>>)
    requires cuts != []
    ensures SameResult(ParseAll(p, cuts), Parse(p, Concat(cuts)))
    decreases |cuts|
  {
    hide Parse;
    var first := Parse(p, cuts[0]);
    if |cuts| == 1 {
      assert Concat(cuts) == cuts[0];
      assert ParseAll(p, cuts) == ReadResult(first.parser, first.chunks + []);
      assert first.chunks + [] == first.chunks;
    } else {
      CutsAgreeUpToTime(first.parser, cuts[1..]);
      ParseTwice(p, cuts[0], Concat(cuts[1..]));
    }
  }

  /** No read but the last leaves a moving delta header in the carry-over buffer. */
  predicate NoStall(p: Parser, cuts: seq<seq<byte>>)
    decreases |cuts|
  {
    |cuts| <= 1 ||
    (!StalledDelta(Parse(p, cuts[0]).parser.carry) && NoStall(Parse(p, cuts[0]).parser, cuts[1..]))
  }

  /** Without such a header at a cut, timestamps agree too. */
  lemma {:induction false} CutsAgree(p: Parser, cuts: seq<seq<byte>>)
    requires cuts != [] && NoStall(p, cuts)
    ensures ParseAll(p, cuts) == Parse(p, Concat(cuts))
    decreases |cuts|
  {
    hide Parse;
    var first := Parse(p, cuts[0]);
    if |cuts| == 1 {
      assert Concat(cuts) == cuts[0];
      assert first.chunks + [] == first.chunks;
    } else {
      CutsAgree(first.parser, cuts[1..]);
      ParseTwice(p, cuts[0], Concat(cuts[1..]));
    }
  }

  /** No beginning of the bytes leaves such a header waiting. */
  ghost predicate NeverStalls(p: Parser, d: seq<byte>) {
    forall a: seq<byte> :: a <= d ==> !StalledDelta(Parse(p, a).parser.carry)
  }

  lemma {:induction false} NeverStallsAtCuts(p: Parser, a: seq<byte>, cuts: seq<seq<byte>>)
    requires NeverStalls(p, a + Concat(cuts))
    ensures NoStall(Parse(p, a).parser, cuts)
    decreases |cuts|
  {
    hide Parse, StalledDelta;
    if |cuts| > 1 {
      var next := a + cuts[0];
      assert a + Concat(cuts) == next + Concat(cuts[1..]);
      assert a <= a + Concat(cuts) && next <= a + Concat(cuts);
      ParseTwice(p, a, cuts[0]);
      NeverStallsAtCuts(p, next, cuts[1..]);
    }
  }

  lemma NothingParsed(p: Parser)
    requires p.carry == []
    ensures Parse(p, []) == ReadResult(p, [])
  {
  }

  /** Then every way of cutting them is as good as one read. */
  lemma AnyCutsAgree(p: Parser, cuts: seq<seq<byte>>)
    requires p.carry == [] && NeverStalls(p, Concat(cuts))
    ensures ParseAll(p, cuts) == Parse(p, Concat(cuts))
  {
    hide Parse, NeverStalls;
    NothingParsed(p);
    assert [] + Concat(cuts) == Concat(cuts);
    NeverStallsAtCuts(p, [], cuts);
    if cuts != [] {
      CutsAgree(p, cuts);
    }
  }

  ghost predicate OneReadOrTwo(p: Parser, a: seq<byte>, b: seq<byte>) {
    ParseAll(p, [a, b]) == Parse(p, a + b)
  }

  lemma TwoReads(p: Parser, a: seq<byte>, b: seq<byte>)
    ensures var first := Parse(p, a);
            var second := Parse(first.parser, b);
            ParseAll(p, [a, b]) == ReadResult(second.parser, first.chunks + second.chunks)
  {
    hide Parse;
    var second := Parse(Parse(p, a).parser, b);
    assert [a, b][1..] == [b] && [b][1..] == [];
    assert second.chunks + [] == second.chunks;
    assert ParseAll(Parse(p, a).parser, [b]) == second;
  }

  lemma DrainStops(s: Streams, size: u32, d: seq<byte>)
    ensures var x := Drain(s, size, d); Step(x.streams, x.size, x.rest).Stuck?
    decreases |d|
  {
    hide Step, StalledDelta;
    var step := Step(s, size, d);
    if step.Advance? {
      DrainStops(step.streams, step.size, d[step.used..]);
    } else {
      StepAgain(s, size, d, []);
      assert d + [] == d;
    }
  }

  lemma AbsorbKeepsDrift(s: Streams, t: Streams, size: u32, h: ChunkHeader, k: ChunkHeader, used: nat, body: seq<byte>)
    requires Drifted(s, t)
    ensures Drifted(Absorb(s, size, h, used, body).streams, Absorb(t, size, k, used, body).streams)
  {
    var c: u32 :| At(s, c).prev.timestamp != At(t, c).prev.timestamp;
    AbsorbKeepsPrev(s, size, h, used, body, c);
    AbsorbKeepsPrev(t, size, k, used, body, c);
  }

  lemma AbsorbKeepsPrev(s: Streams, size: u32, h: ChunkHeader, used: nat, body: seq<byte>, c: u32)
    ensures At(Absorb(s, size, h, used, body).streams, c).prev == At(s, c).prev
  {
  }

  lemma DeliverKeepsDrift(s: Streams, t: Streams, size: u32, h: ChunkHeader, k: ChunkHeader, n: nat, d: seq<byte>)
    requires Drifted(s, t) && SameStreams(s, t) && SameHeader(h, k) && n <= |d|
    ensures Drifted(Deliver(s, size, h, n, d).streams, Deliver(t, size, k, n, d).streams)
  {
    hide Absorb, SameStreams, SameHeader, Take, At, Drifted;
    SameTaken(s, t, size, h, k);
    var used := n + Take(size, h, At(s, h.csid).received);
    if used <= |d| {
      AbsorbKeepsDrift(s, t, size, h, k, used, d[n..used]);
    }
  }

  /** With the delta counted once more, the remembered timestamps differ whatever comes next. */
  lemma StalledStepDrifts(s: Streams, size: u32, d: seq<byte>, e: seq<byte>)
    requires Step(s, size, d).Stuck? && StalledDelta(d)
    ensures Drifted(Step(s, size, d + e).streams, Step(Step(s, size, d).streams, size, d + e).streams)
  {
    assert ReadHeader(s, d).Whole?;
    hide ReadHeader, Cleared, Delta, Drifted, Deliver, Later, SameStreams, SameHeader;
    StepStamps(s, size, d);
    ReadHeaderAgain(s, d);
    var r := ReadHeader(s, d);
    ReadHeaderExtends(s, d, e);
    ReadHeaderExtends(Cleared(r), d, e);
    var again := ReadHeader(Cleared(r), d);
    DeliverKeepsDrift(Cleared(r), Cleared(again), size, r.header, again.header, r.size, d + e);
  }

  /** One byte behind a chunk that is cut short finishes it at most. */
  lemma OneByteDrained(s: Streams, size: u32, d: seq<byte>, e: byte)
    requires Step(s, size, d).Stuck?
    ensures Drain(s, size, d + [e]).streams == Step(s, size, d + [e]).streams
  {
    hide Step;
    var r := Step(s, size, d + [e]);
    assert (d + [e])[..|d|] == d;
    if r.Advance? {
      if r.used <= |d| {
        StepShrinks(s, size, d + [e], |d|);
        assert false;
      } else {
        NothingToDrain(r.streams, r.size);
      }
    }
  }

  lemma DrainedDrifts(s: Streams, size: u32, d: seq<byte>, e: byte)
    requires StalledDelta(Drain(s, size, d).rest)
    ensures var x := Drain(s, size, d);
            Drifted(Drain(s, size, d + [e]).streams, Drain(x.streams, x.size, x.rest + [e]).streams)
    decreases |d|
  {
    hide Step, StalledDelta, Drifted;
    var step := Step(s, size, d);
    if step.Advance? {
      StepExtends(s, size, d, [e]);
      assert (d + [e])[step.used..] == d[step.used..] + [e];
      DrainedDrifts(step.streams, step.size, d[step.used..], e);
    } else {
      StalledStepDrifts(s, size, d, [e]);
      OneByteDrained(s, size, d, e);
      StepAgain(s, size, d, []);
      assert d + [] == d;
      OneByteDrained(step.streams, size, d, e);
    }
  }

  /**
    * The cut after a is harmless for every continuation exactly when no moving delta header is left waiting;
    * otherwise any single byte that comes next already shows the difference.
    */
  lemma CutIsHarmlessIff(p: Parser, a: seq<byte>)
    ensures (forall b: seq<byte> :: b != [] ==> OneReadOrTwo(p, a, b)) <==> !StalledDelta(Parse(p, a).parser.carry)
    ensures StalledDelta(Parse(p, a).parser.carry) ==> forall e: byte :: !OneReadOrTwo(p, a, [e])
  {
    hide Drain, StalledDelta;
    var q := Parse(p, a).parser;
    if StalledDelta(q.carry) {
      forall e: byte ensures !OneReadOrTwo(p, a, [e]) {
        DrainedDrifts(p.streams, p.size, p.carry + a, e);
        assert (p.carry + a) + [e] == p.carry + (a + [e]);
        TwoReads(p, a, [e]);
      }
      assert [0] != [] && !OneReadOrTwo(p, a, [0]);
    } else {
      forall b: seq<byte> ensures OneReadOrTwo(p, a, b) {
        ParseTwice(p, a, b);
        TwoReads(p, a, b);
      }
    }
  }

  /** A message finished by a chunk that was cut short once is reported late by that chunk's delta. */
  lemma DeltaCountsTwice(s: Streams, size: u32, d: seq<byte>, e: seq<byte>)
    requires Step(s, size, d).Stuck? && Step(s, size, d + e).Advance? && Step(s, size, d + e).chunks != []
    ensures var once, again := Step(s, size, d + e), Step(Step(s, size, d).streams, size, d + e);
            && again.Advance? && |again.chunks| == |once.chunks| == 1
            && (ReadHeader(s, d).Whole? ==>
                  again.chunks[0].header.timestamp == Later(once.chunks[0].header.timestamp, Delta(d)))
            && (!StalledDelta(d) ==> again == once)
  {
    hide Step, ReadHeader, Cleared, Delta, Later;
    var at := Step(s, size, d).streams;
    StepAgain(s, size, d, e);
    StepStamps(s, size, d);
    StepStamps(s, size, d + e);
    StepStamps(at, size, d + e);
    if ReadHeader(s, d).Whole? {
      ReadHeaderAgain(s, d);
      ReadHeaderExtends(s, d, e);
      ReadHeaderExtends(at, d, e);
    }
  }

  // ---- The same on one input

  /** A fmt 1 header of chunk stream 2: five milliseconds later, one byte of audio. */
  const FIVE_LATER: seq<byte> := [0x42, 0, 0, 5, 0, 0, 1, 8]

  function OneByteAudio(timestamp: u32): Chunk {
    Chunk(ChunkHeader(1, 2, timestamp, 1, 8, 0, false), [7])
  }

  lemma FiveLaterRead(s: Streams, payload: seq<byte>)
    requires s == map[] || (s.Keys == {2} && s[2].prev.streamId == 0 && s[2].received == 0)
    ensures var time := Later(At(s, 2).prev.timestamp, 5);
            var h := ChunkHeader(1, 2, time, 1, 8, 0, false);
            var r := ReadHeader(s, FIVE_LATER + payload);
            && r.Whole? && r.header == h && r.size == 8 && Cleared(r) == map[2 := Stream(h, [], 0)]
  {
    var d := FIVE_LATER + payload;
    assert BasicHeader(d) == Some(Basic(1, 2, 1));
    var b := d[1..];
    assert ReadU24Be(b, 0) == 5 && ReadU24Be(b, 3) == 1 && b[6] == 8;
    assert Cleared(ReadHeader(s, d)) == map[2 := Stream(ReadHeader(s, d).header, [], 0)];
  }

  lemma FiveLaterTaken(s: Streams)
    requires s == map[] || (s.Keys == {2} && s[2].prev.streamId == 0 && s[2].received == 0)
    ensures var time := Later(At(s, 2).prev.timestamp, 5);
            var short, whole := Step(s, 128, FIVE_LATER), Step(s, 128, FIVE_LATER + [7]);
            && short == Stuck(map[2 := Stream(ChunkHeader(1, 2, time, 1, 8, 0, false), [], 0)])
            && whole.Advance? && whole.used == 9 && whole.chunks == [OneByteAudio(time)]
  {
    hide ReadHeader, Later, Cleared;
    assert FIVE_LATER + [] == FIVE_LATER;
    FiveLaterRead(s, []);
    FiveLaterRead(s, [7]);
    var d := FIVE_LATER + [7];
    var h := OneByteAudio(Later(At(s, 2).prev.timestamp, 5)).header;
    var ready := map[2 := Stream(h, [], 0)];
    assert d[8..9] == [7] && [] + [7] == [7];
    assert Deliver(ready, 128, h, 8, d) == Absorb(ready, 128, h, 9, [7]);
  }

  lemma FiveLaterDrained(s: Streams)
    requires s == map[] || (s.Keys == {2} && s[2].prev.streamId == 0 && s[2].received == 0)
    ensures var time := Later(At(s, 2).prev.timestamp, 5);
            && Drain(s, 128, FIVE_LATER) == Drained(Step(s, 128, FIVE_LATER).streams, 128, FIVE_LATER, [])
            && Drain(s, 128, FIVE_LATER + [7]).chunks == [OneByteAudio(time)]
  {
    hide Step, Later;
    FiveLaterTaken(s);
    var whole := Step(s, 128, FIVE_LATER + [7]);
    assert (FIVE_LATER + [7])[9..] == [];
    NothingToDrain(whole.streams, whole.size);
  }

  /** Read with its header, the byte arrives at time 5; when the header was read before it, at time 10. */
  lemma FiveBecomesTen()
    ensures var p := Parser(128, map[], []);
            && Parse(p, FIVE_LATER + [7]).chunks == [OneByteAudio(5)]
            && ParseAll(p, [FIVE_LATER, [7]]).chunks == [OneByteAudio(10)]
  {
    hide Step, Drain;
    var p := Parser(128, map[], []);
    assert [] + FIVE_LATER == FIVE_LATER && [] + (FIVE_LATER + [7]) == FIVE_LATER + [7];
    FiveLaterTaken(map[]);
    FiveLaterDrained(map[]);
    FiveLaterDrained(Parse(p, FIVE_LATER).parser.streams);
    TwoReads(p, FIVE_LATER, [7]);
  }
}
