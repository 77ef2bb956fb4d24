/** Chunks of several messages sent in turns on one connection, and what the parser makes of them. */
module Multiplex {
  import opened Bytes
  import opened Messages
  import opened Wrappers
  import opened Chunks
  import opened Fragmentation
  import opened RoundTrip

  /** A message of which some chunks have been sent. */
  datatype Job = Job(header: ChunkHeader, payload: seq<byte>, sent: nat)

  /** The sending side: the chunk size in force and at most one unfinished message on each chunk stream. */
  datatype Mux = Mux(size: u32, jobs: map<u32, Job>)

  /** Whose chunk is sent next: the first one of a new message, or the next one of an unfinished message. */
  datatype Turn = Begin(header: ChunkHeader, payload: seq<byte>) | Continue(csid: u32)

  predicate Unfinished(j: Job) {
    Sendable(j.header, j.payload) && j.sent < |j.payload| && (j.sent > 0 ==> j.header.timestamp < EXTENDED)
  }

  predicate ValidMux(m: Mux) {
    m.size > 0 && forall c :: c in m.jobs ==> Unfinished(m.jobs[c]) && m.jobs[c].header.csid == c && m.jobs[c].sent > 0
  }

  predicate Allowed(m: Mux, t: Turn) {
    match t
    case Begin(h, payload) => Sendable(h, payload) && Unambiguous(h, payload, m.size) && h.csid !in m.jobs
    case Continue(c) => c in m.jobs
  }

  function Chosen(m: Mux, t: Turn): (j: Job)
    requires ValidMux(m) && Allowed(m, t)
    ensures Unfinished(j)
  {
    match t
    case Begin(h, payload) => Job(h, payload, 0)
    case Continue(c) => m.jobs[c]
  }

  /** Sending one chunk; a finished SetChunkSize message takes effect on the sender at once. */
  function Next(m: Mux, t: Turn): (r: Mux)
    requires ValidMux(m) && Allowed(m, t)
    ensures ValidMux(r)
  {
    var j := Chosen(m, t);
    var n := NextSent(j.payload, j.sent, m.size);
    if n == |j.payload| then Mux(SizeAfter(m.size, j.header.typeId, j.payload), m.jobs - {j.header.csid})
    else Mux(m.size, m.jobs[j.header.csid := j.(sent := n)])
  }

  /** The message the chunk finishes, if it does. */
  function Finished(m: Mux, t: Turn): seq<Chunk>
    requires ValidMux(m) && Allowed(m, t)
  {
    var j := Chosen(m, t);
    if NextSent(j.payload, j.sent, m.size) == |j.payload| then [Chunk(ReadBack(j.header), j.payload)] else []
  }

  function Sent(m: Mux, t: Turn): seq<byte>
    requires ValidMux(m) && Allowed(m, t)
  {
    var j := Chosen(m, t);
    EncodeOne(j.header, j.payload, j.sent, m.size)
  }

  // ---- Whole schedules

  predicate ValidRun(m: Mux, turns: seq<Turn>)
    decreases |turns|
  {
    ValidMux(m) && (turns != [] ==> Allowed(m, turns[0]) && ValidRun(Next(m, turns[0]), turns[1..]))
  }

  function Final(m: Mux, turns: seq<Turn>): (r: Mux)
    requires ValidRun(m, turns)
    ensures ValidMux(r)
    decreases |turns|
  {
    if turns == [] then m else Final(Next(m, turns[0]), turns[1..])
  }

  /** The bytes of a schedule. */
  function Wire(m: Mux, turns: seq<Turn>): seq<byte>
    requires ValidRun(m, turns)
    decreases |turns|
  {
    if turns == [] then [] else Sent(m, turns[0]) + Wire(Next(m, turns[0]), turns[1..])
  }

  /** The messages of a schedule in the order of their last chunks. */
  function Log(m: Mux, turns: seq<Turn>): seq<Chunk>
    requires ValidRun(m, turns)
    decreases |turns|
  {
    if turns == [] then [] else Finished(m, turns[0]) + Log(Next(m, turns[0]), turns[1..])
  }

  // ---- The parser follows the sender

  /** The parser has exactly the unfinished messages of the sender half received, and nothing else. */
  ghost predicate Mirrors(s: Streams, m: Mux) {
    && ValidMux(m)
    && (forall c :: c in m.jobs ==> Holds(s, m.jobs[c].header, m.jobs[c].payload, m.jobs[c].sent))
    && (forall c :: c in s && c !in m.jobs ==> s[c].received == 0)
  }

  function StreamsAfter(s: Streams, m: Mux, t: Turn): Streams
    requires ValidMux(m) && Allowed(m, t)
  {
    var j := Chosen(m, t);
    After(s, j.header, j.payload, NextSent(j.payload, j.sent, m.size))
  }

  lemma TurnMirrored(s: Streams, m: Mux, t: Turn, tail: seq<byte>)
    requires Mirrors(s, m) && Allowed(m, t)
    ensures Step(s, m.size, Sent(m, t) + tail)
              == Advance(StreamsAfter(s, m, t), Next(m, t).size, |Sent(m, t)|, Finished(m, t))
    ensures Mirrors(StreamsAfter(s, m, t), Next(m, t))
  {
    hide Step, SizeAfter;
    var j := Chosen(m, t);
    assert Holds(s, j.header, j.payload, j.sent);
    OneChunk(s, m.size, j.header, j.payload, j.sent, tail);
    TurnKeepsMirror(s, m, t);
  }

  lemma TurnKeepsMirror(s: Streams, m: Mux, t: Turn)
    requires Mirrors(s, m) && Allowed(m, t)
    ensures Mirrors(StreamsAfter(s, m, t), Next(m, t))
  {
    hide SizeAfter;
    var j := Chosen(m, t);
    var s', m' := StreamsAfter(s, m, t), Next(m, t);
    forall c | c in m'.jobs ensures Holds(s', m'.jobs[c].header, m'.jobs[c].payload, m'.jobs[c].sent) {
      if c != j.header.csid {
        assert m'.jobs[c] == m.jobs[c] && At(s', c) == At(s, c);
      }
    }
  }

  function StreamsFinally(s: Streams, m: Mux, turns: seq<Turn>): Streams
    requires ValidRun(m, turns)
    decreases |turns|
  {
    if turns == [] then s else StreamsFinally(StreamsAfter(s, m, turns[0]), Next(m, turns[0]), turns[1..])
  }

  lemma {:induction false} ScheduleMirrored(s: Streams, m: Mux, turns: seq<Turn>, tail: seq<byte>)
    requires Mirrors(s, m) && ValidRun(m, turns)
    ensures Mirrors(StreamsFinally(s, m, turns), Final(m, turns))
    ensures Drain(s, m.size, Wire(m, turns) + tail)
              == Prepend(Log(m, turns), Drain(StreamsFinally(s, m, turns), Final(m, turns).size, tail))
    decreases |turns|
  {
    hide Step, Mirrors, StreamsAfter, Next, Finished, Sent, Allowed;
    if turns == [] {
      var x := Drain(s, m.size, tail);
      assert [] + tail == tail && [] + x.chunks == x.chunks;
    } else {
      var sent, others := Sent(m, turns[0]), Wire(Next(m, turns[0]), turns[1..]);
      var s' := StreamsAfter(s, m, turns[0]);
      TurnMirrored(s, m, turns[0], others + tail);
      assert (sent + others) + tail == sent + (others + tail);
      assert (sent + (others + tail))[|sent|..] == others + tail;
      assert |sent| >= 1;
      ScheduleMirrored(s', Next(m, turns[0]), turns[1..], tail);
      var x := Drain(StreamsFinally(s, m, turns), Final(m, turns).size, tail);
      assert Finished(m, turns[0]) + (Log(Next(m, turns[0]), turns[1..]) + x.chunks) == Log(m, turns) + x.chunks;
    }
  }

  lemma WholeSchedule(s: Streams, m: Mux, turns: seq<Turn>)
    requires Mirrors(s, m) && ValidRun(m, turns)
    ensures var r := Drain(s, m.size, Wire(m, turns));
            r.chunks == Log(m, turns) && r.rest == [] && r.size == Final(m, turns).size
            && Mirrors(r.streams, Final(m, turns))
  {
    hide Mirrors, Step;
    var d := Wire(m, turns);
    assert d + [] == d;
    ScheduleMirrored(s, m, turns, []);
    var s', size := StreamsFinally(s, m, turns), Final(m, turns).size;
    assert Drain(s', size, []) == Drained(s', size, [], []) by { NothingToDrain(s', size); }
    assert Log(m, turns) + [] == Log(m, turns);
  }

  lemma CutTurn(s: Streams, m: Mux, t: Turn, a: seq<byte>)
    requires Mirrors(s, m) && Allowed(m, t) && a < Sent(m, t)
    ensures Drain(s, m.size, a).rest == a && Drain(s, m.size, a).chunks == [] && !StalledDelta(a)
  {
    hide Step, StalledDelta;
    var j := Chosen(m, t);
    assert Holds(s, j.header, j.payload, j.sent);
    CutChunkIsStuck(s, m.size, j.header, j.payload, j.sent, a);
    PlainHasNoDelta(a);
  }

  /** A schedule that breaks off anywhere: what came out is a beginning, and no delta header is left waiting. */
  lemma {:induction false} CutSchedule(s: Streams, m: Mux, turns: seq<Turn>, a: seq<byte>)
    requires Mirrors(s, m) && ValidRun(m, turns) && a <= Wire(m, turns)
    ensures Drain(s, m.size, a).chunks <= Log(m, turns) && !StalledDelta(Drain(s, m.size, a).rest)
    decreases |turns|
  {
    hide Step, Mirrors, StreamsAfter, Next, Finished, Sent, Allowed, StalledDelta;
    if turns == [] {
      NothingToDrain(s, m.size);
      PlainHasNoDelta([]);
    } else {
      var sent := Sent(m, turns[0]);
      if |a| < |sent| {
        assert a < sent;
        CutTurn(s, m, turns[0], a);
      } else {
        var a' := a[|sent|..];
        assert a == sent + a' && a' <= Wire(Next(m, turns[0]), turns[1..]);
        TurnMirrored(s, m, turns[0], a');
        assert |sent| >= 1;
        CutSchedule(StreamsAfter(s, m, turns[0]), Next(m, turns[0]), turns[1..], a');
      }
    }
  }

  /**
    * Chunks of any messages on distinct chunk streams may be interleaved in any way, and their bytes cut into any
    * reads. At any time the parser has reported a beginning of the messages, in the order of their last chunks; once
    * all bytes have arrived it has reported each message once and has the sender's chunk size and unfinished messages.
    */
  lemma Demultiplexed(p: Parser, m: Mux, turns: seq<Turn>, cuts: seq<seq<byte>>)
    requires p.carry == [] && p.size == m.size && Mirrors(p.streams, m) && ValidRun(m, turns)
    requires Concat(cuts) <= Wire(m, turns)
    ensures ParseAll(p, cuts).chunks <= Log(m, turns)
    ensures Concat(cuts) == Wire(m, turns) ==>
              var r := ParseAll(p, cuts);
              && r.chunks == Log(m, turns)
              && r.parser.carry == [] && r.parser.size == Final(m, turns).size
              && Mirrors(r.parser.streams, Final(m, turns))
  {
    hide Mirrors, Drain, StalledDelta, Wire, Log, Final, ValidRun, ParseAll;
    forall a: seq<byte> | a <= Concat(cuts) ensures !StalledDelta(Parse(p, a).parser.carry) {
      assert [] + a == a;
      CutSchedule(p.streams, m, turns, a);
    }
    AnyCutsAgree(p, cuts);
    assert [] + Concat(cuts) == Concat(cuts);
    CutSchedule(p.streams, m, turns, Concat(cuts));
    WholeSchedule(p.streams, m, turns);
  }

  // ---- Each message once, in order, made of the encoder's bytes

  /** The messages a list of reported chunks has for one chunk stream. */
  function On(log: seq<Chunk>, c: u32): seq<Chunk> {
    if log == [] then [] else (if log[0].header.csid == c then [log[0]] else []) + On(log[1..], c)
  }

  /** The messages begun on one chunk stream. */
  function Begun(turns: seq<Turn>, c: u32): seq<Chunk> {
    if turns == [] then []
    else
      (if turns[0].Begin? && turns[0].header.csid == c
       then [Chunk(ReadBack(turns[0].header), turns[0].payload)] else [])
      + Begun(turns[1..], c)
  }

  function InFlight(m: Mux, c: u32): seq<Chunk> {
    if c in m.jobs then [Chunk(ReadBack(m.jobs[c].header), m.jobs[c].payload)] else []
  }

  lemma {:induction false} OnConcat(a: seq<Chunk>, b: seq<Chunk>, c: u32)
    ensures On(a + b, c) == On(a, c) + On(b, c)
  {
    if a == [] {
      assert a + b == b;
    } else {
      OnConcat(a[1..], b, c);
      assert (a + b)[1..] == a[1..] + b && (a + b)[0] == a[0];
      var first := if a[0].header.csid == c then [a[0]] else [];
      assert first + (On(a[1..], c) + On(b, c)) == (first + On(a[1..], c)) + On(b, c);
    }
  }

  /** On every chunk stream, what was in flight and what was begun has come out in order, or is still in flight. */
  lemma {:induction false} EachMessageOnce(m: Mux, turns: seq<Turn>, c: u32)
    requires ValidRun(m, turns)
    ensures InFlight(m, c) + Begun(turns, c) == On(Log(m, turns), c) + InFlight(Final(m, turns), c)
    decreases |turns|
  {
    if turns == [] {
      NoTurns(m, c);
    } else {
      var t, next := turns[0], Next(m, turns[0]);
      FirstTurn(m, turns, c);
      hide InFlight, Begun, On, Next, Finished, Log, Final, Allowed, ValidMux, ValidRun;
      EachMessageOnce(next, turns[1..], c);
      OnConcat(Finished(m, t), Log(next, turns[1..]), c);
      OneTurnOnce(m, t, c);
      Chained(InFlight(m, c), Begun([t], c), Begun(turns[1..], c), On(Finished(m, t), c),
              InFlight(next, c), On(Log(next, turns[1..]), c), InFlight(Final(m, turns), c));
    }
  }

  lemma NoTurns(m: Mux, c: u32)
    requires ValidRun(m, [])
    ensures InFlight(m, c) + Begun([], c) == On(Log(m, []), c) + InFlight(Final(m, []), c)
  {
  }

  lemma FirstTurn(m: Mux, turns: seq<Turn>, c: u32)
    requires turns != [] && ValidRun(m, turns)
    ensures ValidRun(Next(m, turns[0]), turns[1..])
    ensures Log(m, turns) == Finished(m, turns[0]) + Log(Next(m, turns[0]), turns[1..])
    ensures Final(m, turns) == Final(Next(m, turns[0]), turns[1..])
    ensures Begun(turns, c) == Begun([turns[0]], c) + Begun(turns[1..], c)
  {
    hide Next, Finished, Allowed, ValidMux;
    assert [turns[0]][1..] == [];
  }

  lemma Chained<T>(a: seq<T>, x: seq<T>, y: seq<T>, b: seq<T>, mid: seq<T>, d: seq<T>, e: seq<T>)
    requires a + x == b + mid && mid + y == d + e
    ensures a + (x + y) == (b + d) + e
  {
    assert a + (x + y) == (a + x) + y;
    assert (b + mid) + y == b + (mid + y);
    assert b + (d + e) == (b + d) + e;
  }

  lemma OneTurnOnce(m: Mux, t: Turn, c: u32)
    requires ValidMux(m) && Allowed(m, t)
    ensures InFlight(m, c) + Begun([t], c) == On(Finished(m, t), c) + InFlight(Next(m, t), c)
  {
  }

  /** The bytes a schedule sends on one chunk stream. */
  function SentOn(m: Mux, turns: seq<Turn>, c: u32): seq<byte>
    requires ValidRun(m, turns)
    decreases |turns|
  {
    if turns == [] then []
    else
      (if Chosen(m, turns[0]).header.csid == c then Sent(m, turns[0]) else [])
      + SentOn(Next(m, turns[0]), turns[1..], c)
  }

  /** What the encoder makes of the messages begun on one chunk stream, one after the other. */
  function EncodedOn(turns: seq<Turn>, c: u32, size: u32): seq<byte>
    requires size > 0
  {
    if turns == [] then []
    else
      (if turns[0].Begin? && turns[0].header.csid == c
       then EncodeChunk(turns[0].header, turns[0].payload, size) else [])
      + EncodedOn(turns[1..], c, size)
  }

  function Unsent(m: Mux, c: u32): seq<byte>
    requires ValidMux(m)
  {
    if c in m.jobs then EncodeFrom(m.jobs[c].header, m.jobs[c].payload, m.jobs[c].sent, m.size) else []
  }

  predicate NoResize(m: Mux, turns: seq<Turn>) {
    && (forall c :: c in m.jobs ==> m.jobs[c].header.typeId != SET_CHUNK_SIZE)
    && (forall t :: t in turns && t.Begin? ==> t.header.typeId != SET_CHUNK_SIZE)
  }

  lemma OneTurnEncoded(m: Mux, t: Turn, c: u32)
    requires ValidMux(m) && Allowed(m, t) && NoResize(m, [t])
    ensures Next(m, t).size == m.size
    ensures Unsent(m, c) + EncodedOn([t], c, m.size)
              == (if Chosen(m, t).header.csid == c then Sent(m, t) else []) + Unsent(Next(m, t), c)
  {
    assert t in [t];
    assert [t][1..] == [];
    var j := Chosen(m, t);
    if j.header.csid == c {
      FirstOfRest(j, m.size);
      EndOfRest(j, m.size);
    }
    hide EncodeOne, EncodeFrom;
  }

  /** The next chunk of a message is the front of what remains of it. */
  lemma FirstOfRest(j: Job, size: u32)
    requires j.sent < |j.payload| && size > 0
    ensures EncodeFrom(j.header, j.payload, j.sent, size)
         == EncodeOne(j.header, j.payload, j.sent, size)
            + EncodeFrom(j.header, j.payload, NextSent(j.payload, j.sent, size), size)
  {
    hide EncodeOne;
  }

  lemma EndOfRest(j: Job, size: u32)
    requires size > 0
    ensures EncodeFrom(j.header, j.payload, |j.payload|, size) == []
  {
  }

  /** While the chunk size stays fixed, each chunk stream carries just the encoder's bytes for its messages. */
  lemma {:induction false} StreamsCarryEncodedMessages(m: Mux, turns: seq<Turn>, c: u32)
    requires ValidRun(m, turns) && NoResize(m, turns)
    ensures m.size > 0
    ensures Unsent(m, c) + EncodedOn(turns, c, m.size) == SentOn(m, turns, c) + Unsent(Final(m, turns), c)
    decreases |turns|
  {
    SizePositive(m);
    hide Allowed, ValidMux, Unsent, Next;
    if turns != [] {
      var t, m' := turns[0], Next(m, turns[0]);
      NoResizeKept(m, turns);
      OneTurnEncoded(m, t, c);
      StreamsCarryEncodedMessages(m', turns[1..], c);
      EncodedOnFirst(turns, c, m.size);
      hide EncodedOn, Final, Sent, Chosen, NoResize;
      var one := if Chosen(m, t).header.csid == c then Sent(m, t) else [];
      Chained(Unsent(m, c), EncodedOn([t], c, m.size), EncodedOn(turns[1..], c, m.size), one, Unsent(m', c),
              SentOn(m', turns[1..], c), Unsent(Final(m', turns[1..]), c));
    }
  }

  lemma EncodedOnFirst(turns: seq<Turn>, c: u32, size: u32)
    requires turns != [] && size > 0
    ensures EncodedOn(turns, c, size) == EncodedOn([turns[0]], c, size) + EncodedOn(turns[1..], c, size)
  {
  }

  lemma SizePositive(m: Mux)
    requires ValidMux(m)
    ensures m.size > 0
  {
  }

  lemma NoResizeKept(m: Mux, turns: seq<Turn>)
    requires turns != [] && ValidMux(m) && Allowed(m, turns[0]) && NoResize(m, turns)
    ensures NoResize(Next(m, turns[0]), turns[1..]) && NoResize(m, [turns[0]])
  {
  }
}
