/** A connection from the first byte on: the handshake between its two ends, and the bytes that follow it. */
module Connections {
  import opened Bytes
  import opened Wrappers
  import opened Handshakes
  import opened Sessions
  import opened Messages
  import Chunks
  import Clients

  // ---- The server's end

  /**
    * What a publisher's connection has done: its handshake, whether it was dropped, the bytes written, and the
    * bytes given to process_input.
    */
  datatype Server = Server(hs: Progress, dropped: bool, wrote: seq<byte>, fed: seq<byte>)

  const FRESH_SERVER := Server(Progress(Uninitialized, [], []), false, [], [])

  const SERVER_WINDOW: u32 := 2500000
  const DYNAMIC_LIMIT: byte := 2
  const SERVER_CHUNK_SIZE: u32 := 4096

  /** What a server announces as soon as its handshake is done. */
  const GREETINGS: seq<Send> :=
    [SendWindowAckSize(SERVER_WINDOW), SendSetPeerBandwidth(SERVER_WINDOW, DYNAMIC_LIMIT),
     SendSetChunkSize(SERVER_CHUNK_SIZE)]

  function Greeting(): seq<byte> {
    EncodedSend(GREETINGS[0], INITIAL_CHUNK_SIZE) + EncodedSend(GREETINGS[1], INITIAL_CHUNK_SIZE)
    + EncodedSend(GREETINGS[2], INITIAL_CHUNK_SIZE)
  }

  /**
    * One read event with its bytes; no bytes mean that the peer has closed the connection. The block is the server's
    * choice for S1, and a read writes at most once.
    */
  function OnRead(s: Server, d: seq<byte>, block: seq<byte>, writeOk: bool): Server
    requires |block| == BLOCK
  {
    if s.dropped then s
    else if d == [] then s.(dropped := true)
    else if s.hs.phase == Done then s.(fed := s.fed + d)
    else
      var r := ProcessClient(s.hs, d);
      if r.result.Err? then s.(hs := r.progress, dropped := true)
      else if r.progress.phase == S0S1S2Sent then
        var t := s.(hs := r.progress.(s1 := block));
        if writeOk then t.(wrote := s.wrote + ([VERSION] + block + d[1..1 + BLOCK])) else t.(dropped := true)
      else
        var t := s.(hs := r.progress);
        if writeOk then t.(wrote := s.wrote + Greeting(), fed := s.fed + d[r.result.value..]) else t.(dropped := true)
  }

  /** The server's end as an object; its session holds the handshake. */
  class PublisherConnection {
    const session: Session
    var dropped: bool
    var wrote: seq<byte>
    /** The bytes given to process_input so far. */
    ghost var fed: seq<byte>

    ghost function Now(): Server
      reads this, session, session.handshake
    {
      Server(session.handshake.Now(), dropped, wrote, fed)
    }

    /** Nothing waits to be sent, and until the handshake is done nothing ever was. */
    ghost predicate Ready()
      reads this, session, session.handshake, session.writeBuffer, session.writeBuffer.mem
    {
      && session.Valid()
      && (!dropped ==> session.Outgoing() == [])
      && (session.handshake.state != Done ==> session.outChunkSize == INITIAL_CHUNK_SIZE)
    }

    constructor ()
      ensures Ready() && Now() == FRESH_SERVER && session.delivered == []
      ensures session.parser.State() == Chunks.Parser(INITIAL_CHUNK_SIZE, map[], [])
      ensures fresh(session) && fresh(session.handshake) && fresh(session.parser)
      ensures fresh(session.writeBuffer) && fresh(session.writeBuffer.mem)
    {
      session := new Session();
      dropped, wrote, fed := false, [], [];
    }

    /** Passes bytes on to the session. */
    method Feed(data: seq<byte>)
      requires session.handshake.state == Done
      modifies this`fed, session`delivered, session.parser
      ensures fed == old(fed) + data
      ensures var r := Receive(old(session.parser.State()), data);
              session.parser.State() == r.parser && session.delivered == old(session.delivered) + r.messages
    {
      var _ := session.ProcessInput(data);
      fed := fed + data;
    }

    /** The control messages behind the handshake. */
    method Greet() returns (data: seq<byte>)
      requires session.Valid() && session.Outgoing() == [] && session.outChunkSize == INITIAL_CHUNK_SIZE
      modifies session`outChunkSize, session.writeBuffer, session.writeBuffer.mem
      ensures session.Valid() && session.Outgoing() == [] && data == Greeting()
      ensures session.writeBuffer.mem == old(session.writeBuffer.mem) || fresh(session.writeBuffer.mem)
    {
      hide EncodedSend;
      session.SendWindowAckSize(SERVER_WINDOW);
      session.SendSetPeerBandwidth(SERVER_WINDOW, DYNAMIC_LIMIT);
      session.SendSetChunkSize(SERVER_CHUNK_SIZE);
      data := session.GetOutgoingData();
    }

    method OnReadable(data: seq<byte>, block: seq<byte>, writeOk: bool)
      requires |block| == BLOCK && Ready()
      modifies this, session, session.handshake, session.parser, session.writeBuffer, session.writeBuffer.mem
      ensures Ready() && Now() == OnRead(old(Now()), data, block, writeOk)
      ensures session.writeBuffer.mem == old(session.writeBuffer.mem) || fresh(session.writeBuffer.mem)
      ensures old(fed) <= fed
      ensures var piece := fed[|old(fed)|..];
              var r := Receive(old(session.parser.State()), piece);
              if piece == [] then
                session.parser.State() == old(session.parser.State()) && session.delivered == old(session.delivered)
              else
                session.parser.State() == r.parser && session.delivered == old(session.delivered) + r.messages
    {
      hide Receive, Greeting;
      if dropped {
        return;
      }
      if data == [] {
        dropped := true;
        return;
      }
      if session.handshake.state == Done {
        Feed(data);
        assert fed[|old(fed)|..] == data;
        return;
      }
      var result := session.handshake.ProcessClientHandshake(data);
      if result.Err? {
        dropped := true;
        return;
      }
      var consumed := result.value;
      if session.handshake.state == S0S1S2Sent && |data| >= 1 + BLOCK {
        var response := session.handshake.GenerateS0S1S2(block, data[1..1 + BLOCK]);
        if !writeOk {
          dropped := true;
          return;
        }
        wrote := wrote + response;
      }
      if session.handshake.state == Done {
        var greeting := Greet();
        if !writeOk {
          dropped := true;
          return;
        }
        wrote := wrote + greeting;
        if consumed < |data| {
          Feed(data[consumed..]);
          assert fed[|old(fed)|..] == data[consumed..];
        }
      }
    }
  }

  // ---- Both ends

  /** The two ends, and how much of what each has written the other has read. */
  datatype World = World(client: Clients.State, server: Server, taken: nat, got: nat)

  /** A client acts on its own in every way but by reading what the server wrote; the stream may end for it. */
  datatype Event =
    | ServerRead(n: nat, block: seq<byte>, writeOk: bool)
    | ClientRead(n: nat, writeOk: bool)
    | ClientActs(act: Clients.Event)
    | ServerWrite(bytes: seq<byte>)

  /**
    * The callers of a client wait until its handshake is done before they send, and the socket takes C0 and C1 whole
    * or not at all.
    */
  predicate Orderly(c: Clients.State, e: Clients.Event) {
    && (Clients.IsSend(e) ==> c.hs.phase == Done)
    && (e.Writable? && c.connecting && e.outcome.Accepted? ==> e.outcome.n == 0 || e.outcome.n >= |c.hello|)
    && (e.Readable? ==> e.data == [])
  }

  /** The server writes on its own only once its handshake is done. */
  predicate Enabled(w: World, e: Event) {
    match e
    case ServerRead(n, block, _) => 0 < n && w.taken + n <= |w.client.wire| && |block| == BLOCK
    case ClientRead(n, _) => 0 < n && w.got + n <= |w.server.wrote|
    case ClientActs(act) => Orderly(w.client, act)
    case ServerWrite(_) => !w.server.dropped && w.server.hs.phase == Done
  }

  function Happen(w: World, e: Event): World
    requires Enabled(w, e)
  {
    match e
    case ServerRead(n, block, writeOk) =>
      w.(server := OnRead(w.server, w.client.wire[w.taken..w.taken + n], block, writeOk), taken := w.taken + n)
    case ClientRead(n, writeOk) =>
      w.(client := Clients.React(w.client, Clients.Readable(w.server.wrote[w.got..w.got + n], writeOk)),
         got := w.got + n)
    case ClientActs(act) => w.(client := Clients.React(w.client, act))
    case ServerWrite(bytes) => w.(server := w.server.(wrote := w.server.wrote + bytes))
  }

  predicate ValidRun(w: World, events: seq<Event>)
    decreases |events|
  {
    events != [] ==> Enabled(w, events[0]) && ValidRun(Happen(w, events[0]), events[1..])
  }

  function Final(w: World, events: seq<Event>): World
    requires ValidRun(w, events)
    decreases |events|
  {
    if events == [] then w else Final(Happen(w, events[0]), events[1..])
  }

  /** A client whose connection attempt has just begun, and a server that knows nothing of it yet. */
  function Start(c1: seq<byte>): World {
    World(Clients.Begin(c1), FRESH_SERVER, 0, 0)
  }

  predicate IsSlice(part: seq<byte>, whole: seq<byte>, i: nat, j: nat) {
    i <= j <= |whole| && part == whole[i..j]
  }

  lemma SliceExtends(part: seq<byte>, whole: seq<byte>, i: nat, j: nat, more: seq<byte>)
    requires IsSlice(part, whole, i, j)
    ensures IsSlice(part, whole + more, i, j)
  {
  }

  lemma SliceTail(part: seq<byte>, whole: seq<byte>, i: nat, j: nat)
    requires IsSlice(part, whole, 0, j) && i <= j
    ensures IsSlice(part[i..], whole, i, j)
  {
  }

  lemma SliceGrows(part: seq<byte>, whole: seq<byte>, i: nat, j: nat, k: nat)
    requires IsSlice(part, whole, i, j) && j <= k <= |whole|
    ensures IsSlice(part + whole[j..k], whole, i, k)
  {
  }

  /** The server's bytes begin with S0, S1 and S2, and S2 is C1. */
  predicate Answered(s: Server, c1: seq<byte>) {
    |s.hs.s1| == BLOCK && IsSlice([VERSION] + s.hs.s1 + c1, s.wrote, 0, 1 + 2 * BLOCK)
  }

  /** C0 and C1, the given C2, and what the socket took of the messages. */
  predicate WireHolds(c: Clients.State, c2: seq<byte>) {
    c.wire == c.hello + c2 + c.written
  }

  /** The client's bytes: nothing yet, or C0 and C1, or those, C2 and what the socket took of its messages. */
  predicate ClientSide(c: Clients.State, s: Server, got: nat) {
    && |c.hs.c1| == BLOCK && c.hello == [VERSION] + c.hs.c1
    && got <= |s.wrote|
    && (c.connecting ==> c.open && !c.connected && c.wire == [])
    && (c.connected ==> c.hs.phase == Done)
    && (c.open && c.connected ==> IsSlice(c.buffer, s.wrote, 1 + 2 * BLOCK, got))
    && (c.open && !c.connected ==> c.hs.phase == C0C1Sent && IsSlice(c.buffer, s.wrote, 0, got))
    && match c.hs.phase
       case C0C1Sent => (c.wire == [] || c.wire == c.hello) && c.sends == [] && c.pending == [] && c.written == []
       case Done =>
         && Answered(s, c.hs.c1)
         // C2 is S1
         && (WireHolds(c, s.hs.s1) || (!c.open && c.wire == c.hello && c.written == []))
       case _ => false
  }

  /** The server is where the bytes it has read should have brought it. */
  predicate ServerSide(wire: seq<byte>, c1: seq<byte>, s: Server, taken: nat) {
    && taken <= |wire|
    && (taken == 0 ==> s.wrote == [])
    && (s.wrote == [] || Answered(s, c1))
    && (!s.dropped ==>
          match s.hs.phase
          case Uninitialized => taken == 0 && s.fed == []
          case S0S1S2Sent => taken == 1 + BLOCK && s.fed == [] && Answered(s, c1)
          case Done => taken >= 1 + 2 * BLOCK && Answered(s, c1) && IsSlice(s.fed, wire, 1 + 2 * BLOCK, taken)
          case C0C1Sent => false)
  }

  predicate Aligned(w: World) {
    ClientSide(w.client, w.server, w.got) && ServerSide(w.client.wire, w.client.hs.c1, w.server, w.taken)
  }

  lemma StartAligned(c1: seq<byte>)
    requires |c1| == BLOCK
    ensures Aligned(Start(c1))
  {
  }

  // ---- The server reads or writes

  /** What the server has answered stays when it writes more. */
  lemma ClientSideKept(c: Clients.State, s: Server, s': Server, got: nat, more: seq<byte>)
    requires ClientSide(c, s, got) && s'.wrote == s.wrote + more && (s.wrote != [] ==> s'.hs.s1 == s.hs.s1)
    ensures ClientSide(c, s', got)
  {
    hide IsSlice;
    if c.open {
      SliceExtends(c.buffer, s.wrote, if c.connected then 1 + 2 * BLOCK else 0, got, more);
    }
    if c.hs.phase == Done {
      AnswerKept(c.hs.c1, s, s', more);
    }
  }

  lemma AnswerKept(c1: seq<byte>, s: Server, s': Server, more: seq<byte>)
    requires Answered(s, c1) && s'.wrote == s.wrote + more && (s.wrote != [] ==> s'.hs.s1 == s.hs.s1)
    ensures Answered(s', c1) && s.wrote != []
  {
    SliceExtends([VERSION] + s.hs.s1 + c1, s.wrote, 0, 1 + 2 * BLOCK, more);
  }

  /** The client has written no more than C0 and C1 before the server has answered. */
  lemma OnlyHello(w: World)
    requires Aligned(w) && w.server.wrote == []
    ensures w.client.wire == [] || w.client.wire == [VERSION] + w.client.hs.c1
  {
  }

  lemma FirstReadAligned(w: World, n: nat, block: seq<byte>, writeOk: bool)
    requires Aligned(w) && Enabled(w, ServerRead(n, block, writeOk))
    requires !w.server.dropped && w.server.hs.phase == Uninitialized
    ensures Aligned(Happen(w, ServerRead(n, block, writeOk)))
  {
    hide Greeting, ClientSide;
    var c, s := w.client, w.server;
    assert s.wrote == [];
    OnlyHello(w);
    var d := c.wire[0..n];
    var s' := OnRead(s, d, block, writeOk);
    var answer := [VERSION] + block + c.hs.c1;
    HelloParts(w);
    if n == 1 + BLOCK && writeOk {
      assert d == c.wire && d[1..1 + BLOCK] == c.hs.c1;
      assert [] + answer == answer && IsSlice(answer, answer, 0, 1 + 2 * BLOCK);
      ClientSideKept(c, s, s', w.got, answer);
    } else {
      assert [] + [] == s'.wrote;
      ClientSideKept(c, s, s', w.got, []);
    }
  }

  lemma HelloParts(w: World)
    requires Aligned(w)
    ensures |w.client.hs.c1| == BLOCK && w.client.hello == [VERSION] + w.client.hs.c1
  {
  }

  lemma BehindC2(wire: seq<byte>, n: nat)
    requires n >= BLOCK && 1 + BLOCK + n <= |wire|
    ensures IsSlice([] + wire[1 + BLOCK..1 + BLOCK + n][BLOCK..], wire, 1 + 2 * BLOCK, 1 + BLOCK + n)
  {
    assert wire[1 + BLOCK..1 + BLOCK + n][BLOCK..] == wire[1 + 2 * BLOCK..1 + BLOCK + n];
  }

  lemma SecondReadAligned(w: World, n: nat, block: seq<byte>, writeOk: bool)
    requires Aligned(w) && Enabled(w, ServerRead(n, block, writeOk))
    requires !w.server.dropped && w.server.hs.phase == S0S1S2Sent
    ensures Aligned(Happen(w, ServerRead(n, block, writeOk)))
  {
    var c, s := w.client, w.server;
    var s' := OnRead(s, c.wire[w.taken..w.taken + n], block, writeOk);
    var more := if n >= BLOCK && writeOk then Greeting() else [];
    hide Greeting, ClientSide, IsSlice;
    assert s.wrote + [] == s.wrote;
    if n >= BLOCK && writeOk {
      BehindC2(c.wire, n);
    }
    AnswerKept(c.hs.c1, s, s', more);
    ClientSideKept(c, s, s', w.got, more);
  }

  lemma LaterReadAligned(w: World, n: nat, block: seq<byte>, writeOk: bool)
    requires Aligned(w) && Enabled(w, ServerRead(n, block, writeOk))
    requires !w.server.dropped && w.server.hs.phase == Done
    ensures Aligned(Happen(w, ServerRead(n, block, writeOk)))
  {
    hide Greeting, ClientSide, IsSlice;
    var c, s := w.client, w.server;
    var s' := OnRead(s, c.wire[w.taken..w.taken + n], block, writeOk);
    assert s.wrote + [] == s.wrote;
    SliceGrows(s.fed, c.wire, 1 + 2 * BLOCK, w.taken, w.taken + n);
    ClientSideKept(c, s, s', w.got, []);
    AnswerKept(c.hs.c1, s, s', []);
  }

  lemma ServerReadAligned(w: World, n: nat, block: seq<byte>, writeOk: bool)
    requires Aligned(w) && Enabled(w, ServerRead(n, block, writeOk))
    ensures Aligned(Happen(w, ServerRead(n, block, writeOk)))
  {
    if w.server.dropped {
      hide ClientSide;
    } else {
      match w.server.hs.phase
      case Uninitialized => FirstReadAligned(w, n, block, writeOk);
      case S0S1S2Sent => SecondReadAligned(w, n, block, writeOk);
      case Done => LaterReadAligned(w, n, block, writeOk);
    }
  }

  lemma ServerWriteAligned(w: World, bytes: seq<byte>)
    requires Aligned(w) && Enabled(w, ServerWrite(bytes))
    ensures Aligned(Happen(w, ServerWrite(bytes)))
  {
    hide ClientSide, IsSlice;
    var s' := Happen(w, ServerWrite(bytes)).server;
    AnswerKept(w.client.hs.c1, w.server, s', bytes);
    ClientSideKept(w.client, w.server, s', w.got, bytes);
  }

  // ---- The client reads or acts

  /** What the server has passed on stays when the client writes more. */
  lemma ServerSideKept(wire: seq<byte>, c1: seq<byte>, s: Server, taken: nat, more: seq<byte>)
    requires ServerSide(wire, c1, s, taken)
    ensures ServerSide(wire + more, c1, s, taken)
  {
    hide IsSlice, Answered;
    if !s.dropped && s.hs.phase == Done {
      SliceExtends(s.fed, wire, 1 + 2 * BLOCK, taken, more);
    }
  }

  /** The server's first bytes, part by part. */
  lemma AnswerParts(all: seq<byte>, wrote: seq<byte>, s1: seq<byte>, c1: seq<byte>, n: nat)
    requires |s1| == BLOCK && |c1| == BLOCK && IsSlice([VERSION] + s1 + c1, wrote, 0, 1 + 2 * BLOCK)
    requires IsSlice(all, wrote, 0, n) && 1 + 2 * BLOCK <= n
    ensures |all| == n && all[0] == VERSION && all[1..1 + BLOCK] == s1
  {
    var answer := [VERSION] + s1 + c1;
    assert all[..1 + 2 * BLOCK] == answer;
    assert answer[0] == VERSION && answer[1..1 + BLOCK] == s1;
    assert all[1..1 + BLOCK] == answer[1..1 + BLOCK];
  }

  lemma SliceLength(part: seq<byte>, whole: seq<byte>, i: nat, j: nat)
    requires IsSlice(part, whole, i, j)
    ensures |part| == j - i
  {
  }

  /** A read that does not complete the server's answer yet. */
  lemma AnswerAwaited(c: Clients.State, data: seq<byte>, writeOk: bool)
    requires c.open && !c.connected && c.hs.phase == C0C1Sent && data != [] && |c.buffer + data| < 1 + 2 * BLOCK
    ensures Clients.React(c, Clients.Readable(data, writeOk)) == c.(buffer := c.buffer + data)
  {
  }

  /** The client with the server's answer behind it, and C2 written if that succeeds. */
  function WithAnswer(c: Clients.State, s1: seq<byte>, rest: seq<byte>, writeOk: bool): Clients.State {
    var t := c.(hs := c.hs.(s1 := s1, phase := Done), buffer := rest, connected := true);
    if writeOk then t.(wire := c.wire + s1) else Clients.Closed(t)
  }

  /** The read that completes it. */
  lemma AnswerRead(c: Clients.State, s: Server, data: seq<byte>, n: nat, writeOk: bool)
    requires c.open && !c.connected && c.hs.phase == C0C1Sent && data != [] && |c.hs.c1| == BLOCK
    requires Answered(s, c.hs.c1) && IsSlice(c.buffer + data, s.wrote, 0, n) && 1 + 2 * BLOCK <= n
    ensures |c.buffer + data| >= 1 + 2 * BLOCK
    ensures Clients.React(c, Clients.Readable(data, writeOk))
         == WithAnswer(c, s.hs.s1, (c.buffer + data)[1 + 2 * BLOCK..], writeOk)
  {
    AnswerParts(c.buffer + data, s.wrote, s.hs.s1, c.hs.c1, n);
    hide IsSlice;
  }

  /** A read of a client that is closed, or connected already. */
  lemma AnswerBehind(c: Clients.State, data: seq<byte>, writeOk: bool)
    requires (!c.open || c.connected) && data != []
    ensures Clients.React(c, Clients.Readable(data, writeOk)) == if c.open then c.(buffer := c.buffer + data) else c
  {
  }

  lemma C2Written(c: Clients.State, c': Clients.State, c2: seq<byte>)
    requires c.wire == c.hello == c'.hello && c'.written == []
    ensures c'.wire == c.wire + c2 ==> WireHolds(c', c2)
  {
  }

  lemma WithAnswerSide(c: Clients.State, s: Server, got: nat, got': nat, rest: seq<byte>, writeOk: bool)
    requires ClientSide(c, s, got) && c.open && !c.connected && c.wire != [] && Answered(s, c.hs.c1)
    requires got' <= |s.wrote| && IsSlice(rest, s.wrote, 1 + 2 * BLOCK, got')
    ensures ClientSide(WithAnswer(c, s.hs.s1, rest, writeOk), s, got')
  {
    hide IsSlice, Answered, WireHolds;
    C2Written(c, WithAnswer(c, s.hs.s1, rest, writeOk), s.hs.s1);
  }

  lemma AnswerAligned(w: World, n: nat, writeOk: bool)
    requires Aligned(w) && Enabled(w, ClientRead(n, writeOk))
    requires w.client.open && !w.client.connected && w.got + n >= 1 + 2 * BLOCK
    ensures Aligned(Happen(w, ClientRead(n, writeOk)))
  {
    var c, s := w.client, w.server;
    var data := s.wrote[w.got..w.got + n];
    hide IsSlice, ServerSide, Answered, WireHolds, Clients.React;
    WireBegun(w);
    SliceGrows(c.buffer, s.wrote, 0, w.got, w.got + n);
    AnswerRead(c, s, data, w.got + n, writeOk);
    var rest := (c.buffer + data)[1 + 2 * BLOCK..];
    SliceTail(c.buffer + data, s.wrote, 1 + 2 * BLOCK, w.got + n);
    WithAnswerSide(c, s, w.got, w.got + n, rest, writeOk);
    hide ClientSide;
    ServerSideKept(c.wire, c.hs.c1, s, w.taken, s.hs.s1);
  }

  lemma ClientReadAligned(w: World, n: nat, writeOk: bool)
    requires Aligned(w) && Enabled(w, ClientRead(n, writeOk))
    ensures Aligned(Happen(w, ClientRead(n, writeOk)))
  {
    var c, s := w.client, w.server;
    var data := s.wrote[w.got..w.got + n];
    hide IsSlice, ServerSide, Answered, WireHolds, Clients.React;
    if !c.open || c.connected {
      AnswerBehind(c, data, writeOk);
      if c.open {
        SliceGrows(c.buffer, s.wrote, 1 + 2 * BLOCK, w.got, w.got + n);
      }
      SameWire(c, Happen(w, ClientRead(n, writeOk)).client, s.hs.s1);
    } else if w.got + n < 1 + 2 * BLOCK {
      SliceGrows(c.buffer, s.wrote, 0, w.got, w.got + n);
      SliceLength(c.buffer + data, s.wrote, 0, w.got + n);
      AnswerAwaited(c, data, writeOk);
    } else {
      AnswerAligned(w, n, writeOk);
    }
  }

  /** A server that has written anything has been written to, and has answered. */
  lemma WireBegun(w: World)
    requires Aligned(w) && w.server.wrote != []
    ensures w.client.wire != [] && Answered(w.server, w.client.hs.c1)
  {
  }

  lemma ClientActsAligned(w: World, act: Clients.Event)
    requires Aligned(w) && Enabled(w, ClientActs(act))
    ensures Aligned(Happen(w, ClientActs(act)))
  {
    var c, s := w.client, w.server;
    var c' := Clients.React(c, act);
    ActWrites(c, s, w.got, act);
    hide Clients.React, ClientSide, ServerSide;
    ServerSideKept(c.wire, c.hs.c1, s, w.taken, c'.wire[|c.wire|..]);
    assert c.wire + c'.wire[|c.wire|..] == c'.wire;
  }

  lemma ActWrites(c: Clients.State, s: Server, got: nat, act: Clients.Event)
    requires ClientSide(c, s, got) && Orderly(c, act)
    ensures var c' := Clients.React(c, act);
            ClientSide(c', s, got) && c.wire <= c'.wire && c'.hs == c.hs
  {
    hide IsSlice, Answered, EncodedSend, WireHolds, Clients.Push;
    match act
    case MessageSent(m) =>
      SameWire(c, Clients.React(c, act), s.hs.s1);
    case CommandSent(cmd, csid) =>
      SameWire(c, Clients.React(c, act), s.hs.s1);
    case Flushed(outcome) =>
      if c.open && outcome.Accepted? {
        PushWrites(c, s.hs.s1, outcome.n);
        SameWire(Clients.Push(c, outcome.n), Clients.React(c, act), s.hs.s1);
      }
    case Writable(outcome) =>
      if c.open && c.watching {
        if c.connecting {
          assert [] + c.hello == c.hello && [] + c.hello[..0] == [];
        } else if outcome.Failed? {
          SameWire(c, Clients.React(c, act), s.hs.s1);
        } else {
          PushWrites(c, s.hs.s1, outcome.n);
          SameWire(c, c.(watching := false), s.hs.s1);
          SameWire(Clients.Push(c, outcome.n), Clients.React(c, act), s.hs.s1);
        }
      }
    case _ =>
      SameWire(c, Clients.Closed(c), s.hs.s1);
  }

  lemma SameWire(c: Clients.State, c': Clients.State, c2: seq<byte>)
    ensures c'.wire == c.wire && c'.hello == c.hello && c'.written == c.written ==>
              (WireHolds(c, c2) <==> WireHolds(c', c2))
  {
  }

  /** Pending bytes go behind those the socket has taken before. */
  lemma PushWrites(c: Clients.State, c2: seq<byte>, n: nat)
    ensures var c' := Clients.Push(c, n);
            && c.wire <= c'.wire
            && c' == c.(wire := c'.wire, written := c'.written, pending := c'.pending)
            && (c.pending == [] ==> c'.wire == c.wire && c'.written == c.written && c'.pending == [])
            && (WireHolds(c, c2) ==> WireHolds(c', c2))
  {
  }

  /**
    * In every run, however reads are cut: once the server's handshake is done and it has not dropped the
    * connection, it has passed on exactly the client's bytes behind the first 3073, S2 was C1, and C2 was S1. A
    * connected client holds exactly the server's bytes behind the first 3073.
    */
  lemma {:induction false} RunAligned(w: World, events: seq<Event>)
    requires Aligned(w) && ValidRun(w, events)
    ensures Aligned(Final(w, events))
    decreases |events|
  {
    hide Aligned, Happen, Enabled;
    if events != [] {
      match events[0] {
        case ServerRead(n, block, writeOk) => ServerReadAligned(w, n, block, writeOk);
        case ClientRead(n, writeOk) => ClientReadAligned(w, n, writeOk);
        case ClientActs(act) => ClientActsAligned(w, act);
        case ServerWrite(bytes) => ServerWriteAligned(w, bytes);
      }
      RunAligned(Happen(w, events[0]), events[1..]);
    }
  }

  lemma HappenConserved(w: World, e: Event)
    requires Clients.Conserved(w.client) && Clients.ByClient(w.client.sends) && Enabled(w, e)
    ensures var c := Happen(w, e).client; Clients.Conserved(c) && Clients.ByClient(c.sends)
  {
    hide Clients.Conserved, Clients.React, Clients.ByClient, OnRead;
    if e.ClientRead? || e.ClientActs? {
      var act := if e.ClientActs? then e.act
                 else Clients.Readable(w.server.wrote[w.got..w.got + e.n], e.writeOk);
      Clients.ReactConserved(w.client, act);
      Clients.ReactByClient(w.client, act);
    }
  }

  lemma {:induction false} RunConserved(w: World, events: seq<Event>)
    requires Clients.Conserved(w.client) && Clients.ByClient(w.client.sends) && ValidRun(w, events)
    ensures var c := Final(w, events).client; Clients.Conserved(c) && Clients.ByClient(c.sends)
    decreases |events|
  {
    hide Clients.Conserved, Clients.ByClient, Happen, Enabled;
    if events != [] {
      HappenConserved(w, events[0]);
      RunConserved(Happen(w, events[0]), events[1..]);
    }
  }

  /**
    * So a server that got through has passed on a beginning of what the client's socket took of its messages, and
    * all of that once it has read everything.
    */
  lemma MessagesPassedOn(c1: seq<byte>, events: seq<Event>)
    requires |c1| == BLOCK && ValidRun(Start(c1), events) && Through(Final(Start(c1), events).server)
    ensures var w := Final(Start(c1), events);
            && w.server.fed <= w.client.written
            && (w.taken == |w.client.wire| ==> w.server.fed == w.client.written)
            && Clients.Conserved(w.client) && Clients.ByClient(w.client.sends)
  {
    var w := Final(Start(c1), events);
    StartAligned(c1);
    RunAligned(Start(c1), events);
    RunConserved(Start(c1), events);
    hide ValidRun, Final, Clients.Conserved;
    var c, s := w.client, w.server;
    assert |s.hs.s1| == BLOCK && |c.hello| == 1 + BLOCK && WireHolds(c, s.hs.s1);
    FedIsWritten(c.hello + s.hs.s1, c.written, s.fed, w.taken);
  }

  lemma FedIsWritten(head: seq<byte>, written: seq<byte>, fed: seq<byte>, taken: nat)
    requires IsSlice(fed, head + written, |head|, taken)
    ensures fed <= written && (taken == |head + written| ==> fed == written)
  {
    assert fed == written[..taken - |head|];
  }

  /** A message that is sent and flushed before the client is connected gets ahead of C2. */
  lemma EarlySendOvertakesC2(block: seq<byte>, m: Message)
    requires |block| == BLOCK
    ensures var more := EncodedSend(SendMessage(m), INITIAL_CHUNK_SIZE);
            Clients.Run(Clients.Begin(block),
                        [Clients.Writable(Clients.Accepted(1 + BLOCK)), Clients.MessageSent(m),
                         Clients.Flushed(Clients.Accepted(|more|))]).wire
              == [VERSION] + block + more
  {
    hide EncodedSend;
    var more := EncodedSend(SendMessage(m), INITIAL_CHUNK_SIZE);
    var c := Clients.Begin(block);
    var d, e, f :=
      Clients.Writable(Clients.Accepted(1 + BLOCK)), Clients.MessageSent(m), Clients.Flushed(Clients.Accepted(|more|));
    assert [d, e, f][1..] == [e, f] && [e, f][1..] == [f] && [f][1..] == [];
    var greeted := Clients.React(c, d);
    assert greeted.wire == [] + c.hello == c.hello && greeted.pending == [];
    var sent := Clients.React(greeted, e);
    assert sent.pending == [] + more == more && sent.wire == c.hello;
    assert more[..|more|] == more;
    assert Clients.Run(c, [d, e, f]) == Clients.Run(greeted, [e, f]) == Clients.Run(sent, [f])
        == Clients.React(sent, f);
  }

  // ---- Any other client

  /** One read of the server: its bytes, the block for S1, and whether a write succeeds. */
  datatype Arrival = Arrival(data: seq<byte>, block: seq<byte>, writeOk: bool)

  predicate ValidReads(arrivals: seq<Arrival>) {
    forall r :: r in arrivals ==> |r.block| == BLOCK
  }

  function Pieces(arrivals: seq<Arrival>): seq<seq<byte>> {
    if arrivals == [] then [] else [arrivals[0].data] + Pieces(arrivals[1..])
  }

  /** All bytes of the reads. */
  function Joined(arrivals: seq<Arrival>): seq<byte> {
    Concat(Pieces(arrivals))
  }

  predicate NoneEmpty(arrivals: seq<Arrival>) {
    forall r :: r in arrivals ==> r.data != []
  }

  function ServerReads(s: Server, arrivals: seq<Arrival>): Server
    requires ValidReads(arrivals)
    decreases |arrivals|
  {
    if arrivals == [] then s
    else ServerReads(OnRead(s, arrivals[0].data, arrivals[0].block, arrivals[0].writeOk), arrivals[1..])
  }

  /** The handshake is over and the connection is still there. */
  predicate Through(s: Server) {
    !s.dropped && s.hs.phase == Done
  }

  /** The reads of a handshake that succeeds: C0 and C1 at once, and C2 at once or together with them. */
  predicate GetsThrough(arrivals: seq<Arrival>) {
    && NoneEmpty(arrivals) && arrivals != []
    && |arrivals[0].data| >= 1537 && arrivals[0].data[0] == 3 && arrivals[0].writeOk
    && (|arrivals[0].data| >= 3073 || (|arrivals| >= 2 && |arrivals[1].data| >= 1536 && arrivals[1].writeOk))
  }

  lemma JoinedFirst(arrivals: seq<Arrival>)
    requires arrivals != []
    ensures Joined(arrivals) == arrivals[0].data + Joined(arrivals[1..])
    ensures NoneEmpty(arrivals) <==> arrivals[0].data != [] && NoneEmpty(arrivals[1..])
  {
    assert Pieces(arrivals)[1..] == Pieces(arrivals[1..]);
    assert arrivals == [arrivals[0]] + arrivals[1..];
  }

  lemma {:induction false} DroppedStays(s: Server, arrivals: seq<Arrival>)
    requires ValidReads(arrivals) && s.dropped
    ensures ServerReads(s, arrivals) == s
    decreases |arrivals|
  {
    if arrivals != [] {
      DroppedStays(s, arrivals[1..]);
    }
  }

  lemma OneMorePiece(s: Server, r: Arrival)
    requires |r.block| == BLOCK && Through(s)
    ensures OnRead(s, r.data, r.block, r.writeOk)
         == if r.data == [] then s.(dropped := true) else s.(fed := s.fed + r.data)
  {
  }

  lemma {:induction false} ThroughFeedsAll(s: Server, arrivals: seq<Arrival>)
    requires ValidReads(arrivals) && Through(s)
    ensures var t := ServerReads(s, arrivals);
            if NoneEmpty(arrivals) then t == s.(fed := s.fed + Joined(arrivals)) else t.dropped
    decreases |arrivals|
  {
    hide Joined, NoneEmpty, OnRead;
    if arrivals == [] {
      NothingJoined(s.fed);
    } else {
      JoinedFirst(arrivals);
      OneMorePiece(s, arrivals[0]);
      var next := OnRead(s, arrivals[0].data, arrivals[0].block, arrivals[0].writeOk);
      if arrivals[0].data == [] {
        DroppedStays(next, arrivals[1..]);
      } else {
        ThroughFeedsAll(next, arrivals[1..]);
        Regroup(s.fed, arrivals[0].data, Joined(arrivals[1..]));
      }
    }
  }

  lemma NothingJoined(fed: seq<byte>)
    ensures fed + Joined([]) == fed && NoneEmpty([])
  {
  }

  /** What the reads behind the first one do when that one held no more than a part of C2. */
  lemma AwaitingC2(s: Server, arrivals: seq<Arrival>)
    requires ValidReads(arrivals) && !s.dropped && s.hs.phase == S0S1S2Sent && s.fed == []
    ensures var t := ServerReads(s, arrivals);
            && (Through(t) <==>
                  NoneEmpty(arrivals) && arrivals != [] && |arrivals[0].data| >= BLOCK && arrivals[0].writeOk)
            && (Through(t) ==> |Joined(arrivals)| >= BLOCK && t.fed == Joined(arrivals)[BLOCK..])
  {
    hide Joined, NoneEmpty, Greeting;
    if arrivals != [] {
      JoinedFirst(arrivals);
      var first, others := arrivals[0].data, arrivals[1..];
      var next := OnRead(s, first, arrivals[0].block, arrivals[0].writeOk);
      hide OnRead;
      if next.dropped {
        DroppedStays(next, others);
      } else {
        ThroughFeedsAll(next, others);
        assert [] + first[BLOCK..] == first[BLOCK..];
        assert first[BLOCK..] + Joined(others) == (first + Joined(others))[BLOCK..];
      }
    }
  }

  /**
    * Exactly these reads get through the handshake, and then the bytes behind the first 3073 are passed on exactly
    * if the first read ended right behind C1 or no earlier than the end of C2: bytes of C2 that are read together
    * with C1 are thrown away, and bytes of messages are taken for C2 in their place.
    */
  lemma AlignedIff(arrivals: seq<Arrival>)
    requires ValidReads(arrivals)
    ensures var s := ServerReads(FRESH_SERVER, arrivals);
            && (Through(s) <==> GetsThrough(arrivals))
            && (Through(s) ==>
                  && |Joined(arrivals)| >= 3073
                  && (s.fed == Joined(arrivals)[3073..]
                      <==> (|arrivals[0].data| == 1537 || |arrivals[0].data| >= 3073)))
  {
    hide Joined, NoneEmpty, Greeting;
    if arrivals != [] {
      JoinedFirst(arrivals);
      var first, others := arrivals[0].data, arrivals[1..];
      var next := OnRead(FRESH_SERVER, first, arrivals[0].block, arrivals[0].writeOk);
      hide OnRead;
      if next.dropped {
        DroppedStays(next, others);
      } else if Through(next) {
        ThroughFeedsAll(next, others);
        WholeC2(first, Joined(others));
      } else {
        AwaitingC2(next, others);
        if Through(ServerReads(next, others)) {
          PartOfC2(first, Joined(others));
        }
      }
    }
  }

  lemma WholeC2(first: seq<byte>, others: seq<byte>)
    requires |first| >= 1 + 2 * BLOCK
    ensures [] + first[1 + 2 * BLOCK..] + others == (first + others)[1 + 2 * BLOCK..]
  {
  }

  lemma PartOfC2(first: seq<byte>, others: seq<byte>)
    requires 1 + BLOCK <= |first| < 1 + 2 * BLOCK && |others| >= BLOCK
    ensures others[BLOCK..] == (first + others)[1 + 2 * BLOCK..] <==> |first| == 1 + BLOCK
  {
    assert |others[BLOCK..]| == |others| - BLOCK;
    if |first| == 1 + BLOCK {
      assert (first + others)[1 + 2 * BLOCK..] == others[BLOCK..];
    }
  }

  // ---- What the server answers

  /** A server never takes back what it wrote, and a read behind the handshake writes nothing. */
  lemma {:induction false} WroteKept(s: Server, arrivals: seq<Arrival>)
    requires ValidReads(arrivals)
    ensures var t := ServerReads(s, arrivals);
            s.wrote <= t.wrote && (s.dropped || s.hs.phase == Done ==> t.wrote == s.wrote)
    decreases |arrivals|
  {
    hide Greeting;
    if arrivals != [] {
      var r := arrivals[0];
      var next := OnRead(s, r.data, r.block, r.writeOk);
      assert s.wrote <= next.wrote && (s.dropped || s.hs.phase == Done ==> next.wrote == s.wrote);
      hide OnRead;
      WroteKept(next, arrivals[1..]);
    }
  }

  lemma OneChunkLength(s: Send)
    requires 0 < |MessageOf(s).payload| <= INITIAL_CHUNK_SIZE && MessageOf(s).timestamp == 0
    ensures |EncodedSend(s, INITIAL_CHUNK_SIZE)| <= 14 + |MessageOf(s).payload|
  {
    var m := MessageOf(s);
    var h := HeaderFor(m, StreamOf(s));
    assert Chunks.EncodeFrom(h, m.payload, |m.payload|, INITIAL_CHUNK_SIZE) == [];
    assert |Chunks.EncodeHead(h, 0)| <= 14;
  }

  lemma GreetingIsShort()
    ensures |Greeting()| <= 55
  {
    OneChunkLength(GREETINGS[0]);
    OneChunkLength(GREETINGS[1]);
    OneChunkLength(GREETINGS[2]);
    hide EncodedSend;
  }

  /**
    * After a first read that begins with C0 and C1, and is answered if it can be: the server has answered it with
    * S0, S1 and S2 exactly if C2 was not in it. A handshake that comes in one read gets the control messages only.
    */
  lemma AnsweredIff(arrivals: seq<Arrival>)
    requires ValidReads(arrivals) && arrivals != []
    requires |arrivals[0].data| >= 1537 && arrivals[0].data[0] == 3 && arrivals[0].writeOk
    ensures var wrote, d := ServerReads(FRESH_SERVER, arrivals).wrote, arrivals[0].data;
            && ([3] + arrivals[0].block + d[1..1537] <= wrote <==> |d| < 3073)
            && (|d| >= 3073 ==> wrote == Greeting())
  {
    GreetingIsShort();
    hide Greeting;
    var r := arrivals[0];
    var next := OnRead(FRESH_SERVER, r.data, r.block, r.writeOk);
    var answer := [VERSION] + r.block + r.data[1..1 + BLOCK];
    assert [] + answer == answer && [] + Greeting() == Greeting();
    assert next.wrote == if |r.data| < 1 + 2 * BLOCK then answer else Greeting();
    assert |answer| == 1 + 2 * BLOCK;
    hide OnRead;
    WroteKept(next, arrivals[1..]);
  }

  /** C0, C1 and C2 in one read. */
  lemma NoAnswer(zeros: seq<byte>, block: seq<byte>)
    requires |zeros| == BLOCK && |block| == BLOCK
    ensures ServerReads(FRESH_SERVER, [Arrival([VERSION] + zeros + zeros, block, true)]).wrote == Greeting()
  {
    hide Greeting, OnRead;
    AnsweredIff([Arrival([VERSION] + zeros + zeros, block, true)]);
  }

  // ---- One byte too many

  /** A client that sends one byte of C2 together with C1 loses the first byte of its messages. */
  lemma ByteIsLost(zeros: seq<byte>, block: seq<byte>)
    requires |zeros| == BLOCK && |block| == BLOCK
    ensures var first, second := [VERSION] + zeros + [0], zeros[1..] + [9];
            && (first + second)[1 + 2 * BLOCK..] == [9]
            && ServerReads(FRESH_SERVER, [Arrival(first, block, true), Arrival(second, block, true)]).fed == []
  {
    hide Greeting;
    var first, second := [VERSION] + zeros + [0], zeros[1..] + [9];
    var a, b := Arrival(first, block, true), Arrival(second, block, true);
    assert [a, b][1..] == [b] && [b][1..] == [];
    var s := OnRead(FRESH_SERVER, first, block, true);
    assert ServerReads(FRESH_SERVER, [a, b]) == ServerReads(s, [b]) == OnRead(s, second, block, true);
    hide ServerReads;
    assert second[BLOCK..] == [];
  }
}
