/** The RTMP client: its handshake, and bytes on their way from the session to a socket that may take only some. */
module Clients {
  import opened Bytes
  import opened Wrappers
  import opened Messages
  import opened Handshakes
  import opened Sessions
  import Commands

  /** What the socket does with a write: it fails, or takes some bytes (none when it would block). */
  datatype WriteOutcome = Failed | Accepted(n: nat)

  /**
    * A client after its connection attempt has begun. `hello` is C0 and C1, `buffer` what was read and not yet used,
    * `pending` what waits for the socket, `written` what the socket took of that, and `wire` all it took. `watching`
    * means that the event loop reports the socket as soon as it can be written.
    */
  datatype State = State(
    hs: Progress, hello: seq<byte>, open: bool, connecting: bool, connected: bool, watching: bool,
    buffer: seq<byte>, pending: seq<byte>, written: seq<byte>, wire: seq<byte>, sends: seq<Send>)

  function Begin(block: seq<byte>): State {
    State(Progress(C0C1Sent, block, []), [VERSION] + block, true, true, false, true, [], [], [], [], [])
  }

  function Closed(c: State): State {
    c.(open := false, connecting := false, connected := false)
  }

  function Add(c: State, s: Send): State {
    var pending := c.pending + EncodedSend(s, INITIAL_CHUNK_SIZE);
    c.(pending := pending, sends := c.sends + [s], watching := c.watching || (c.open && pending != []))
  }

  /** The socket takes up to n of the pending bytes. */
  function Push(c: State, n: nat): State {
    var k := Min(n, |c.pending|);
    c.(pending := c.pending[k..], written := c.written + c.pending[..k], wire := c.wire + c.pending[..k])
  }

  function Flushing(c: State, outcome: WriteOutcome): State {
    if !c.open || outcome.Failed? then c
    else
      var t := Push(c, outcome.n);
      t.(watching := c.watching || t.pending != [])
  }

  function Writing(c: State, outcome: WriteOutcome): State {
    if c.pending == [] then c.(watching := false)
    else if outcome.Failed? then Closed(c)
    else
      var t := Push(c, outcome.n);
      t.(watching := t.pending != [])
  }

  /** A write event. While connecting it writes C0 and C1, from their first byte each time, until it can write all. */
  function OnWriteEvent(c: State, outcome: WriteOutcome): State {
    if !c.connecting then Writing(c, outcome)
    else if outcome.Failed? then c
    else if outcome.n >= |c.hello| then c.(connecting := false, watching := false, wire := c.wire + c.hello)
    else c.(wire := c.wire + c.hello[..outcome.n])
  }

  /** A read event; no bytes mean that the server has closed the connection. The answer to the handshake is C2. */
  function OnReadEvent(c: State, data: seq<byte>, writeOk: bool): State {
    var all := c.buffer + data;
    if data == [] then Closed(c)
    else if c.connected then c.(buffer := all)
    else
      var r := ProcessServer(c.hs, all);
      if r.result.Err? then c.(hs := r.progress, buffer := all)
      else
        var t := c.(hs := r.progress, buffer := all[r.result.value..], connected := true);
        if writeOk then t.(wire := c.wire + r.progress.s1) else Closed(t)
  }

  // ---- Runs

  /** What happens to a client; `Broken` is a read error, an error or hang-up on the socket, or a disconnect. */
  datatype Event =
    | MessageSent(msg: Message)
    | CommandSent(cmd: Commands.Command, csid: u32)
    | Flushed(outcome: WriteOutcome)
    | Writable(outcome: WriteOutcome)
    | Readable(data: seq<byte>, writeOk: bool)
    | Broken

  /** The event loop reports nothing for a closed socket, and write events only if they were asked for. */
  function React(c: State, e: Event): State {
    match e
    case MessageSent(m) => Add(c, Send.SendMessage(m))
    case CommandSent(cmd, csid) => Add(c, Send.SendCommand(cmd, csid))
    case Flushed(outcome) => Flushing(c, outcome)
    case Writable(outcome) => if c.open && c.watching then OnWriteEvent(c, outcome) else c
    case Readable(data, writeOk) => if c.open then OnReadEvent(c, data, writeOk) else c
    case Broken => Closed(c)
  }

  function Run(c: State, events: seq<Event>): State
    decreases |events|
  {
    if events == [] then c else Run(React(c, events[0]), events[1..])
  }

  function SendsIn(events: seq<Event>): seq<Send> {
    if events == [] then []
    else
      (match events[0]
       case MessageSent(m) => [Send.SendMessage(m)]
       case CommandSent(cmd, csid) => [Send.SendCommand(cmd, csid)]
       case _ => [])
      + SendsIn(events[1..])
  }

  lemma {:induction false} RunSends(c: State, events: seq<Event>)
    ensures Run(c, events).sends == c.sends + SendsIn(events)
    decreases |events|
  {
    if events == [] {
      assert c.sends + [] == c.sends;
    } else {
      ReactSends(c, events[0]);
      FirstSends(events);
      hide React, SendsIn;
      RunSends(React(c, events[0]), events[1..]);
      Regroup(c.sends, SendsIn([events[0]]), SendsIn(events[1..]));
    }
  }

  lemma ReactSends(c: State, e: Event)
    ensures React(c, e).sends == c.sends + SendsIn([e])
  {
    hide EncodedSend, ProcessServer;
    assert [e][1..] == [] && c.sends + [] == c.sends;
  }

  lemma FirstSends(events: seq<Event>)
    requires events != []
    ensures SendsIn(events) == SendsIn([events[0]]) + SendsIn(events[1..])
  {
    assert [events[0]][1..] == [];
  }

  // ---- No byte is lost

  /** The bytes of sends made at the initial chunk size, which a client never changes. */
  function EncodedAll(sends: seq<Send>): seq<byte>
    decreases |sends|
  {
    if sends == [] then []
    else EncodedAll(sends[..|sends| - 1]) + EncodedSend(sends[|sends| - 1], INITIAL_CHUNK_SIZE)
  }

  /** What the socket took and what is pending are the bytes of the sends: none lost, repeated or out of order. */
  predicate Conserved(c: State) {
    c.written + c.pending == EncodedAll(c.sends)
  }

  lemma AddConserved(c: State, s: Send)
    requires Conserved(c)
    ensures Conserved(Add(c, s))
  {
    var more := EncodedSend(s, INITIAL_CHUNK_SIZE);
    assert (c.sends + [s])[..|c.sends|] == c.sends;
    assert EncodedAll(c.sends + [s]) == EncodedAll(c.sends) + more;
    Regroup(c.written, c.pending, more);
  }

  lemma PushConserved(c: State, n: nat)
    ensures Push(c, n).written + Push(c, n).pending == c.written + c.pending
  {
    var k := Min(n, |c.pending|);
    Regroup(c.written, c.pending[..k], c.pending[k..]);
    assert c.pending[..k] + c.pending[k..] == c.pending;
  }

  lemma ReactConserved(c: State, e: Event)
    requires Conserved(c)
    ensures Conserved(React(c, e))
  {
    match e
    case MessageSent(m) => AddConserved(c, Send.SendMessage(m));
    case CommandSent(cmd, csid) => AddConserved(c, Send.SendCommand(cmd, csid));
    case _ => SocketConserved(c, e);
  }

  lemma SocketConserved(c: State, e: Event)
    requires Conserved(c) && !e.MessageSent? && !e.CommandSent?
    ensures Conserved(React(c, e))
  {
    hide EncodedAll, ProcessServer;
    match e
    case Flushed(outcome) =>
      if outcome.Accepted? { PushConserved(c, outcome.n); }
    case Writable(outcome) =>
      if outcome.Accepted? { PushConserved(c, outcome.n); }
    case _ =>
  }

  lemma {:induction false} RunConserved(c: State, events: seq<Event>)
    requires Conserved(c)
    ensures Conserved(Run(c, events))
    decreases |events|
  {
    hide Conserved, React;
    if events != [] {
      ReactConserved(c, events[0]);
      RunConserved(React(c, events[0]), events[1..]);
    }
  }

  /** A client never changes its chunk size, nor sends other control messages. */
  predicate ByClient(sends: seq<Send>) {
    forall s :: s in sends ==> s.SendMessage? || s.SendCommand?
  }

  lemma ReactByClient(c: State, e: Event)
    requires ByClient(c.sends)
    ensures ByClient(React(c, e).sends)
  {
    hide EncodedSend, ProcessServer;
  }

  lemma {:induction false} RunByClient(c: State, events: seq<Event>)
    requires ByClient(c.sends)
    ensures ByClient(Run(c, events).sends)
    decreases |events|
  {
    hide React, ByClient;
    if events != [] {
      ReactByClient(c, events[0]);
      RunByClient(React(c, events[0]), events[1..]);
    }
  }

  // ---- No wake-up is lost

  /** Once C0 and C1 are written, pending bytes mean that the event loop will ask for them. */
  predicate NoLostWakeup(c: State) {
    c.open && !c.connecting && c.pending != [] ==> c.watching
  }

  /** Besides, while connecting nothing is pending, and write events are asked for. */
  predicate Watched(c: State) {
    NoLostWakeup(c) && (c.connecting ==> c.open && c.watching && c.pending == [])
  }

  predicate IsSend(e: Event) {
    e.MessageSent? || e.CommandSent?
  }

  /** Nothing is sent while the client is connecting. */
  predicate Patient(c: State, events: seq<Event>)
    decreases |events|
  {
    events != [] ==> !(c.connecting && IsSend(events[0])) && Patient(React(c, events[0]), events[1..])
  }

  lemma ReactWatched(c: State, e: Event)
    requires Watched(c) && !(c.connecting && IsSend(e))
    ensures Watched(React(c, e))
  {
    hide EncodedSend, ProcessServer;
  }

  lemma {:induction false} RunWatched(c: State, events: seq<Event>)
    requires Watched(c) && Patient(c, events)
    ensures Watched(Run(c, events))
    decreases |events|
  {
    hide Watched, React;
    if events != [] {
      ReactWatched(c, events[0]);
      RunWatched(React(c, events[0]), events[1..]);
    }
  }

  /**
    * The write that takes all of C0 and C1 switches write events off: a wake-up is lost exactly if something was
    * pending by then.
    */
  lemma WakeUpLostIff(c: State, outcome: WriteOutcome)
    requires c.open && c.connecting && outcome.Accepted? && outcome.n >= |c.hello|
    ensures NoLostWakeup(OnWriteEvent(c, outcome)) <==> c.pending == []
  {
  }

  /** A message sent while connecting is pending, and nobody asks for it, once C0 and C1 are written. */
  lemma WakeUpIsLost(block: seq<byte>, m: Message)
    requires m.payload != []
    ensures var c := Run(Begin(block), [MessageSent(m), Writable(Accepted(1 + |block|))]);
            c.open && !c.connecting && c.pending != [] && !c.watching
  {
    var e, f := MessageSent(m), Writable(Accepted(1 + |block|));
    assert [e, f][1..] == [f] && [f][1..] == [];
    var c := Add(Begin(block), Send.SendMessage(m));
    assert Run(Begin(block), [e, f]) == Run(c, [f]) == OnWriteEvent(c, Accepted(1 + |block|));
  }

  /** What writes that do not take all of C0 and C1 put on the wire: their first bytes, each time. */
  function Torn(hello: seq<byte>, outcomes: seq<WriteOutcome>): seq<byte>
    decreases |outcomes|
  {
    if outcomes == [] then []
    else
      var o := outcomes[0];
      (if o.Accepted? then hello[..Min(o.n, |hello|)] else []) + Torn(hello, outcomes[1..])
  }

  predicate Incomplete(hello: seq<byte>, outcomes: seq<WriteOutcome>) {
    forall o :: o in outcomes && o.Accepted? ==> o.n < |hello|
  }

  function Writes(outcomes: seq<WriteOutcome>): seq<Event>
    decreases |outcomes|
  {
    if outcomes == [] then [] else [Writable(outcomes[0])] + Writes(outcomes[1..])
  }

  lemma {:induction false} TornWrites(c: State, outcomes: seq<WriteOutcome>, last: WriteOutcome)
    requires c.open && c.connecting && c.watching && Incomplete(c.hello, outcomes)
    requires last.Accepted? && last.n >= |c.hello|
    ensures Run(c, Writes(outcomes + [last])).wire == c.wire + Torn(c.hello, outcomes) + c.hello
    decreases |outcomes|
  {
    if outcomes == [] {
      assert [] + [last] == [last] && [last][1..] == [] && [Writable(last)][1..] == [];
      assert Writes([last]) == [Writable(last)] + [];
      assert Run(c, [Writable(last)]) == React(c, Writable(last));
      assert c.wire + [] == c.wire;
    } else {
      var o, all := outcomes[0], outcomes + [last];
      var next := React(c, Writable(o));
      assert all[0] == o && all[1..] == outcomes[1..] + [last];
      var first := if o.Accepted? then c.hello[..Min(o.n, |c.hello|)] else [];
      assert o in outcomes && next.wire == c.wire + first;
      assert forall x :: x in outcomes[1..] ==> x in outcomes;
      RunFirst(c, Writable(o), Writes(outcomes[1..] + [last]));
      hide React, Run;
      TornWrites(next, outcomes[1..], last);
      Regroup(c.wire, first, Torn(c.hello, outcomes[1..]));
    }
  }

  lemma RunFirst(c: State, e: Event, events: seq<Event>)
    ensures Run(c, [e] + events) == Run(React(c, e), events)
  {
    assert ([e] + events)[1..] == events;
  }

  lemma {:induction false} NothingTornIff(hello: seq<byte>, outcomes: seq<WriteOutcome>)
    requires hello != []
    ensures Torn(hello, outcomes) == [] <==> forall o :: o in outcomes && o.Accepted? ==> o.n == 0
    decreases |outcomes|
  {
    if outcomes != [] {
      NothingTornIff(hello, outcomes[1..]);
      assert outcomes == [outcomes[0]] + outcomes[1..];
    }
  }

  /** C0 and C1 are on the wire once exactly if no write before the complete one took a part of them. */
  lemma HelloOnceIff(block: seq<byte>, outcomes: seq<WriteOutcome>, last: WriteOutcome)
    requires Incomplete([VERSION] + block, outcomes) && last.Accepted? && last.n >= 1 + |block|
    ensures Run(Begin(block), Writes(outcomes + [last])).wire == [VERSION] + block
            <==> forall o :: o in outcomes && o.Accepted? ==> o.n == 0
  {
    var hello := [VERSION] + block;
    TornWrites(Begin(block), outcomes, last);
    NothingTornIff(hello, outcomes);
    hide Run;
    var torn := Torn(hello, outcomes);
    assert |[] + torn + hello| == |torn| + |hello|;
    if torn == [] {
      assert [] + torn + hello == hello;
    }
  }

  /** C2 comes right behind C0 and C1 exactly if no message byte was written before. */
  lemma C2FollowsIff(c: State, data: seq<byte>)
    requires c.open && !c.connected && data != [] && c.wire == c.hello + c.written
    requires ProcessServer(c.hs, c.buffer + data).result.Ok?
    ensures var t := OnReadEvent(c, data, true);
            t.connected && (t.wire == c.hello + t.hs.s1 <==> c.written == [])
  {
    var t := OnReadEvent(c, data, true);
    assert t.wire == c.hello + c.written + t.hs.s1;
    assert |t.wire| == |c.hello| + |c.written| + |t.hs.s1|;
    if c.written == [] {
      assert c.hello + [] == c.hello;
    }
  }

  /** When the socket takes only the first byte of C0 and C1, the server gets that byte twice. */
  lemma HelloIsRepeated(block: seq<byte>)
    ensures var c := Run(Begin(block), [Writable(Accepted(1)), Writable(Accepted(1 + |block|))]);
            block != [] ==> !c.connecting && c.wire == [VERSION, VERSION] + block
  {
    var e, f := Writable(Accepted(1)), Writable(Accepted(1 + |block|));
    assert [e, f][1..] == [f] && [f][1..] == [];
    if block != [] {
      var c := OnWriteEvent(Begin(block), Accepted(1));
      assert c.wire == [] + ([VERSION] + block)[..1] == [VERSION];
      assert Run(Begin(block), [e, f]) == Run(c, [f]) == OnWriteEvent(c, Accepted(1 + |block|));
      assert [VERSION] + ([VERSION] + block) == [VERSION, VERSION] + block;
    }
  }

  // ---- Errors, and what is left after a write

  /** A closed client stays closed and puts nothing on the wire. */
  lemma {:induction false} ClosedStays(c: State, events: seq<Event>)
    requires !c.open
    ensures var t := Run(c, events); !t.open && t.wire == c.wire && t.written == c.written
    decreases |events|
  {
    hide EncodedSend, OnWriteEvent, OnReadEvent;
    if events != [] {
      ClosedStays(React(c, events[0]), events[1..]);
    }
  }

  /** A failed write from the event loop closes the client, a failed flush does not; no byte is lost by either. */
  lemma FailedWrites(c: State)
    requires c.open && !c.connecting && c.watching && c.pending != []
    ensures var t := React(c, Writable(Failed));
            !t.open && !t.connected && t.pending == c.pending && t.wire == c.wire && t.written == c.written
    ensures React(c, Flushed(Failed)) == c
  {
  }

  /** The client is closed by a break, the end of the stream, a failed write of messages, or a failed C2. */
  lemma OpenIff(c: State, e: Event)
    requires c.open
    ensures !React(c, e).open <==>
              match e
              case Broken => true
              case Writable(o) => c.watching && !c.connecting && c.pending != [] && o.Failed?
              case Readable(d, writeOk) =>
                d == [] || (!c.connected && !writeOk && ProcessServer(c.hs, c.buffer + d).result.Ok?)
              case _ => false
  {
    hide EncodedSend, ProcessServer;
  }

  /** Behind a write event, write events stay on exactly while something is pending. */
  lemma WriteSettles(c: State, outcome: WriteOutcome)
    requires c.open && !c.connecting && c.watching
    ensures var t := React(c, Writable(outcome)); t.open ==> (t.watching <==> t.pending != [])
    ensures var t := React(c, Writable(outcome));
            outcome.Accepted? ==> t.wire == c.wire + c.pending[..Min(outcome.n, |c.pending|)]
  {
    assert c.wire + [] == c.wire;
  }

  // ---- The client object

  class Client {
    const session: Session
    const hello: seq<byte>
    var socketOpen: bool
    var connecting: bool
    var connected: bool
    var writeInterest: bool
    var readBuffer: seq<byte>
    var writeBuffer: seq<byte>
    var written: seq<byte>
    var wire: seq<byte>
    /** The sends made so far. */
    ghost var sends: seq<Send>

    ghost predicate Valid()
      reads this, session, session.writeBuffer
    {
      session.Valid() && session.outChunkSize == INITIAL_CHUNK_SIZE
    }

    ghost function Now(): State
      requires Valid()
      reads this, session, session.handshake, session.writeBuffer, session.writeBuffer.mem
    {
      State(session.handshake.Now(), hello, socketOpen, connecting, connected, writeInterest,
            readBuffer, writeBuffer + session.Outgoing(), written, wire, sends)
    }

    /** The client of a connection attempt that has just begun; the block is its choice for C1. */
    constructor (block: seq<byte>)
      requires |block| == BLOCK
      ensures Valid() && Now() == Begin(block)
      ensures fresh(session) && fresh(session.handshake) && fresh(session.parser)
      ensures fresh(session.writeBuffer) && fresh(session.writeBuffer.mem)
    {
      var s := new Session();
      var data := s.handshake.GenerateC0C1(block);
      session := s;
      hello := data;
      socketOpen, connecting, connected, writeInterest := true, true, false, true;
      readBuffer, writeBuffer, written, wire, sends := [], [], [], [], [];
    }

    /** Asks for write events if anything is waiting. */
    method Arm()
      requires Valid()
      modifies this`writeInterest
      ensures writeInterest == (old(writeInterest) || (socketOpen && writeBuffer + session.Outgoing() != []))
    {
      var outgoing := !session.writeBuffer.Empty();
      if socketOpen && (outgoing || writeBuffer != []) {
        writeInterest := true;
      }
    }

    method SendMessage(m: Message)
      requires Valid()
      modifies this`writeInterest, this`sends, session.writeBuffer, session.writeBuffer.mem
      ensures Valid() && Now() == Add(old(Now()), Send.SendMessage(m)) && sends == old(sends) + [Send.SendMessage(m)]
      ensures session.writeBuffer.mem == old(session.writeBuffer.mem) || fresh(session.writeBuffer.mem)
    {
      hide EncodedSend;
      Regroup(writeBuffer, session.Outgoing(), EncodedSend(Send.SendMessage(m), INITIAL_CHUNK_SIZE));
      session.SendMessage(m);
      sends := sends + [Send.SendMessage(m)];
      Arm();
    }

    method SendCommand(cmd: Commands.Command, csid: u32)
      requires Valid()
      modifies this`writeInterest, this`sends, session.writeBuffer, session.writeBuffer.mem
      ensures Valid() && Now() == Add(old(Now()), Send.SendCommand(cmd, csid))
      ensures sends == old(sends) + [Send.SendCommand(cmd, csid)]
      ensures session.writeBuffer.mem == old(session.writeBuffer.mem) || fresh(session.writeBuffer.mem)
    {
      hide EncodedSend;
      Regroup(writeBuffer, session.Outgoing(), EncodedSend(Send.SendCommand(cmd, csid), INITIAL_CHUNK_SIZE));
      session.SendCommand(cmd, csid);
      sends := sends + [Send.SendCommand(cmd, csid)];
      Arm();
    }

    /** Moves the session's outgoing bytes behind those already waiting for the socket. */
    method Collect()
      requires Valid()
      modifies this`writeBuffer, session.writeBuffer
      ensures Valid() && session.writeBuffer.mem == old(session.writeBuffer.mem) && session.Outgoing() == []
      ensures Now() == old(Now()) && writeBuffer == Now().pending
    {
      var outgoing := !session.writeBuffer.Empty();
      if outgoing {
        var data := session.GetOutgoingData();
        writeBuffer := writeBuffer + data;
      }
      assert writeBuffer + [] == writeBuffer;
    }

    /** The socket has taken the first n bytes of the write buffer. */
    method Taken(n: nat)
      requires Valid() && session.Outgoing() == [] && n <= |writeBuffer|
      modifies this`writeBuffer, this`written, this`wire
      ensures Now() == Push(old(Now()), n) && writeBuffer == Now().pending
    {
      assert writeBuffer + [] == writeBuffer && writeBuffer[n..] + [] == writeBuffer[n..];
      written := written + writeBuffer[..n];
      wire := wire + writeBuffer[..n];
      if n < |writeBuffer| {
        writeBuffer := writeBuffer[n..];
      } else {
        writeBuffer := [];
      }
    }

    method Flush(outcome: WriteOutcome)
      requires Valid()
      modifies this`writeBuffer, this`written, this`wire, this`writeInterest, session.writeBuffer
      ensures Valid() && session.writeBuffer.mem == old(session.writeBuffer.mem)
      ensures Now() == Flushing(old(Now()), outcome)
    {
      if !socketOpen {
        return;
      }
      Collect();
      if writeBuffer == [] {
        NothingToPush(Now(), outcome);
        return;
      }
      if outcome.Failed? {
        return;
      }
      PushClamped(Now(), outcome.n);
      var n := Min(outcome.n, |writeBuffer|);
      var partial := n < |writeBuffer|;
      Taken(n);
      if partial {
        writeInterest := true;
      }
    }

    /** The socket can be written: the rest of the waiting bytes goes out, or a part of it. */
    method HandleWritable(outcome: WriteOutcome)
      requires Valid() && writeInterest
      modifies this, session.writeBuffer
      ensures Valid() && session.writeBuffer.mem == old(session.writeBuffer.mem)
      ensures Now() == Writing(old(Now()), outcome)
    {
      Collect();
      if writeBuffer == [] {
        writeInterest := false;
        return;
      }
      if outcome.Failed? {
        Cleanup();
        return;
      }
      PushClamped(Now(), outcome.n);
      var n := Min(outcome.n, |writeBuffer|);
      var partial := n < |writeBuffer|;
      Taken(n);
      if !partial {
        writeInterest := false;
      }
    }

    method Cleanup()
      requires Valid()
      modifies this`socketOpen, this`connecting, this`connected
      ensures Valid() && Now() == Closed(old(Now()))
    {
      socketOpen, connected, connecting := false, false, false;
    }

    method HandleWriteEvent(outcome: WriteOutcome)
      requires Valid() && writeInterest
      modifies this, session.writeBuffer
      ensures Valid() && session.writeBuffer.mem == old(session.writeBuffer.mem)
      ensures Now() == OnWriteEvent(old(Now()), outcome)
    {
      if connecting {
        if outcome.Accepted? {
          wire := wire + hello[..Min(outcome.n, |hello|)];
          if outcome.n >= |hello| {
            assert hello[..|hello|] == hello;
            connecting := false;
            writeInterest := false;
          }
        }
      } else {
        HandleWritable(outcome);
      }
    }

    /** A read event; the messages behind the handshake stay in the buffer here. */
    method HandleReadable(data: seq<byte>, writeOk: bool)
      requires Valid()
      modifies this, session.handshake
      ensures Valid() && Now() == OnReadEvent(old(Now()), data, writeOk)
    {
      hide ProcessServer;
      if data == [] {
        Cleanup();
        return;
      }
      readBuffer := readBuffer + data;
      if !connected {
        var result := session.handshake.ProcessServerHandshake(readBuffer);
        if result.Ok? {
          readBuffer := readBuffer[result.value..];
          connected := true;
          C2IsS1(old(session.handshake.Now()), old(readBuffer) + data);
          var c2 := session.handshake.GenerateC2(session.handshake.s1);
          if !writeOk {
            Cleanup();
            return;
          }
          wire := wire + c2;
        }
      }
    }

    method Handle(e: Event)
      requires Valid()
      modifies this, session.handshake, session.writeBuffer, session.writeBuffer.mem
      ensures Valid() && Now() == React(old(Now()), e)
      ensures session.writeBuffer.mem == old(session.writeBuffer.mem) || fresh(session.writeBuffer.mem)
    {
      hide Add, Flushing, OnWriteEvent, OnReadEvent, Closed, Valid;
      match e
      case MessageSent(m) => SendMessage(m);
      case CommandSent(cmd, csid) => SendCommand(cmd, csid);
      case Flushed(outcome) => Flush(outcome);
      case Writable(outcome) =>
        if socketOpen && writeInterest {
          HandleWriteEvent(outcome);
        }
      case Readable(data, writeOk) =>
        if socketOpen {
          HandleReadable(data, writeOk);
        }
      case Broken => Cleanup();
    }

    /**
      * Any life of a client: no byte is lost, repeated or reordered, and if nothing is sent while it is connecting,
      * no wake-up is lost either.
      */
    method HandleAll(events: seq<Event>)
      requires Valid()
      modifies this, session.handshake, session.writeBuffer, session.writeBuffer.mem
      ensures Valid() && Now() == Run(old(Now()), events)
      ensures session.writeBuffer.mem == old(session.writeBuffer.mem) || fresh(session.writeBuffer.mem)
      ensures sends == old(sends) + SendsIn(events) && (Conserved(old(Now())) ==> Conserved(Now()))
      ensures Watched(old(Now())) && Patient(old(Now()), events) ==> Watched(Now())
    {
      hide React, Valid, Conserved, Watched, Patient;
      ghost var begin := Now();
      assert events[0..] == events;
      for i := 0 to |events|
        invariant Valid() && Run(Now(), events[i..]) == Run(begin, events)
        invariant session.writeBuffer.mem == old(session.writeBuffer.mem) || fresh(session.writeBuffer.mem)
      {
        assert events[i..][0] == events[i] && events[i..][1..] == events[i + 1..];
        Handle(events[i]);
      }
      assert events[|events|..] == [];
      RunSends(begin, events);
      if Conserved(begin) {
        RunConserved(begin, events);
      }
      if Watched(begin) && Patient(begin, events) {
        RunWatched(begin, events);
      }
    }
  }

  lemma NothingToPush(c: State, outcome: WriteOutcome)
    requires c.pending == []
    ensures Flushing(c, outcome) == c
  {
    assert c.written + [] == c.written && c.wire + [] == c.wire;
  }

  lemma PushClamped(c: State, n: nat)
    ensures Push(c, Min(n, |c.pending|)) == Push(c, n)
  {
  }

  lemma C2IsS1(p: Progress, all: seq<byte>)
    ensures var r := ProcessServer(p, all);
            r.result.Ok? ==> |r.progress.s1| == BLOCK && r.progress.s1[..BLOCK] == r.progress.s1
                             && r.progress.(phase := Done) == r.progress
  {
  }
}
