/** From a client's sends, through a socket that takes what it likes, to the messages a server session reports. */
module EndToEnd {
  import opened Bytes
  import opened Wrappers
  import opened Messages
  import opened Chunks
  import opened Sessions
  import opened Delivery
  import Clients
  import Commands
  import Connections
  import Dialogues
  import Handshakes
  import Amf0
  import PushUrls
  import Relays

  /** One more send, at the chunk size the sends before it have left. */
  lemma {:induction false} WireSnoc(sends: seq<Send>, s: Send, size: u32)
    requires DeliverableRun(sends + [s], size)
    ensures DeliverableRun(sends, size) && FinalSize(sends, size) > 0 && Deliverable(s, FinalSize(sends, size))
    ensures Wire(sends + [s], size) == Wire(sends, size) + EncodedSend(s, FinalSize(sends, size))
    ensures FinalSize(sends + [s], size) == SizeAfterSend(s, FinalSize(sends, size))
    decreases |sends|
  {
    if sends == [] {
      OneSend(s, size);
    } else {
      var next := SizeAfterSend(sends[0], size);
      FirstSend(sends + [s], size);
      FirstOfSnoc(sends, s);
      hide DeliverableRun, Wire, FinalSize, Deliverable, EncodedSend, SizeAfterSend;
      WireSnoc(sends[1..], s, next);
      FirstSend(sends, size);
      Regroup(EncodedSend(sends[0], size), Wire(sends[1..], next), EncodedSend(s, FinalSize(sends, size)));
    }
  }

  lemma FirstOfSnoc(sends: seq<Send>, s: Send)
    requires sends != []
    ensures (sends + [s])[0] == sends[0] && (sends + [s])[1..] == sends[1..] + [s]
  {
  }

  lemma OneSend(s: Send, size: u32)
    requires DeliverableRun([] + [s], size)
    ensures DeliverableRun([], size) && Deliverable(s, size) && FinalSize([], size) == size > 0
    ensures Wire([] + [s], size) == Wire([], size) + EncodedSend(s, size)
    ensures FinalSize([] + [s], size) == SizeAfterSend(s, size)
  {
    assert [] + [s] == [s] && [s][1..] == [];
    hide Deliverable, EncodedSend, SizeAfterSend;
  }

  /** What a client puts on the wire is the wire of its sends. */
  lemma {:induction false} ClientWire(sends: seq<Send>)
    requires Clients.ByClient(sends) && DeliverableRun(sends, INITIAL_CHUNK_SIZE)
    ensures Clients.EncodedAll(sends) == Wire(sends, INITIAL_CHUNK_SIZE)
    ensures FinalSize(sends, INITIAL_CHUNK_SIZE) == INITIAL_CHUNK_SIZE
    decreases |sends|
  {
    hide Deliverable, EncodedSend;
    if sends != [] {
      var n := |sends| - 1;
      assert sends == sends[..n] + [sends[n]];
      assert sends[n] in sends;
      WireSnoc(sends[..n], sends[n], INITIAL_CHUNK_SIZE);
      ClientWire(sends[..n]);
    }
  }

  /**
    * Take any moment in a client's life: the bytes its socket has taken and those still pending make up its sends.
    * However the taken bytes travel and are cut into reads, the server session has reported a beginning of the
    * messages sent, and all of them once nothing is pending or on its way.
    */
  lemma ClientToServer(sends: seq<Send>, written: seq<byte>, pending: seq<byte>, cuts: seq<seq<byte>>)
    requires Clients.ByClient(sends) && DeliverableRun(sends, INITIAL_CHUNK_SIZE)
    requires written + pending == Clients.EncodedAll(sends) && Concat(cuts) <= written
    ensures var r := ReceiveAll(Parser(INITIAL_CHUNK_SIZE, map[], []), cuts);
            && r.messages <= MessagesOf(sends)
            && (pending == [] && Concat(cuts) == written ==> r.messages == MessagesOf(sends))
  {
    hide DeliverableRun, ReceiveAll;
    var p := Parser(INITIAL_CHUNK_SIZE, map[], []);
    ClientWire(sends);
    assert written <= written + pending;
    PrefixDelivered(p, sends, cuts);
    if pending == [] && Concat(cuts) == written {
      assert written + [] == written;
      AllDelivered(p, sends, cuts);
    }
  }

  /**
    * The same on a whole connection: whatever its two ends did from the first byte of the handshake on, a server
    * session that got through reports a beginning of the client's messages, and all of them once nothing is pending
    * and everything has been read.
    */
  lemma BehindTheHandshake(c1: seq<byte>, events: seq<Connections.Event>, cuts: seq<seq<byte>>)
    requires |c1| == Handshakes.BLOCK && Connections.ValidRun(Connections.Start(c1), events)
    requires var w := Connections.Final(Connections.Start(c1), events);
             && Connections.Through(w.server) && Concat(cuts) == w.server.fed
             && DeliverableRun(w.client.sends, INITIAL_CHUNK_SIZE)
    ensures var w := Connections.Final(Connections.Start(c1), events);
            var reported := ReceiveAll(Parser(INITIAL_CHUNK_SIZE, map[], []), cuts).messages;
            && reported <= MessagesOf(w.client.sends)
            && (w.client.pending == [] && w.taken == |w.client.wire| ==> reported == MessagesOf(w.client.sends))
  {
    hide DeliverableRun, ReceiveAll, Connections.ValidRun, Connections.Final;
    var c := Connections.Final(Connections.Start(c1), events).client;
    Connections.MessagesPassedOn(c1, events);
    ClientToServer(c.sends, c.written, c.pending, cuts);
  }

  // ---- A relay in front of the client

  function MediaIn(ms: seq<Message>): seq<Message> {
    if ms == [] then [] else (if Relays.IsMedia(ms[0]) then [ms[0]] else []) + MediaIn(ms[1..])
  }

  /** The messages a relay can pass on: chunks can carry them at the initial chunk size. */
  predicate FitMedia(m: Message) {
    && Relays.IsMedia(m) && 0 < |m.payload| < 0x100_0000
    && (m.timestamp < EXTENDED || |m.payload| <= INITIAL_CHUNK_SIZE)
  }

  predicate FitEvent(e: Relays.Event) {
    match e
    case Relayed(m) => Relays.IsMedia(m) ==> FitMedia(m)
    case Connected(url) => |url| < 0x1_0000
    case _ => true
  }

  predicate FitSend(x: Send) {
    Deliverable(x, INITIAL_CHUNK_SIZE) && (x.SendCommand? || (x.SendMessage? && Relays.IsMedia(x.msg)))
  }

  /** Everything a pusher holds back or has asked its client to send can be delivered, and is media or a command. */
  predicate FitState(s: Relays.State) {
    && |s.streamName| < 0x1_0000
    && (forall m :: m in s.queue ==> FitMedia(m))
    && (forall x :: x in s.handed ==> FitSend(x))
  }

  lemma FitMediaSent(m: Message)
    requires FitMedia(m)
    ensures FitSend(SendMessage(m))
  {
  }

  lemma {:induction false} FitQueueSent(ms: seq<Message>)
    requires forall m :: m in ms ==> FitMedia(m)
    ensures forall x :: x in Relays.AsSends(ms) ==> FitSend(x)
  {
    hide FitMedia, FitSend;
    if ms != [] {
      assert ms[0] in ms;
      FitMediaSent(ms[0]);
      FitQueueSent(ms[1..]);
    }
  }

  lemma CommandFits(cmd: Commands.Command)
    requires |Commands.Encoded(cmd)| < 0x100_0000
    ensures FitSend(SendCommand(cmd, Relays.COMMAND_STREAM))
  {
    hide Commands.Encoded;
    assert |Commands.Encoded(cmd)| > 0 by { CommandLength(cmd); }
  }

  lemma CommandLength(cmd: Commands.Command)
    ensures |Commands.Encoded(cmd)| == 12 + |cmd.name| + |Amf0.EncodeArray(cmd.arguments)|
  {
    var vs := Commands.Values(cmd);
    var rest := vs[1..];
    assert rest[0] == Amf0.Number(cmd.transactionId) && rest[1..] == cmd.arguments;
    assert |Amf0.Encode(vs[0])| == 3 + |cmd.name| && |Amf0.Encode(rest[0])| == 9;
    hide Amf0.Encode;
    assert |Amf0.EncodeArray(rest)| == 9 + |Amf0.EncodeArray(cmd.arguments)|;
  }

  lemma EntryLength(key: seq<byte>, text: seq<byte>, rest: Amf0.Fields)
    ensures |Amf0.EncodeFields(Amf0.Field(key, Amf0.String(text), rest))|
         == 5 + |key| + |text| + |Amf0.EncodeFields(rest)|
  {
  }

  lemma ConnectFits(url: seq<byte>)
    requires |url| < 0x1_0000
    ensures var connect := Relays.ConnectCommand(PushUrls.AppOf(url), PushUrls.TcUrlOf(url));
            FitSend(SendCommand(connect, Relays.COMMAND_STREAM))
  {
    var app, tcUrl := PushUrls.AppOf(url), PushUrls.TcUrlOf(url);
    assert |app| <= |url| && |tcUrl| <= |url|;
    hide Deliverable, FitSend, PushUrls.AppOf, PushUrls.TcUrlOf;
    var cmd := Relays.ConnectCommand(app, tcUrl);
    CommandLength(cmd);
    OneArgument(cmd.arguments[0]);
    var kind := Amf0.Field(Relays.TYPE, Amf0.String(Relays.NONPRIVATE), Amf0.End);
    EntryLength(Relays.TYPE, Relays.NONPRIVATE, Amf0.End);
    EntryLength(Relays.TC_URL, tcUrl, kind);
    EntryLength(Relays.APP, app, Amf0.Field(Relays.TC_URL, Amf0.String(tcUrl), kind));
    CommandFits(cmd);
  }

  lemma OneArgument(v: Amf0.Value)
    ensures Amf0.EncodeArray([v]) == Amf0.Encode(v) + []
  {
    assert [v][1..] == [];
  }

  lemma CreateStreamFits()
    ensures FitSend(SendCommand(Relays.CreateStreamCommand(), Relays.COMMAND_STREAM))
  {
    hide Deliverable, FitSend;
    CommandLength(Relays.CreateStreamCommand());
    OneArgument(Amf0.Null);
    CommandFits(Relays.CreateStreamCommand());
  }

  lemma PublishFits(name: seq<byte>)
    requires |name| < 0x1_0000
    ensures FitSend(SendCommand(Relays.PublishCommand(name), Relays.COMMAND_STREAM))
  {
    hide Deliverable, FitSend;
    var cmd := Relays.PublishCommand(name);
    var a, b, c := Amf0.Null, Amf0.String(name), Amf0.String(Relays.LIVE);
    CommandLength(cmd);
    assert [a, b, c][1..] == [b, c] && [b, c][1..] == [c];
    OneArgument(c);
    CommandFits(cmd);
  }

  lemma ReactFits(p: Relays.Policy, s: Relays.State, e: Relays.Event)
    requires FitState(s) && FitEvent(e)
    ensures FitState(Relays.React(p, s, e))
  {
    hide Commands.Parse, FitMedia, FitSend, Relays.ConnectCommand, Relays.CreateStreamCommand, Relays.PublishCommand;
    match e
    case Relayed(m) =>
      if FitMedia(m) {
        FitMediaSent(m);
      }
    case Connected(url) =>
      ConnectFits(url);
    case Heard(m, unset) =>
      CreateStreamFits();
      PublishFits(s.streamName);
      FitQueueSent(s.queue);
    case Lost =>
  }

  lemma {:induction false} RunFits(p: Relays.Policy, t: Relays.Story, events: seq<Relays.Event>)
    requires FitState(t.state) && forall e :: e in events ==> FitEvent(e)
    ensures FitState(Relays.Run(p, t, events).state)
    decreases |events|
  {
    hide FitState, FitEvent, Relays.React;
    if events != [] {
      ReactFits(p, t.state, events[0]);
      RunFits(p, Relays.Continue(p, t, events[0]), events[1..]);
    }
  }

  lemma {:induction false} FitSendsDeliverable(sends: seq<Send>)
    requires forall x :: x in sends ==> FitSend(x)
    ensures DeliverableRun(sends, INITIAL_CHUNK_SIZE) && Clients.ByClient(sends)
    decreases |sends|
  {
    hide Deliverable;
    if sends != [] {
      assert sends[0] in sends;
      FirstSend(sends, INITIAL_CHUNK_SIZE);
      FitSendsDeliverable(sends[1..]);
      assert sends == [sends[0]] + sends[1..];
    }
  }

  lemma {:induction false} DeliveredMedia(sends: seq<Send>)
    requires forall x :: x in sends ==> FitSend(x)
    ensures MediaIn(MessagesOf(sends)) == Relays.MediaOf(sends)
  {
    hide Commands.Encoded, Deliverable;
    if sends == [] {
      assert MessagesOf(sends) == [];
    } else {
      assert sends[0] in sends;
      assert MessagesOf(sends)[1..] == MessagesOf(sends[1..]);
      DeliveredMedia(sends[1..]);
    }
  }

  lemma {:induction false} MediaInConcat(a: seq<Message>, b: seq<Message>)
    ensures MediaIn(a + b) == MediaIn(a) + MediaIn(b)
  {
    if a == [] {
      assert a + b == b;
    } else {
      FirstMedia(a);
      FirstMedia(a + b);
      hide MediaIn;
      assert (a + b)[0] == a[0] && (a + b)[1..] == a[1..] + b;
      MediaInConcat(a[1..], b);
      Regroup(if Relays.IsMedia(a[0]) then [a[0]] else [], MediaIn(a[1..]), MediaIn(b));
    }
  }

  lemma FirstMedia(ms: seq<Message>)
    requires ms != []
    ensures MediaIn(ms) == (if Relays.IsMedia(ms[0]) then [ms[0]] else []) + MediaIn(ms[1..])
  {
  }

  lemma MediaInGrows(a: seq<Message>, b: seq<Message>)
    requires a <= b
    ensures MediaIn(a) <= MediaIn(b)
  {
    hide MediaIn;
    MediaInConcat(a, b[|a|..]);
    assert a + b[|a|..] == b;
  }

  /** The media messages a pusher's present client has been handed. */
  function HandedMedia(p: Relays.Policy, t: Relays.Story): seq<Message> {
    if t.state.publishing then Relays.KeptBy(p, t.waiting) + t.live else []
  }

  /**
    * At any time in a pusher's life, and however its client's bytes are cut on their way: the media messages the far
    * server has reported are a beginning of what the policy kept of those that came before publishing began and
    * then every later one, in order; and all of that once all bytes have arrived.
    */
  lemma RelayedToServer(
    p: Relays.Policy, name: seq<byte>, events: seq<Relays.Event>, written: seq<byte>, pending: seq<byte>,
    cuts: seq<seq<byte>>)
    requires |name| < 0x1_0000 && forall e :: e in events ==> FitEvent(e)
    requires written + pending == Clients.EncodedAll(Relays.Run(p, Relays.Begin(name), events).state.handed)
    requires Concat(cuts) <= written
    ensures var t := Relays.Run(p, Relays.Begin(name), events);
            var media := MediaIn(ReceiveAll(Parser(INITIAL_CHUNK_SIZE, map[], []), cuts).messages);
            && media <= HandedMedia(p, t)
            && (pending == [] && Concat(cuts) == written ==> media == HandedMedia(p, t))
  {
    hide DeliverableRun, ReceiveAll, Relays.KeptBy, Relays.Run, Clients.EncodedAll, MediaIn;
    hide FitEvent, FitSend;
    var t := Relays.Run(p, Relays.Begin(name), events);
    Relays.BeginOrdered(p, name);
    Relays.RunOrdered(p, Relays.Begin(name), events);
    RunFits(p, Relays.Begin(name), events);
    FitSendsDeliverable(t.state.handed);
    ClientToServer(t.state.handed, written, pending, cuts);
    DeliveredMedia(t.state.handed);
    MediaInGrows(ReceiveAll(Parser(INITIAL_CHUNK_SIZE, map[], []), cuts).messages, MessagesOf(t.state.handed));
  }

  // ---- What the pusher says

  /** The command a message holds, if it does. */
  function HeardIn(m: Message, unset: u64): seq<Commands.Command> {
    if m.typeId != 20 then []
    else
      match Commands.Parse(m.payload, unset)
      case None => []
      case Some(cmd) => [cmd]
  }

  /** The commands among the messages a server has reported. */
  function Heard(ms: seq<Message>, unset: u64): seq<Commands.Command> {
    if ms == [] then [] else HeardIn(ms[0], unset) + Heard(ms[1..], unset)
  }

  lemma {:induction false} HeardConcat(a: seq<Message>, b: seq<Message>, unset: u64)
    ensures Heard(a + b, unset) == Heard(a, unset) + Heard(b, unset)
  {
    hide HeardIn;
    if a == [] {
      assert a + b == b;
    } else {
      var m, others := a[0], a[1..];
      HeardFirst(m, others, unset);
      HeardFirst(m, others + b, unset);
      assert a == [m] + others && a + b == [m] + (others + b);
      hide Heard;
      HeardConcat(others, b, unset);
      Regroup(HeardIn(m, unset), Heard(others, unset), Heard(b, unset));
    }
  }

  lemma HeardFirst(m: Message, others: seq<Message>, unset: u64)
    ensures Heard([m] + others, unset) == HeardIn(m, unset) + Heard(others, unset)
  {
    hide HeardIn;
    assert ([m] + others)[1..] == others;
  }

  predicate IntactSend(x: Send) {
    x.SendCommand? ==> IntactCommand(x)
  }

  lemma {:induction false} CommandsHeard(sends: seq<Send>, unset: u64)
    requires forall x :: x in sends ==> FitSend(x) && IntactSend(x)
    ensures Heard(MessagesOf(sends), unset) == Dialogues.CommandsIn(sends)
    decreases |sends|
  {
    hide Deliverable;
    if sends == [] {
      assert MessagesOf(sends) == [];
    } else {
      var x, ms := sends[0], MessagesOf(sends);
      assert x in sends && ms[0] == MessageOf(x) && ms[1..] == MessagesOf(sends[1..]);
      if x.SendCommand? {
        Commands.ParsesBack(x.cmd, unset);
      }
      hide Commands.Parse, Commands.Encoded;
      CommandsHeard(sends[1..], unset);
    }
  }

  /** Names that fit into 16-bit lengths leave every command of a pusher intact. */
  lemma ReactIntact(p: Relays.Policy, s: Relays.State, e: Relays.Event)
    requires |s.streamName| < 0x1_0000 && FitEvent(e) && forall x :: x in s.handed ==> IntactSend(x)
    ensures forall x :: x in Relays.React(p, s, e).handed ==> IntactSend(x)
    ensures Relays.React(p, s, e).streamName == s.streamName
  {
    hide Commands.Parse, Relays.PublishCommand, Relays.CreateStreamCommand, Relays.ConnectCommand, FitMedia;
    match e
    case Connected(url) =>
      ConnectIntact(url);
    case Heard(m, unset) =>
      StreamCommandsIntact(s.streamName);
      Dialogues.AsSendsCommands(s.queue);
    case _ =>
  }

  lemma ConnectIntact(url: seq<byte>)
    requires |url| < 0x1_0000
    ensures var connect := Relays.ConnectCommand(PushUrls.AppOf(url), PushUrls.TcUrlOf(url));
            IntactSend(SendCommand(connect, Relays.COMMAND_STREAM))
  {
    var app, tcUrl := PushUrls.AppOf(url), PushUrls.TcUrlOf(url);
    assert |app| <= |url| && |tcUrl| <= |url|;
    hide PushUrls.AppOf, PushUrls.TcUrlOf;
    assert Amf0.Less(Relays.APP, Relays.TC_URL) && Amf0.Less(Relays.TC_URL, Relays.TYPE);
    hide Amf0.Less;
    var kind := Amf0.Field(Relays.TYPE, Amf0.String(Relays.NONPRIVATE), Amf0.End);
    var address := Amf0.Field(Relays.TC_URL, Amf0.String(tcUrl), kind);
    var all := Amf0.Field(Relays.APP, Amf0.String(app), address);
    assert Amf0.SortedKeys(address) && Amf0.WellFormedFields(address) && Amf0.EncodableFields(address);
    assert Amf0.SortedKeys(all) && Amf0.WellFormedFields(all) && Amf0.EncodableFields(all);
    hide Amf0.SortedKeys, Amf0.WellFormedFields, Amf0.EncodableFields;
    assert Amf0.WellFormed(Amf0.Object(all)) && Amf0.Encodable(Amf0.Object(all));
  }

  lemma StreamCommandsIntact(name: seq<byte>)
    requires |name| < 0x1_0000
    ensures IntactSend(SendCommand(Relays.CreateStreamCommand(), Relays.COMMAND_STREAM))
    ensures IntactSend(SendCommand(Relays.PublishCommand(name), Relays.COMMAND_STREAM))
  {
  }

  lemma {:induction false} RunIntact(p: Relays.Policy, t: Relays.Story, events: seq<Relays.Event>)
    requires |t.state.streamName| < 0x1_0000 && (forall e :: e in events ==> FitEvent(e))
    requires forall x :: x in t.state.handed ==> IntactSend(x)
    ensures forall x :: x in Relays.Run(p, t, events).state.handed ==> IntactSend(x)
    decreases |events|
  {
    hide FitEvent, Relays.React, IntactSend;
    if events != [] {
      ReactIntact(p, t.state, events[0]);
      RunIntact(p, Relays.Continue(p, t, events[0]), events[1..]);
    }
  }

  /**
    * At any time the commands the far server has heard are a beginning of what is to be said on the connection, word
    * by word; and all of it once all bytes have arrived.
    */
  lemma CommandsToServer(
    p: Relays.Policy, name: seq<byte>, events: seq<Relays.Event>, written: seq<byte>, pending: seq<byte>,
    cuts: seq<seq<byte>>, unset: u64)
    requires |name| < 0x1_0000 && forall e :: e in events ==> FitEvent(e)
    requires written + pending == Clients.EncodedAll(Relays.Run(p, Relays.Begin(name), events).state.handed)
    requires Concat(cuts) <= written
    ensures var heard := Heard(ReceiveAll(Parser(INITIAL_CHUNK_SIZE, map[], []), cuts).messages, unset);
            var said := Dialogues.Said(name, Dialogues.SinceLost(events), false);
            heard <= said && (pending == [] && Concat(cuts) == written ==> heard == said)
  {
    hide DeliverableRun, ReceiveAll, Relays.Run, Clients.EncodedAll, FitEvent, FitSend, IntactSend;
    hide Dialogues.Said, Dialogues.SinceLost, Dialogues.CommandsIn, Heard;
    var begin := Relays.Begin(name);
    var handed := Relays.Run(p, begin, events).state.handed;
    RunFits(p, begin, events);
    FitSendsDeliverable(handed);
    RunIntact(p, begin, events);
    CommandsHeard(handed, unset);
    Dialogues.RunSays(p, begin, events);
    AllSaid(name, events);
    ClientToServer(handed, written, pending, cuts);
    var reported := ReceiveAll(Parser(INITIAL_CHUNK_SIZE, map[], []), cuts).messages;
    var others := MessagesOf(handed)[|reported|..];
    assert MessagesOf(handed) == reported + others;
    HeardConcat(reported, others, unset);
  }

  lemma AllSaid(name: seq<byte>, events: seq<Relays.Event>)
    ensures Dialogues.CommandsIn([]) == []
    ensures !Dialogues.AnyLost(events) ==> Dialogues.SinceLost(events) == events
    ensures [] + Dialogues.Said(name, events, false) == Dialogues.Said(name, events, false)
  {
  }

  // ---- What a server says first

  /** A session that reads a server's first messages, however they are cut, reports these three and resizes. */
  lemma GreetingUnderstood(cuts: seq<seq<byte>>)
    requires Concat(cuts) == Connections.Greeting()
    ensures var r := ReceiveAll(Parser(128, map[], []), cuts);
            && r.messages == [Message(5, 0, 0, [0x00, 0x26, 0x25, 0xA0]),
                              Message(6, 0, 0, [0x00, 0x26, 0x25, 0xA0, 0x02]),
                              Message(1, 0, 0, [0x00, 0x00, 0x10, 0x00])]
            && r.parser.size == 4096
  {
    var sends := Connections.GREETINGS;
    GreetingWire();
    GreetingMessages();
    hide Wire, DeliverableRun, ReceiveAll, MessagesOf, Connections.Greeting;
    AllDelivered(Parser(128, map[], []), sends, cuts);
  }

  lemma GreetingWire()
    ensures DeliverableRun(Connections.GREETINGS, 128) && FinalSize(Connections.GREETINGS, 128) == 4096
    ensures Wire(Connections.GREETINGS, 128) == Connections.Greeting()
  {
    var sends := Connections.GREETINGS;
    assert sends[1..] == [sends[1], sends[2]] && sends[1..][1..] == [sends[2]] && sends[1..][1..][1..] == [];
    GreetingFits();
    FirstSend(sends, 128);
    FirstSend(sends[1..], 128);
    FirstSend(sends[1..][1..], 128);
    assert DeliverableRun([], 4096) && Wire([], 4096) == [] && FinalSize([], 4096) == 4096;
    hide Wire, DeliverableRun, FinalSize, Deliverable, EncodedSend;
    assert EncodedSend(sends[2], 128) + [] == EncodedSend(sends[2], 128);
    Regroup(EncodedSend(sends[0], 128), EncodedSend(sends[1], 128), EncodedSend(sends[2], 128));
  }

  lemma GreetingFits()
    ensures forall i :: 0 <= i < 3 ==> Deliverable(Connections.GREETINGS[i], 128)
  {
  }

  lemma GreetingMessages()
    ensures MessagesOf(Connections.GREETINGS)
         == [Message(5, 0, 0, [0x00, 0x26, 0x25, 0xA0]), Message(6, 0, 0, [0x00, 0x26, 0x25, 0xA0, 0x02]),
             Message(1, 0, 0, [0x00, 0x00, 0x10, 0x00])]
  {
    FourWritten(2500000);
    FourWritten(4096);
    assert FourBytes(2500000) == [0x00, 0x26, 0x25, 0xA0] && FourBytes(4096) == [0x00, 0x00, 0x10, 0x00];
    assert 4096 % 0x8000_0000 == 4096;
    hide WriteU32Be, FourBytes;
    var ms := MessagesOf(Connections.GREETINGS);
    assert ms[0] == Message(5, 0, 0, [0x00, 0x26, 0x25, 0xA0]);
    assert [0x00, 0x26, 0x25, 0xA0] + [0x02] == [0x00, 0x26, 0x25, 0xA0, 0x02];
    assert ms[1] == Message(6, 0, 0, [0x00, 0x26, 0x25, 0xA0, 0x02]);
    assert ms[2] == Message(1, 0, 0, [0x00, 0x00, 0x10, 0x00]);
  }

  /** Joined from end to end: the pusher's client and the far server are the two ends of one connection. */
  lemma RelayedOverConnection(
    p: Relays.Policy, name: seq<byte>, events: seq<Relays.Event>, c1: seq<byte>, steps: seq<Connections.Event>,
    cuts: seq<seq<byte>>)
    requires |name| < 0x1_0000 && forall e :: e in events ==> FitEvent(e)
    requires |c1| == Handshakes.BLOCK && Connections.ValidRun(Connections.Start(c1), steps)
    requires var w := Connections.Final(Connections.Start(c1), steps);
             && Connections.Through(w.server) && Concat(cuts) == w.server.fed
             && w.client.sends == Relays.Run(p, Relays.Begin(name), events).state.handed
    ensures var w := Connections.Final(Connections.Start(c1), steps);
            var t := Relays.Run(p, Relays.Begin(name), events);
            var media := MediaIn(ReceiveAll(Parser(INITIAL_CHUNK_SIZE, map[], []), cuts).messages);
            && media <= HandedMedia(p, t)
            && (w.client.pending == [] && w.taken == |w.client.wire| ==> media == HandedMedia(p, t))
  {
    hide ReceiveAll, Relays.Run, Clients.EncodedAll, MediaIn, FitEvent, HandedMedia;
    hide Connections.ValidRun, Connections.Final;
    var c := Connections.Final(Connections.Start(c1), steps).client;
    Connections.MessagesPassedOn(c1, steps);
    RelayedToServer(p, name, events, c.written, c.pending, cuts);
  }

  // ---- The two session objects

  method SendOne(sender: Session, s: Send)
    requires sender.Valid() && sender.outChunkSize > 0
    modifies sender`outChunkSize, sender.writeBuffer, sender.writeBuffer.mem
    ensures sender.Valid()
    ensures sender.writeBuffer.mem == old(sender.writeBuffer.mem) || fresh(sender.writeBuffer.mem)
    ensures sender.Outgoing() == old(sender.Outgoing()) + EncodedSend(s, old(sender.outChunkSize))
    ensures sender.outChunkSize == SizeAfterSend(s, old(sender.outChunkSize))
  {
    hide EncodedSend;
    match s
    case SendMessage(m) => sender.SendMessage(m);
    case SendSetChunkSize(n) => sender.SendSetChunkSize(n);
    case SendWindowAckSize(n) => sender.SendWindowAckSize(n);
    case SendSetPeerBandwidth(n, t) => sender.SendSetPeerBandwidth(n, t);
    case SendCommand(cmd, csid) => sender.SendCommand(cmd, csid);
  }

  method SendAll(sender: Session, sends: seq<Send>)
    requires sender.Valid() && DeliverableRun(sends, sender.outChunkSize)
    modifies sender`outChunkSize, sender.writeBuffer, sender.writeBuffer.mem
    ensures sender.Valid()
    ensures sender.writeBuffer.mem == old(sender.writeBuffer.mem) || fresh(sender.writeBuffer.mem)
    ensures sender.Outgoing() == old(sender.Outgoing()) + Wire(sends, old(sender.outChunkSize))
    ensures sender.outChunkSize == FinalSize(sends, old(sender.outChunkSize))
  {
    hide EncodedSend, Deliverable;
    assert sends[0..] == sends;
    for i := 0 to |sends|
      invariant sender.Valid() && DeliverableRun(sends[i..], sender.outChunkSize)
      invariant sender.writeBuffer.mem == old(sender.writeBuffer.mem) || fresh(sender.writeBuffer.mem)
      invariant sender.Outgoing() + Wire(sends[i..], sender.outChunkSize)
             == old(sender.Outgoing()) + Wire(sends, old(sender.outChunkSize))
      invariant FinalSize(sends[i..], sender.outChunkSize) == FinalSize(sends, old(sender.outChunkSize))
    {
      ghost var before, size := sender.Outgoing(), sender.outChunkSize;
      assert sends[i..][0] == sends[i] && sends[i..][1..] == sends[i + 1..];
      SendOne(sender, sends[i]);
      Regroup(before, EncodedSend(sends[i], size), Wire(sends[i + 1..], sender.outChunkSize));
    }
    assert sends[|sends|..] == [];
    assert sender.Outgoing() + [] == sender.Outgoing();
  }

  /** Passes data to a session in the given pieces, one read each. */
  method FeedAll(receiver: Session, cuts: seq<seq<byte>>)
    requires receiver.handshake.state == Handshakes.Done
    modifies receiver`delivered, receiver.parser
    ensures var r := ReceiveAll(old(receiver.parser.State()), cuts);
            receiver.parser.State() == r.parser && receiver.delivered == old(receiver.delivered) + r.messages
  {
    hide Receive;
    ghost var whole := ReceiveAll(receiver.parser.State(), cuts);
    assert cuts[0..] == cuts;
    for i := 0 to |cuts|
      invariant var r := ReceiveAll(receiver.parser.State(), cuts[i..]);
                whole.parser == r.parser && receiver.delivered + r.messages == old(receiver.delivered) + whole.messages
    {
      ghost var p, before := receiver.parser.State(), receiver.delivered;
      assert cuts[i..][0] == cuts[i] && cuts[i..][1..] == cuts[i + 1..];
      var _ := receiver.ProcessInput(cuts[i]);
      Regroup(before, Receive(p, cuts[i]).messages, ReceiveAll(receiver.parser.State(), cuts[i + 1..]).messages);
    }
    assert cuts[|cuts|..] == [];
    assert receiver.delivered + [] == receiver.delivered;
  }

  /** Any way of cutting data into reads. */
  method CutUp(data: seq<byte>) returns (cuts: seq<seq<byte>>)
    ensures Concat(cuts) == data
  {
    cuts := [];
    var rest := data;
    assert [] + data == data;
    while rest != []
      invariant Concat(cuts) + rest == data
      decreases |rest|
    {
      var n: nat :| 0 < n <= |rest|;
      ConcatSnoc(cuts, rest[..n]);
      cuts := cuts + [rest[..n]];
      rest := rest[n..];
    }
    assert Concat(cuts) + [] == Concat(cuts);
  }

  lemma {:induction false} ConcatSnoc(cuts: seq<seq<byte>>, one: seq<byte>)
    ensures Concat(cuts + [one]) == Concat(cuts) + one
    decreases |cuts|
  {
    if cuts == [] {
      assert [] + [one] == [one] && [one][1..] == [];
    } else {
      assert (cuts + [one])[0] == cuts[0] && (cuts + [one])[1..] == cuts[1..] + [one];
      ConcatSnoc(cuts[1..], one);
    }
  }

  /**
    * Two sessions joined by a byte stream: after the sends and any reads, the receiver has the sender's messages and
    * chunk size.
    */
  method Transfer(sender: Session, receiver: Session, sends: seq<Send>)
    requires sender.Valid() && sender.Outgoing() == [] && DeliverableRun(sends, sender.outChunkSize)
    requires receiver.handshake.state == Handshakes.Done && Waiting(receiver.parser.State())
    requires receiver.parser.chunkSize == sender.outChunkSize
    modifies sender`outChunkSize, sender.writeBuffer, sender.writeBuffer.mem, receiver`delivered, receiver.parser
    ensures sender.Valid() && sender.Outgoing() == [] && Waiting(receiver.parser.State())
    ensures receiver.delivered == old(receiver.delivered) + MessagesOf(sends)
    ensures receiver.parser.chunkSize == sender.outChunkSize
  {
    hide DeliverableRun, Wire, FinalSize, ReceiveAll, Waiting;
    SendAll(sender, sends);
    var data := sender.GetOutgoingData();
    assert [] + Wire(sends, old(sender.outChunkSize)) == data;
    var cuts := CutUp(data);
    ghost var p := receiver.parser.State();
    AllDelivered(p, sends, cuts);
    FeedAll(receiver, cuts);
  }

  /**
    * A client object and a session object: the client lives through any events, and a front part of what its socket
    * took of its messages arrives in any reads. The session has then reported a beginning of those messages, and all
    * of them if everything was taken and has arrived.
    */
  method Upload(client: Clients.Client, receiver: Session, events: seq<Clients.Event>, arriving: nat)
    requires client.Valid() && Clients.Conserved(client.Now()) && client.sends == []
    requires DeliverableRun(Clients.SendsIn(events), INITIAL_CHUNK_SIZE)
    requires receiver.handshake.state == Handshakes.Done && receiver.delivered == []
    requires receiver.parser.State() == Parser(INITIAL_CHUNK_SIZE, map[], [])
    requires receiver != client.session && receiver.parser != client.session.parser
    requires receiver.handshake != client.session.handshake
    modifies client, client.session.handshake, client.session.writeBuffer, client.session.writeBuffer.mem
    modifies receiver`delivered, receiver.parser
    ensures client.Valid() && client.Now() == Clients.Run(old(client.Now()), events)
    ensures client.sends == Clients.SendsIn(events) && receiver.delivered <= MessagesOf(client.sends)
    ensures client.Now().pending == [] && arriving >= |client.written| ==>
              receiver.delivered == MessagesOf(client.sends)
    ensures Clients.Watched(old(client.Now())) && Clients.Patient(old(client.Now()), events) ==>
              Clients.Watched(client.Now())
  {
    hide DeliverableRun, ReceiveAll, Clients.EncodedAll, MessagesOf, Clients.Patient, Clients.Run, Clients.Watched;
    Clients.RunByClient(client.Now(), events);
    client.HandleAll(events);
    assert [] + Clients.SendsIn(events) == Clients.SendsIn(events);
    var cuts := CutUp(client.written[..Min(arriving, |client.written|)]);
    ClientToServer(client.sends, client.written, client.Now().pending, cuts);
    FeedAll(receiver, cuts);
    assert [] + receiver.delivered == receiver.delivered;
  }
}
