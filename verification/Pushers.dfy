/** The relay pusher as an object whose handlers update it and drive its client. */
module Pushers {
  import opened Bytes
  import opened Wrappers
  import opened Messages
  import opened Sessions
  import opened Relays
  import opened PushUrls
  import Amf0
  import Clients
  import Commands
  import Handshakes

  // ---- What the handlers ask of the client

  /** A command, and an attempt to write it. */
  function Told(c: Clients.State, cmd: Commands.Command, outcome: Clients.WriteOutcome): Clients.State {
    Clients.Flushing(Clients.Add(c, SendCommand(cmd, COMMAND_STREAM)), outcome)
  }

  function AddAll(c: Clients.State, ms: seq<Message>): Clients.State
    decreases |ms|
  {
    if ms == [] then c else AddAll(Clients.Add(c, SendMessage(ms[0])), ms[1..])
  }

  /** The publish command, and then the queued messages, which wait for a write event. */
  function Published(c: Clients.State, s: State, outcome: Clients.WriteOutcome): Clients.State {
    AddAll(Told(c, PublishCommand(s.streamName), outcome), s.queue)
  }

  function Answered(c: Clients.State, s: State, cmd: Option<Commands.Command>, outcome: Clients.WriteOutcome)
    : Clients.State
  {
    if cmd.None? || cmd.value.name != RESULT || s.publishing then c
    else if cmd.value.transactionId == ONE then Told(c, CreateStreamCommand(), outcome)
    else if cmd.value.transactionId == TWO then Published(c, s, outcome)
    else c
  }

  /** A command is written together with all that was pending, as far as the socket takes it; an error keeps it. */
  lemma ToldIsWritten(c: Clients.State, cmd: Commands.Command, n: nat)
    requires c.open
    ensures var all := c.pending + EncodedSend(SendCommand(cmd, 3), 128);
            var t := Told(c, cmd, Clients.Accepted(n));
            var k := Min(n, |all|);
            && t.wire == c.wire + all[..k] && t.pending == all[k..]
            && Told(c, cmd, Clients.Failed).pending == all && Told(c, cmd, Clients.Failed).open
  {
    hide EncodedSend;
  }

  /** The bytes of messages, one behind the other. */
  function QueueBytes(ms: seq<Message>): seq<byte> {
    if ms == [] then [] else EncodedSend(SendMessage(ms[0]), 128) + QueueBytes(ms[1..])
  }

  lemma {:induction false} QueueAdded(c: Clients.State, ms: seq<Message>)
    ensures var t := AddAll(c, ms);
            t.pending == c.pending + QueueBytes(ms) && t.wire == c.wire && t.open == c.open
    decreases |ms|
  {
    hide EncodedSend;
    if ms == [] {
      assert c.pending + [] == c.pending;
    } else {
      QueueAdded(Clients.Add(c, SendMessage(ms[0])), ms[1..]);
      Regroup(c.pending, EncodedSend(SendMessage(ms[0]), 128), QueueBytes(ms[1..]));
    }
  }

  /** When publishing starts the publish command goes out at once, and the queued messages wait for a write event. */
  lemma QueueWaits(c: Clients.State, s: State, n: nat)
    requires c.open
    ensures var publish := EncodedSend(SendCommand(PublishCommand(s.streamName), 3), 128);
            var t := Published(c, s, Clients.Accepted(n));
            n >= |c.pending + publish| ==> t.wire == c.wire + c.pending + publish && t.pending == QueueBytes(s.queue)
  {
    var publish := EncodedSend(SendCommand(PublishCommand(s.streamName), 3), 128);
    ToldIsWritten(c, PublishCommand(s.streamName), n);
    hide EncodedSend, PublishCommand;
    var told := Told(c, PublishCommand(s.streamName), Clients.Accepted(n));
    QueueAdded(told, s.queue);
    hide Told, AddAll;
    if n >= |c.pending + publish| {
      assert told.pending == [] && [] + QueueBytes(s.queue) == QueueBytes(s.queue);
      Regroup(c.wire, c.pending, publish);
    }
  }

  lemma FirstAdded(c: Clients.State, ms: seq<Message>)
    requires ms != []
    ensures AddAll(c, ms) == AddAll(Clients.Add(c, SendMessage(ms[0])), ms[1..])
    ensures AsSends(ms) == [SendMessage(ms[0])] + AsSends(ms[1..])
  {
  }

  /** The application's name, and its address. */
  method CutUrl(url: seq<byte>) returns (app: seq<byte>, tcUrl: seq<byte>)
    ensures app == AppOf(url) && tcUrl == TcUrlOf(url)
  {
    hide Find;
    var schemeEnd := Find(url, SCHEME_END, 0);
    var pathStart := Find(url, ROOT, if schemeEnd.Some? then schemeEnd.value + 3 else 2);
    var path := if pathStart.Some? then url[pathStart.value..] else ROOT;
    var appEnd := Find(path, ROOT, 1);
    app := if appEnd.Some? then path[1..appEnd.value] else path[1..];
    tcUrl := if pathStart.Some? then url[..Min(pathStart.value + |app| + 1, |url|)] else [];
  }

  class Pusher {
    const streamName: seq<byte>
    var connected: bool
    var publishing: bool
    var reconnectDelayMs: nat
    var pendingBytes: int
    var buffer: seq<Message>
    var client: Clients.Client

    ghost predicate Valid()
      reads this, client, client.session, client.session.writeBuffer
    {
      client.Valid()
    }

    ghost function Now(): State
      reads this, client
    {
      State(streamName, connected, publishing, pendingBytes, buffer, reconnectDelayMs, client.sends)
    }

    /** The block is the client's choice for C1. */
    constructor (streamName: seq<byte>, block: seq<byte>)
      requires |block| == Handshakes.BLOCK
      ensures Valid() && Now() == Initial(streamName) && client.Now() == Clients.Begin(block) && fresh(client)
      ensures fresh(client.session) && fresh(client.session.writeBuffer) && fresh(client.session.writeBuffer.mem)
    {
      this.streamName := streamName;
      connected, publishing, reconnectDelayMs, pendingBytes := false, false, INITIAL_DELAY, 0;
      buffer := [];
      client := new Clients.Client(block);
    }

    method RelayMessage(policy: Policy, msg: Message)
      requires Valid()
      modifies this`pendingBytes, this`buffer, client, client.session.writeBuffer, client.session.writeBuffer.mem
      ensures Valid() && Now() == Relay(policy, old(Now()), msg)
      ensures client.Now() == if IsMedia(msg) && publishing then Clients.Add(old(client.Now()), SendMessage(msg))
                              else old(client.Now())
      ensures client.session.writeBuffer.mem == old(client.session.writeBuffer.mem)
           || fresh(client.session.writeBuffer.mem)
    {
      hide EncodedSend, Clients.Add;
      if msg.typeId != AUDIO && msg.typeId != VIDEO && msg.typeId != DATA_AMF0 {
        return;
      }
      if publishing {
        client.SendMessage(msg);
      } else {
        pendingBytes := pendingBytes + |msg.payload|;
        if pendingBytes > policy.maxPending {
          if policy.mode == DropOldest && buffer != [] {
            var droppedSize := |buffer[0].payload|;
            buffer := buffer[1..];
            pendingBytes := pendingBytes - droppedSize;
          } else if policy.mode == DropNewest {
            pendingBytes := pendingBytes - |msg.payload|;
            return;
          }
        }
        buffer := buffer + [msg];
      }
    }

    /** Sends a command and tries to write it. */
    method Tell(cmd: Commands.Command, outcome: Clients.WriteOutcome)
      requires Valid()
      modifies client, client.session.writeBuffer, client.session.writeBuffer.mem
      ensures Valid() && client.Now() == Told(old(client.Now()), cmd, outcome)
      ensures client.sends == old(client.sends) + [SendCommand(cmd, COMMAND_STREAM)]
      ensures client.session.writeBuffer.mem == old(client.session.writeBuffer.mem)
           || fresh(client.session.writeBuffer.mem)
    {
      hide Clients.Add;
      client.SendCommand(cmd, COMMAND_STREAM);
      client.Flush(outcome);
    }

    /** A message from the server; the outcome is that of the write it leads to, if any. */
    method HandleMessage(msg: Message, unset: u64, outcome: Clients.WriteOutcome)
      requires Valid()
      modifies this`publishing, this`pendingBytes, this`buffer
      modifies client, client.session.writeBuffer, client.session.writeBuffer.mem
      ensures Valid() && Now() == Hear(old(Now()), msg, unset)
      ensures var cmd := if msg.typeId == COMMAND_AMF0 then Commands.Parse(msg.payload, unset) else None;
              client.Now() == Answered(old(client.Now()), old(Now()), cmd, outcome)
      ensures client.session.writeBuffer.mem == old(client.session.writeBuffer.mem)
           || fresh(client.session.writeBuffer.mem)
    {
      hide Commands.Parse, Told, Published;
      if msg.typeId == COMMAND_AMF0 {
        var cmd := Commands.ParseCommand(msg.payload, unset);
        if cmd.Some? && cmd.value.name == RESULT && !publishing {
          if cmd.value.transactionId == ONE {
            var createStream := Commands.Command(CREATE_STREAM, TWO, [Amf0.Null]);
            Tell(createStream, outcome);
          } else if cmd.value.transactionId == TWO {
            StartPublishing(outcome);
          }
        }
      }
    }

    /** Sends the publish command and then the queued messages in order. */
    method StartPublishing(outcome: Clients.WriteOutcome)
      requires Valid()
      modifies this`publishing, this`pendingBytes, this`buffer
      modifies client, client.session.writeBuffer, client.session.writeBuffer.mem
      ensures Valid() && Now() == Publish(old(Now()))
      ensures client.Now() == Published(old(client.Now()), old(Now()), outcome)
      ensures client.session.writeBuffer.mem == old(client.session.writeBuffer.mem)
           || fresh(client.session.writeBuffer.mem)
    {
      hide Told, EncodedSend, AddAll, AsSends, Clients.Add;
      var publish := Commands.Command(PUBLISH, 0, [Amf0.Null, Amf0.String(streamName), Amf0.String(LIVE)]);
      Tell(publish, outcome);
      publishing := true;
      SendQueued();
      buffer := [];
      pendingBytes := 0;
    }

    /** Sends the queued messages, one after the other. */
    method SendQueued()
      requires Valid()
      modifies client, client.session.writeBuffer, client.session.writeBuffer.mem
      ensures Valid() && client.Now() == AddAll(old(client.Now()), buffer)
      ensures client.sends == old(client.sends) + AsSends(buffer)
      ensures client.session.writeBuffer.mem == old(client.session.writeBuffer.mem)
           || fresh(client.session.writeBuffer.mem)
    {
      hide EncodedSend, AddAll, AsSends, Clients.Add;
      assert buffer[0..] == buffer;
      for i := 0 to |buffer|
        invariant Valid() && AddAll(client.Now(), buffer[i..]) == AddAll(old(client.Now()), buffer)
        invariant client.sends + AsSends(buffer[i..]) == old(client.sends) + AsSends(buffer)
        invariant client.session.writeBuffer.mem == old(client.session.writeBuffer.mem)
               || fresh(client.session.writeBuffer.mem)
      {
        FirstAdded(client.Now(), buffer[i..]);
        Regroup(client.sends, [SendMessage(buffer[i])], AsSends(buffer[i + 1..]));
        assert buffer[i..][0] == buffer[i] && buffer[i..][1..] == buffer[i + 1..];
        client.SendMessage(buffer[i]);
      }
      NoneAdded(client.Now(), buffer[|buffer|..]);
      assert client.sends + [] == client.sends;
    }

    /** The client is connected: asks for the application that the push URL names. */
    method HandleConnected(url: seq<byte>, outcome: Clients.WriteOutcome)
      requires Valid()
      modifies this`connected, this`reconnectDelayMs
      modifies client, client.session.writeBuffer, client.session.writeBuffer.mem
      ensures Valid() && Now() == Connect(old(Now()), url)
      ensures client.Now() == Told(old(client.Now()), ConnectCommand(AppOf(url), TcUrlOf(url)), outcome)
      ensures client.session.writeBuffer.mem == old(client.session.writeBuffer.mem)
           || fresh(client.session.writeBuffer.mem)
    {
      hide Told, AppOf, TcUrlOf;
      connected := true;
      reconnectDelayMs := INITIAL_DELAY;
      var app, tcUrl := CutUrl(url);
      var connectObj := Amf0.Put(Amf0.End, APP, Amf0.String(app));
      connectObj := Amf0.Put(connectObj, TYPE, Amf0.String(NONPRIVATE));
      connectObj := Amf0.Put(connectObj, TC_URL, Amf0.String(tcUrl));
      ConnectObject(Amf0.String(app), Amf0.String(NONPRIVATE), Amf0.String(tcUrl));
      hide Amf0.Put;
      var connect := Commands.Command(CONNECT, ONE, [Amf0.Object(connectObj)]);
      Tell(connect, outcome);
    }

    /** The client is replaced by a new one, which begins to connect; the block is its choice for C1. */
    method HandleDisconnected(block: seq<byte>)
      requires |block| == Handshakes.BLOCK
      modifies this
      ensures Valid() && Now() == Lose(old(Now())) && client.Now() == Clients.Begin(block) && fresh(client)
      ensures fresh(client.session) && fresh(client.session.writeBuffer) && fresh(client.session.writeBuffer.mem)
    {
      var delayMs := reconnectDelayMs;
      connected := false;
      publishing := false;
      client := new Clients.Client(block);
      reconnectDelayMs := Min(delayMs * 2, MAX_DELAY);
    }
  }

  lemma NoneAdded(c: Clients.State, ms: seq<Message>)
    requires ms == []
    ensures AddAll(c, ms) == c && AsSends(ms) == []
  {
  }

  /** The entries end up in the order of their keys. */
  lemma ConnectObject(app: Amf0.Value, kind: Amf0.Value, url: Amf0.Value)
    ensures Amf0.Put(Amf0.Put(Amf0.Put(Amf0.End, APP, app), TYPE, kind), TC_URL, url)
         == Amf0.Field(APP, app, Amf0.Field(TC_URL, url, Amf0.Field(TYPE, kind, Amf0.End)))
  {
    assert Amf0.Less(TC_URL, TYPE) && !Amf0.Less(TC_URL, APP) && !Amf0.Less(TYPE, APP);
    assert APP[0] != TYPE[0] && |TYPE| != |TC_URL| && APP[0] != TC_URL[0];
    hide Amf0.Less;
    var f := Amf0.Field(APP, app, Amf0.Field(TYPE, kind, Amf0.End));
    assert Amf0.Put(Amf0.Field(APP, app, Amf0.End), TYPE, kind) == f;
    assert Amf0.Put(f.rest, TC_URL, url) == Amf0.Field(TC_URL, url, Amf0.Field(TYPE, kind, Amf0.End));
  }
}
