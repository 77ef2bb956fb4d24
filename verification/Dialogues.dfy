/** What a pusher says to the server it is connected to, word by word. */
module Dialogues {
  import opened Bytes
  import opened Wrappers
  import opened Messages
  import opened Sessions
  import opened Relays
  import opened PushUrls
  import Amf0
  import Commands

  // ---- The words, with the transaction ids 1, 2 and 0 as doubles

  function ConnectWords(app: seq<byte>, tcUrl: seq<byte>): Commands.Command {
    Commands.Command(Ascii("connect"), 0x3FF0_0000_0000_0000, [Amf0.Object(
      Amf0.Field(Ascii("app"), Amf0.String(app),
      Amf0.Field(Ascii("tcUrl"), Amf0.String(tcUrl),
      Amf0.Field(Ascii("type"), Amf0.String(Ascii("nonprivate")), Amf0.End))))])
  }

  function CreateStreamWords(): Commands.Command {
    Commands.Command(Ascii("createStream"), 0x4000_0000_0000_0000, [Amf0.Null])
  }

  function PublishWords(name: seq<byte>): Commands.Command {
    Commands.Command(Ascii("publish"), 0, [Amf0.Null, Amf0.String(name), Amf0.String(Ascii("live"))])
  }

  /** The id of a result the server sends, if the message is one. */
  function ResultOf(m: Message, unset: u64): Option<u64> {
    if m.typeId != 20 then None
    else
      match Commands.Parse(m.payload, unset)
      case None => None
      case Some(cmd) => if cmd.name == Ascii("_result") then Some(cmd.transactionId) else None
  }

  /** What is said on one connection: connect; after result 1 createStream; after result 2, once, publish. */
  function Said(name: seq<byte>, events: seq<Event>, publishing: bool): seq<Commands.Command>
    decreases |events|
  {
    if events == [] then []
    else
      match events[0]
      case Connected(url) => [ConnectWords(AppOf(url), TcUrlOf(url))] + Said(name, events[1..], publishing)
      case Heard(m, unset) =>
        if publishing || ResultOf(m, unset) == None then Said(name, events[1..], publishing)
        else if ResultOf(m, unset).value == 0x3FF0_0000_0000_0000 then
          [CreateStreamWords()] + Said(name, events[1..], publishing)
        else if ResultOf(m, unset).value == 0x4000_0000_0000_0000 then
          [PublishWords(name)] + Said(name, events[1..], true)
        else Said(name, events[1..], publishing)
      case _ => Said(name, events[1..], publishing)
  }

  predicate AnyLost(events: seq<Event>) {
    exists e :: e in events && e.Lost?
  }

  /** What happened on the present connection. */
  function SinceLost(events: seq<Event>): seq<Event>
    decreases |events|
  {
    if !AnyLost(events) then events
    else if AnyLost(events[1..]) then SinceLost(events[1..])
    else events[1..]
  }

  function CommandsIn(sends: seq<Send>): seq<Commands.Command> {
    if sends == [] then []
    else (if sends[0].SendCommand? then [sends[0].cmd] else []) + CommandsIn(sends[1..])
  }

  // ---- The pusher says exactly this

  lemma Words()
    ensures RESULT == Ascii("_result") && ONE == 0x3FF0_0000_0000_0000 && TWO == 0x4000_0000_0000_0000
    ensures CreateStreamCommand() == CreateStreamWords()
    ensures forall app, tcUrl :: ConnectCommand(app, tcUrl) == ConnectWords(app, tcUrl)
    ensures forall name :: PublishCommand(name) == PublishWords(name)
  {
    Spelled();
    hide Ascii;
  }

  lemma Spelled()
    ensures RESULT == Ascii("_result") && CONNECT == Ascii("connect") && APP == Ascii("app")
    ensures TC_URL == Ascii("tcUrl") && TYPE == Ascii("type") && NONPRIVATE == Ascii("nonprivate")
    ensures CREATE_STREAM == Ascii("createStream") && PUBLISH == Ascii("publish") && LIVE == Ascii("live")
  {
  }

  lemma {:induction false} CommandsInConcat(a: seq<Send>, b: seq<Send>)
    ensures CommandsIn(a + b) == CommandsIn(a) + CommandsIn(b)
  {
    if a == [] {
      assert a + b == b;
    } else {
      FirstCommand(a);
      FirstCommand(a + b);
      hide CommandsIn;
      assert (a + b)[0] == a[0] && (a + b)[1..] == a[1..] + b;
      CommandsInConcat(a[1..], b);
      Regroup(if a[0].SendCommand? then [a[0].cmd] else [], CommandsIn(a[1..]), CommandsIn(b));
    }
  }

  lemma FirstCommand(sends: seq<Send>)
    requires sends != []
    ensures CommandsIn(sends) == (if sends[0].SendCommand? then [sends[0].cmd] else []) + CommandsIn(sends[1..])
  {
  }

  lemma {:induction false} NoCommands(ms: seq<Message>)
    ensures CommandsIn(AsSends(ms)) == []
  {
    if ms != [] {
      assert AsSends(ms)[1..] == AsSends(ms[1..]);
      NoCommands(ms[1..]);
    }
  }

  lemma OneCommand(handed: seq<Send>, cmd: Commands.Command)
    ensures CommandsIn(handed + [SendCommand(cmd, COMMAND_STREAM)]) == CommandsIn(handed) + [cmd]
  {
    CommandsInConcat(handed, [SendCommand(cmd, COMMAND_STREAM)]);
    assert [SendCommand(cmd, COMMAND_STREAM)][1..] == [];
  }

  /** What one event adds to what was said, and whether it starts publishing. */
  lemma ReactSays(p: Policy, s: State, e: Event)
    requires !e.Lost?
    ensures var t := React(p, s, e);
            && CommandsIn(t.handed) == CommandsIn(s.handed) + Said(s.streamName, [e], s.publishing)
            && Said(s.streamName, [e], s.publishing) == CommandsIn(t.handed)[|CommandsIn(s.handed)|..]
            && t.streamName == s.streamName
            && (t.publishing <==>
                  s.publishing || (e.Heard? && ResultOf(e.reply, e.unset) == Some(0x4000_0000_0000_0000)))
  {
    hide Commands.Parse, CommandsIn, AppOf, TcUrlOf;
    Words();
    assert [e][1..] == [];
    assert CommandsIn(s.handed) + [] == CommandsIn(s.handed);
    match e
    case Relayed(m) =>
      NoCommands([m]);
      assert AsSends([m]) == [SendMessage(m)] by { OneSent(m); }
      CommandsInConcat(s.handed, [SendMessage(m)]);
    case Connected(url) =>
      OneCommand(s.handed, ConnectCommand(AppOf(url), TcUrlOf(url)));
    case Heard(m, unset) =>
      hide Ascii, ConnectWords, CreateStreamWords, PublishWords;
      OneCommand(s.handed, CreateStreamCommand());
      OneCommand(s.handed, PublishCommand(s.streamName));
      CommandsInConcat(s.handed + [SendCommand(PublishCommand(s.streamName), COMMAND_STREAM)], AsSends(s.queue));
      NoCommands(s.queue);
      var all := CommandsIn(s.handed) + [PublishCommand(s.streamName)];
      assert all + [] == all;
  }

  lemma OneSent(m: Message)
    ensures AsSends([m]) == [SendMessage(m)]
  {
    assert [m][1..] == [];
  }

  lemma SaidFirst(name: seq<byte>, events: seq<Event>, publishing: bool)
    requires events != [] && !events[0].Lost?
    ensures var e := events[0];
            var next := publishing || (e.Heard? && ResultOf(e.reply, e.unset) == Some(0x4000_0000_0000_0000));
            Said(name, events, publishing) == Said(name, [e], publishing) + Said(name, events[1..], next)
  {
    hide Ascii, ConnectWords, CreateStreamWords, PublishWords, ResultOf;
    assert [events[0]][1..] == [];
  }

  lemma LostFirst(events: seq<Event>)
    requires events != []
    ensures AnyLost(events) <==> events[0].Lost? || AnyLost(events[1..])
    ensures AnyLost(events) && AnyLost(events[1..]) ==> SinceLost(events) == SinceLost(events[1..])
    ensures AnyLost(events) && !AnyLost(events[1..]) ==> SinceLost(events) == events[1..]
    ensures !AnyLost(events) ==> SinceLost(events) == events
  {
    assert events == [events[0]] + events[1..];
    if AnyLost(events[1..]) {
      var e :| e in events[1..] && e.Lost?;
      assert e in events;
    }
  }

  /**
    * Over every run, the commands the present client has been handed are exactly what is to be said on its
    * connection, in order.
    */
  lemma {:induction false} RunSays(p: Policy, t: Story, events: seq<Event>)
    ensures var s := Run(p, t, events).state;
            && s.streamName == t.state.streamName
            && CommandsIn(s.handed)
                 == if AnyLost(events) then Said(s.streamName, SinceLost(events), false)
                    else CommandsIn(t.state.handed) + Said(s.streamName, events, t.state.publishing)
    decreases |events|
  {
    var name := t.state.streamName;
    if events == [] {
      assert CommandsIn(t.state.handed) + [] == CommandsIn(t.state.handed);
    } else {
      var e, next := events[0], Continue(p, t, events[0]);
      NextState(p, t, e);
      LostFirst(events);
      if e.Lost? {
        assert CommandsIn([]) == [] && [] + Said(name, events[1..], false) == Said(name, events[1..], false);
      } else {
        ReactSays(p, t.state, e);
        SaidFirst(name, events, t.state.publishing);
        Regroup(CommandsIn(t.state.handed), Said(name, [e], t.state.publishing),
                Said(name, events[1..], next.state.publishing));
      }
      hide Continue, React, Said, CommandsIn, AnyLost, SinceLost, ResultOf;
      RunSays(p, next, events[1..]);
    }
  }

  lemma NextState(p: Policy, t: Story, e: Event)
    ensures Continue(p, t, e).state == React(p, t.state, e)
    ensures e.Lost? ==> var s := React(p, t.state, e);
                        s.handed == [] && !s.publishing && s.streamName == t.state.streamName
  {
    hide Commands.Parse;
  }

  // ---- Media comes behind the publish command

  /** No media without the publish command in front of it, and all commands on chunk stream 3. */
  predicate Introduced(s: State) {
    && (forall x :: x in s.handed && x.SendCommand? ==> x.csid == 3)
    && (if s.publishing then
          exists k: nat :: k < |s.handed| && Introduces(s.handed, k, s.streamName)
        else MediaOf(s.handed) == [])
  }

  predicate Introduces(handed: seq<Send>, k: nat, name: seq<byte>) {
    k < |handed| && handed[k] == SendCommand(PublishWords(name), 3) && MediaOf(handed[..k]) == []
  }

  lemma IntroducesStill(handed: seq<Send>, k: nat, name: seq<byte>, more: seq<Send>)
    requires Introduces(handed, k, name)
    ensures Introduces(handed + more, k, name)
  {
    assert (handed + more)[..k] == handed[..k];
  }

  lemma ReactIntroduced(p: Policy, s: State, e: Event)
    requires Introduced(s)
    ensures Introduced(React(p, s, e))
  {
    hide Commands.Parse, Introduces, MediaOf, AppOf, TcUrlOf, ConnectCommand, CreateStreamCommand, PublishCommand;
    var t := React(p, s, e);
    if e.Lost? {
      assert MediaOf([]) == [] by { NoMediaYet(); }
    } else {
      var more := Added(p, s, e);
      AddedSends(p, s, e);
      hide React, Added;
      if s.publishing {
        var k: nat :| k < |s.handed| && Introduces(s.handed, k, s.streamName);
        IntroducesStill(s.handed, k, s.streamName, more);
      } else if t.publishing {
        PublishIntroduces(s.handed, more, s.streamName);
      } else {
        MediaOfConcat(s.handed, more);
      }
    }
  }

  lemma NoMediaYet()
    ensures MediaOf([]) == []
  {
  }

  /** What one event adds to what the client was handed. */
  function Added(p: Policy, s: State, e: Event): seq<Send>
    requires !e.Lost?
  {
    var t := React(p, s, e);
    if |s.handed| <= |t.handed| then t.handed[|s.handed|..] else []
  }

  lemma AddedSends(p: Policy, s: State, e: Event)
    requires !e.Lost?
    ensures var t, more := React(p, s, e), Added(p, s, e);
            && t.handed == s.handed + more && t.streamName == s.streamName && (s.publishing ==> t.publishing)
            && (forall x :: x in more && x.SendCommand? ==> x.csid == 3)
            && (!s.publishing && !t.publishing ==> MediaOf(more) == [])
            && (!s.publishing && t.publishing ==> more != [] && more[0] == SendCommand(PublishWords(s.streamName), 3))
  {
    hide Commands.Parse, AppOf, TcUrlOf, Answer, ConnectCommand, PublishWords;
    var t, more := React(p, s, e), Added(p, s, e);
    assert s.handed + [] == s.handed;
    match e
    case Relayed(m) =>
      assert t.handed == s.handed + more;
      assert !s.publishing ==> more == [];
    case Connected(url) =>
      var connect := SendCommand(ConnectCommand(AppOf(url), TcUrlOf(url)), COMMAND_STREAM);
      assert more == [connect] && [connect][1..] == [] && t.handed == s.handed + more;
    case Heard(m, unset) =>
      AnswerSends(s, if m.typeId == COMMAND_AMF0 then Commands.Parse(m.payload, unset) else None);
      assert t.handed == s.handed + more;
  }

  lemma AnswerSends(s: State, cmd: Option<Commands.Command>)
    ensures var t := Answer(s, cmd);
            && s.handed <= t.handed && t.streamName == s.streamName && (s.publishing ==> t.publishing)
            && (forall x :: x in t.handed[|s.handed|..] && x.SendCommand? ==> x.csid == 3)
            && (!s.publishing && !t.publishing ==> MediaOf(t.handed[|s.handed|..]) == [])
            && (!s.publishing && t.publishing ==>
                  |t.handed| > |s.handed| && t.handed[|s.handed|] == SendCommand(PublishWords(s.streamName), 3))
  {
    Words();
    AsSendsCommands(s.queue);
    hide CreateStreamCommand, PublishCommand, PublishWords;
    var create, publish := SendCommand(CreateStreamCommand(), 3), SendCommand(PublishCommand(s.streamName), 3);
    assert (s.handed + [create])[|s.handed|..] == [create] && [create][1..] == [];
    assert (s.handed + [publish] + AsSends(s.queue))[|s.handed|..] == [publish] + AsSends(s.queue);
    assert s.handed[|s.handed|..] == [];
  }

  lemma {:induction false} AsSendsCommands(ms: seq<Message>)
    ensures forall x :: x in AsSends(ms) ==> x.SendMessage?
  {
    if ms != [] {
      AsSendsCommands(ms[1..]);
    }
  }

  lemma PublishIntroduces(handed: seq<Send>, more: seq<Send>, name: seq<byte>)
    requires MediaOf(handed) == [] && more != [] && more[0] == SendCommand(PublishWords(name), 3)
    ensures Introduces(handed + more, |handed|, name)
  {
    assert (handed + more)[..|handed|] == handed;
  }

  lemma {:induction false} RunIntroduced(p: Policy, t: Story, events: seq<Event>)
    requires Introduced(t.state)
    ensures Introduced(Run(p, t, events).state)
    decreases |events|
  {
    hide Introduced, React;
    if events != [] {
      ReactIntroduced(p, t.state, events[0]);
      RunIntroduced(p, Continue(p, t, events[0]), events[1..]);
    }
  }
}
