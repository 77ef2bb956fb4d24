/** The queue of a relay pusher: what it keeps while its connection is not publishing, and what it hands on. */
module Relays {
  import opened Bytes
  import opened Wrappers
  import opened Messages
  import opened Sessions
  import opened PushUrls
  import Amf0
  import Commands

  datatype Backpressure = DropOldest | DropNewest | Disconnect

  datatype Policy = Policy(maxPending: nat, mode: Backpressure)

  /** The doubles 1.0 and 2.0. */
  const ONE: u64 := 0x3FF0_0000_0000_0000
  const TWO: u64 := 0x4000_0000_0000_0000

  const RESULT: seq<byte> := [0x5F, 0x72, 0x65, 0x73, 0x75, 0x6C, 0x74]
  const CREATE_STREAM: seq<byte> := [0x63, 0x72, 0x65, 0x61, 0x74, 0x65, 0x53, 0x74, 0x72, 0x65, 0x61, 0x6D]
  const PUBLISH: seq<byte> := [0x70, 0x75, 0x62, 0x6C, 0x69, 0x73, 0x68]
  const LIVE: seq<byte> := [0x6C, 0x69, 0x76, 0x65]
  const CONNECT: seq<byte> := [0x63, 0x6F, 0x6E, 0x6E, 0x65, 0x63, 0x74]
  const APP: seq<byte> := [0x61, 0x70, 0x70]
  const TC_URL: seq<byte> := [0x74, 0x63, 0x55, 0x72, 0x6C]
  const TYPE: seq<byte> := [0x74, 0x79, 0x70, 0x65]
  const NONPRIVATE: seq<byte> := [0x6E, 0x6F, 0x6E, 0x70, 0x72, 0x69, 0x76, 0x61, 0x74, 0x65]

  const INITIAL_DELAY: nat := 100
  const MAX_DELAY: nat := 5000
  const COMMAND_STREAM: u32 := 3

  predicate IsMedia(m: Message) {
    m.typeId == AUDIO || m.typeId == VIDEO || m.typeId == DATA_AMF0
  }

  /** A pusher; `handed` is what its present client has been asked to send. */
  datatype State = State(
    streamName: seq<byte>, connected: bool, publishing: bool, pending: int, queue: seq<Message>, delay: nat,
    handed: seq<Send>)

  function Initial(streamName: seq<byte>): State {
    State(streamName, false, false, 0, [], INITIAL_DELAY, [])
  }

  function Size(m: Message): nat {
    |m.payload|
  }

  function Sum(ms: seq<Message>): nat {
    if ms == [] then 0 else Size(ms[0]) + Sum(ms[1..])
  }

  function AsSends(ms: seq<Message>): seq<Send> {
    if ms == [] then [] else [SendMessage(ms[0])] + AsSends(ms[1..])
  }

  // ---- The handlers

  function Relay(p: Policy, s: State, m: Message): State {
    if !IsMedia(m) then s
    else if s.publishing then s.(handed := s.handed + [SendMessage(m)])
    else if s.pending + Size(m) <= p.maxPending then s.(pending := s.pending + Size(m), queue := s.queue + [m])
    else if p.mode == DropOldest && s.queue != [] then
      s.(pending := s.pending + Size(m) - Size(s.queue[0]), queue := s.queue[1..] + [m])
    else if p.mode == DropNewest then s
    else s.(pending := s.pending + Size(m), queue := s.queue + [m])
  }

  function CreateStreamCommand(): Commands.Command {
    Commands.Command(CREATE_STREAM, TWO, [Amf0.Null])
  }

  function PublishCommand(name: seq<byte>): Commands.Command {
    Commands.Command(PUBLISH, 0, [Amf0.Null, Amf0.String(name), Amf0.String(LIVE)])
  }

  /** Publishing starts: the command, then everything queued. */
  function Publish(s: State): State {
    s.(publishing := true, pending := 0, queue := [],
       handed := s.handed + [SendCommand(PublishCommand(s.streamName), COMMAND_STREAM)] + AsSends(s.queue))
  }

  function Answer(s: State, cmd: Option<Commands.Command>): State {
    if cmd.None? || cmd.value.name != RESULT || s.publishing then s
    else if cmd.value.transactionId == ONE then
      s.(handed := s.handed + [SendCommand(CreateStreamCommand(), COMMAND_STREAM)])
    else if cmd.value.transactionId == TWO then Publish(s)
    else s
  }

  /** A message from the server the pusher is connected to. */
  function Hear(s: State, m: Message, unset: u64): State {
    if m.typeId != COMMAND_AMF0 then s else Answer(s, Commands.Parse(m.payload, unset))
  }

  /** The application's name and its address, in an object with sorted keys. */
  function ConnectCommand(app: seq<byte>, tcUrl: seq<byte>): Commands.Command {
    Commands.Command(CONNECT, ONE, [Amf0.Object(
      Amf0.Field(APP, Amf0.String(app),
      Amf0.Field(TC_URL, Amf0.String(tcUrl),
      Amf0.Field(TYPE, Amf0.String(NONPRIVATE), Amf0.End))))])
  }

  function Connect(s: State, url: seq<byte>): State {
    s.(connected := true, delay := INITIAL_DELAY,
       handed := s.handed + [SendCommand(ConnectCommand(AppOf(url), TcUrlOf(url)), COMMAND_STREAM)])
  }

  /** The client is replaced by a new one. */
  function Lose(s: State): State {
    s.(connected := false, publishing := false, delay := Min(2 * s.delay, MAX_DELAY), handed := [])
  }

  // ---- Runs

  datatype Event =
    | Relayed(msg: Message)
    | Heard(reply: Message, unset: u64)
    | Connected(url: seq<byte>)
    | Lost

  function React(p: Policy, s: State, e: Event): State {
    match e
    case Relayed(m) => Relay(p, s, m)
    case Heard(m, unset) => Hear(s, m, unset)
    case Connected(url) => Connect(s, url)
    case Lost => Lose(s)
  }

  /**
    * A state with its past: the media messages relayed since publishing was last false, up to the moment it became
    * true, and those relayed from then on.
    */
  datatype Story = Story(state: State, waiting: seq<Message>, live: seq<Message>)

  function Continue(p: Policy, t: Story, e: Event): Story {
    var s := React(p, t.state, e);
    match e
    case Relayed(m) =>
      if !IsMedia(m) then t.(state := s)
      else if t.state.publishing then t.(state := s, live := t.live + [m])
      else t.(state := s, waiting := t.waiting + [m])
    case Lost => if t.state.publishing then Story(s, [], []) else t.(state := s)
    case _ => t.(state := s)
  }

  function Run(p: Policy, t: Story, events: seq<Event>): Story
    decreases |events|
  {
    if events == [] then t else Run(p, Continue(p, t, events[0]), events[1..])
  }

  function Begin(streamName: seq<byte>): Story {
    Story(Initial(streamName), [], [])
  }

  /** The media messages among what a client was asked to send. */
  function MediaOf(sends: seq<Send>): seq<Message> {
    if sends == [] then []
    else (if sends[0].SendMessage? then [sends[0].msg] else []) + MediaOf(sends[1..])
  }

  lemma {:induction false} MediaOfConcat(a: seq<Send>, b: seq<Send>)
    ensures MediaOf(a + b) == MediaOf(a) + MediaOf(b)
  {
    if a == [] {
      assert a + b == b;
    } else {
      assert (a + b)[0] == a[0] && (a + b)[1..] == a[1..] + b;
      MediaOfConcat(a[1..], b);
    }
  }

  lemma {:induction false} MediaOfSends(ms: seq<Message>)
    ensures MediaOf(AsSends(ms)) == ms
  {
    if ms != [] {
      assert AsSends(ms)[1..] == AsSends(ms[1..]);
      MediaOfSends(ms[1..]);
    }
  }

  lemma {:induction false} SumConcat(a: seq<Message>, b: seq<Message>)
    ensures Sum(a + b) == Sum(a) + Sum(b)
  {
    if a == [] {
      assert a + b == b;
    } else {
      assert (a + b)[0] == a[0] && (a + b)[1..] == a[1..] + b;
      SumConcat(a[1..], b);
    }
  }

  // ---- What every state satisfies

  /** Byte counts are right, and a publishing pusher holds nothing back. */
  predicate Accounted(s: State) {
    s.pending == Sum(s.queue) && (s.publishing ==> s.queue == [])
  }

  lemma ReactAccounted(p: Policy, s: State, e: Event)
    requires Accounted(s)
    ensures Accounted(React(p, s, e))
  {
    hide Commands.Parse;
    if e.Relayed? {
      SumConcat(s.queue, [e.msg]);
      assert [e.msg][1..] == [];
      if s.queue != [] {
        SumConcat(s.queue[1..], [e.msg]);
      }
    }
  }

  /** The last k elements. */
  predicate IsSuffix<T(==)>(a: seq<T>, b: seq<T>) {
    |a| <= |b| && a == b[|b| - |a|..]
  }

  /** What is kept when one queued message makes way, the oldest, whenever a new one does not fit. */
  function Latest(max: nat, ms: seq<Message>): seq<Message>
    decreases |ms|
  {
    if ms == [] then []
    else
      var n := |ms| - 1;
      var kept := Latest(max, ms[..n]);
      (if Sum(kept) + Size(ms[n]) <= max || kept == [] then kept else kept[1..]) + [ms[n]]
  }

  /** What is kept when new messages that do not fit are refused. */
  function Fitting(max: nat, ms: seq<Message>): seq<Message>
    decreases |ms|
  {
    if ms == [] then []
    else
      var n := |ms| - 1;
      var kept := Fitting(max, ms[..n]);
      if Sum(kept) + Size(ms[n]) <= max then kept + [ms[n]] else kept
  }

  /** Which of the messages that arrived while the pusher was not publishing it has queued, by policy. */
  function KeptBy(p: Policy, waiting: seq<Message>): seq<Message> {
    match p.mode
    case DropOldest => Latest(p.maxPending, waiting)
    case DropNewest => Fitting(p.maxPending, waiting)
    case Disconnect => waiting
  }

  /**
    * Until publishing starts, the queue is what the policy keeps of the messages that came since publishing was
    * last false. From then on the client has been handed exactly that and every later media message, in order.
    */
  predicate Ordered(p: Policy, t: Story) {
    && Accounted(t.state)
    && (if t.state.publishing then MediaOf(t.state.handed) == KeptBy(p, t.waiting) + t.live
        else t.state.queue == KeptBy(p, t.waiting) && MediaOf(t.state.handed) == [] && t.live == [])
  }

  lemma BeginOrdered(p: Policy, streamName: seq<byte>)
    ensures Ordered(p, Begin(streamName))
  {
  }

  lemma RelayKept(p: Policy, s: State, m: Message, waiting: seq<Message>)
    requires Accounted(s) && !s.publishing && IsMedia(m) && s.queue == KeptBy(p, waiting)
    ensures Relay(p, s, m).queue == KeptBy(p, waiting + [m])
  {
    hide Sum;
    assert (waiting + [m])[..|waiting|] == waiting;
  }

  // ---- What the policies keep

  /** Under DropOldest one more message never makes the queue shorter, costs at most the oldest, and is queued. */
  lemma LatestStep(max: nat, ms: seq<Message>, m: Message)
    ensures var kept, kept' := Latest(max, ms), Latest(max, ms + [m]);
            && |kept'| >= |kept| && kept' != []
            && (kept' == kept + [m] || (kept != [] && kept' == kept[1..] + [m]))
            && (kept' == kept + [m] <==> kept == [] || Sum(kept) + Size(m) <= max)
  {
    assert (ms + [m])[..|ms|] == ms;
    var kept := Latest(max, ms);
    assert kept != [] ==> |kept[1..] + [m]| != |kept + [m]|;
  }

  /** Under DropOldest it is the newest messages that are kept. */
  lemma {:induction false} OldestKeeps(max: nat, ms: seq<Message>)
    ensures IsSuffix(Latest(max, ms), ms)
    decreases |ms|
  {
    hide Latest, IsSuffix;
    if ms == [] {
      NothingLatest(max);
    } else {
      var front, last := ms[..|ms| - 1], ms[|ms| - 1];
      OldestKeeps(max, front);
      SuffixStep(max, front, last);
      assert front + [last] == ms;
    }
  }

  lemma NothingLatest(max: nat)
    ensures IsSuffix(Latest(max, []), [])
  {
  }

  lemma SuffixStep(max: nat, ms: seq<Message>, m: Message)
    requires IsSuffix(Latest(max, ms), ms)
    ensures IsSuffix(Latest(max, ms + [m]), ms + [m])
  {
    hide Latest, IsSuffix;
    LatestStep(max, ms, m);
    SuffixGrows(Latest(max, ms), ms, m);
  }

  /** No policy loses anything while everything fits, and no policy but DropOldest loses what it has queued. */
  lemma {:induction false} NothingLostIfAllFits(p: Policy, ms: seq<Message>)
    ensures Sum(ms) <= p.maxPending ==> KeptBy(p, ms) == ms
    ensures p.mode != DropOldest && ms != [] ==> KeptBy(p, ms[..|ms| - 1]) <= KeptBy(p, ms)
    decreases |ms|
  {
    hide Sum;
    if ms == [] {
      assert KeptBy(p, ms) == [];
    } else {
      var n := |ms| - 1;
      assert ms[..n] + [ms[n]] == ms;
      OneMore(ms[..n], ms[n]);
      NothingLostIfAllFits(p, ms[..n]);
    }
  }

  /** A message is refused under DropNewest exactly if it would exceed the limit; what is kept never does. */
  lemma {:induction false} NewestKeeps(max: nat, ms: seq<Message>, m: Message)
    ensures Sum(Fitting(max, ms)) <= max
    ensures Fitting(max, ms + [m]) == Fitting(max, ms) <==> Sum(Fitting(max, ms)) + Size(m) > max
    decreases |ms|
  {
    assert (ms + [m])[..|ms|] == ms;
    if ms == [] {
      assert Fitting(max, ms) == [];
    } else {
      var n := |ms| - 1;
      NewestKeeps(max, ms[..n], ms[n]);
      OneMore(Fitting(max, ms[..n]), ms[n]);
    }
  }

  lemma OneMore(ms: seq<Message>, m: Message)
    ensures Sum(ms + [m]) == Sum(ms) + Size(m)
  {
    SumConcat(ms, [m]);
    assert [m][1..] == [];
  }

  lemma SuffixGrows(queue: seq<Message>, waiting: seq<Message>, m: Message)
    requires IsSuffix(queue, waiting)
    ensures IsSuffix(queue + [m], waiting + [m])
    ensures queue != [] ==> IsSuffix(queue[1..] + [m], waiting + [m])
  {
  }

  lemma ContinueOrdered(p: Policy, t: Story, e: Event)
    requires Ordered(p, t)
    ensures Ordered(p, Continue(p, t, e))
  {
    hide Commands.Parse, KeptBy;
    ReactAccounted(p, t.state, e);
    match e
    case Relayed(m) =>
      if IsMedia(m) {
        if t.state.publishing {
          MediaOfConcat(t.state.handed, [SendMessage(m)]);
          assert [SendMessage(m)][1..] == [];
          assert (KeptBy(p, t.waiting) + t.live) + [m] == KeptBy(p, t.waiting) + (t.live + [m]);
        } else {
          RelayKept(p, t.state, m, t.waiting);
        }
      }
    case Heard(m, unset) =>
      AnswerOrdered(p, t, if m.typeId == COMMAND_AMF0 then Commands.Parse(m.payload, unset) else None);
    case Connected(url) =>
      CommandIsNoMedia(t.state.handed, ConnectCommand(AppOf(url), TcUrlOf(url)));
    case Lost =>
      if t.state.publishing {
        NothingKept(p);
      }
  }

  lemma NothingKept(p: Policy)
    ensures KeptBy(p, []) == []
  {
  }

  lemma CommandIsNoMedia(handed: seq<Send>, c: Commands.Command)
    ensures MediaOf(handed + [SendCommand(c, COMMAND_STREAM)]) == MediaOf(handed)
  {
    MediaOfConcat(handed, [SendCommand(c, COMMAND_STREAM)]);
    assert [SendCommand(c, COMMAND_STREAM)][1..] == [];
  }

  lemma AnswerOrdered(p: Policy, t: Story, cmd: Option<Commands.Command>)
    requires Ordered(p, t)
    ensures Ordered(p, t.(state := Answer(t.state, cmd)))
  {
    hide KeptBy;
    var s := t.state;
    CommandIsNoMedia(s.handed, CreateStreamCommand());
    var publish := SendCommand(PublishCommand(s.streamName), COMMAND_STREAM);
    CommandIsNoMedia(s.handed, PublishCommand(s.streamName));
    MediaOfConcat(s.handed + [publish], AsSends(s.queue));
    MediaOfSends(s.queue);
    if !s.publishing {
      assert MediaOf(Publish(s).handed) == s.queue + t.live;
    }
  }

  /** The order of messages is kept over every run of events. */
  lemma {:induction false} RunOrdered(p: Policy, t: Story, events: seq<Event>)
    requires Ordered(p, t)
    ensures Ordered(p, Run(p, t, events))
    decreases |events|
  {
    hide Continue, Ordered;
    if events != [] {
      ContinueOrdered(p, t, events[0]);
      RunOrdered(p, Continue(p, t, events[0]), events[1..]);
    }
  }

  // ---- Bounds

  /** No message in the queue is empty, and the queue respects the limit in the way its policy allows. */
  predicate Bounded(p: Policy, s: State) {
    && (p.mode == DropNewest ==> s.pending <= p.maxPending)
    && (p.mode == DropOldest ==>
          (forall m :: m in s.queue ==> m.payload != []) && |s.queue| <= Max(1, p.maxPending))
  }

  predicate NonEmptyMedia(events: seq<Event>) {
    forall e :: e in events && e.Relayed? ==> e.msg.payload != []
  }

  lemma {:induction false} CountIsBounded(ms: seq<Message>)
    requires forall m :: m in ms ==> m.payload != []
    ensures |ms| <= Sum(ms)
  {
    if ms != [] {
      assert ms[0] in ms;
      CountIsBounded(ms[1..]);
    }
  }

  lemma {:induction false} SumIsBounded(ms: seq<Message>, most: nat)
    requires forall m :: m in ms ==> Size(m) <= most
    ensures Sum(ms) <= |ms| * most
  {
    if ms != [] {
      assert ms[0] in ms;
      SumIsBounded(ms[1..], most);
      OneFactorMore(|ms| - 1, most);
    }
  }

  lemma OneFactorMore(n: nat, most: nat)
    ensures n * most + most == (n + 1) * most
  {
  }

  lemma ReactBounded(p: Policy, s: State, e: Event)
    requires Accounted(s) && Bounded(p, s) && (p.mode == DropOldest && e.Relayed? ==> e.msg.payload != [])
    ensures Bounded(p, React(p, s, e))
  {
    hide Commands.Parse;
    if p.mode == DropOldest {
      CountIsBounded(s.queue);
    }
  }

  /** The limits hold in every state a run can reach. */
  lemma {:induction false} RunBounded(p: Policy, t: Story, events: seq<Event>)
    requires Accounted(t.state) && Bounded(p, t.state) && (p.mode == DropOldest ==> NonEmptyMedia(events))
    ensures Accounted(Run(p, t, events).state) && Bounded(p, Run(p, t, events).state)
    decreases |events|
  {
    hide React, Accounted, Bounded;
    if events != [] {
      ReactAccounted(p, t.state, events[0]);
      ReactBounded(p, t.state, events[0]);
      RunBounded(p, Continue(p, t, events[0]), events[1..]);
    }
  }

  /** Under DropOldest the bytes held are bounded by the largest message, not by the limit itself. */
  lemma OldestBytes(p: Policy, s: State, most: nat)
    requires p.mode == DropOldest && Accounted(s) && Bounded(p, s) && (forall m :: m in s.queue ==> Size(m) <= most)
    ensures s.pending <= Max(1, p.maxPending) * most
  {
    hide Sum, Max;
    SumIsBounded(s.queue, most);
    ProductGrows(|s.queue|, Max(1, p.maxPending), most);
  }

  lemma ProductGrows(a: nat, b: nat, c: nat)
    requires a <= b
    ensures a * c <= b * c
  {
  }

  /** Dropping one message may not make enough room: the limit is exceeded exactly if it would still be. */
  lemma OldestExceedsIff(p: Policy, s: State, m: Message)
    requires p.mode == DropOldest && Accounted(s) && !s.publishing && IsMedia(m)
    ensures Sum(Relay(p, s, m).queue) > p.maxPending <==>
            Sum(s.queue) + Size(m) > p.maxPending && (s.queue == [] || Sum(s.queue[1..]) + Size(m) > p.maxPending)
  {
    ReactAccounted(p, s, Relayed(m));
  }

  /** With a limit of ten bytes and one byte queued, a message of eleven bytes is queued all the same. */
  lemma ElevenBytesQueued(one: Message, eleven: Message)
    requires IsMedia(one) && |one.payload| == 1 && IsMedia(eleven) && |eleven.payload| == 11
    ensures var p := Policy(10, DropOldest);
            var s := Relay(p, Relay(p, Initial([]), one), eleven);
            s.queue == [eleven] && s.pending == 11 > p.maxPending
  {
  }

  // ---- Media types and delays

  /** Only audio, video and data messages are relayed. */
  lemma RelayedTypes(p: Policy, s: State, m: Message)
    ensures IsMedia(m) <==> m.typeId in {8, 9, 18}
    ensures m.typeId !in {8, 9, 18} ==> Relay(p, s, m) == s
  {
  }

  function DoubledTimes(k: nat): nat {
    if k == 0 then 100 else 2 * DoubledTimes(k - 1)
  }

  function Losses(k: nat): seq<Event> {
    if k == 0 then [] else Losses(k - 1) + [Lost]
  }

  /** After a connection, the delay doubles with every loss from 100 up to 5000. */
  lemma {:induction false} DelayAfterLosses(p: Policy, s: State, url: seq<byte>, k: nat)
    ensures var t := Reacted(p, React(p, s, Connected(url)), Losses(k));
            t.delay == Min(DoubledTimes(k), 5000) && DoubledTimes(k) >= 100
    decreases k
  {
    hide AppOf, TcUrlOf, ConnectCommand;
    if k > 0 {
      DelayAfterLosses(p, s, url, k - 1);
      ReactedSnoc(p, React(p, s, Connected(url)), Losses(k - 1), Lost);
      hide Reacted;
    }
  }

  function Reacted(p: Policy, s: State, events: seq<Event>): State
    decreases |events|
  {
    if events == [] then s else Reacted(p, React(p, s, events[0]), events[1..])
  }

  lemma {:induction false} ReactedSnoc(p: Policy, s: State, events: seq<Event>, e: Event)
    ensures Reacted(p, s, events + [e]) == React(p, Reacted(p, s, events), e)
    decreases |events|
  {
    hide React;
    if events == [] {
      assert [] + [e] == [e] && [e][1..] == [];
    } else {
      assert (events + [e])[0] == events[0] && (events + [e])[1..] == events[1..] + [e];
      ReactedSnoc(p, React(p, s, events[0]), events[1..], e);
    }
  }
}
