/** Output timestamps of the transcoder: the source's own, counted from the first key frame after publishing began. */
module Passthrough {
  import opened Bytes

  datatype Event = PublishReady | Frame(timestamp: u32, keyframe: bool)

  datatype State = State(started: bool, baseSet: bool, base: u32, out: seq<u32>)

  const INITIAL := State(false, false, 0, [])

  function Offset(timestamp: u32, base: u32): u32 {
    if timestamp >= base then timestamp - base else 0
  }

  /** The transcoder's flags; outputs that become ready later do not reset them. */
  class TimeBase {
    var publishingStarted: bool
    var baseVideoTimestampSet: bool
    var baseVideoTimestamp: u32
    /** The timestamps passed on to the outputs, frame by frame. */
    var out: seq<u32>

    function Now(): State
      reads this
    {
      State(publishingStarted, baseVideoTimestampSet, baseVideoTimestamp, out)
    }

    constructor ()
      ensures Now() == INITIAL
    {
      publishingStarted, baseVideoTimestampSet, baseVideoTimestamp, out := false, false, 0, [];
    }

    method OnPublishReady()
      modifies this
      ensures Now() == React(old(Now()), PublishReady)
    {
      if !publishingStarted {
        publishingStarted := true;
        baseVideoTimestampSet := false;
      }
    }

    method ProcessVideoFrame(timestamp: u32, keyframe: bool)
      modifies this
      ensures Now() == React(old(Now()), Frame(timestamp, keyframe))
    {
      if publishingStarted && !baseVideoTimestampSet {
        if keyframe {
          baseVideoTimestamp := timestamp;
          baseVideoTimestampSet := true;
        } else {
          return;
        }
      }
      if !baseVideoTimestampSet {
        return;
      }
      var outputTs: u32 := 0;
      if timestamp >= baseVideoTimestamp {
        outputTs := timestamp - baseVideoTimestamp;
      }
      out := out + [outputTs];
    }
  }

  function React(s: State, e: Event): State {
    match e
    case PublishReady => if s.started then s else s.(started := true, baseSet := false)
    case Frame(t, key) =>
      if s.started && !s.baseSet && !key then s
      else if s.started && !s.baseSet then s.(base := t, baseSet := true, out := s.out + [0])
      else if !s.baseSet then s
      else s.(out := s.out + [Offset(t, s.base)])
  }

  function Run(s: State, events: seq<Event>): State
    decreases |events|
  {
    if events == [] then s else Run(React(s, events[0]), events[1..])
  }

  // ---- What the outputs should see

  function AfterReady(events: seq<Event>): seq<Event> {
    if events == [] then [] else if events[0].PublishReady? then events[1..] else AfterReady(events[1..])
  }

  function FromKeyFrame(events: seq<Event>): seq<Event> {
    if events == [] then []
    else if events[0].Frame? && events[0].keyframe then events
    else FromKeyFrame(events[1..])
  }

  function Timestamps(events: seq<Event>): seq<u32> {
    if events == [] then []
    else (if events[0].Frame? then [events[0].timestamp] else []) + Timestamps(events[1..])
  }

  function Offsets(ts: seq<u32>, base: u32): (os: seq<u32>)
    ensures |os| == |ts| && forall i :: 0 <= i < |ts| ==> os[i] == Offset(ts[i], base)
  {
    seq(|ts|, i requires 0 <= i < |ts| => Offset(ts[i], base))
  }

  /** Every frame from the first key frame after the first output became ready, relative to that key frame. */
  function Expected(events: seq<Event>): seq<u32> {
    var ts := Timestamps(FromKeyFrame(AfterReady(events)));
    if ts == [] then [] else Offsets(ts, ts[0])
  }

  lemma {:induction false} RunWithBase(s: State, events: seq<Event>)
    requires s.started && s.baseSet
    ensures Run(s, events).out == s.out + Offsets(Timestamps(events), s.base)
    decreases |events|
  {
    var ts := Timestamps(events);
    if events == [] {
      assert Offsets(ts, s.base) == [];
    } else {
      var s', rest := React(s, events[0]), Timestamps(events[1..]);
      RunWithBase(s', events[1..]);
      if events[0].Frame? {
        assert Offsets(ts, s.base) == [Offset(events[0].timestamp, s.base)] + Offsets(rest, s.base);
      } else {
        assert ts == rest;
      }
    }
  }

  lemma {:induction false} RunWaitingForKey(s: State, events: seq<Event>)
    requires s.started && !s.baseSet && s.out == []
    ensures var ts := Timestamps(FromKeyFrame(events));
            Run(s, events).out == if ts == [] then [] else Offsets(ts, ts[0])
    decreases |events|
  {
    if events != [] {
      if events[0].Frame? && events[0].keyframe {
        var ts := Timestamps(events);
        RunWithBase(React(s, events[0]), events[1..]);
        assert ts == [events[0].timestamp] + Timestamps(events[1..]);
        assert Offsets(ts, ts[0]) == [0] + Offsets(Timestamps(events[1..]), ts[0]);
      } else {
        RunWaitingForKey(React(s, events[0]), events[1..]);
      }
    }
  }

  /** In every run the outputs see exactly the expected timestamps. */
  lemma {:induction false} RunIsExpected(events: seq<Event>)
    ensures Run(INITIAL, events).out == Expected(events)
    decreases |events|
  {
    if events != [] {
      if events[0].PublishReady? {
        RunWaitingForKey(React(INITIAL, events[0]), events[1..]);
      } else {
        RunIsExpected(events[1..]);
      }
    }
  }

  /** The first frame passed on has time zero, and frames that are not older than it keep their distances. */
  lemma DistancesKept(events: seq<Event>, i: nat, j: nat)
    requires i <= j < |Expected(events)|
    ensures |Run(INITIAL, events).out| == |Expected(events)| == |Timestamps(FromKeyFrame(AfterReady(events)))|
    ensures var ts, out := Timestamps(FromKeyFrame(AfterReady(events))), Run(INITIAL, events).out;
            && out[0] == 0
            && (ts[0] <= ts[i] <= ts[j] ==> (out[j] as int) - out[i] == (ts[j] as int) - ts[i])
  {
    RunIsExpected(events);
  }

  /** A frame that is older than the first one comes out at time zero. */
  lemma OlderFramesAreZero(events: seq<Event>, i: nat)
    requires i < |Expected(events)|
    ensures |Run(INITIAL, events).out| == |Expected(events)| == |Timestamps(FromKeyFrame(AfterReady(events)))|
    ensures var ts := Timestamps(FromKeyFrame(AfterReady(events)));
            ts[i] < ts[0] ==> Run(INITIAL, events).out[i] == 0
  {
    RunIsExpected(events);
  }
}
