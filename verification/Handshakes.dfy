/** The simple RTMP handshake: the steps of both ends. */
module Handshakes {
  import opened Bytes
  import opened Wrappers

  const VERSION: byte := 3
  const BLOCK: nat := 1536

  datatype Phase = Uninitialized | C0C1Sent | S0S1S2Sent | Done

  datatype Progress = Progress(phase: Phase, c1: seq<byte>, s1: seq<byte>)

  datatype HandshakeError = NotEnoughData | InvalidVersion | InvalidState

  /** The new state and the number of bytes used, or why there is none. */
  datatype Outcome = Outcome(progress: Progress, result: Result<nat, HandshakeError>)

  function ProcessClient(p: Progress, d: seq<byte>): (r: Outcome)
    ensures r.result.Ok? ==> r.result.value <= |d|
  {
    if p.phase == Uninitialized then
      if |d| < 1 + BLOCK then Outcome(p, Err(NotEnoughData))
      else if d[0] != VERSION then Outcome(p, Err(InvalidVersion))
      else if |d| >= 1 + 2 * BLOCK then Outcome(p.(c1 := d[1..1 + BLOCK], phase := Done), Ok(1 + 2 * BLOCK))
      else Outcome(p.(c1 := d[1..1 + BLOCK], phase := S0S1S2Sent), Ok(1 + BLOCK))
    else if p.phase == S0S1S2Sent then
      if |d| < BLOCK then Outcome(p, Err(NotEnoughData)) else Outcome(p.(phase := Done), Ok(BLOCK))
    else Outcome(p, Err(InvalidState))
  }

  function ProcessServer(p: Progress, d: seq<byte>): (r: Outcome)
    ensures r.result.Ok? ==> r.result.value == 1 + 2 * BLOCK <= |d|
  {
    if p.phase != C0C1Sent then Outcome(p, Err(InvalidState))
    else if |d| < 1 + 2 * BLOCK then Outcome(p, Err(NotEnoughData))
    else if d[0] != VERSION then Outcome(p, Err(InvalidVersion))
    else Outcome(p.(s1 := d[1..1 + BLOCK], phase := Done), Ok(1 + 2 * BLOCK))
  }

  /** The handshake object of a session. */
  class Handshake {
    var state: Phase
    var c1: seq<byte>
    var s1: seq<byte>

    function Now(): Progress
      reads this
    {
      Progress(state, c1, s1)
    }

    constructor ()
      ensures Now() == Progress(Uninitialized, [], [])
    {
      state, c1, s1 := Uninitialized, [], [];
    }

    /** The block is the client's choice: zeros and random bytes. */
    method GenerateC0C1(block: seq<byte>) returns (data: seq<byte>)
      requires |block| == BLOCK
      modifies this
      ensures data == [VERSION] + block && Now() == old(Now()).(phase := C0C1Sent, c1 := block)
      ensures |data| == 1537 && data[0] == 3
    {
      data := [VERSION] + block;
      c1 := data[1..];
      state := C0C1Sent;
    }

    /** The answer repeats the client's block behind the server's own. */
    method GenerateS0S1S2(block: seq<byte>, clientBlock: seq<byte>) returns (data: seq<byte>)
      requires |block| == BLOCK && |clientBlock| >= BLOCK
      modifies this
      ensures data == [VERSION] + block + clientBlock[..BLOCK]
      ensures Now() == old(Now()).(phase := S0S1S2Sent, s1 := block)
      ensures |data| == 3073 && data[0] == 3
    {
      data := [VERSION] + block;
      s1 := data[1..1 + BLOCK];
      data := data + clientBlock[..BLOCK];
      state := S0S1S2Sent;
    }

    method GenerateC2(serverBlock: seq<byte>) returns (data: seq<byte>)
      requires |serverBlock| >= BLOCK
      modifies this
      ensures data == serverBlock[..BLOCK] && Now() == old(Now()).(phase := Done) && |data| == 1536
    {
      data := serverBlock[..BLOCK];
      state := Done;
    }

    method ProcessClientHandshake(data: seq<byte>) returns (r: Result<nat, HandshakeError>)
      modifies this
      ensures Outcome(Now(), r) == ProcessClient(old(Now()), data)
    {
      if state == Uninitialized {
        if |data| < 1 + BLOCK {
          return Err(NotEnoughData);
        }
        if data[0] != VERSION {
          return Err(InvalidVersion);
        }
        c1 := data[1..1 + BLOCK];
        state := S0S1S2Sent;
        if |data| >= 1 + BLOCK + BLOCK {
          state := Done;
          return Ok(1 + BLOCK + BLOCK);
        }
        return Ok(1 + BLOCK);
      } else if state == S0S1S2Sent {
        if |data| < BLOCK {
          return Err(NotEnoughData);
        }
        state := Done;
        return Ok(BLOCK);
      }
      return Err(InvalidState);
    }

    method ProcessServerHandshake(data: seq<byte>) returns (r: Result<nat, HandshakeError>)
      modifies this
      ensures Outcome(Now(), r) == ProcessServer(old(Now()), data)
    {
      if state == C0C1Sent {
        if |data| < 1 + BLOCK + BLOCK {
          return Err(NotEnoughData);
        }
        if data[0] != VERSION {
          return Err(InvalidVersion);
        }
        s1 := data[1..1 + BLOCK];
        state := Done;
        return Ok(1 + BLOCK + BLOCK);
      }
      return Err(InvalidState);
    }
  }

  /** Why a step fails: too few bytes, then another version than 3; or there is nothing to do in this state. */
  lemma StepErrors(p: Progress, d: seq<byte>)
    ensures p.phase == Uninitialized ==>
              && (ProcessClient(p, d).result == Err(NotEnoughData) <==> |d| < 1537)
              && (ProcessClient(p, d).result == Err(InvalidVersion) <==> |d| >= 1537 && d[0] != 3)
    ensures p.phase == S0S1S2Sent ==>
              && (ProcessClient(p, d).result == Err(NotEnoughData) <==> |d| < 1536)
              && ProcessClient(p, d).result != Err(InvalidVersion)
    ensures ProcessClient(p, d).result == Err(InvalidState) <==> p.phase == C0C1Sent || p.phase == Done
    ensures p.phase == C0C1Sent ==>
              && (ProcessServer(p, d).result == Err(NotEnoughData) <==> |d| < 3073)
              && (ProcessServer(p, d).result == Err(InvalidVersion) <==> |d| >= 3073 && d[0] != 3)
    ensures ProcessServer(p, d).result == Err(InvalidState) <==> p.phase != C0C1Sent
    ensures ProcessClient(p, d).result.Err? ==> ProcessClient(p, d).progress == p
    ensures ProcessServer(p, d).result.Err? ==> ProcessServer(p, d).progress == p
  {
  }

  /** What the steps use up and remember. */
  lemma StepsTaken(p: Progress, d: seq<byte>)
    ensures p.phase == Uninitialized && |d| >= 1537 && d[0] == 3 ==>
              ProcessClient(p, d) == Outcome(p.(c1 := d[1..1537], phase := if |d| >= 3073 then Done else S0S1S2Sent),
                                             Ok(if |d| >= 3073 then 3073 else 1537))
    ensures p.phase == S0S1S2Sent && |d| >= 1536 ==> ProcessClient(p, d) == Outcome(p.(phase := Done), Ok(1536))
    ensures p.phase == C0C1Sent && |d| >= 3073 && d[0] == 3 ==>
              ProcessServer(p, d) == Outcome(p.(s1 := d[1..1537], phase := Done), Ok(3073))
  {
  }
}
