/** RTMP messages and the fixed-size protocol control payloads. */
module Messages {
  import opened Bytes
  import opened Wrappers

  const SET_CHUNK_SIZE: byte := 1
  const WINDOW_ACK_SIZE: byte := 5
  const SET_PEER_BANDWIDTH: byte := 6
  const AUDIO: byte := 8
  const VIDEO: byte := 9
  const DATA_AMF0: byte := 18
  const COMMAND_AMF0: byte := 20

  datatype Message = Message(typeId: byte, timestamp: u32, streamId: u32, payload: seq<byte>)

  /** The size announced by a SetChunkSize payload; the top bit is masked off. */
  function ParseSetChunkSize(payload: seq<byte>): Option<u32> {
    if |payload| < 4 then None else Some(ReadU32Be(payload, 0) % 0x8000_0000)
  }

  function EncodeSetChunkSize(size: u32): (payload: seq<byte>)
    ensures |payload| == 4
  {
    WriteU32Be(size % 0x8000_0000)
  }

  function EncodeWindowAckSize(size: u32): (payload: seq<byte>)
    ensures |payload| == 4
  {
    WriteU32Be(size)
  }

  function EncodeSetPeerBandwidth(size: u32, limitType: byte): (payload: seq<byte>)
    ensures |payload| == 5
  {
    WriteU32Be(size) + [limitType]
  }

  /** The receiver reads back the size the sender meant exactly when its top bit is clear. */
  lemma SetChunkSizeRoundTrip(size: u32)
    ensures ParseSetChunkSize(EncodeSetChunkSize(size)) == Some(size) <==> size < 0x8000_0000
    ensures ParseSetChunkSize(EncodeSetChunkSize(size)) == Some(size % 0x8000_0000)
  {
    hide ReadU32Be, WriteU32Be;
    var p := EncodeSetChunkSize(size);
    ReadsU32Be(p, 0, size % 0x8000_0000);
    assert p[0..4] == p;
  }

  /** The window size stands in front, and the limit type behind it. */
  lemma WindowPayloads(size: u32, limitType: byte)
    ensures ReadU32Be(EncodeWindowAckSize(size), 0) == size
    ensures ReadU32Be(EncodeSetPeerBandwidth(size, limitType), 0) == size
    ensures EncodeSetPeerBandwidth(size, limitType)[4] == limitType
  {
    hide ReadU32Be, WriteU32Be;
    var p, q := EncodeWindowAckSize(size), EncodeSetPeerBandwidth(size, limitType);
    assert p[0..4] == p && q[0..4] == WriteU32Be(size);
    ReadsU32Be(p, 0, size);
    ReadsU32Be(q, 0, size);
  }
}
