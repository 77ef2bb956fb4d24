/** The framing loops of the video encoder and of the transcoder's input. */
module AvcCodec {
  import opened Bytes
  import opened Wrappers
  import opened Avc

  // ---- Encoder output: start codes become length prefixes

  /** What one piece contributes to the packet. */
  function Packed(piece: seq<byte>): seq<byte> {
    var n := StartCodeLength(piece);
    if n == 0 || n == |piece| then [] else WriteU32Be((|piece| - n) % WORD) + piece[n..]
  }

  function PackedAll(pieces: seq<seq<byte>>): seq<byte> {
    if pieces == [] then [] else Packed(pieces[0]) + PackedAll(pieces[1..])
  }

  lemma {:induction false} PackedIsAvcc(pieces: seq<seq<byte>>)
    ensures PackedAll(pieces) == Avcc(Units(pieces))
  {
    hide StartCodeLength, WriteU32Be;
    if pieces != [] {
      PackedIsAvcc(pieces[1..]);
      var n := StartCodeLength(pieces[0]);
      if n == 0 || n == |pieces[0]| {
        assert Units(pieces) == Units(pieces[1..]);
      } else {
        assert Units(pieces)[0] == pieces[0][n..] && Units(pieces)[1..] == Units(pieces[1..]);
      }
    }
  }

  lemma {:induction false} PackedAllConcat(a: seq<seq<byte>>, b: seq<seq<byte>>)
    ensures PackedAll(a + b) == PackedAll(a) + PackedAll(b)
  {
    hide Packed;
    if a == [] {
      assert a + b == b;
    } else {
      assert (a + b)[0] == a[0] && (a + b)[1..] == a[1..] + b;
      PackedAllConcat(a[1..], b);
    }
  }

  /** The units of all layers, each behind its length; pieces without a start code or without content are left out. */
  method Repackage(layers: seq<Layer>) returns (data: seq<byte>)
    requires forall l :: l in layers ==> ValidLayer(l)
    ensures data == Avcc(Units(AllPieces(layers)))
  {
    hide AllPieces, PackedAll, Pieces;
    PackedIsAvcc(AllPieces(layers));
    hide Avcc, Units;
    data := [];
    assert layers[0..] == layers;
    for i := 0 to |layers|
      invariant data + PackedAll(AllPieces(layers[i..])) == PackedAll(AllPieces(layers))
    {
      LayersFrom(data, layers, i);
      assert layers[i] in layers;
      data := RepackageLayer(layers[i], data);
    }
    assert layers[|layers|..] == [];
    NoLayers(data);
  }

  lemma NoLayers(data: seq<byte>)
    ensures data + PackedAll(AllPieces([])) == data
  {
  }

  lemma LayersFrom(data: seq<byte>, layers: seq<Layer>, i: nat)
    requires i < |layers| && forall l :: l in layers ==> ValidLayer(l)
    ensures ValidLayer(layers[i])
    ensures data + PackedAll(AllPieces(layers[i..]))
         == (data + PackedAll(Pieces(layers[i].buf, layers[i].lengths))) + PackedAll(AllPieces(layers[i + 1..]))
  {
    hide PackedAll;
    assert layers[i] in layers && layers[i..][0] == layers[i] && layers[i..][1..] == layers[i + 1..];
    PackedAllConcat(Pieces(layers[i].buf, layers[i].lengths), AllPieces(layers[i + 1..]));
  }

  method RepackageLayer(layer: Layer, before: seq<byte>) returns (data: seq<byte>)
    requires ValidLayer(layer)
    ensures data == before + PackedAll(Pieces(layer.buf, layer.lengths))
  {
    hide Pieces, PackedAll, Packed, Avc.Sum;
    data := before;
    var nalPtr: nat := 0;
    ghost var whole := before + PackedAll(Pieces(layer.buf, layer.lengths));
    assert layer.buf[0..] == layer.buf && layer.lengths[0..] == layer.lengths;
    for nal := 0 to |layer.lengths|
      invariant nalPtr <= |layer.buf| && Avc.Sum(layer.lengths[nal..]) <= |layer.buf[nalPtr..]|
      invariant data + PackedAll(Pieces(layer.buf[nalPtr..], layer.lengths[nal..])) == whole
    {
      PiecesFrom(data, layer, nal, nalPtr);
      var sizeWithStartCode := layer.lengths[nal];
      var piece := layer.buf[nalPtr..nalPtr + sizeWithStartCode];
      nalPtr := nalPtr + sizeWithStartCode;
      data := RepackagePiece(piece, data);
    }
    assert layer.lengths[|layer.lengths|..] == [];
    NoPieces(data, layer.buf[nalPtr..]);
  }

  method RepackagePiece(piece: seq<byte>, before: seq<byte>) returns (data: seq<byte>)
    requires |piece| < 0x8000_0000
    ensures data == before + Packed(piece)
  {
    hide WriteU32Be;
    data := before;
    var startCode := StartCodeLength(piece);
    if startCode == 0 {
      return;
    }
    var nalSize := |piece| - startCode;
    if nalSize <= 0 {
      return;
    }
    data := data + WriteU32Be(nalSize);
    data := data + piece[startCode..];
  }

  lemma NoPieces(data: seq<byte>, buf: seq<byte>)
    ensures data + PackedAll(Pieces(buf, [])) == data
  {
  }

  lemma PiecesFrom(data: seq<byte>, layer: Layer, nal: nat, ptr: nat)
    requires nal < |layer.lengths| && ptr <= |layer.buf| && Avc.Sum(layer.lengths[nal..]) <= |layer.buf[ptr..]|
    ensures var next := ptr + layer.lengths[nal];
            var others := layer.lengths[nal + 1..];
            && next <= |layer.buf| && Avc.Sum(others) <= |layer.buf[next..]|
            && data + PackedAll(Pieces(layer.buf[ptr..], layer.lengths[nal..]))
                 == (data + Packed(layer.buf[ptr..next])) + PackedAll(Pieces(layer.buf[next..], others))
  {
    hide Packed;
    var lengths, buf := layer.lengths[nal..], layer.buf[ptr..];
    assert lengths[0] == layer.lengths[nal] && lengths[1..] == layer.lengths[nal + 1..];
    var next := ptr + layer.lengths[nal];
    assert buf[..lengths[0]] == layer.buf[ptr..next] && buf[lengths[0]..] == layer.buf[next..];
    var ps := Pieces(buf, lengths);
    assert ps[0] == layer.buf[ptr..next] && ps[1..] == Pieces(layer.buf[next..], layer.lengths[nal + 1..]);
  }

  method BuildFlvVideoPacket(keyframe: bool, packet: seq<byte>) returns (flv: seq<byte>)
    ensures flv == FlvVideo(keyframe, packet)
  {
    var frameType: byte := if keyframe then 0x10 else 0x20;
    flv := [(frameType as int) + 0x07];
    flv := flv + [0x01];
    flv := flv + [0x00, 0x00, 0x00];
    flv := flv + packet;
  }

  /** Profile, compatibility and level: bytes 1 to 3 of the SPS, or fixed values if it is too short. */
  method AppendProfile(before: seq<byte>, sps: seq<byte>) returns (flv: seq<byte>)
    ensures flv == before + Profile(sps)
  {
    if |sps| >= 4 {
      flv := before + [sps[1]];
      flv := flv + [sps[2]];
      flv := flv + [sps[3]];
    } else {
      flv := before + [0x42];
      flv := flv + [0x00];
      flv := flv + [0x1E];
    }
  }

  method AppendCounted(before: seq<byte>, paramSet: seq<byte>) returns (flv: seq<byte>)
    ensures flv == before + Counted(paramSet)
  {
    var len: u16 := |paramSet| % 0x1_0000;
    flv := before + [len / 0x100];
    flv := flv + [len % 0x100];
    flv := flv + paramSet;
  }

  method BuildAvcDecoderConfig(sps: seq<byte>, pps: seq<byte>) returns (flv: seq<byte>)
    ensures flv == FlvConfig(sps, pps)
  {
    hide Profile, Counted;
    flv := [0x17, 0x00, 0x00, 0x00, 0x00];
    flv := flv + [0x01];
    flv := AppendProfile(flv, sps);
    flv := flv + [0xFF, 0xE1];
    flv := AppendCounted(flv, sps);
    flv := flv + [0x01];
    flv := AppendCounted(flv, pps);
  }

  // ---- Transcoder input: length prefixes become start codes

  class VideoInput {
    var naluLengthSize: nat
    /** The buffers given to the decoder. */
    var fed: seq<seq<byte>>

    function Now(): Receiver
      reads this
    {
      Receiver(naluLengthSize, fed)
    }

    constructor ()
      ensures Now() == Receiver(4, [])
    {
      naluLengthSize, fed := 4, [];
    }

    method OnVideo(data: seq<byte>)
      requires ValidReceiver(Now())
      modifies this
      ensures ValidReceiver(Now()) && Now() == OnVideoData(old(Now()), data)
    {
      if |data| < 5 {
        return;
      }
      if data[0] % 16 != 7 {
        return;
      }
      if data[1] == 0 {
        ParseAvcDecoderConfig(data[5..]);
      } else if data[1] == 1 {
        var annexB := ToAnnexB(naluLengthSize, data[5..]);
        fed := fed + [annexB];
      }
    }

    method ParseAvcDecoderConfig(data: seq<byte>)
      modifies this
      ensures Now() == ParseConfig(old(Now()), data)
    {
      hide ReadSets;
      if |data| < 7 {
        return;
      }
      naluLengthSize := data[4] % 4 + 1;
      var offset := FeedSets(data[5] % 32, data, 6);
      if offset < |data| {
        offset := FeedSets(data[offset], data, offset + 1);
      } else {
        assert Prefixed([]) == [] && fed + [] == fed;
      }
    }

    /** Feeds up to the given number of parameter sets to the decoder. */
    method FeedSets(count: nat, data: seq<byte>, start: nat) returns (offset: nat)
      requires start <= |data|
      modifies this`fed
      ensures var r := ReadSets(count, data[start..]);
              offset == start + r.used <= |data| && fed == old(fed) + Prefixed(r.found)
    {
      hide ReadSets, Prefixed;
      NothingPrefixed();
      offset := start;
      ghost var whole := ReadSets(count, data[start..]);
      ghost var found: seq<seq<byte>> := [];
      var i := 0;
      while i < count && offset + 2 <= |data|
        invariant i <= count && start <= offset <= |data|
        invariant fed == old(fed) + Prefixed(found)
        invariant var r := ReadSets(count - i, data[offset..]);
                  whole == Sets(found + r.found, offset - start + r.used)
        decreases count - i
      {
        SetAt(count - i, data, offset);
        var len := ReadU16Be(data, offset);
        offset := offset + 2;
        if offset + len <= |data| {
          fed := fed + [[0x00, 0x00, 0x00, 0x01] + data[offset..offset + len]];
          ghost var one := data[offset..offset + len];
          PrefixedSnoc(found, one);
          offset := offset + len;
          ghost var r := ReadSets(count - i - 1, data[offset..]);
          assert found + ([one] + r.found) == (found + [one]) + r.found;
          found := found + [one];
        }
        i := i + 1;
      }
      NoSetAt(count - i, data, offset);
      assert found + [] == found;
    }
  }

  lemma NoSetAt(count: nat, data: seq<byte>, at: nat)
    requires at <= |data| && (count == 0 || at + 2 > |data|)
    ensures ReadSets(count, data[at..]) == Sets([], 0)
  {
  }

  lemma NothingPrefixed()
    ensures Prefixed([]) == []
  {
  }

  lemma PrefixedSnoc(found: seq<seq<byte>>, one: seq<byte>)
    ensures Prefixed(found + [one]) == Prefixed(found) + [START_CODE + one]
  {
  }

  lemma SetAt(count: nat, data: seq<byte>, at: nat)
    requires count > 0 && at + 2 <= |data|
    ensures var r, len := ReadSets(count, data[at..]), ReadU16Be(data, at);
            if at + 2 + len <= |data| then
              var later := ReadSets(count - 1, data[at + 2 + len..]);
              r == Sets([data[at + 2..at + 2 + len]] + later.found, 2 + len + later.used)
            else
              var later := ReadSets(count - 1, data[at + 2..]);
              r == Sets(later.found, 2 + later.used)
  {
    var d, len := data[at..], ReadU16Be(data, at);
    assert ReadU16Be(d, 0) == len;
    if at + 2 + len <= |data| {
      assert d[2..2 + len] == data[at + 2..at + 2 + len] && d[2 + len..] == data[at + 2 + len..];
    } else {
      assert d[2..] == data[at + 2..];
    }
  }

  /** The unit loop: reads a length, copies the unit behind a start code, stops at one that is cut short. */
  method ToAnnexB(lengthSize: nat, data: seq<byte>) returns (annexB: seq<byte>)
    requires 1 <= lengthSize <= 4
    ensures annexB == Unpack(lengthSize, data)
  {
    hide ReadLength, Unpack;
    annexB := [];
    var offset := 0;
    assert data[0..] == data && [] + Unpack(lengthSize, data) == Unpack(lengthSize, data);
    while offset + lengthSize <= |data|
      invariant 0 <= offset <= |data|
      invariant annexB + Unpack(lengthSize, data[offset..]) == Unpack(lengthSize, data)
      decreases |data| - offset
    {
      ghost var at, before := offset, annexB;
      var naluLen := ReadPrefix(lengthSize, data, offset);
      UnitAt(lengthSize, data, at, before);
      offset := offset + lengthSize;
      if offset + naluLen > |data| {
        return;
      }
      annexB := annexB + [0x00, 0x00, 0x00, 0x01];
      annexB := annexB + data[offset..offset + naluLen];
      offset := offset + naluLen;
    }
    NoUnit(lengthSize, data[offset..], annexB);
  }

  lemma NoUnit(n: nat, d: seq<byte>, before: seq<byte>)
    requires |d| < n
    ensures before + Unpack(n, d) == before
  {
  }

  /** The big-endian length at an offset; four bytes at most, so that it fits into 32 bits. */
  method ReadPrefix(lengthSize: nat, data: seq<byte>, offset: nat) returns (len: nat)
    requires 1 <= lengthSize <= 4 && offset + lengthSize <= |data|
    ensures len == ReadLength(data[offset..offset + lengthSize]) && len < WORD
  {
    hide ReadLength;
    assert ReadLength(data[offset..offset]) == 0 by { NoLength(data[offset..offset]); }
    len := 0;
    for i := 0 to lengthSize
      invariant len == ReadLength(data[offset..offset + i])
      invariant (i == 0 ==> len == 0) && (i == 1 ==> len < 0x100) && (i == 2 ==> len < 0x1_0000)
             && (i == 3 ==> len < 0x100_0000) && len < WORD
    {
      ReadLengthSnoc(data, offset, i);
      len := 256 * len + data[offset + i];
    }
  }

  lemma NoLength(d: seq<byte>)
    requires d == []
    ensures ReadLength(d) == 0
  {
  }

  lemma ReadLengthSnoc(data: seq<byte>, at: nat, i: nat)
    requires at + i < |data|
    ensures ReadLength(data[at..at + i + 1]) == 256 * ReadLength(data[at..at + i]) + data[at + i]
  {
    var e := data[at..at + i + 1];
    assert |e| == i + 1 && e[i] == data[at + i];
    assert e[..i] == data[at..at + i];
  }

  /** The first unit, or its absence. */
  lemma FirstUnit(n: nat, d: seq<byte>)
    requires 0 < n <= |d|
    ensures var next := n + ReadLength(d[..n]);
            if next > |d| then Unpack(n, d) == []
            else Unpack(n, d) == Framed(d[n..next], Unpack(n, d[next..]))
  {
    hide ReadLength, Framed;
  }

  lemma UnitAt(n: nat, data: seq<byte>, at: nat, before: seq<byte>)
    requires n > 0 && at + n <= |data|
    ensures var next := at + n + ReadLength(data[at..at + n]);
            before + Unpack(n, data[at..])
              == if next > |data| then before
                 else ((before + START_CODE) + data[at + n..next]) + Unpack(n, data[next..])
  {
    hide ReadLength, Unpack, Framed;
    var d := data[at..];
    FirstUnit(n, d);
    assert d[..n] == data[at..at + n];
    var len := ReadLength(data[at..at + n]);
    if at + n + len <= |data| {
      SliceOfRest(data, at, n, n + len);
      Appended(before, data[at + n..at + n + len], Unpack(n, data[at + n + len..]));
    }
  }

  lemma SliceOfRest(data: seq<byte>, at: nat, i: nat, j: nat)
    requires i <= j && at + j <= |data|
    ensures data[at..][i..j] == data[at + i..at + j] && data[at..][j..] == data[at + j..]
  {
  }

  lemma Appended(before: seq<byte>, unit: seq<byte>, others: seq<byte>)
    ensures before + Framed(unit, others) == ((before + START_CODE) + unit) + others
  {
  }
}
