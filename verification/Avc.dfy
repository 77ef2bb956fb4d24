/** H.264 framing: start codes, length prefixes and the AVC decoder configuration record. */
module Avc {
  import opened Bytes
  import opened Wrappers

  const START_CODE: seq<byte> := [0, 0, 0, 1]

  // ---- The sending side

  /** The length of the start code in front of a NAL unit; zero if there is none. */
  function StartCodeLength(d: seq<byte>): (n: nat)
    ensures n <= |d|
    ensures n == 0 || n == 3 || n == 4
  {
    if |d| >= 4 && d[0] == 0 && d[1] == 0 && d[2] == 0 && d[3] == 1 then 4
    else if |d| >= 3 && d[0] == 0 && d[1] == 0 && d[2] == 1 then 3
    else 0
  }

  /** One layer of an encoded frame: a buffer with NAL units one behind the other, and their lengths. */
  datatype Layer = Layer(buf: seq<byte>, lengths: seq<nat>)

  function Sum(ns: seq<nat>): nat {
    if ns == [] then 0 else ns[0] + Sum(ns[1..])
  }

  predicate ValidLayer(l: Layer) {
    Sum(l.lengths) <= |l.buf| < 0x8000_0000
  }

  /** The NAL units of a layer, start codes included. */
  function Pieces(buf: seq<byte>, lengths: seq<nat>): (ps: seq<seq<byte>>)
    requires Sum(lengths) <= |buf|
    decreases |lengths|
  {
    if lengths == [] then [] else [buf[..lengths[0]]] + Pieces(buf[lengths[0]..], lengths[1..])
  }

  function AllPieces(layers: seq<Layer>): seq<seq<byte>>
    requires forall l :: l in layers ==> ValidLayer(l)
  {
    if layers == [] then []
    else
      assert ValidLayer(layers[0]);
      Pieces(layers[0].buf, layers[0].lengths) + AllPieces(layers[1..])
  }

  /** The NAL units proper: what stands behind a start code, if anything does. */
  function Units(pieces: seq<seq<byte>>): seq<seq<byte>> {
    if pieces == [] then []
    else
      var n := StartCodeLength(pieces[0]);
      (if n == 0 || n == |pieces[0]| then [] else [pieces[0][n..]]) + Units(pieces[1..])
  }

  /** Units behind four-byte lengths. */
  function Avcc(units: seq<seq<byte>>): seq<byte> {
    if units == [] then [] else WriteU32Be(|units[0]| % WORD) + units[0] + Avcc(units[1..])
  }

  /** A unit behind its start code, in front of others. */
  function Framed(unit: seq<byte>, others: seq<byte>): seq<byte> {
    START_CODE + unit + others
  }

  /** Units behind start codes. */
  function AnnexB(units: seq<seq<byte>>): seq<byte> {
    if units == [] then [] else Framed(units[0], AnnexB(units[1..]))
  }

  function FlvVideo(keyframe: bool, data: seq<byte>): seq<byte> {
    [if keyframe then 0x17 else 0x27, 1, 0, 0, 0] + data
  }

  function Profile(sps: seq<byte>): (p: seq<byte>)
    ensures |p| == 3
  {
    if |sps| >= 4 then sps[1..4] else [0x42, 0x00, 0x1E]
  }

  /** A parameter set behind its length, which is cut to 16 bits. */
  function Counted(paramSet: seq<byte>): seq<byte> {
    WriteU16Be(|paramSet| % 0x1_0000) + paramSet
  }

  function ConfigRecord(sps: seq<byte>, pps: seq<byte>): seq<byte> {
    [1] + Profile(sps) + [0xFF, 0xE1] + Counted(sps) + [1] + Counted(pps)
  }

  /** The sequence header message: an FLV tag around the record. */
  function FlvConfig(sps: seq<byte>, pps: seq<byte>): seq<byte> {
    [0x17, 0, 0, 0, 0] + ConfigRecord(sps, pps)
  }

  // ---- The receiving side

  /** The length size in force and the buffers the decoder has been given. */
  datatype Receiver = Receiver(lengthSize: nat, fed: seq<seq<byte>>)

  predicate ValidReceiver(r: Receiver) {
    1 <= r.lengthSize <= 4
  }

  function ReadLength(d: seq<byte>): nat {
    if d == [] then 0 else 256 * ReadLength(d[..|d| - 1]) + d[|d| - 1]
  }

  /** Length prefixes become start codes; a unit that is cut short ends the data. */
  function Unpack(n: nat, d: seq<byte>): seq<byte>
    requires n > 0
    decreases |d|
  {
    if |d| < n then []
    else
      var len := ReadLength(d[..n]);
      if n + len > |d| then []
      else Framed(d[n..n + len], Unpack(n, d[n + len..]))
  }

  /** Parameter sets read from a record: what was found, and how far it reached. */
  datatype Sets = Sets(found: seq<seq<byte>>, used: nat)

  /** Reads up to the given number of sets; one that is cut short is skipped with its length alone. */
  function ReadSets(count: nat, d: seq<byte>): (r: Sets)
    ensures r.used <= |d|
  {
    if count == 0 || |d| < 2 then Sets([], 0)
    else
      var len := ReadU16Be(d, 0);
      if 2 + len <= |d| then
        var r := ReadSets(count - 1, d[2 + len..]);
        Sets([d[2..2 + len]] + r.found, 2 + len + r.used)
      else
        var r := ReadSets(count - 1, d[2..]);
        Sets(r.found, 2 + r.used)
  }

  function Prefixed(units: seq<seq<byte>>): seq<seq<byte>> {
    seq(|units|, i requires 0 <= i < |units| => START_CODE + units[i])
  }

  function ParseConfig(r: Receiver, d: seq<byte>): (r': Receiver)
    ensures ValidReceiver(r) ==> ValidReceiver(r')
  {
    if |d| < 7 then r
    else
      var sps := ReadSets(d[5] % 32, d[6..]);
      var at := 6 + sps.used;
      var pps := if at < |d| then ReadSets(d[at], d[at + 1..]) else Sets([], 0);
      Receiver(d[4] % 4 + 1, r.fed + Prefixed(sps.found) + Prefixed(pps.found))
  }

  function OnVideoData(r: Receiver, d: seq<byte>): (r': Receiver)
    requires ValidReceiver(r)
    ensures ValidReceiver(r')
  {
    if |d| < 5 || d[0] % 16 != 7 then r
    else if d[1] == 0 then ParseConfig(r, d[5..])
    else if d[1] == 1 then r.(fed := r.fed + [Unpack(r.lengthSize, d[5..])])
    else r
  }

  function OnAll(r: Receiver, tags: seq<seq<byte>>): Receiver
    requires ValidReceiver(r)
    decreases |tags|
  {
    if tags == [] then r else OnAll(OnVideoData(r, tags[0]), tags[1..])
  }

  // ---- Units through lengths and back

  /** A length in n bytes, most significant first. */
  function WriteLength(n: nat, v: nat): (d: seq<byte>)
    ensures |d| == n
  {
    if n == 0 then [] else WriteLength(n - 1, v / 256) + [v % 256]
  }

  function Limit(n: nat): nat {
    if n == 0 then 1 else 256 * Limit(n - 1)
  }

  lemma {:induction false} LengthReadsBack(n: nat, v: nat)
    requires v < Limit(n)
    ensures ReadLength(WriteLength(n, v)) == v
  {
    if n > 0 {
      var d := WriteLength(n, v);
      assert d[..n - 1] == WriteLength(n - 1, v / 256);
      LengthReadsBack(n - 1, v / 256);
    }
  }

  lemma FourByteLength(v: u32)
    ensures WriteLength(4, v) == WriteU32Be(v) && v < Limit(4)
  {
    var hi, lo := v / 0x1_0000, v % 0x1_0000;
    assert WriteLength(0, 0) == [];
    assert WriteLength(1, v / 0x100_0000) == [v / 0x100_0000];
    assert v / 0x1_0000 / 256 == v / 0x100_0000;
    assert WriteLength(2, hi) == [v / 0x100_0000, hi % 256];
    assert v / 0x100 / 256 == hi && v / 0x100 % 256 == lo / 256 && lo % 256 == v % 256;
    assert WriteLength(3, v / 0x100) == [v / 0x100_0000, hi % 256, lo / 256];
    assert Limit(2) == 0x1_0000 && Limit(3) == 0x100_0000;
  }

  /** Units behind lengths of n bytes, as a configuration record may announce them. */
  function LengthPrefixed(n: nat, units: seq<seq<byte>>): seq<byte> {
    if units == [] then [] else WriteLength(n, |units[0]|) + units[0] + LengthPrefixed(n, units[1..])
  }

  lemma UnpackOne(n: nat, u: seq<byte>, rest: seq<byte>)
    requires n > 0 && |u| < Limit(n)
    ensures Unpack(n, WriteLength(n, |u|) + u + rest) == Framed(u, Unpack(n, rest))
  {
    hide ReadLength, WriteLength, Limit, Framed;
    var d := WriteLength(n, |u|) + u + rest;
    assert d[..n] == WriteLength(n, |u|);
    LengthReadsBack(n, |u|);
    assert d[n..n + |u|] == u;
    assert d[n + |u|..] == rest;
  }

  lemma CutUnitIsDropped(n: nat, last: seq<byte>, kept: nat)
    requires n > 0 && |last| < Limit(n) && kept < n + |last|
    ensures Unpack(n, (WriteLength(n, |last|) + last)[..kept]) == []
  {
    hide ReadLength, WriteLength, Limit;
    var tail := (WriteLength(n, |last|) + last)[..kept];
    if kept >= n {
      assert tail[..n] == WriteLength(n, |last|);
      LengthReadsBack(n, |last|);
    }
  }

  /**
    * For every length size the units come out in order behind start codes; a last unit whose end is missing is
    * dropped and does not disturb the units before it.
    */
  lemma {:induction false} UnitsUnpacked(n: nat, units: seq<seq<byte>>, last: seq<byte>, kept: nat)
    requires n > 0 && forall u :: u in units ==> |u| < Limit(n)
    requires |last| < Limit(n) && kept < n + |last|
    ensures Unpack(n, LengthPrefixed(n, units) + (WriteLength(n, |last|) + last)[..kept]) == AnnexB(units)
    decreases |units|
  {
    hide Unpack, WriteLength, Limit, Framed;
    var tail := (WriteLength(n, |last|) + last)[..kept];
    if units == [] {
      assert LengthPrefixed(n, units) + tail == tail;
      CutUnitIsDropped(n, last, kept);
    } else {
      assert units[0] in units;
      var rest := LengthPrefixed(n, units[1..]) + tail;
      assert LengthPrefixed(n, units) + tail == WriteLength(n, |units[0]|) + units[0] + rest;
      UnpackOne(n, units[0], rest);
      UnitsUnpacked(n, units[1..], last, kept);
    }
  }

  lemma {:induction false} AvccIsFourByte(units: seq<seq<byte>>)
    requires forall u :: u in units ==> |u| < WORD
    ensures LengthPrefixed(4, units) == Avcc(units) && forall u :: u in units ==> |u| < Limit(4)
    decreases |units|
  {
    hide WriteLength, WriteU32Be, Limit, Avcc, LengthPrefixed;
    if units == [] {
      NoUnits();
    } else {
      assert units[0] in units;
      assert forall u :: u in units[1..] ==> u in units;
      FourByteLength(|units[0]|);
      AvccIsFourByte(units[1..]);
      FirstOfUnits(units);
      assert units == [units[0]] + units[1..];
    }
  }

  lemma NoUnits()
    ensures LengthPrefixed(4, []) == Avcc([])
  {
  }

  lemma FirstOfUnits(units: seq<seq<byte>>)
    requires units != [] && |units[0]| < WORD && WriteLength(4, |units[0]|) == WriteU32Be(|units[0]|)
    requires LengthPrefixed(4, units[1..]) == Avcc(units[1..])
    ensures LengthPrefixed(4, units) == Avcc(units)
  {
    hide WriteLength, WriteU32Be;
  }

  lemma UnpackAvcc(units: seq<seq<byte>>)
    requires forall u :: u in units ==> |u| < WORD
    ensures Unpack(4, Avcc(units)) == AnnexB(units)
  {
    AvccIsFourByte(units);
    assert 0 < Limit(4);
    hide Unpack, WriteLength, Limit;
    UnitsUnpacked(4, units, [], 0);
    assert (WriteLength(4, 0) + [])[..0] == [];
    assert LengthPrefixed(4, units) + [] == LengthPrefixed(4, units);
  }

  lemma {:induction false} UnitsAreShort(pieces: seq<seq<byte>>)
    requires forall p :: p in pieces ==> |p| < WORD
    ensures forall u :: u in Units(pieces) ==> 0 < |u| < WORD
  {
    if pieces != [] {
      assert pieces[0] in pieces;
      UnitsAreShort(pieces[1..]);
    }
  }

  lemma PacketUnpacked(r: Receiver, keyframe: bool, units: seq<seq<byte>>)
    requires r.lengthSize == 4 && forall u :: u in units ==> |u| < WORD
    ensures OnVideoData(r, FlvVideo(keyframe, Avcc(units))) == r.(fed := r.fed + [AnnexB(units)])
  {
    hide Unpack, Avcc, AnnexB, FlvVideo, OnVideoData;
    UnpackAvcc(units);
    VideoTag(r, keyframe, Avcc(units));
  }

  lemma VideoTag(r: Receiver, keyframe: bool, data: seq<byte>)
    requires ValidReceiver(r)
    ensures OnVideoData(r, FlvVideo(keyframe, data)) == r.(fed := r.fed + [Unpack(r.lengthSize, data)])
  {
    hide Unpack;
    var d := FlvVideo(keyframe, data);
    assert d[5..] == data;
    assert d[0] % 16 == 7 && d[1] == 1;
  }

  // ---- The configuration record

  function CountedAll(sets: seq<seq<byte>>): seq<byte> {
    if sets == [] then [] else Counted(sets[0]) + CountedAll(sets[1..])
  }

  lemma FirstSetRead(count: nat, one: seq<byte>, rest: seq<byte>)
    requires count > 0 && |one| < 0x1_0000
    ensures var r := ReadSets(count - 1, rest);
            ReadSets(count, Counted(one) + rest) == Sets([one] + r.found, 2 + |one| + r.used)
  {
    var d := Counted(one) + rest;
    assert d[0..2] == WriteU16Be(|one|);
    ReadsU16Be(d, 0, |one|);
    assert d[2..2 + |one|] == one && d[2 + |one|..] == rest;
    hide WriteU16Be, ReadU16Be, Counted;
  }

  lemma {:induction false} SetsRead(sets: seq<seq<byte>>, tail: seq<byte>)
    requires forall x :: x in sets ==> |x| < 0x1_0000
    ensures ReadSets(|sets|, CountedAll(sets) + tail) == Sets(sets, |CountedAll(sets)|)
    decreases |sets|
  {
    hide ReadSets, Counted;
    if sets == [] {
      NoSetRead(tail);
    } else {
      var one, rest := sets[0], CountedAll(sets[1..]) + tail;
      assert one in sets;
      assert CountedAll(sets) + tail == Counted(one) + rest;
      FirstSetRead(|sets|, one, rest);
      SetsRead(sets[1..], tail);
      CountedLength(one);
      assert [one] + sets[1..] == sets;
      hide Counted, CountedAll, ReadSets;
    }
  }

  lemma NoSetRead(tail: seq<byte>)
    ensures ReadSets(0, CountedAll([]) + tail) == Sets([], 0)
  {
  }

  lemma CountedLength(one: seq<byte>)
    ensures |Counted(one)| == 2 + |one|
  {
  }

  /** A record as other encoders may write it: any length size and several parameter sets. */
  function AnyRecord(head: seq<byte>, lengthSize: nat, spss: seq<seq<byte>>, ppss: seq<seq<byte>>): seq<byte>
    requires 1 <= lengthSize <= 4 && |spss| < 32 && |ppss| < 256
  {
    head + [0xFC + (lengthSize - 1), 0xE0 + |spss|] + CountedAll(spss) + [|ppss|] + CountedAll(ppss)
  }

  lemma AnyRecordParts(head: seq<byte>, lengthSize: nat, spss: seq<seq<byte>>, ppss: seq<seq<byte>>)
    requires |head| == 4 && 1 <= lengthSize <= 4 && |spss| < 32 && |ppss| < 256
    ensures var d, n := AnyRecord(head, lengthSize, spss, ppss), |CountedAll(spss)|;
            && |d| >= 7 + n && d[4] == 0xFC + (lengthSize - 1) && d[5] == 0xE0 + |spss|
            && d[6..] == CountedAll(spss) + ([|ppss|] + CountedAll(ppss))
            && d[6 + n] == |ppss| && d[6 + n + 1..] == CountedAll(ppss)
  {
    hide CountedAll;
    var d := AnyRecord(head, lengthSize, spss, ppss);
    var front := head + [0xFC + (lengthSize - 1), 0xE0 + |spss|];
    assert d == front + (CountedAll(spss) + ([|ppss|] + CountedAll(ppss)));
  }

  /** All parameter sets are fed in order, and the length size is taken over. */
  lemma AnyRecordParsed(r: Receiver, head: seq<byte>, lengthSize: nat, spss: seq<seq<byte>>, ppss: seq<seq<byte>>)
    requires |head| == 4 && 1 <= lengthSize <= 4 && |spss| < 32 && |ppss| < 256
    requires (forall x :: x in spss ==> |x| < 0x1_0000) && (forall x :: x in ppss ==> |x| < 0x1_0000)
    ensures ParseConfig(r, AnyRecord(head, lengthSize, spss, ppss))
         == Receiver(lengthSize, r.fed + Prefixed(spss) + Prefixed(ppss))
  {
    hide ReadSets, CountedAll, Prefixed, AnyRecord;
    AnyRecordParts(head, lengthSize, spss, ppss);
    SetsRead(spss, [|ppss|] + CountedAll(ppss));
    SetsRead(ppss, []);
    assert CountedAll(ppss) + [] == CountedAll(ppss);
  }

  lemma OneSetRead(paramSet: seq<byte>, tail: seq<byte>)
    requires |paramSet| < 0x1_0000
    ensures ReadSets(1, Counted(paramSet) + tail) == Sets([paramSet], 2 + |paramSet|)
  {
  }

  lemma RecordParts(sps: seq<byte>, pps: seq<byte>)
    ensures var d := ConfigRecord(sps, pps);
            && |d| == 11 + |sps| + |pps| && d[4] == 0xFF && d[5] == 0xE1
            && d[6..] == Counted(sps) + ([1] + Counted(pps))
            && d[6 + 2 + |sps|] == 1 && d[6 + 2 + |sps| + 1..] == Counted(pps)
  {
  }

  lemma ConfigParsed(r: Receiver, sps: seq<byte>, pps: seq<byte>)
    requires ValidReceiver(r) && |sps| < 0x1_0000 && |pps| < 0x1_0000
    ensures OnVideoData(r, FlvConfig(sps, pps)) == Receiver(4, r.fed + [START_CODE + sps, START_CODE + pps])
  {
    hide ConfigRecord, OnVideoData, FlvConfig, Counted, ReadSets;
    ConfigTag(r, sps, pps);
    RecordParts(sps, pps);
    OneSetRead(sps, [1] + Counted(pps));
    OneSetRead(pps, []);
    assert Counted(pps) + [] == Counted(pps);
    var d := ConfigRecord(sps, pps);
    assert ReadSets(d[5] % 32, d[6..]) == Sets([sps], 2 + |sps|);
    RecordFeeds(r, d, sps, pps);
  }

  lemma RecordFeeds(r: Receiver, d: seq<byte>, sps: seq<byte>, pps: seq<byte>)
    requires |d| >= 7 && ReadSets(d[5] % 32, d[6..]) == Sets([sps], 2 + |sps|) && 8 + |sps| < |d|
    requires ReadSets(d[8 + |sps|], d[8 + |sps| + 1..]).found == [pps] && d[4] == 0xFF
    ensures ParseConfig(r, d) == Receiver(4, r.fed + [START_CODE + sps, START_CODE + pps])
  {
  }

  lemma ConfigTag(r: Receiver, sps: seq<byte>, pps: seq<byte>)
    requires ValidReceiver(r)
    ensures OnVideoData(r, FlvConfig(sps, pps)) == ParseConfig(r, ConfigRecord(sps, pps))
  {
  }

  lemma {:induction false} SetsAreShort(count: nat, d: seq<byte>)
    ensures forall x :: x in ReadSets(count, d).found ==> |x| < 0x1_0000
    decreases count
  {
    if count > 0 && |d| >= 2 {
      var len := ReadU16Be(d, 0);
      SetsAreShort(count - 1, if 2 + len <= |d| then d[2 + len..] else d[2..]);
    }
  }

  /** A record adds only short buffers to what the decoder has been fed. */
  lemma ConfigFeedsShort(r: Receiver, d: seq<byte>)
    ensures var r' := ParseConfig(r, d);
            r.fed <= r'.fed && forall i :: |r.fed| <= i < |r'.fed| ==> |r'.fed[i]| < 0x1_0000 + 4
  {
    hide ReadSets;
    if |d| >= 7 {
      var sps := ReadSets(d[5] % 32, d[6..]);
      SetsAreShort(d[5] % 32, d[6..]);
      var at := 6 + sps.used;
      if at < |d| {
        SetsAreShort(d[at], d[at + 1..]);
      }
    }
  }

  // ---- The main results

  /** One packet: whether it is a key frame, and the pieces the encoder produced. */
  datatype Packet = Packet(keyframe: bool, pieces: seq<seq<byte>>)

  function Tags(packets: seq<Packet>): seq<seq<byte>> {
    if packets == [] then []
    else [FlvVideo(packets[0].keyframe, Avcc(Units(packets[0].pieces)))] + Tags(packets[1..])
  }

  function Fed(packets: seq<Packet>): seq<seq<byte>> {
    if packets == [] then [] else [AnnexB(Units(packets[0].pieces))] + Fed(packets[1..])
  }

  predicate ShortPieces(packets: seq<Packet>) {
    forall p, x :: p in packets && x in p.pieces ==> |x| < WORD
  }

  lemma {:induction false} PacketsUnpacked(r: Receiver, packets: seq<Packet>)
    requires r.lengthSize == 4 && ShortPieces(packets)
    ensures OnAll(r, Tags(packets)) == Receiver(4, r.fed + Fed(packets))
    decreases |packets|
  {
    hide OnVideoData, Units, AnnexB, FlvVideo, Avcc, ShortPieces, OnAll, Tags, Fed;
    if packets == [] {
      NoPackets(r);
    } else {
      var units := Units(packets[0].pieces);
      ShortApart(packets);
      UnitsAreShort(packets[0].pieces);
      PacketUnpacked(r, packets[0].keyframe, units);
      OnFirst(r, packets);
      PacketsUnpacked(r.(fed := r.fed + [AnnexB(units)]), packets[1..]);
    }
  }

  lemma NoPackets(r: Receiver)
    requires ValidReceiver(r)
    ensures OnAll(r, Tags([])) == r && r.fed + Fed([]) == r.fed
  {
  }

  lemma OnFirst(r: Receiver, packets: seq<Packet>)
    requires ValidReceiver(r) && packets != []
    ensures var units := Units(packets[0].pieces);
            && OnAll(r, Tags(packets))
                 == OnAll(OnVideoData(r, FlvVideo(packets[0].keyframe, Avcc(units))), Tags(packets[1..]))
            && r.fed + Fed(packets) == r.fed + [AnnexB(units)] + Fed(packets[1..])
  {
    hide OnVideoData, Units, AnnexB, FlvVideo, Avcc;
    assert Tags(packets)[1..] == Tags(packets[1..]);
  }

  lemma ShortApart(packets: seq<Packet>)
    requires packets != [] && ShortPieces(packets)
    ensures ShortPieces(packets[1..]) && forall x :: x in packets[0].pieces ==> |x| < WORD
  {
    assert packets[0] in packets;
  }

  /** Every packet adds one buffer, whatever the length size. */
  lemma {:induction false} PacketsFeedOneEach(r: Receiver, packets: seq<Packet>)
    requires ValidReceiver(r)
    ensures var r' := OnAll(r, Tags(packets)); r.fed <= r'.fed && |r'.fed| == |r.fed| + |packets|
    decreases |packets|
  {
    hide Unpack, Units, Avcc;
    if packets != [] {
      assert Tags(packets)[1..] == Tags(packets[1..]);
      PacketsFeedOneEach(OnVideoData(r, Tags(packets)[0]), packets[1..]);
    }
  }

  lemma {:induction false} FedOneEach(packets: seq<Packet>)
    ensures |Fed(packets)| == |packets|
  {
    if packets != [] {
      FedOneEach(packets[1..]);
    }
  }

  function Expected(r: Receiver, sps: seq<byte>, pps: seq<byte>, packets: seq<Packet>): Receiver {
    Receiver(4, r.fed + [START_CODE + sps, START_CODE + pps] + Fed(packets))
  }

  lemma LongSetsAreLost(r: Receiver, sps: seq<byte>, pps: seq<byte>, packets: seq<Packet>)
    requires ValidReceiver(r) && (|sps| >= 0x1_0000 || |pps| >= 0x1_0000)
    ensures OnAll(OnVideoData(r, FlvConfig(sps, pps)), Tags(packets)) != Expected(r, sps, pps, packets)
  {
    hide OnVideoData, Tags, Fed, FlvConfig, OnAll, ParseConfig, ConfigRecord;
    var r' := OnVideoData(r, FlvConfig(sps, pps));
    ConfigTag(r, sps, pps);
    ConfigFeedsShort(r, ConfigRecord(sps, pps));
    PacketsFeedOneEach(r', packets);
    FedOneEach(packets);
    var fed := OnAll(r', Tags(packets)).fed;
    var k, expected := |r.fed|, Expected(r, sps, pps, packets).fed;
    assert expected[k] == START_CODE + sps && expected[k + 1] == START_CODE + pps;
    assert |r'.fed| == k + 2 ==> fed[k] == r'.fed[k] && fed[k + 1] == r'.fed[k + 1];
  }

  /** A configuration record followed by any packets, in terms of what the encoder takes for units. */
  lemma PacketsRoundTripIff(r: Receiver, sps: seq<byte>, pps: seq<byte>, packets: seq<Packet>)
    requires ValidReceiver(r) && ShortPieces(packets)
    ensures OnAll(r, [FlvConfig(sps, pps)] + Tags(packets)) == Expected(r, sps, pps, packets)
            <==> (|sps| < 0x1_0000 && |pps| < 0x1_0000)
  {
    hide OnVideoData, Tags, Fed, FlvConfig;
    var config := FlvConfig(sps, pps);
    assert ([config] + Tags(packets))[1..] == Tags(packets);
    if |sps| < 0x1_0000 && |pps| < 0x1_0000 {
      ConfigParsed(r, sps, pps);
      PacketsUnpacked(OnVideoData(r, config), packets);
    } else {
      LongSetsAreLost(r, sps, pps, packets);
    }
  }

  // ---- Given units

  /** What the encoder hands out: a start code of three or four bytes, and a unit. */
  datatype Piece = Piece(long: bool, unit: seq<byte>)

  function Spelled(p: Piece): seq<byte> {
    (if p.long then [0, 0, 0, 1] else [0, 0, 1]) + p.unit
  }

  function AllSpelled(ps: seq<Piece>): seq<seq<byte>> {
    if ps == [] then [] else [Spelled(ps[0])] + AllSpelled(ps[1..])
  }

  function UnitsOf(ps: seq<Piece>): seq<seq<byte>> {
    if ps == [] then [] else [ps[0].unit] + UnitsOf(ps[1..])
  }

  lemma FirstOfOne(d: seq<byte>)
    ensures var one: seq<seq<byte>> := [d]; one[1..] == []
  {
  }

  /** The unit is what stands behind the start code, of either length. */
  lemma OneUnit(p: Piece)
    ensures Units([Spelled(p)]) == if p.unit == [] then [] else [p.unit]
  {
    var d := Spelled(p);
    FirstOfOne(d);
    assert d[(if p.long then 4 else 3)..] == p.unit;
  }

  /** A piece that begins with neither start code gives no unit. */
  lemma NoUnitWithoutStartCode(d: seq<byte>)
    requires !([0, 0, 0, 1] <= d) && !([0, 0, 1] <= d)
    ensures Units([d]) == []
  {
    FirstOfOne(d);
  }

  lemma FirstPiece(pieces: seq<seq<byte>>)
    requires pieces != []
    ensures Units(pieces) == Units([pieces[0]]) + Units(pieces[1..])
  {
    hide StartCodeLength;
    FirstOfOne(pieces[0]);
  }

  predicate NoneIsEmpty(ps: seq<Piece>) {
    forall p :: p in ps ==> p.unit != []
  }

  lemma {:induction false} UnitsAreGiven(ps: seq<Piece>)
    requires NoneIsEmpty(ps)
    ensures Units(AllSpelled(ps)) == UnitsOf(ps)
  {
    if ps != [] {
      assert AllSpelled(ps)[1..] == AllSpelled(ps[1..]);
      FirstPiece(AllSpelled(ps));
      OneUnit(ps[0]);
      assert ps[0] in ps;
      hide Units, Spelled;
      UnitsAreGiven(ps[1..]);
    }
  }

  /** The bytes of several units, each behind four bytes of start code. */
  function Delimited(units: seq<seq<byte>>): seq<byte> {
    if units == [] then [] else [0, 0, 0, 1] + units[0] + Delimited(units[1..])
  }

  lemma {:induction false} AnnexBIsDelimited(units: seq<seq<byte>>)
    ensures AnnexB(units) == Delimited(units)
  {
    if units != [] {
      AnnexBIsDelimited(units[1..]);
    }
  }

  /** One frame: whether it is a key frame, and its pieces. */
  datatype Picture = Picture(keyframe: bool, pieces: seq<Piece>)

  function AsPackets(pictures: seq<Picture>): seq<Packet> {
    if pictures == [] then []
    else [Packet(pictures[0].keyframe, AllSpelled(pictures[0].pieces))] + AsPackets(pictures[1..])
  }

  /** What the decoder should be fed, one buffer for each frame. */
  function FedBy(pictures: seq<Picture>): seq<seq<byte>> {
    if pictures == [] then [] else [Delimited(UnitsOf(pictures[0].pieces))] + FedBy(pictures[1..])
  }

  predicate Encodable(pictures: seq<Picture>) {
    forall f, p :: f in pictures && p in f.pieces ==> 0 < |p.unit| < WORD - 4
  }

  lemma {:induction false} PicturesFed(pictures: seq<Picture>)
    requires Encodable(pictures)
    ensures Fed(AsPackets(pictures)) == FedBy(pictures) && ShortPieces(AsPackets(pictures))
    decreases |pictures|
  {
    hide Units, AnnexB, Delimited, Spelled;
    if pictures != [] {
      var f := pictures[0];
      assert f in pictures;
      assert AsPackets(pictures)[1..] == AsPackets(pictures[1..]);
      UnitsAreGiven(f.pieces);
      AnnexBIsDelimited(UnitsOf(f.pieces));
      SpelledAreShort(f.pieces);
      PicturesFed(pictures[1..]);
    }
  }

  lemma {:induction false} SpelledAreShort(ps: seq<Piece>)
    requires forall p :: p in ps ==> |p.unit| < WORD - 4
    ensures forall x :: x in AllSpelled(ps) ==> |x| < WORD
  {
    if ps != [] {
      assert ps[0] in ps;
      SpelledAreShort(ps[1..]);
    }
  }

  /**
    * A configuration record followed by any frames: the decoder is fed the SPS, the PPS and the units of every frame
    * in order, each behind the start code 00 00 00 01, whichever start codes the encoder used. This holds exactly if
    * both parameter sets fit into 16-bit lengths.
    */
  lemma FramingRoundTripIff(r: Receiver, sps: seq<byte>, pps: seq<byte>, pictures: seq<Picture>)
    requires ValidReceiver(r) && Encodable(pictures)
    ensures OnAll(r, [FlvConfig(sps, pps)] + Tags(AsPackets(pictures)))
              == Receiver(4, r.fed + [[0, 0, 0, 1] + sps, [0, 0, 0, 1] + pps] + FedBy(pictures))
            <==> (|sps| < 0x1_0000 && |pps| < 0x1_0000)
  {
    PicturesFed(pictures);
    hide OnAll, Tags, FlvConfig, Fed, FedBy, ShortPieces, AsPackets;
    PacketsRoundTripIff(r, sps, pps, AsPackets(pictures));
  }

  // ---- Single bytes

  /** Frame type 1 or 2, codec 7; packet type 1; no composition time; the packet. */
  lemma VideoTagBytes(keyframe: bool, data: seq<byte>)
    ensures var d := FlvVideo(keyframe, data);
            && d[0] / 16 == (if keyframe then 1 else 2) && d[0] % 16 == 7
            && d[1..5] == [1, 0, 0, 0] && d[5..] == data
  {
  }

  /** A key frame's tag with packet type 0; the record of section 5.2.4.1 of ISO/IEC 14496-15. */
  lemma ConfigTagBytes(sps: seq<byte>, pps: seq<byte>)
    ensures FlvConfig(sps, pps)
         == [0x17, 0, 0, 0, 0] + [1] + (if |sps| >= 4 then [sps[1], sps[2], sps[3]] else [66, 0, 30]) + [0xFF, 0xE1]
            + TwoBytes(|sps| % 65536) + sps + [1] + TwoBytes(|pps| % 65536) + pps
  {
    TwoWritten(|sps| % 65536);
    TwoWritten(|pps| % 65536);
    hide WriteU16Be, TwoBytes;
    var p := Profile(sps);
    assert p == if |sps| >= 4 then [sps[1], sps[2], sps[3]] else [66, 0, 30];
    hide Profile;
    var a, b := TwoBytes(|sps| % 65536), TwoBytes(|pps| % 65536);
    Flattened([0x17, 0, 0, 0, 0], [1] + p + [0xFF, 0xE1], a, sps, [1], b + pps);
    assert [0x17, 0, 0, 0, 0] + ([1] + p + [0xFF, 0xE1]) == [0x17, 0, 0, 0, 0] + [1] + p + [0xFF, 0xE1];
    Regroup([0x17, 0, 0, 0, 0] + [1] + p + [0xFF, 0xE1] + a + sps + [1], b, pps);
  }

  lemma Flattened(a: seq<byte>, b: seq<byte>, c: seq<byte>, d: seq<byte>, e: seq<byte>, f: seq<byte>)
    ensures a + (b + (c + d) + e + f) == (a + b) + c + d + e + f
  {
  }

  /** A unit stands behind its length in four bytes. */
  lemma AvccBytes(unit: seq<byte>, units: seq<seq<byte>>)
    requires |unit| < 4294967296
    ensures Avcc([unit] + units) == FourBytes(|unit|) + unit + Avcc(units)
  {
    FourWritten(|unit|);
    var all := [unit] + units;
    assert all[0] == unit && all[1..] == units && |unit| % WORD == |unit|;
    hide WriteU32Be, FourBytes;
  }

  function Sizes(pieces: seq<seq<byte>>): seq<nat> {
    if pieces == [] then [] else [|pieces[0]|] + Sizes(pieces[1..])
  }

  /** The pieces of a layer are those its buffer was filled with. */
  lemma {:induction false} LayerPieces(pieces: seq<seq<byte>>, behind: seq<byte>)
    ensures Sum(Sizes(pieces)) <= |Concat(pieces) + behind|
    ensures Pieces(Concat(pieces) + behind, Sizes(pieces)) == pieces
    decreases |pieces|
  {
    if pieces != [] {
      var buf := Concat(pieces) + behind;
      assert buf == pieces[0] + (Concat(pieces[1..]) + behind);
      assert Sizes(pieces)[1..] == Sizes(pieces[1..]);
      LayerPieces(pieces[1..], behind);
      assert buf[..|pieces[0]|] == pieces[0] && buf[|pieces[0]|..] == Concat(pieces[1..]) + behind;
    }
  }

  /** Other codecs, other packet types, and tags or records that are too short change nothing. */
  lemma TagsIgnored(r: Receiver, d: seq<byte>)
    requires ValidReceiver(r)
    requires |d| < 5 || d[0] % 16 != 7 || d[1] >= 2 || (d[1] == 0 && |d| < 12)
    ensures OnVideoData(r, d) == r
  {
  }

  /** A parameter set that is cut short is passed over; its bytes are read as if the next one began there. */
  lemma CutSetSkipped(count: nat, len: nat, behind: seq<byte>)
    requires |behind| < len < 65536
    ensures ReadSets(count + 1, TwoBytes(len) + behind)
         == Sets(ReadSets(count, behind).found, 2 + ReadSets(count, behind).used)
  {
    var d := TwoBytes(len) + behind;
    ReadsByPlace(d, 0);
    assert ReadU16Be(d, 0) == len && d[2..] == behind;
    hide ReadU16Be, TwoBytes;
  }
}
