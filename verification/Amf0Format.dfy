/** AMF 0 byte by byte, by the markers of section 2 of the AMF 0 specification. */
module Amf0Format {
  import opened Bytes
  import opened Wrappers
  import opened Amf0

  // ---- Encoding

  /** The first byte tells the kind of value. */
  lemma EncodedKind(v: Value)
    ensures Encode(v)[0] == match v
                            case Number(_) => 0
                            case Boolean(_) => 1
                            case String(_) => 2
                            case Object(_) => 3
                            case Null => 5
  {
  }

  lemma EncodedScalars(bits: u64, flag: bool, text: seq<byte>)
    ensures Encode(Null) == [5]
    ensures Encode(Boolean(flag)) == [1, if flag then 1 else 0]
    ensures Encode(Number(bits)) == [0] + FourBytes(bits / 4294967296) + FourBytes(bits % 4294967296)
    ensures Encode(String(text)) == [2] + TwoBytes(|text| % 65536) + text
  {
    EightWritten(bits);
    TwoWritten(|text| % 65536);
    hide WriteU64Be, WriteU16Be, FourBytes, TwoBytes;
  }

  /** Each entry is a length, the key and the value; a zero length and a byte 9 end the object. */
  lemma EncodedEntries(key: seq<byte>, value: Value, rest: Fields)
    ensures Encode(Object(rest)) == [3] + EncodeFields(rest)
    ensures EncodeFields(End) == [0, 0, 9]
    ensures EncodeFields(Field(key, value, rest))
         == TwoBytes(|key| % 65536) + key + Encode(value) + EncodeFields(rest)
  {
    TwoWritten(|key| % 65536);
    hide WriteU16Be, TwoBytes;
  }

  // ---- Decoding

  lemma DecodedScalars(d: seq<byte>, tail: seq<byte>, b: byte)
    ensures Decode([5] + tail) == Ok(Parsed(Null, 1))
    ensures Decode([1, b] + tail) == Ok(Parsed(Boolean(b != 0), 2))
    ensures |d| == 8 ==> Decode([0] + d + tail) == Ok(Parsed(Number(ReadU64Be(d, 0)), 9))
  {
    if |d| == 8 {
      var all := [0] + d + tail;
      assert all[1..9] == d;
      ReadsU64Be(all, 1, ReadU64Be(d, 0));
      assert d[0..8] == d;
      ReadsU64Be(d, 0, ReadU64Be(d, 0));
      hide ReadU64Be, WriteU64Be;
    }
  }

  /** Values that are cut short. */
  lemma CutValues(d: seq<byte>)
    ensures Decode([]) == Err(EmptyData)
    ensures |d| < 8 ==> Decode([0] + d) == Err(NumberCut)
    ensures Decode([1]) == Err(BooleanCut)
    ensures |d| < 2 ==> Decode([2] + d) == Err(LengthCut)
    ensures |d| >= 2 && |d| < 2 + 256 * (d[0] as int) + d[1] ==> Decode([2] + d) == Err(TextCut)
    ensures |d| < 4 ==> Decode([8] + d) == Err(ArrayCut)
  {
    assert ([2] + d)[1..] == d;
  }

  /** A key that is cut short; a zero length in front of anything but a byte 9 is an empty key. */
  lemma CutKeys(d: seq<byte>, sofar: Fields)
    requires |d| >= 3
    ensures var n := 256 * (d[0] as int) + d[1];
            && (n == 0 && d[2] == 9 ==> DecodeFields(d, sofar) == Ok(Parsed(sofar, 3)))
            && (2 + n > |d| ==> DecodeFields(d, sofar) == Err(KeyCut))
            && (2 + n <= |d| && !(n == 0 && d[2] == 9) && Decode(d[2 + n..]).Err? ==>
                  DecodeFields(d, sofar) == Err(Decode(d[2 + n..]).error))
  {
    hide Decode;
  }

  /** An unknown type is reported for other first bytes, and by an object whose entries hold one. */
  lemma UnknownTypeIff(d: seq<byte>)
    ensures Decode(d) == Err(UnknownType) <==>
              d != [] && (d[0] !in {0, 1, 2, 3, 5, 8}
                          || (d[0] == 3 && DecodeFields(d[1..], End) == Err(UnknownType))
                          || (d[0] == 8 && |d| >= 5 && DecodeFields(d[5..], End) == Err(UnknownType)))
  {
    hide DecodeFields, ReadU64Be;
  }
}
