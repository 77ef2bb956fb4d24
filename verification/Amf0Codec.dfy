/** The AMF 0 encoder and decoder as they run: an output that grows and offsets that move on. */
module Amf0Codec {
  import opened Bytes
  import opened Wrappers
  import opened Amf0

  method EncodeString(before: seq<byte>, str: seq<byte>, withType: bool) returns (out: seq<byte>)
    ensures out == before + (if withType then [STRING_MARKER] else []) + EncodeText(str)
  {
    out := before;
    if withType {
      out := out + [STRING_MARKER];
    }
    out := out + WriteU16Be(|str| % 0x1_0000);
    out := out + str;
  }

  method EncodeValue(before: seq<byte>, value: Value) returns (out: seq<byte>)
    ensures out == before + Encode(value)
    decreases value
  {
    hide EncodeText;
    match value
    case Number(bits) =>
      out := before + [NUMBER_MARKER];
      out := out + WriteU64Be(bits);
    case Boolean(flag) =>
      out := before + [BOOLEAN_MARKER];
      out := out + [if flag then 1 else 0];
    case String(s) =>
      out := EncodeString(before, s, true);
    case Null =>
      out := before + [NULL_MARKER];
    case Object(fields) =>
      out := before + [OBJECT_MARKER];
      out := EncodeEntries(out, fields);
  }

  method EncodeEntries(before: seq<byte>, fields: Fields) returns (out: seq<byte>)
    ensures out == before + EncodeFields(fields)
    decreases fields
  {
    hide EncodeText, Encode, EncodeFields;
    out := before;
    var f := fields;
    while f.Field?
      invariant f == fields || f < fields
      invariant out + EncodeFields(f) == before + EncodeFields(fields)
      decreases f
    {
      ghost var sofar := out;
      out := EncodeString(out, f.key, false);
      out := EncodeValue(out, f.value);
      FirstEntry(sofar, f);
      f := f.rest;
    }
    assert EncodeFields(f) == [0, 0, OBJECT_END] by { NoEntries(f); }
    out := out + [0, 0, OBJECT_END];
  }

  lemma FirstEntry(before: seq<byte>, f: Fields)
    requires f.Field?
    ensures ((before + [] + EncodeText(f.key)) + Encode(f.value)) + EncodeFields(f.rest) == before + EncodeFields(f)
  {
    hide EncodeText, Encode;
  }

  lemma NoEntries(f: Fields)
    requires f.End?
    ensures EncodeFields(f) == [0, 0, OBJECT_END]
  {
  }

  method EncodeAll(values: seq<Value>) returns (out: seq<byte>)
    ensures out == EncodeArray(values)
  {
    hide Encode, EncodeArray;
    out := [];
    assert values[0..] == values && [] + EncodeArray(values) == EncodeArray(values);
    for i := 0 to |values|
      invariant out + EncodeArray(values[i..]) == EncodeArray(values)
    {
      ghost var sofar := out;
      out := EncodeValue(out, values[i]);
      FirstValue(sofar, values[i..]);
      assert values[i..][0] == values[i] && values[i..][1..] == values[i + 1..];
    }
    NoValues(out, values[|values|..]);
  }

  lemma FirstValue(before: seq<byte>, values: seq<Value>)
    requires values != []
    ensures (before + Encode(values[0])) + EncodeArray(values[1..]) == before + EncodeArray(values)
  {
    hide Encode;
  }

  lemma NoValues(before: seq<byte>, values: seq<Value>)
    requires values == []
    ensures before + EncodeArray(values) == before
  {
  }

  method DecodeString(data: seq<byte>) returns (r: Result<Parsed<seq<byte>>, Error>)
    ensures r == DecodeText(data)
  {
    var offset: nat := 0;
    if |data| < offset + 2 {
      return Err(LengthCut);
    }
    var len: nat := ReadU16Be(data, offset);
    offset := offset + 2;
    if |data| < offset + len {
      return Err(TextCut);
    }
    var str := data[offset..offset + len];
    offset := offset + len;
    return Ok(Parsed(str, offset));
  }

  /** A result for the bytes behind an offset, counted from the start. */
  function Shift<T>(r: Result<Parsed<T>, Error>, n: nat): Result<Parsed<T>, Error> {
    match r
    case Err(e) => Err(e)
    case Ok(p) => Ok(Parsed(p.value, n + p.used))
  }

  method DecodeValue(data: seq<byte>) returns (r: Result<Parsed<Value>, Error>)
    ensures r == Decode(data)
    decreases |data|, 1
  {
    hide DecodeFields, DecodeText, ReadU64Be;
    if data == [] {
      return Err(EmptyData);
    }
    if data[0] == NUMBER_MARKER {
      if |data| < 9 {
        return Err(NumberCut);
      }
      return Ok(Parsed(Number(ReadU64Be(data, 1)), 9));
    } else if data[0] == BOOLEAN_MARKER {
      if |data| < 2 {
        return Err(BooleanCut);
      }
      return Ok(Parsed(Boolean(data[1] != 0), 2));
    } else if data[0] == STRING_MARKER {
      var str := DecodeString(data[1..]);
      if str.Err? {
        return Err(str.error);
      }
      return Ok(Parsed(String(str.value.value), str.value.used + 1));
    } else if data[0] == NULL_MARKER {
      return Ok(Parsed(Null, 1));
    } else if data[0] == OBJECT_MARKER || data[0] == ECMA_ARRAY_MARKER {
      var offset := 1;
      if data[0] == ECMA_ARRAY_MARKER {
        if |data| < 5 {
          return Err(ArrayCut);
        }
        offset := 5;
      }
      var obj := DecodeEntries(data, offset);
      if obj.Err? {
        return Err(obj.error);
      }
      return Ok(Parsed(Object(obj.value.value), obj.value.used));
    } else {
      return Err(UnknownType);
    }
  }

  /** The loop over the entries of an object that begins at the given offset. */
  method DecodeEntries(data: seq<byte>, start: nat) returns (r: Result<Parsed<Fields>, Error>)
    requires 1 <= start <= |data|
    ensures r == Shift(DecodeFields(data[start..], End), start)
    decreases |data|, 0
  {
    hide DecodeFields, Decode, Put;
    var offset, obj := start, End;
    ghost var whole := Shift(DecodeFields(data[start..], End), start);
    while offset + 3 <= |data|
      invariant start <= offset <= |data|
      invariant whole == Shift(DecodeFields(data[offset..], obj), offset)
      decreases |data| - offset
    {
      ghost var at, before := offset, obj;
      var keyLen := ReadU16Be(data, offset);
      offset := offset + 2;
      if keyLen == 0 && data[offset] == OBJECT_END {
        offset := offset + 1;
        EntryAt(data, at, before);
        return Ok(Parsed(obj, offset));
      }
      if offset + keyLen > |data| {
        EntryAt(data, at, before);
        return Err(KeyCut);
      }
      var key := data[offset..offset + keyLen];
      offset := offset + keyLen;
      var val := DecodeValue(data[offset..]);
      EntryAt(data, at, before);
      if val.Err? {
        return Err(val.error);
      }
      obj := Put(obj, key, val.value.value);
      offset := offset + val.value.used;
    }
    EntryAt(data, offset, obj);
    return Ok(Parsed(obj, offset));
  }

  /** One round of the loop over the entries, from the offset at. */
  lemma EntryAt(data: seq<byte>, at: nat, obj: Fields)
    requires at <= |data|
    ensures var left := Shift(DecodeFields(data[at..], obj), at);
            if at + 3 > |data| then left == Ok(Parsed(obj, at))
            else
              var n := ReadU16Be(data, at);
              if n == 0 && data[at + 2] == OBJECT_END then left == Ok(Parsed(obj, at + 3))
              else if at + 2 + n > |data| then left == Err(KeyCut)
              else
                var v := Decode(data[at + 2 + n..]);
                if v.Err? then left == Err(v.error)
                else
                  var next := at + 2 + n + v.value.used;
                  left == Shift(DecodeFields(data[next..], Put(obj, data[at + 2..at + 2 + n], v.value.value)), next)
  {
    hide Decode, DecodeFields, Put, ReadU16Be;
    KeyAt(data, at);
    var d := data[at..];
    DecodeFieldsIs(d, obj);
    if ReadKey(d).Key? {
      var n := 2 + |ReadKey(d).key|;
      assert d[n..] == data[at + n..];
      var v := Decode(d[n..]);
      if v.Ok? {
        assert d[n + v.value.used..] == data[at + n + v.value.used..];
      }
    }
  }

  lemma KeyAt(data: seq<byte>, at: nat)
    requires at <= |data|
    ensures var d := data[at..];
            ReadKey(d) ==
              if at + 3 > |data| then Done(0)
              else
                var n := ReadU16Be(data, at);
                if n == 0 && data[at + 2] == OBJECT_END then Done(3)
                else if at + 2 + n > |data| then Cut
                else Key(data[at + 2..at + 2 + n])
  {
    var d := data[at..];
    if at + 3 <= |data| {
      var n := ReadU16Be(data, at);
      assert ReadU16Be(d, 0) == n && d[2] == data[at + 2];
      if at + 2 + n <= |data| {
        assert d[2..2 + n] == data[at + 2..at + 2 + n];
      }
    }
  }

  lemma DecodeFieldsIs(d: seq<byte>, obj: Fields)
    ensures var k := ReadKey(d);
            && (k.Done? ==> DecodeFields(d, obj) == Ok(Parsed(obj, k.used)))
            && (k.Cut? ==> DecodeFields(d, obj) == Err(KeyCut))
            && (k.Key? ==>
                  var n, v := 2 + |k.key|, Decode(d[2 + |k.key|..]);
                  if v.Err? then DecodeFields(d, obj) == Err(v.error)
                  else
                    DecodeFields(d, obj)
                      == Shift(DecodeFields(d[n + v.value.used..], Put(obj, k.key, v.value.value)), n + v.value.used))
  {
    hide Decode, ReadKey, Put;
  }

  method DecodeAll(data: seq<byte>) returns (r: Result<seq<Value>, Error>)
    ensures r == DecodeArray(data)
  {
    hide Decode;
    var values, offset := [], 0;
    assert data[0..] == data && values + DecodeLeading(data) == DecodeLeading(data);
    while offset < |data|
      invariant 0 <= offset <= |data| && (offset == 0 <==> values == [])
      invariant DecodeLeading(data) == values + DecodeLeading(data[offset..])
      invariant offset > 0 ==> Decode(data).Ok?
      decreases |data| - offset
    {
      var result := DecodeValue(data[offset..]);
      if result.Err? {
        if values == [] {
          return Err(result.error);
        }
        break;
      }
      assert data[offset..][result.value.used..] == data[offset + result.value.used..];
      ghost var sofar := values;
      values := values + [result.value.value];
      offset := offset + result.value.used;
      assert values + DecodeLeading(data[offset..]) == sofar + ([result.value.value] + DecodeLeading(data[offset..]));
    }
    assert values + [] == values;
    return Ok(values);
  }
}
