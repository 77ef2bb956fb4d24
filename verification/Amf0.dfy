/** AMF 0 values: their encoding, their decoding, and how the two fit together. */
module Amf0 {
  import opened Bytes
  import opened Wrappers

  /** A number is kept as the 64-bit pattern of the double. */
  datatype Value =
    | Null
    | Number(bits: u64)
    | Boolean(flag: bool)
    | String(text: seq<byte>)
    | Object(fields: Fields)

  /** The entries of an object, in the order of a sorted map. */
  datatype Fields = End | Field(key: seq<byte>, value: Value, rest: Fields)

  const NUMBER_MARKER: byte := 0
  const BOOLEAN_MARKER: byte := 1
  const STRING_MARKER: byte := 2
  const OBJECT_MARKER: byte := 3
  const NULL_MARKER: byte := 5
  const ECMA_ARRAY_MARKER: byte := 8
  const OBJECT_END: byte := 9

  // ---- Sorted maps

  /** The order of keys: bytewise, a proper prefix first. */
  predicate Less(a: seq<byte>, b: seq<byte>) {
    b != [] && (a == [] || a[0] < b[0] || (a[0] == b[0] && Less(a[1..], b[1..])))
  }

  predicate SortedKeys(f: Fields) {
    f.Field? && f.rest.Field? ==> Less(f.key, f.rest.key) && SortedKeys(f.rest)
  }

  /** Sets the entry of a key, replacing one that is already there. */
  function Put(f: Fields, key: seq<byte>, value: Value): Fields {
    match f
    case End => Field(key, value, End)
    case Field(k, v, rest) =>
      if key == k then Field(key, value, rest)
      else if Less(key, k) then Field(key, value, f)
      else Field(k, v, Put(rest, key, value))
  }

  function Get(f: Fields, key: seq<byte>): Option<Value> {
    match f
    case End => None
    case Field(k, v, rest) => if key == k then Some(v) else Get(rest, key)
  }

  /** Objects at every depth have their keys in order, each key once. */
  predicate WellFormed(v: Value) {
    v.Object? ==> SortedKeys(v.fields) && WellFormedFields(v.fields)
  }

  predicate WellFormedFields(f: Fields) {
    f.Field? ==> WellFormed(f.value) && WellFormedFields(f.rest)
  }

  /** Every string and key has a length that fits into 16 bits. */
  predicate Encodable(v: Value) {
    match v
    case String(s) => |s| < 0x1_0000
    case Object(f) => EncodableFields(f)
    case _ => true
  }

  predicate EncodableFields(f: Fields) {
    f.Field? ==> |f.key| < 0x1_0000 && Encodable(f.value) && EncodableFields(f.rest)
  }

  // ---- Encoding

  /** A length and the bytes; the length is cut to 16 bits. */
  function EncodeText(s: seq<byte>): (d: seq<byte>)
    ensures |d| == 2 + |s|
  {
    WriteU16Be(|s| % 0x1_0000) + s
  }

  function Encode(v: Value): (d: seq<byte>)
    ensures |d| >= 1
    ensures d[0] < OBJECT_END
  {
    match v
    case Null => [NULL_MARKER]
    case Number(bits) => [NUMBER_MARKER] + WriteU64Be(bits)
    case Boolean(flag) => [BOOLEAN_MARKER, if flag then 1 else 0]
    case String(s) => [STRING_MARKER] + EncodeText(s)
    case Object(f) => [OBJECT_MARKER] + EncodeFields(f)
  }

  function EncodeFields(f: Fields): (d: seq<byte>)
    ensures |d| >= 3
  {
    match f
    case End => [0, 0, OBJECT_END]
    case Field(key, value, rest) => EncodeText(key) + Encode(value) + EncodeFields(rest)
  }

  function EncodeArray(vs: seq<Value>): seq<byte> {
    if vs == [] then [] else Encode(vs[0]) + EncodeArray(vs[1..])
  }

  // ---- Decoding

  datatype Error = EmptyData | NumberCut | BooleanCut | LengthCut | TextCut | ArrayCut | KeyCut | UnknownType

  /** A decoded thing and the number of bytes it took. */
  datatype Parsed<T> = Parsed(value: T, used: nat)

  function DecodeText(d: seq<byte>): (r: Result<Parsed<seq<byte>>, Error>)
    ensures r.Ok? ==> r.value.used <= |d| && r.value.used == 2 + |r.value.value| && |r.value.value| < 0x1_0000
  {
    if |d| < 2 then Err(LengthCut)
    else
      var n := ReadU16Be(d, 0);
      if |d| < 2 + n then Err(TextCut) else Ok(Parsed(d[2..2 + n], 2 + n))
  }

  /** A successful decode takes at least one byte and no more than there are. */
  function Decode(d: seq<byte>): (r: Result<Parsed<Value>, Error>)
    ensures r.Ok? ==> 1 <= r.value.used <= |d|
    decreases |d|
  {
    if d == [] then Err(EmptyData)
    else if d[0] == NUMBER_MARKER then
      if |d| < 9 then Err(NumberCut) else Ok(Parsed(Number(ReadU64Be(d, 1)), 9))
    else if d[0] == BOOLEAN_MARKER then
      if |d| < 2 then Err(BooleanCut) else Ok(Parsed(Boolean(d[1] != 0), 2))
    else if d[0] == STRING_MARKER then
      match DecodeText(d[1..])
      case Err(e) => Err(e)
      case Ok(t) => Ok(Parsed(String(t.value), t.used + 1))
    else if d[0] == NULL_MARKER then Ok(Parsed(Null, 1))
    else if d[0] == OBJECT_MARKER || d[0] == ECMA_ARRAY_MARKER then
      var start := if d[0] == ECMA_ARRAY_MARKER then 5 else 1;
      if |d| < start then Err(ArrayCut)
      else
        match DecodeFields(d[start..], End)
        case Err(e) => Err(e)
        case Ok(f) => Ok(Parsed(Object(f.value), start + f.used))
    else Err(UnknownType)
  }

  /** What stands where the next entry of an object may begin. */
  datatype KeyPart = Done(used: nat) | Cut | Key(key: seq<byte>)

  function ReadKey(d: seq<byte>): (r: KeyPart)
    ensures r.Done? ==> r.used <= |d|
    ensures r.Key? ==> 2 + |r.key| <= |d| && |r.key| < 0x1_0000
  {
    if |d| < 3 then Done(0)
    else
      var n := ReadU16Be(d, 0);
      if n == 0 && d[2] == OBJECT_END then Done(3)
      else if 2 + n > |d| then Cut
      else Key(d[2..2 + n])
  }

  /** The entries up to the end marker, or up to the last two bytes if there is none. */
  function DecodeFields(d: seq<byte>, sofar: Fields): (r: Result<Parsed<Fields>, Error>)
    ensures r.Ok? ==> r.value.used <= |d|
    decreases |d|
  {
    match ReadKey(d)
    case Done(used) => Ok(Parsed(sofar, used))
    case Cut => Err(KeyCut)
    case Key(key) =>
      match Decode(d[2 + |key|..])
      case Err(e) => Err(e)
      case Ok(v) =>
        var n := 2 + |key| + v.used;
        match DecodeFields(d[n..], Put(sofar, key, v.value))
        case Err(e) => Err(e)
        case Ok(f) => Ok(Parsed(f.value, n + f.used))
  }

  /** The values up to the end of the data or the first that cannot be decoded. */
  function DecodeLeading(d: seq<byte>): seq<Value>
    decreases |d|
  {
    if d == [] || Decode(d).Err? then []
    else [Decode(d).value.value] + DecodeLeading(d[Decode(d).value.used..])
  }

  function DecodeArray(d: seq<byte>): Result<seq<Value>, Error> {
    if d != [] && Decode(d).Err? then Err(Decode(d).error) else Ok(DecodeLeading(d))
  }
}
