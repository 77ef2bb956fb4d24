/** Decoding undoes encoding, and every decoded value is one that can be encoded. */
module Amf0Laws {
  import opened Bytes
  import opened Wrappers
  import opened Amf0

  // ---- The key order

  lemma {:induction false} LessIsStrict(a: seq<byte>, b: seq<byte>)
    requires Less(a, b)
    ensures a != b && !Less(b, a)
    decreases |a|
  {
    if a != [] && a[0] == b[0] {
      LessIsStrict(a[1..], b[1..]);
    }
  }

  lemma {:induction false} LessIsTransitive(a: seq<byte>, b: seq<byte>, c: seq<byte>)
    requires Less(a, b) && Less(b, c)
    ensures Less(a, c)
    decreases |a|
  {
    if a != [] && a[0] == b[0] && b[0] == c[0] {
      LessIsTransitive(a[1..], b[1..], c[1..]);
    }
  }

  lemma {:induction false} LessIsTotal(a: seq<byte>, b: seq<byte>)
    requires a != b
    ensures Less(a, b) || Less(b, a)
    decreases |a|
  {
    if a != [] && b != [] && a[0] == b[0] {
      assert a == [a[0]] + a[1..] && b == [b[0]] + b[1..];
      LessIsTotal(a[1..], b[1..]);
    }
  }

  /** The order is lexicographic: at the first difference, or where the shorter key ends. */
  lemma {:induction false} LessIsLexicographic(a: seq<byte>, b: seq<byte>)
    ensures Less(a, b) <==> exists i :: FirstDifference(a, b, i) && (i == |a| || a[i] < b[i])
    decreases |a|
  {
    if b != [] {
      if a == [] || a[0] != b[0] {
        assert FirstDifference(a, b, 0);
      } else {
        LessIsLexicographic(a[1..], b[1..]);
        forall i | FirstDifference(a[1..], b[1..], i) ensures FirstDifference(a, b, i + 1) {
          assert forall k :: 0 < k < i + 1 ==> a[k] == a[1..][k - 1] && b[k] == b[1..][k - 1];
        }
        if i :| FirstDifference(a, b, i) && (i == |a| || a[i] < b[i]) {
          assert FirstDifference(a[1..], b[1..], i - 1);
        }
        if j :| FirstDifference(a[1..], b[1..], j) && (j == |a[1..]| || a[1..][j] < b[1..][j]) {
          assert FirstDifference(a, b, j + 1) && (j + 1 == |a| || a[j + 1] < b[j + 1]);
        }
      }
    }
  }

  /** The keys agree in front of position i, and the second one goes on there. */
  predicate FirstDifference(a: seq<byte>, b: seq<byte>, i: int) {
    0 <= i <= |a| && i < |b| && (i < |a| ==> a[i] != b[i]) && forall k :: 0 <= k < i ==> a[k] == b[k]
  }

  // ---- Maps built entry by entry

  function Append(f: Fields, g: Fields): Fields {
    match f
    case End => g
    case Field(k, v, rest) => Field(k, v, Append(rest, g))
  }

  lemma {:induction false} AppendTwice(f: Fields, g: Fields, h: Fields)
    ensures Append(Append(f, g), h) == Append(f, Append(g, h))
  {
    if f.Field? {
      AppendTwice(f.rest, g, h);
    }
  }

  lemma {:induction false} FirstIsLeast(f: Fields, key: seq<byte>, value: Value, rest: Fields)
    requires f.Field? && SortedKeys(Append(f, Field(key, value, rest)))
    ensures Less(f.key, key) && SortedKeys(Append(f.rest, Field(key, value, rest)))
  {
    var last := Field(key, value, rest);
    assert Append(f, last) == Field(f.key, f.value, Append(f.rest, last));
    if f.rest.Field? {
      assert Append(f.rest, last) == Field(f.rest.key, f.rest.value, Append(f.rest.rest, last));
      FirstIsLeast(f.rest, key, value, rest);
      LessIsTransitive(f.key, f.rest.key, key);
    }
  }

  /** A key behind all others is added at the end. */
  lemma {:induction false} PutLast(f: Fields, key: seq<byte>, value: Value, rest: Fields)
    requires SortedKeys(Append(f, Field(key, value, rest)))
    ensures Put(f, key, value) == Append(f, Field(key, value, End))
  {
    if f.Field? {
      FirstIsLeast(f, key, value, rest);
      LessIsStrict(f.key, key);
      PutLast(f.rest, key, value, rest);
    }
  }

  /** Setting an entry keeps the map sorted and changes what is found for that key only. */
  lemma {:induction false} PutIsMapUpdate(f: Fields, key: seq<byte>, value: Value, other: seq<byte>)
    requires SortedKeys(f)
    ensures var g := Put(f, key, value);
            && SortedKeys(g)
            && Get(g, other) == (if other == key then Some(value) else Get(f, other))
            && (f.Field? ==> g.key == key || g.key == f.key)
            && g.Field?
  {
    if f.Field? && key != f.key {
      if Less(key, f.key) {
        if other == key {
        } else {
        }
      } else {
        LessIsTotal(key, f.key);
        PutIsMapUpdate(f.rest, key, value, other);
      }
    }
  }

  // ---- Decoding an encoding

  lemma TextReadsBack(s: seq<byte>, tail: seq<byte>)
    requires |s| < 0x1_0000
    ensures ReadU16Be(EncodeText(s) + tail, 0) == |s|
    ensures (EncodeText(s) + tail)[2..2 + |s|] == s
    ensures (EncodeText(s) + tail)[2 + |s|..] == tail
    ensures DecodeText(EncodeText(s) + tail) == Ok(Parsed(s, 2 + |s|))
  {
  }

  lemma ScalarReadsBack(v: Value, tail: seq<byte>)
    requires Encodable(v) && !v.Object?
    ensures Decode(Encode(v) + tail) == Ok(Parsed(v, |Encode(v)|))
  {
    var d := Encode(v) + tail;
    match v
    case Null =>
    case Number(bits) =>
      assert d[1..9] == WriteU64Be(bits);
      ReadsU64Be(d, 1, bits);
    case Boolean(flag) =>
    case String(s) =>
      assert d[1..] == EncodeText(s) + tail;
      TextReadsBack(s, tail);
  }

  /** Whatever follows, decoding an encoded value gives it back and takes exactly its bytes. */
  lemma {:induction false} DecodeEncode(v: Value, tail: seq<byte>)
    requires WellFormed(v) && Encodable(v)
    ensures Decode(Encode(v) + tail) == Ok(Parsed(v, |Encode(v)|))
    decreases v
  {
    if v.Object? {
      ObjectDecodes(v.fields, tail);
      assert Append(End, v.fields) == v.fields;
      PutAllSorted(End, v.fields);
    } else {
      ScalarReadsBack(v, tail);
    }
  }

  /** An object's entries may come in any order and repeat keys. */
  lemma {:induction false} ObjectDecodes(f: Fields, tail: seq<byte>)
    requires WellFormedFields(f) && EncodableFields(f)
    ensures Decode([3] + EncodeFields(f) + tail)
         == Ok(Parsed(Object(PutAll(End, f)), 1 + |EncodeFields(f)|))
    decreases f, 1
  {
    hide DecodeFields, PutAll, Entries, EncodeFields;
    var d := [3] + EncodeFields(f) + tail;
    assert d[1..] == EncodeFields(f) + tail;
    EntriesAndEnd(f);
    EndDecodes(tail, PutAll(End, f));
    EntriesDecode(f, End, [0, 0, OBJECT_END] + tail);
    assert EncodeFields(f) + tail == Entries(f) + ([0, 0, OBJECT_END] + tail);
  }

  lemma EntryParts(key: seq<byte>, e: seq<byte>, behind: seq<byte>)
    requires |key| < 0x1_0000 && e != [] && e[0] != OBJECT_END
    ensures var d, n := EncodeText(key) + e + behind, 2 + |key|;
            ReadKey(d) == Key(key) && d[n..] == e + behind && d[n + |e|..] == behind
  {
  }

  lemma EntryRead(d: seq<byte>, key: seq<byte>, v: Parsed<Value>, sofar: Fields)
    requires ReadKey(d) == Key(key) && Decode(d[2 + |key|..]) == Ok(v)
    requires DecodeFields(d[2 + |key| + v.used..], Put(sofar, key, v.value)).Ok?
    ensures var f := DecodeFields(d[2 + |key| + v.used..], Put(sofar, key, v.value)).value;
            DecodeFields(d, sofar) == Ok(Parsed(f.value, 2 + |key| + v.used + f.used))
  {
    hide Decode, ReadKey, Put;
  }

  /** One entry, once its value is known to decode. */
  lemma EntryDecodes(key: seq<byte>, value: Value, e: seq<byte>, behind: seq<byte>, sofar: Fields)
    requires |key| < 0x1_0000 && e != [] && e[0] != OBJECT_END
    requires Decode(e + behind) == Ok(Parsed(value, |e|)) && DecodeFields(behind, Put(sofar, key, value)).Ok?
    ensures var f := DecodeFields(behind, Put(sofar, key, value)).value;
            DecodeFields(EncodeText(key) + e + behind, sofar) == Ok(Parsed(f.value, 2 + |key| + |e| + f.used))
  {
    hide Decode, DecodeFields, ReadKey, EncodeText, Put;
    EntryParts(key, e, behind);
    EntryRead(EncodeText(key) + e + behind, key, Parsed(value, |e|), sofar);
  }

  /** Sets the entries one after the other: of several with one key, the last one stays. */
  function PutAll(f: Fields, entries: Fields): Fields
    decreases entries
  {
    match entries
    case End => f
    case Field(k, v, rest) => PutAll(Put(f, k, v), rest)
  }

  lemma {:induction false} PutAllSorted(f: Fields, entries: Fields)
    requires SortedKeys(Append(f, entries))
    ensures PutAll(f, entries) == Append(f, entries)
    decreases entries
  {
    match entries
    case End =>
      AppendEnd(f);
    case Field(k, v, rest) =>
      PutLast(f, k, v, rest);
      AppendTwice(f, Field(k, v, End), rest);
      assert Append(Field(k, v, End), rest) == entries;
      PutAllSorted(Append(f, Field(k, v, End)), rest);
  }

  /** The entries of an object without the end marker. */
  function Entries(f: Fields): seq<byte> {
    match f
    case End => []
    case Field(key, value, rest) => EncodeText(key) + Encode(value) + Entries(rest)
  }

  lemma {:induction false} EntriesAndEnd(f: Fields)
    ensures EncodeFields(f) == Entries(f) + [0, 0, OBJECT_END]
  {
    hide EncodeText, Encode;
    if f.Field? {
      EntriesAndEnd(f.rest);
    }
  }

  /** Entries in any order, keys repeated or not, are set one by one; then decoding goes on behind them. */
  lemma {:induction false} EntriesDecode(f: Fields, sofar: Fields, behind: seq<byte>)
    requires WellFormedFields(f) && EncodableFields(f) && DecodeFields(behind, PutAll(sofar, f)).Ok?
    ensures var g := DecodeFields(behind, PutAll(sofar, f)).value;
            DecodeFields(Entries(f) + behind, sofar) == Ok(Parsed(g.value, |Entries(f)| + g.used))
    decreases f, 0
  {
    hide Decode, Encode, EncodeText, DecodeFields, Put;
    match f
    case End =>
      assert Entries(f) + behind == behind;
    case Field(key, value, rest) =>
      assert Entries(f) + behind == EncodeText(key) + Encode(value) + (Entries(rest) + behind);
      DecodeEncode(value, Entries(rest) + behind);
      EntriesDecode(rest, Put(sofar, key, value), behind);
      EntryDecodes(key, value, Encode(value), Entries(rest) + behind, sofar);
  }

  lemma EndDecodes(tail: seq<byte>, sofar: Fields)
    ensures DecodeFields([0, 0, OBJECT_END] + tail, sofar) == Ok(Parsed(sofar, 3))
    ensures |tail| < 3 ==> DecodeFields(tail, sofar) == Ok(Parsed(sofar, 0))
  {
  }

  /** An object written without its end marker at the end of the data: the last one or two bytes stay unread. */
  lemma UnterminatedDecodes(f: Fields, tail: seq<byte>)
    requires WellFormedFields(f) && EncodableFields(f) && |tail| < 3
    ensures Decode([3] + Entries(f) + tail) == Ok(Parsed(Object(PutAll(End, f)), 1 + |Entries(f)|))
  {
    hide DecodeFields, Entries, PutAll;
    EndDecodes(tail, PutAll(End, f));
    EntriesDecode(f, End, tail);
    var d := [3] + Entries(f) + tail;
    assert d[1..] == Entries(f) + tail;
  }

  /** An ECMA array is read like an object; its count is skipped. */
  lemma EcmaArrayDecodes(count: seq<byte>, f: Fields, tail: seq<byte>)
    requires |count| == 4 && WellFormedFields(f) && EncodableFields(f)
    ensures Decode([8] + count + EncodeFields(f) + tail)
         == Ok(Parsed(Object(PutAll(End, f)), 5 + |EncodeFields(f)|))
  {
    hide DecodeFields, Entries, PutAll, EncodeFields;
    EndDecodes(tail, PutAll(End, f));
    EntriesDecode(f, End, [0, 0, OBJECT_END] + tail);
    EntriesAndEnd(f);
    assert EncodeFields(f) + tail == Entries(f) + ([0, 0, OBJECT_END] + tail);
    var d := [8] + count + EncodeFields(f) + tail;
    assert d[5..] == EncodeFields(f) + tail;
  }

  lemma {:induction false} AppendEnd(f: Fields)
    ensures Append(f, End) == f
  {
    if f.Field? {
      AppendEnd(f.rest);
    }
  }

  // ---- What decoding can produce

  /** Everything decoded, from whatever bytes, is a sorted object tree with short strings. */
  lemma {:induction false} DecodedIsSound(d: seq<byte>)
    requires Decode(d).Ok?
    ensures WellFormed(Decode(d).value.value) && Encodable(Decode(d).value.value)
    decreases |d|
  {
    if d[0] == OBJECT_MARKER || d[0] == ECMA_ARRAY_MARKER {
      var start := if d[0] == ECMA_ARRAY_MARKER then 5 else 1;
      DecodedFieldsAreSound(d[start..], End);
    }
  }

  lemma {:induction false} DecodedFieldsAreSound(d: seq<byte>, sofar: Fields)
    requires SortedKeys(sofar) && WellFormedFields(sofar) && EncodableFields(sofar) && DecodeFields(d, sofar).Ok?
    ensures var f := DecodeFields(d, sofar).value.value;
            SortedKeys(f) && WellFormedFields(f) && EncodableFields(f)
    decreases |d|
  {
    hide ReadKey, Decode, Put;
    match ReadKey(d)
    case Key(key) =>
      var v := Decode(d[2 + |key|..]).value;
      DecodedIsSound(d[2 + |key|..]);
      PutKeepsSound(sofar, key, v.value);
      PutIsMapUpdate(sofar, key, v.value, []);
      DecodedFieldsAreSound(d[2 + |key| + v.used..], Put(sofar, key, v.value));
    case _ =>
  }

  lemma {:induction false} PutKeepsSound(f: Fields, key: seq<byte>, value: Value)
    requires WellFormedFields(f) && EncodableFields(f) && WellFormed(value) && Encodable(value) && |key| < 0x1_0000
    ensures WellFormedFields(Put(f, key, value)) && EncodableFields(Put(f, key, value))
  {
    if f.Field? {
      PutKeepsSound(f.rest, key, value);
    }
  }

  /** A decoded value can be encoded again, and then decodes to itself. */
  lemma Normalised(d: seq<byte>, tail: seq<byte>)
    requires Decode(d).Ok?
    ensures var v := Decode(d).value.value; Decode(Encode(v) + tail) == Ok(Parsed(v, |Encode(v)|))
  {
    DecodedIsSound(d);
    DecodeEncode(Decode(d).value.value, tail);
  }

  /** A value comes back exactly when none of its strings and keys is longer than 65535 bytes. */
  lemma DecodeEncodeIff(v: Value, tail: seq<byte>)
    requires WellFormed(v)
    ensures Decode(Encode(v) + tail) == Ok(Parsed(v, |Encode(v)|)) <==> Encodable(v)
  {
    if Encodable(v) {
      DecodeEncode(v, tail);
    } else if Decode(Encode(v) + tail).Ok? {
      DecodedIsSound(Encode(v) + tail);
    }
  }

  // ---- Lists of values

  predicate AllSound(vs: seq<Value>) {
    forall v :: v in vs ==> WellFormed(v) && Encodable(v)
  }

  lemma {:induction false} DecodedLeadingAreSound(d: seq<byte>)
    ensures AllSound(DecodeLeading(d))
    decreases |d|
  {
    if d != [] && Decode(d).Ok? {
      DecodedIsSound(d);
      DecodedLeadingAreSound(d[Decode(d).value.used..]);
    }
  }

  lemma {:induction false} DecodeEncodeLeading(vs: seq<Value>)
    requires AllSound(vs)
    ensures DecodeLeading(EncodeArray(vs)) == vs
    decreases |vs|
  {
    if vs != [] {
      var d := EncodeArray(vs);
      DecodeEncode(vs[0], EncodeArray(vs[1..]));
      assert d[|Encode(vs[0])|..] == EncodeArray(vs[1..]);
      DecodeEncodeLeading(vs[1..]);
    }
  }

  /** Values in front of bytes that do not decode come back; only in the first place those bytes are an error. */
  lemma {:induction false} ListStops(vs: seq<Value>, bad: seq<byte>)
    requires AllSound(vs) && bad != [] && Decode(bad).Err?
    ensures DecodeLeading(EncodeArray(vs) + bad) == vs
    ensures DecodeArray(EncodeArray(vs) + bad) == if vs == [] then Err(Decode(bad).error) else Ok(vs)
    decreases |vs|
  {
    hide Decode, Encode;
    var d := EncodeArray(vs) + bad;
    if vs == [] {
      assert d == bad;
    } else {
      var others := EncodeArray(vs[1..]) + bad;
      assert d == Encode(vs[0]) + others;
      DecodeEncode(vs[0], others);
      assert d[|Encode(vs[0])|..] == others;
      ListStops(vs[1..], bad);
      assert vs == [vs[0]] + vs[1..];
    }
  }

  /** A list of values comes back exactly when each of its values would. */
  lemma DecodeEncodeArrayIff(vs: seq<Value>)
    requires forall v :: v in vs ==> WellFormed(v)
    ensures DecodeArray(EncodeArray(vs)) == Ok(vs) <==> (forall v :: v in vs ==> Encodable(v))
  {
    if forall v :: v in vs ==> Encodable(v) {
      DecodeEncodeLeading(vs);
      if vs != [] {
        DecodeEncode(vs[0], EncodeArray(vs[1..]));
      }
    } else {
      DecodedLeadingAreSound(EncodeArray(vs));
    }
  }
}
