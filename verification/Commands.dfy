/** Command messages: a name, a transaction id and arguments, as a list of AMF 0 values. */
module Commands {
  import opened Bytes
  import opened Wrappers
  import opened Amf0
  import opened Amf0Laws
  import opened Amf0Codec

  datatype Command = Command(name: seq<byte>, transactionId: u64, arguments: seq<Value>)

  function Values(c: Command): (vs: seq<Value>)
    ensures |vs| == 2 + |c.arguments|
  {
    [String(c.name), Number(c.transactionId)] + c.arguments
  }

  function Encoded(c: Command): seq<byte> {
    EncodeArray(Values(c))
  }

  /** A transaction id that is not a number leaves the field at whatever it held before. */
  function Parse(payload: seq<byte>, unset: u64): Option<Command> {
    match DecodeArray(payload)
    case Err(_) => None
    case Ok(vs) =>
      if vs == [] || !vs[0].String? then None
      else
        Some(Command(vs[0].text, if |vs| > 1 && vs[1].Number? then vs[1].bits else unset,
                     if |vs| > 2 then vs[2..] else []))
  }

  method EncodeCommand(c: Command) returns (payload: seq<byte>)
    ensures payload == Encoded(c)
  {
    var values := [String(c.name)];
    values := values + [Number(c.transactionId)];
    for i := 0 to |c.arguments|
      invariant values == [String(c.name), Number(c.transactionId)] + c.arguments[..i]
    {
      values := values + [c.arguments[i]];
    }
    assert c.arguments[..|c.arguments|] == c.arguments;
    payload := EncodeAll(values);
  }

  method ParseCommand(payload: seq<byte>, unset: u64) returns (r: Option<Command>)
    ensures r == Parse(payload, unset)
  {
    var values := DecodeAll(payload);
    if values.Err? || values.value == [] {
      return None;
    }
    var vs := values.value;
    if !vs[0].String? {
      return None;
    }
    var cmd := Command(vs[0].text, unset, []);
    if |vs| > 1 && vs[1].Number? {
      cmd := cmd.(transactionId := vs[1].bits);
    }
    var i := 2;
    while i < |vs|
      invariant 2 <= i && (|vs| <= 2 ==> cmd.arguments == []) && (|vs| > 2 ==> i <= |vs| && cmd.arguments == vs[2..i])
      invariant cmd.name == vs[0].text
      invariant cmd.transactionId == if |vs| > 1 && vs[1].Number? then vs[1].bits else unset
    {
      cmd := cmd.(arguments := cmd.arguments + [vs[i]]);
      i := i + 1;
    }
    assert |vs| > 2 ==> vs[2..|vs|] == vs[2..];
    return Some(cmd);
  }

  predicate EncodableCommand(c: Command) {
    |c.name| < 0x1_0000 && forall v :: v in c.arguments ==> Encodable(v)
  }

  lemma ParsesBack(c: Command, unset: u64)
    requires (forall v :: v in c.arguments ==> WellFormed(v)) && EncodableCommand(c)
    ensures Parse(Encoded(c), unset) == Some(c)
  {
    DecodeEncodeArrayIff(Values(c));
    assert Values(c)[2..] == c.arguments;
  }

  /** Only encodable commands are ever parsed. */
  lemma ParsedIsEncodable(payload: seq<byte>, unset: u64)
    requires Parse(payload, unset).Some?
    ensures EncodableCommand(Parse(payload, unset).value)
  {
    var vs := DecodeArray(payload).value;
    DecodedLeadingAreSound(payload);
    assert vs[0] in vs && Encodable(vs[0]);
    if |vs| > 2 {
      assert forall v :: v in vs[2..] ==> v in vs;
    }
  }

  /** A command comes back exactly when its name and every string in its arguments is at most 65535 bytes long. */
  lemma ParsesBackIff(c: Command, unset: u64)
    requires forall v :: v in c.arguments ==> WellFormed(v)
    ensures Parse(Encoded(c), unset) == Some(c) <==> EncodableCommand(c)
  {
    if EncodableCommand(c) {
      ParsesBack(c, unset);
    } else if Parse(Encoded(c), unset).Some? {
      ParsedIsEncodable(Encoded(c), unset);
    }
  }

  /**
    * What lists of values are as commands: a name, then an id, which stays unset if it is no number, then the
    * arguments. Without a name there is no command.
    */
  lemma ListsAsCommands(name: seq<byte>, id: Value, args: seq<Value>, bad: seq<byte>, unset: u64)
    requires |name| < 65536 && AllSound([id]) && AllSound(args)
    ensures Parse(EncodeArray([String(name), id] + args), unset)
         == Some(Command(name, if id.Number? then id.bits else unset, args))
    ensures Parse(EncodeArray([String(name)]), unset) == Some(Command(name, unset, []))
    ensures !id.String? ==> Parse(EncodeArray([id] + args), unset) == None
    ensures Parse([], unset) == None
    ensures bad != [] && Decode(bad).Err? ==> Parse(bad, unset) == None
  {
    hide Decode, EncodeArray, DecodeArray;
    var whole, anonymous := [String(name), id] + args, [id] + args;
    assert id in [id] && WellFormed(id) && Encodable(id);
    DecodeEncodeArrayIff(whole);
    DecodeEncodeArrayIff([String(name)]);
    DecodeEncodeArrayIff(anonymous);
    assert whole[2..] == args;
    NoList(bad);
  }

  lemma NoList(bad: seq<byte>)
    ensures DecodeArray([]) == Ok([])
    ensures bad != [] && Decode(bad).Err? ==> DecodeArray(bad).Err?
  {
    hide Decode;
  }
}
