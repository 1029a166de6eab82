/**
  The shared part of every NetworkManager client object: the bus target it is
  constructed with, the two kinds of request it builds, the typed reply
  decoders, and the variant encoders used to fill a connection profile.
 */
module NmBase {
  import opened Wrappers
  import opened CText
  import opened DBusTypes

  /** Whom a request is addressed to: (destination, object path, interface), fixed at construction. */
  datatype Target = Target(dest: string, path: string, iface: string)

  /** A method call as it is handed to the bus. */
  datatype Message = MethodCall(dest: string, path: string, iface: string, member: string, args: seq<DValue>)

  const PropertiesInterface: string := "org.freedesktop.DBus.Properties"

  /** What the receiving service makes of a call: a standard property read, or a call of one of its own methods. */
  datatype Request =
    | PropertyRead(dest: string, path: string, iface: string, property: string)
    | Invocation(dest: string, path: string, iface: string, methodName: string, args: seq<DValue>)

  /** The receiver's reading of a message, following the org.freedesktop.DBus.Properties.Get convention. */
  function Interpret(m: Message): Request {
    if m.iface == PropertiesInterface && m.member == "Get" && |m.args| == 2 && m.args[0].Str? && m.args[1].Str? then
      PropertyRead(m.dest, m.path, m.args[0].s, m.args[1].s)
    else
      Invocation(m.dest, m.path, m.iface, m.member, m.args)
  }

  /** `createMessagePropertyGet`: a Properties.Get call naming the target's own interface and the property. */
  function CreateMessagePropertyGet(t: Target, propName: string): (m: Message)
    ensures Interpret(m) == PropertyRead(t.dest, t.path, t.iface, propName)
  {
    MethodCall(t.dest, t.path, PropertiesInterface, "Get", [Str(t.iface), Str(propName)])
  }

  /** `createMessageMethodCall`: a call of `methodName` on the target's interface, with no arguments yet. */
  function CreateMessageMethodCall(t: Target, methodName: string): (m: Message)
    ensures Interpret(m) == Invocation(t.dest, t.path, t.iface, methodName, [])
  {
    MethodCall(t.dest, t.path, t.iface, methodName, [])
  }

  /** `dbus_message_append_args`: further arguments after those already in the message. */
  function AppendArgs(m: Message, args: seq<DValue>): Message {
    m.(args := m.args + args)
  }

  // ---------------------------------------------------------------------------
  // Reply decoders
  // ---------------------------------------------------------------------------

  /** The error names the decoders set on a type mismatch. */
  datatype DecodeError =
    | ReplyShouldBeArray
    | ReplyShouldBeVariant
    | VariantShouldBeString
    | VariantShouldBeUInt32
    | ReplyShouldBeObjectPath

  function ErrorName(e: DecodeError): string {
    match e
    case ReplyShouldBeArray => "reply_should_be_array"
    case ReplyShouldBeVariant => "reply_should_be_variant"
    case VariantShouldBeString => "variant_should_be_string"
    case VariantShouldBeUInt32 => "variant_should_be_uint32_t"
    case ReplyShouldBeObjectPath => "reply_should_be_object_path"
  }

  /** A decoder's outcome: the value it returns and the error it leaves set, if any. */
  datatype Decoded<T> = Decoded(value: T, error: Option<DecodeError>)

  /** `paths` is the longest run of object paths at the front of `items`, in order. */
  predicate IsLeadingPathRun(paths: seq<string>, items: seq<DValue>) {
    && |paths| <= |items|
    && (forall i :: 0 <= i < |paths| ==> items[i] == ObjPath(paths[i]))
    && (|paths| < |items| ==> !items[|paths|].ObjPath?)
  }

  /** The object paths read by the `while (arg_type == OBJECT_PATH)` loop over an array's items. */
  function LeadingObjectPaths(items: seq<DValue>): (r: seq<string>)
    ensures IsLeadingPathRun(r, items)
  {
    if |items| == 0 || !items[0].ObjPath? then []
    else [items[0].path] + LeadingObjectPaths(items[1..])
  }

  /** `extractStringsFromObjectPathArray`. */
  function ExtractStringsFromObjectPathArray(reply: seq<DValue>): (r: Decoded<seq<string>>)
    ensures FirstArgType(reply) != ArrayType ==> r == Decoded([], Some(ReplyShouldBeArray))
    ensures FirstArgType(reply) == ArrayType ==> r.error == None && IsLeadingPathRun(r.value, reply[0].items)
  {
    if FirstArgType(reply) != ArrayType then Decoded([], Some(ReplyShouldBeArray))
    else Decoded(LeadingObjectPaths(reply[0].items), None)
  }

  /** The reply a service sends for an `ao` result holding `paths`. */
  function ObjectPathArray(paths: seq<string>): (v: DValue)
    ensures HasType(v, SArray(SObjectPath))
  {
    Array(SObjectPath, seq(|paths|, i requires 0 <= i < |paths| => ObjPath(paths[i])))
  }

  /** Decoding an object-path array gives back exactly the paths, whatever follows it. */
  lemma ObjectPathArrayRoundTrip(paths: seq<string>, rest: seq<DValue>)
    ensures ExtractStringsFromObjectPathArray([ObjectPathArray(paths)] + rest) == Decoded(paths, None)
  {
    var r := ExtractStringsFromObjectPathArray([ObjectPathArray(paths)] + rest);
    assert ([ObjectPathArray(paths)] + rest)[0] == ObjectPathArray(paths);
    assert |r.value| == |paths|;
    assert r.value == paths;
  }

  /** `extractStringFromVariant`: the outer tag must be VARIANT, then the inner tag STRING. */
  function ExtractStringFromVariant(reply: seq<DValue>): (r: Decoded<string>)
    ensures FirstArgType(reply) != VariantType ==> r == Decoded("", Some(ReplyShouldBeVariant))
    ensures FirstArgType(reply) == VariantType && !reply[0].inner.Str? ==> r == Decoded("", Some(VariantShouldBeString))
    ensures r.error == None <==> FirstArgType(reply) == VariantType && reply[0].inner.Str?
    ensures r.error == None ==> Variant(reply[0].sig, Str(r.value)) == reply[0]
  {
    if FirstArgType(reply) != VariantType then Decoded("", Some(ReplyShouldBeVariant))
    else if TypeOf(reply[0].inner) != StringType then Decoded("", Some(VariantShouldBeString))
    else Decoded(reply[0].inner.s, None)
  }

  /** The value `extractUInt32FromVariant` returns on a type mismatch. */
  const UInt32Sentinel: uint32 := 0xffff_ffff

  /** `extractUInt32FromVariant`: the outer tag must be VARIANT, then the inner tag UINT32. */
  function ExtractUInt32FromVariant(reply: seq<DValue>): (r: Decoded<uint32>)
    ensures FirstArgType(reply) != VariantType ==> r == Decoded(UInt32Sentinel, Some(ReplyShouldBeVariant))
    ensures FirstArgType(reply) == VariantType && !reply[0].inner.U32? ==> r == Decoded(UInt32Sentinel, Some(VariantShouldBeUInt32))
    ensures r.error == None <==> FirstArgType(reply) == VariantType && reply[0].inner.U32?
    ensures r.error == None ==> Variant(reply[0].sig, U32(r.value)) == reply[0]
  {
    if FirstArgType(reply) != VariantType then Decoded(UInt32Sentinel, Some(ReplyShouldBeVariant))
    else if TypeOf(reply[0].inner) != UInt32Type then Decoded(UInt32Sentinel, Some(VariantShouldBeUInt32))
    else Decoded(reply[0].inner.n, None)
  }

  /** The sentinel is also a legal payload: the returned value alone cannot tell a well-typed reply of
      0xffffffff from a mistyped one; only the error separates them. */
  lemma UInt32SentinelIsAmbiguous()
    ensures ExtractUInt32FromVariant([Variant(SUInt32, U32(0xffff_ffff))]).value
         == ExtractUInt32FromVariant([Str("eth0")]).value
    ensures ExtractUInt32FromVariant([Variant(SUInt32, U32(0xffff_ffff))]).error
         != ExtractUInt32FromVariant([Str("eth0")]).error
  {
  }

  /** `extractObjectPath`: the first argument itself must be an OBJECT_PATH. */
  function ExtractObjectPath(reply: seq<DValue>): (r: Decoded<string>)
    ensures r.error == None <==> FirstArgType(reply) == ObjectPathType
    ensures r.error == None ==> reply[0] == ObjPath(r.value)
    ensures r.error != None ==> r == Decoded("", Some(ReplyShouldBeObjectPath))
  {
    if FirstArgType(reply) != ObjectPathType then Decoded("", Some(ReplyShouldBeObjectPath))
    else Decoded(reply[0].path, None)
  }

  // ---------------------------------------------------------------------------
  // Variant encoders. The iterator they append to is modelled as the sequence of
  // values already written into the enclosing container.
  // ---------------------------------------------------------------------------

  /** The three encoders `message_add_dict_entry` can be handed. */
  datatype Encoder = AddStringEnc | AddBoolEnc | AddByteArrayEnc

  /** The boolean carried by a `v` holding a `b`, if that is what `v` is. */
  function VariantBool(v: DValue): Option<bool> {
    if v.Variant? && v.inner.Bool? then Some(v.inner.b) else None
  }

  /** The bytes carried by a `v` holding an `ay`, if that is what `v` is. */
  function VariantBytes(v: DValue): Option<seq<byte>> {
    if v.Variant? && v.inner.Array? && (forall i :: 0 <= i < |v.inner.items| ==> v.inner.items[i].Byte?) then
      Some(seq(|v.inner.items|, i requires 0 <= i < |v.inner.items| && v.inner.items[i].Byte? => v.inner.items[i].octet))
    else None
  }

  /** `add_bool`: only the exact tokens "true" and "false" are encoded; anything else writes nothing. */
  function AddBool(it: seq<DValue>, token: string): (r: seq<DValue>)
    ensures |r| >= |it| && r[..|it|] == it
    ensures token == "true" || token == "false" ==>
      |r| == |it| + 1 && HasType(r[|it|], SVariant) && r[|it|].sig == SBoolean
      && VariantBool(r[|it|]) == Some(token == "true")
    ensures token != "true" && token != "false" ==> r == it
  {
    if token == "true" then it + [Variant(SBoolean, Bool(true))]
    else if token == "false" then it + [Variant(SBoolean, Bool(false))]
    else it
  }

  /** `add_string`: one `v` holding the string. */
  function AddString(it: seq<DValue>, s: string): (r: seq<DValue>)
    ensures |r| == |it| + 1 && r[..|it|] == it
    ensures HasType(r[|it|], SVariant) && r[|it|].sig == SString
    ensures ExtractStringFromVariant([r[|it|]]).error == None && ExtractStringFromVariant([r[|it|]]).value == s
  {
    it + [Variant(SString, Str(s))]
  }

  /** The `y` elements appended one per character by `add_bytearray`'s loop. */
  function ByteValues(bs: seq<byte>): (r: seq<DValue>)
    ensures |r| == |bs|
    ensures forall i :: 0 <= i < |bs| ==> r[i] == Byte(bs[i])
  {
    seq(|bs|, i requires 0 <= i < |bs| => Byte(bs[i]))
  }

  /** `add_bytearray`: one `v` holding an `ay` of the string's `strlen` octets. */
  function AddByteArray(it: seq<DValue>, s: string): (r: seq<DValue>)
    ensures |r| == |it| + 1 && r[..|it|] == it
    ensures HasType(r[|it|], SVariant) && r[|it|].sig == SArray(SByte)
    ensures VariantBytes(r[|it|]) == Some(Octets(s))
  {
    var items := ByteValues(Octets(s));
    var v := Variant(SArray(SByte), Array(SByte, items));
    assert forall i :: 0 <= i < |items| ==> HasType(items[i], SByte);
    assert VariantBytes(v).value == Octets(s);
    it + [v]
  }

  /** Calling the function pointer `func` on an iterator. */
  function Encode(enc: Encoder, it: seq<DValue>, value: string): seq<DValue>
  {
    match enc
    case AddStringEnc => AddString(it, value)
    case AddBoolEnc => AddBool(it, value)
    case AddByteArrayEnc => AddByteArray(it, value)
  }

  /** Whether the encoder writes a value at all: only `add_bool` can decline. */
  predicate Writes(enc: Encoder, value: string) {
    enc != AddBoolEnc || value == "true" || value == "false"
  }

  /** What an encoder writes does not depend on what the container already holds. */
  lemma EncodeAppends(enc: Encoder, it: seq<DValue>, value: string)
    ensures Encode(enc, it, value) == it + Encode(enc, [], value)
    ensures |Encode(enc, [], value)| == (if Writes(enc, value) then 1 else 0)
    ensures Writes(enc, value) ==> HasType(Encode(enc, [], value)[0], SVariant)
  {
  }

  /** `message_add_dict_entry`: one DICT_ENTRY holding the key string, then whatever `func` wrote. */
  function MessageAddDictEntry(it: seq<DValue>, enc: Encoder, name: string, value: string): (r: seq<DValue>)
    ensures |r| == |it| + 1 && r[..|it|] == it
    ensures r[|it|].DictEntry? && |r[|it|].fields| >= 1 && r[|it|].fields[0] == Str(name)
    ensures r[|it|].fields[1..] == Encode(enc, [], value)
  {
    var entry := DictEntry([Str(name)] + Encode(enc, [], value));
    assert entry.fields[1..] == Encode(enc, [], value);
    it + [entry]
  }

  /** When the encoder writes, the entry is exactly the key and the one variant written. */
  lemma DictEntryOfVariant(it: seq<DValue>, enc: Encoder, name: string, value: string)
    requires Writes(enc, value)
    ensures MessageAddDictEntry(it, enc, name, value) == it + [DictEntry([Str(name), Encode(enc, [], value)[0]])]
  {
    EncodeAppends(enc, [], value);
    assert [Str(name)] + Encode(enc, [], value) == [Str(name), Encode(enc, [], value)[0]];
  }

  /** The entry is a well-formed `{sv}` exactly when the encoder wrote something: an unrecognised
      boolean token leaves a one-field entry behind. */
  lemma {:induction false} DictEntryWellFormedIff(it: seq<DValue>, enc: Encoder, name: string, value: string)
    ensures HasType(MessageAddDictEntry(it, enc, name, value)[|it|], SDictEntry(SString, SVariant))
        <==> Writes(enc, value)
  {
    EncodeAppends(enc, [], value);
    var entry := MessageAddDictEntry(it, enc, name, value)[|it|];
    assert entry.fields == [Str(name)] + Encode(enc, [], value);
  }
}
