/**
  D-Bus values and their types, after the "Type System" section of the D-Bus
  Specification, restricted to the types the NetworkManager client uses.
 */
module DBusTypes {
  import opened Wrappers
  import opened CText

  newtype uint32 = x: int | 0 <= x < 0x1_0000_0000

  /** A single complete type, the structure behind one signature such as "a{sv}". */
  datatype Sig =
    | SString
    | SBoolean
    | SByte
    | SUInt32
    | SObjectPath
    | SVariant
    | SArray(elem: Sig)
    | SDictEntry(key: Sig, value: Sig)

  /** Basic (non-container) types: the only ones allowed as dictionary keys. */
  predicate IsBasicSig(t: Sig) {
    !t.SVariant? && !t.SArray? && !t.SDictEntry?
  }

  /** The signature text of a type ("s", "ay", "{sv}", ...). */
  function SigText(t: Sig): string {
    match t
    case SString => "s"
    case SBoolean => "b"
    case SByte => "y"
    case SUInt32 => "u"
    case SObjectPath => "o"
    case SVariant => "v"
    case SArray(e) => "a" + SigText(e)
    case SDictEntry(k, v) => "{" + SigText(k) + SigText(v) + "}"
  }

  /** Reads one complete type off the front of a signature, returning it with the unread rest. */
  function ParseSig(s: string): (r: Option<(Sig, string)>)
    ensures r.Some? ==> |r.value.1| < |s|
    decreases |s|, 0
  {
    if |s| == 0 then None
    else if s[0] == 's' then Some((SString, s[1..]))
    else if s[0] == 'b' then Some((SBoolean, s[1..]))
    else if s[0] == 'y' then Some((SByte, s[1..]))
    else if s[0] == 'u' then Some((SUInt32, s[1..]))
    else if s[0] == 'o' then Some((SObjectPath, s[1..]))
    else if s[0] == 'v' then Some((SVariant, s[1..]))
    else if s[0] == 'a' then
      match ParseSig(s[1..])
      case None => None
      case Some((e, rest)) => Some((SArray(e), rest))
    else if s[0] == '{' then ParseDictEntryRest(s[1..])
    else None
  }

  /** The part of a dict-entry type after its "{": a key type, a value type, then "}". */
  function ParseDictEntryRest(s: string): (r: Option<(Sig, string)>)
    ensures r.Some? ==> |r.value.1| < |s|
    decreases |s|, 1
  {
    match ParseSig(s)
    case None => None
    case Some((k, rest1)) =>
      match ParseSig(rest1)
      case None => None
      case Some((v, rest2)) =>
        if |rest2| > 0 && rest2[0] == '}' then Some((SDictEntry(k, v), rest2[1..])) else None
  }

  /** The whole text is exactly one complete type. */
  function SigOf(s: string): Option<Sig> {
    match ParseSig(s)
    case Some((t, rest)) => if rest == [] then Some(t) else None
    case None => None
  }

  /** Signature text and the structured type say the same thing: reading back a written type yields it. */
  lemma {:induction false} ParseSigText(t: Sig, rest: string)
    ensures ParseSig(SigText(t) + rest) == Some((t, rest))
    decreases t, 1
  {
    match t
    case SArray(e) => ParseArrayText(e, rest);
    case SDictEntry(k, v) => ParseDictEntryText(k, v, rest);
    case _ =>
  }

  lemma {:induction false} ParseArrayText(e: Sig, rest: string)
    ensures ParseSig(SigText(SArray(e)) + rest) == Some((SArray(e), rest))
    decreases SArray(e), 0
  {
    assert (SigText(SArray(e)) + rest)[1..] == SigText(e) + rest;
    ParseSigText(e, rest);
  }

  lemma {:induction false} ParseDictEntryText(k: Sig, v: Sig, rest: string)
    ensures ParseSig(SigText(SDictEntry(k, v)) + rest) == Some((SDictEntry(k, v), rest))
    decreases SDictEntry(k, v), 0
  {
    var close := "}" + rest;
    var afterKey := SigText(v) + close;
    assert SigText(SDictEntry(k, v)) + rest == "{" + (SigText(k) + afterKey);
    ParseSigText(k, afterKey);
    ParseSigText(v, close);
    assert ParseDictEntryRest(SigText(k) + afterKey) == Some((SDictEntry(k, v), rest));
  }

  /** A written type is read back whole, with nothing left over. */
  lemma SigOfText(t: Sig)
    ensures SigOf(SigText(t)) == Some(t)
  {
    ParseSigText(t, "");
    assert SigText(t) + "" == SigText(t);
  }

  /** A D-Bus value. Containers keep their declared element or content signature. */
  datatype DValue =
    | Str(s: string)
    | Bool(b: bool)
    | Byte(octet: byte)
    | U32(n: uint32)
    | ObjPath(path: string)
    | Array(elem: Sig, items: seq<DValue>)
    | Variant(sig: Sig, inner: DValue)
    | DictEntry(fields: seq<DValue>)

  /** The type code libdbus reports for the value under an iterator; Invalid past the end. */
  datatype ArgType = Invalid | StringType | BooleanType | ByteType | UInt32Type
                   | ObjectPathType | ArrayType | VariantType | DictEntryType

  function TypeOf(v: DValue): ArgType {
    match v
    case Str(_) => StringType
    case Bool(_) => BooleanType
    case Byte(_) => ByteType
    case U32(_) => UInt32Type
    case ObjPath(_) => ObjectPathType
    case Array(_, _) => ArrayType
    case Variant(_, _) => VariantType
    case DictEntry(_) => DictEntryType
  }

  /** `dbus_message_iter_get_arg_type` on a fresh iterator over these arguments. */
  function FirstArgType(args: seq<DValue>): ArgType {
    if |args| == 0 then Invalid else TypeOf(args[0])
  }

  predicate IsBasic(v: DValue) {
    !v.Array? && !v.Variant? && !v.DictEntry?
  }

  /** The value is well-formed at type `t`: arrays hold elements of their element type, a variant
      holds a value of its own signature, and a dict entry is exactly a basic key and a value. */
  predicate HasType(v: DValue, t: Sig)
    decreases v
  {
    match v
    case Str(_) => t == SString
    case Bool(_) => t == SBoolean
    case Byte(_) => t == SByte
    case U32(_) => t == SUInt32
    case ObjPath(_) => t == SObjectPath
    case Array(e, items) => t == SArray(e) && forall i :: 0 <= i < |items| ==> HasType(items[i], e)
    case Variant(s, x) => t == SVariant && HasType(x, s)
    case DictEntry(fs) =>
      t.SDictEntry? && IsBasicSig(t.key) && |fs| == 2 && HasType(fs[0], t.key) && HasType(fs[1], t.value)
  }
}
