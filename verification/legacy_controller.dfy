/**
  The first-generation controller: free functions that drive the libdbus
  append iterator call by call. Its profile upload is modelled as the sequence
  of iterator calls it makes, run on the `DBusWriter` stack machine; the
  builder is proved to leave exactly the profile table as the one argument,
  so it sends the same request as the Settings wrapper.

  Its device listing reads the reply without checking any type: every child of
  every top-level container is taken as a string. It also never releases the
  connection, the request or the reply.
 */
module LegacyController {
  import opened Wrappers
  import opened CText
  import opened DBusTypes
  import opened DBusWriter
  import opened NmBase
  import opened BusCall
  import opened ConnectionProfile
  import NmRoot
  import NmSettings

  // ---------------------------------------------------------------------------
  // The encoders as iterator calls
  // ---------------------------------------------------------------------------

  /** `add_string`: a variant `s` holding the string. */
  function AddStringOps(s: string): seq<Op> {
    Wrap(VariantOf(SString), [AppendBasic(Str(s))])
  }

  /** `add_bool`: a variant `b` for the exact tokens "true" and "false"; no call at all otherwise. */
  function AddBoolOps(token: string): seq<Op> {
    if token == "true" then Wrap(VariantOf(SBoolean), [AppendBasic(Bool(true))])
    else if token == "false" then Wrap(VariantOf(SBoolean), [AppendBasic(Bool(false))])
    else []
  }

  /** The loop of `add_bytearray`: one BYTE appended per octet. */
  function ByteOps(bs: seq<byte>): (r: seq<Op>)
    ensures |r| == |bs|
    ensures forall i :: 0 <= i < |bs| ==> r[i] == AppendBasic(Byte(bs[i]))
  {
    seq(|bs|, i requires 0 <= i < |bs| => AppendBasic(Byte(bs[i])))
  }

  /** `add_bytearray`: a variant `ay` holding an array of `y`, filled with the `strlen` octets. */
  function AddByteArrayOps(s: string): seq<Op> {
    Wrap(VariantOf(SArray(SByte)), Wrap(ArrayOf(SByte), ByteOps(Octets(s))))
  }

  /** Calling the function pointer `func` on the entry iterator. */
  function EncodeOps(enc: Encoder, value: string): seq<Op> {
    match enc
    case AddStringEnc => AddStringOps(value)
    case AddBoolEnc => AddBoolOps(value)
    case AddByteArrayEnc => AddByteArrayOps(value)
  }

  /** `message_add_dict_entry`: a dict entry holding the key, then whatever `func` appends. */
  function DictEntryOps(c: SettingCall): seq<Op> {
    Wrap(DictEntryOf, [AppendBasic(Str(c.key))] + EncodeOps(c.enc, c.value))
  }

  /** One `message_add_dict_entry` after another. */
  function CallsOps(calls: seq<SettingCall>): seq<Op>
    decreases |calls|
  {
    if |calls| == 0 then [] else DictEntryOps(calls[0]) + CallsOps(calls[1..])
  }

  /** One section: a dict entry holding the name, then an array of `{sv}` filled by the calls. */
  function SectionOps(sc: SectionCall): seq<Op> {
    Wrap(DictEntryOf, [AppendBasic(Str(sc.name))] + Wrap(ArrayOf(SettingSig), CallsOps(sc.calls)))
  }

  function ScriptOps(script: seq<SectionCall>): seq<Op>
    decreases |script|
  {
    if |script| == 0 then [] else SectionOps(script[0]) + ScriptOps(script[1..])
  }

  /** Every iterator call `create_wireless_connection` makes: one `{sa{sv}}` array around the sections. */
  function ProfileOps(ssid: string, psk: string): seq<Op> {
    Wrap(ArrayOf(SectionSig), ScriptOps(WirelessScript(ssid, psk)))
  }

  // ---------------------------------------------------------------------------
  // What the calls write
  // ---------------------------------------------------------------------------

  lemma {:induction false} ByteOpsWrite(w: Writer, bs: seq<byte>)
    ensures Run(w, ByteOps(bs)) == Some(EmitAll(w, ByteValues(bs)))
    decreases |bs|
  {
    if |bs| > 0 {
      var ops := ByteOps(bs);
      assert ops[0] == AppendBasic(Byte(bs[0]));
      assert ops[1..] == ByteOps(bs[1..]);
      assert ByteValues(bs)[0] == Byte(bs[0]);
      assert ByteValues(bs)[1..] == ByteValues(bs[1..]);
      ByteOpsWrite(Emit(w, Byte(bs[0])), bs[1..]);
    }
  }

  /** A variant wrapped around one basic value writes that variant. */
  lemma VariantOfBasic(w: Writer, s: Sig, x: DValue)
    requires IsBasic(x)
    ensures Run(w, Wrap(VariantOf(s), [AppendBasic(x)])) == Some(EmitAll(w, [Variant(s, x)]))
  {
    RunAppendBasic(Push(w, VariantOf(s)), x);
    RunWrap(w, VariantOf(s), [AppendBasic(x)], [x], Variant(s, x));
    EmitAllOne(w, Variant(s, x));
  }

  lemma ByteArrayOpsWrite(w: Writer, s: string)
    ensures Run(w, AddByteArrayOps(s)) == Some(EmitAll(w, AddByteArray([], s)))
  {
    var items := ByteValues(Octets(s));
    var arr := Array(SByte, items);
    var w1 := Push(w, VariantOf(SArray(SByte)));
    ByteOpsWrite(Push(w1, ArrayOf(SByte)), Octets(s));
    RunWrap(w1, ArrayOf(SByte), ByteOps(Octets(s)), items, arr);
    EmitAllOne(w1, arr);
    RunWrap(w, VariantOf(SArray(SByte)), Wrap(ArrayOf(SByte), ByteOps(Octets(s))), [arr], Variant(SArray(SByte), arr));
    EmitAllOne(w, Variant(SArray(SByte), arr));
    assert AddByteArray([], s) == [Variant(SArray(SByte), arr)];
  }

  /** Each encoder's calls write exactly what the value-level encoder appends. */
  lemma EncodeOpsWrite(w: Writer, enc: Encoder, value: string)
    ensures Run(w, EncodeOps(enc, value)) == Some(EmitAll(w, Encode(enc, [], value)))
  {
    match enc
    case AddStringEnc =>
      VariantOfBasic(w, SString, Str(value));
    case AddBoolEnc =>
      if value == "true" {
        VariantOfBasic(w, SBoolean, Bool(true));
      } else if value == "false" {
        VariantOfBasic(w, SBoolean, Bool(false));
      }
    case AddByteArrayEnc =>
      ByteArrayOpsWrite(w, value);
  }

  /** A run of a one-value call followed by `rest`. */
  lemma RunAfterBasic(w: Writer, x: DValue, rest: seq<Op>, vs: seq<DValue>)
    requires IsBasic(x)
    requires Run(Emit(w, x), rest) == Some(EmitAll(Emit(w, x), vs))
    ensures Run(w, [AppendBasic(x)] + rest) == Some(EmitAll(w, [x] + vs))
  {
    RunConcat(w, [AppendBasic(x)], rest);
    RunAppendBasic(w, x);
    EmitAllOne(w, x);
    EmitAllConcat(w, [x], vs);
  }

  /** `message_add_dict_entry` writes exactly the entry the call describes. */
  lemma DictEntryOpsWrite(w: Writer, c: SettingCall)
    ensures Run(w, DictEntryOps(c)) == Some(Emit(w, EntryOf(c)))
  {
    var w1 := Push(w, DictEntryOf);
    var fields := [Str(c.key)] + Encode(c.enc, [], c.value);
    EncodeOpsWrite(Emit(w1, Str(c.key)), c.enc, c.value);
    RunAfterBasic(w1, Str(c.key), EncodeOps(c.enc, c.value), Encode(c.enc, [], c.value));
    RunWrap(w, DictEntryOf, [AppendBasic(Str(c.key))] + EncodeOps(c.enc, c.value), fields, DictEntry(fields));
  }

  lemma {:induction false} CallsOpsWrite(w: Writer, calls: seq<SettingCall>)
    ensures Run(w, CallsOps(calls)) == Some(EmitAll(w, EntriesOf(calls)))
    decreases |calls|
  {
    if |calls| > 0 {
      var e := EntryOf(calls[0]);
      RunConcat(w, DictEntryOps(calls[0]), CallsOps(calls[1..]));
      DictEntryOpsWrite(w, calls[0]);
      CallsOpsWrite(Emit(w, e), calls[1..]);
      EntriesOfCons(calls);
      EmitAllOne(w, e);
      EmitAllConcat(w, [e], EntriesOf(calls[1..]));
    }
  }

  /** One section's calls write exactly that section, holding the entries of its calls. */
  lemma SectionOpsWrite(w: Writer, sc: SectionCall)
    ensures Run(w, SectionOps(sc)) == Some(Emit(w, Section(sc.name, EntriesOf(sc.calls))))
  {
    var w1 := Push(w, DictEntryOf);
    var w2 := Emit(w1, Str(sc.name));
    var arr := Array(SettingSig, EntriesOf(sc.calls));
    CallsOpsWrite(Push(w2, ArrayOf(SettingSig)), sc.calls);
    RunWrap(w2, ArrayOf(SettingSig), CallsOps(sc.calls), EntriesOf(sc.calls), arr);
    EmitAllOne(w2, arr);
    RunAfterBasic(w1, Str(sc.name), Wrap(ArrayOf(SettingSig), CallsOps(sc.calls)), [arr]);
    assert [Str(sc.name)] + [arr] == [Str(sc.name), arr];
    RunWrap(w, DictEntryOf, [AppendBasic(Str(sc.name))] + Wrap(ArrayOf(SettingSig), CallsOps(sc.calls)),
            [Str(sc.name), arr], Section(sc.name, EntriesOf(sc.calls)));
  }

  lemma {:induction false} ScriptOpsWrite(w: Writer, script: seq<SectionCall>)
    ensures Run(w, ScriptOps(script)) == Some(EmitAll(w, SectionsOf(script)))
    decreases |script|
  {
    if |script| > 0 {
      var v := Section(script[0].name, EntriesOf(script[0].calls));
      RunConcat(w, SectionOps(script[0]), ScriptOps(script[1..]));
      SectionOpsWrite(w, script[0]);
      ScriptOpsWrite(Emit(w, v), script[1..]);
      SectionsOfCons(script);
      EmitAllOne(w, v);
      EmitAllConcat(w, [v], SectionsOf(script[1..]));
    }
  }

  /** The first value written into a fresh message is its one argument. */
  lemma EmitFresh(v: DValue)
    ensures Emit(Fresh, v) == Writer([v], [])
  {
    assert [] + [v] == [v];
  }

  /** Any script wrapped in the outer array leaves one complete argument and no container open. */
  lemma ScriptArrayWrite(script: seq<SectionCall>)
    ensures Run(Fresh, Wrap(ArrayOf(SectionSig), ScriptOps(script)))
         == Some(Writer([Array(SectionSig, SectionsOf(script))], []))
  {
    var v := Array(SectionSig, SectionsOf(script));
    ScriptOpsWrite(Push(Fresh, ArrayOf(SectionSig)), script);
    RunWrap(Fresh, ArrayOf(SectionSig), ScriptOps(script), SectionsOf(script), v);
    EmitFresh(v);
  }

  /** The iterator calls of `create_wireless_connection` leave exactly the profile table as the message's
      one argument, with every container closed. */
  lemma LegacyWritesProfile(ssid: string, psk: string)
    ensures Run(Fresh, ProfileOps(ssid, psk)) == Some(Writer([WirelessProfile(ssid, psk)], []))
  {
    ScriptArrayWrite(WirelessScript(ssid, psk));
    ScriptWritesProfile(ssid, psk);
  }

  // ---------------------------------------------------------------------------
  // The upload
  // ---------------------------------------------------------------------------

  /** The arguments the iterator calls leave in the message, reading both `const char *` arguments up
      to their first NUL. */
  function LegacyArgs(ssid: string, password: string): seq<DValue> {
    match Run(Fresh, ProfileOps(CStr(ssid), CStr(password)))
    case Some(w) => w.args
    case None => []
  }

  function LegacyRequest(ssid: string, password: string): Message {
    CreateMessageMethodCall(NmSettings.SettingsTarget, "AddConnection").(args := LegacyArgs(ssid, password))
  }

  /** Both controllers upload the same message for the same credentials. */
  lemma LegacySendsSameRequest(ssid: string, password: string)
    ensures LegacyRequest(ssid, password) == NmSettings.AddConnectionRequest(ssid, password)
  {
    LegacyWritesProfile(CStr(ssid), CStr(password));
  }

  /** `create_wireless_connection`: builds the request, then connects and sends it with the library's
      default timeout; the reply is discarded, and everything held is released at `clean_up`.
      `messageCreated` is false when `dbus_message_new_method_call` returns NULL: the function then
      jumps straight to `clean_up`, where nothing is held. */
  method CreateWirelessConnection(bus: Bus, ssid: string, password: string, messageCreated: bool)
    returns (trace: Trace)
    ensures trace.sent == (if messageCreated && bus.available then [Sent(LegacyRequest(ssid, password), DefaultTimeout)] else [])
    ensures !messageCreated ==> trace == NoActivity
    ensures Balanced(trace)
  {
    if !messageCreated {
      trace := NoActivity;
      return;
    }
    trace := SendProfile(bus, LegacyArgs(ssid, password));
  }

  /** The part of `create_wireless_connection` around the builder: the request is created and filled
      with `args` before the connection is taken. */
  method SendProfile(bus: Bus, args: seq<DValue>) returns (trace: Trace)
    ensures trace.sent == (if bus.available
                           then [Sent(CreateMessageMethodCall(NmSettings.SettingsTarget, "AddConnection").(args := args), DefaultTimeout)]
                           else [])
    ensures Balanced(trace)
  {
    var query := CreateMessageMethodCall(NmSettings.SettingsTarget, "AddConnection");
    trace := NoActivity.Acquire(Query);
    query := query.(args := args);
    var connected;
    connected, trace := GetConnection(bus, trace);
    var reply;
    reply, trace := SendWithReplyAndBlock(bus, connected, query, DefaultTimeout, trace);
    // clean_up: reply, msg, connection
    trace := ReleaseIfHeld(trace, ReplyMessage, reply.Some?);
    trace := ReleaseIfHeld(trace, Query, true);
    trace := ReleaseIfHeld(trace, Connection, connected);
  }

  // ---------------------------------------------------------------------------
  // The device listing
  // ---------------------------------------------------------------------------

  /** What `dbus_message_iter_recurse` walks for a value: a container's contents; None for a basic
      value, which libdbus refuses to recurse into, leaving the inner iterator undefined. */
  function Children(v: DValue): Option<seq<DValue>> {
    match v
    case Array(_, items) => Some(items)
    case Variant(_, x) => Some([x])
    case DictEntry(fs) => Some(fs)
    case _ => None
  }

  /** `value.str` after `dbus_message_iter_get_basic`: a text only for the string-like types; for any
      other value the pointer read is undefined. */
  function TextOf(v: DValue): Option<string> {
    match v
    case Str(s) => Some(s)
    case ObjPath(p) => Some(p)
    case _ => None
  }

  /** `acc` followed by what a further step yields, undefined when that step is. */
  function Then(acc: seq<string>, rest: Option<seq<string>>): (r: Option<seq<string>>)
    ensures r.Some? <==> rest.Some?
    ensures r.Some? ==> r.value == acc + rest.value
  {
    if rest.Some? then Some(acc + rest.value) else None
  }

  /** The texts of the values, in order; None when any of them has none. */
  function Texts(vs: seq<DValue>): Option<seq<string>>
    decreases |vs|
  {
    if |vs| == 0 then Some([])
    else if TextOf(vs[0]).None? then None
    else Then([TextOf(vs[0]).value], Texts(vs[1..]))
  }

  /** What the legacy listing collects from a reply's arguments: every child of every top-level
      argument, in order, with no check of any type. None where the C code's behaviour is undefined. */
  function LegacyDevices(args: seq<DValue>): Option<seq<string>>
    decreases |args|
  {
    if |args| == 0 then Some([])
    else if Children(args[0]).None? then None
    else
      match Texts(Children(args[0]).value)
      case None => None
      case Some(ts) => Then(ts, LegacyDevices(args[1..]))
  }

  /** On a reply holding one `ao`, the legacy listing reads what the typed decoder reads. */
  lemma LegacyAgreesOnPathArray(paths: seq<string>)
    ensures LegacyDevices([ObjectPathArray(paths)]) == Some(paths)
    ensures ExtractStringsFromObjectPathArray([ObjectPathArray(paths)]) == Decoded(paths, None)
  {
    ObjectPathArrayRoundTrip(paths, []);
    assert [ObjectPathArray(paths)] + [] == [ObjectPathArray(paths)];
    TextsOfPaths(paths);
    assert [ObjectPathArray(paths)][1..] == [];
    assert paths + [] == paths;
  }

  lemma {:induction false} TextsOfPaths(paths: seq<string>)
    ensures Texts(ObjectPathArray(paths).items) == Some(paths)
    decreases |paths|
  {
    var items := ObjectPathArray(paths).items;
    if |paths| > 0 {
      assert items[0] == ObjPath(paths[0]);
      assert items[1..] == ObjectPathArray(paths[1..]).items;
      TextsOfPaths(paths[1..]);
      assert [paths[0]] + paths[1..] == paths;
    }
  }

  /** Off that shape the two part ways: a second array is also read by the legacy listing... */
  lemma LegacyReadsEveryArgument()
    ensures LegacyDevices([ObjectPathArray(["/a"]), ObjectPathArray(["/b"])]) == Some(["/a", "/b"])
    ensures ExtractStringsFromObjectPathArray([ObjectPathArray(["/a"]), ObjectPathArray(["/b"])]).value == ["/a"]
  {
    var a := ObjectPathArray(["/a"]);
    var b := ObjectPathArray(["/b"]);
    TextsOfPaths(["/a"]);
    TextsOfPaths(["/b"]);
    ObjectPathArrayRoundTrip(["/a"], [b]);
    assert [a, b] == [a] + [b];
    assert [a, b][1..] == [b];
    assert [b][1..] == [];
    assert LegacyDevices([b]) == Some(["/b"]) by {
      assert ["/b"] + [] == ["/b"];
    }
    assert ["/a"] + ["/b"] == ["/a", "/b"];
  }

  /** ...and strings that are not object paths are taken as devices. */
  lemma LegacyTakesAnyString()
    ensures LegacyDevices([Array(SString, [Str("eth0")])]) == Some(["eth0"])
    ensures ExtractStringsFromObjectPathArray([Array(SString, [Str("eth0")])]).value == []
  {
    var items := [Str("eth0")];
    assert items[1..] == [];
    assert Texts(items) == Some(["eth0"]) by {
      assert ["eth0"] + [] == ["eth0"];
    }
    assert [Array(SString, items)][1..] == [];
    assert ["eth0"] + [] == ["eth0"];
  }

  /** The two loops of `get_devices` over a reply: the outer one over the top-level arguments, the inner
      one over each argument's children. */
  method DecodeDevices(reply: seq<DValue>) returns (devices: Option<seq<string>>)
    ensures devices == LegacyDevices(reply)
  {
    var acc: seq<string> := [];
    var i := 0;
    assert reply[0..] == reply;
    ThenNil(LegacyDevices(reply));
    while i < |reply|
      invariant 0 <= i <= |reply|
      invariant LegacyDevices(reply) == Then(acc, LegacyDevices(reply[i..]))
      decreases |reply| - i
    {
      assert reply[i..][0] == reply[i];
      assert reply[i..][1..] == reply[i + 1..];
      var children := Children(reply[i]);
      if children.None? {
        return None;
      }
      var cs := children.value;
      var texts: seq<string> := [];
      var j := 0;
      assert cs[0..] == cs;
      ThenNil(Texts(cs));
      while j < |cs|
        invariant 0 <= j <= |cs|
        invariant Texts(cs) == Then(texts, Texts(cs[j..]))
        decreases |cs| - j
      {
        assert cs[j..][0] == cs[j];
        assert cs[j..][1..] == cs[j + 1..];
        var text := TextOf(cs[j]);
        if text.None? {
          return None;
        }
        ThenThen(texts, [text.value], Texts(cs[j + 1..]));
        texts := texts + [text.value];
        j := j + 1;
      }
      assert cs[j..] == [];
      assert texts + [] == texts;
      ThenThen(acc, texts, LegacyDevices(reply[i + 1..]));
      acc := acc + texts;
      i := i + 1;
    }
    assert reply[i..] == [];
    assert acc + [] == acc;
    devices := Some(acc);
  }

  lemma ThenNil(rest: Option<seq<string>>)
    ensures Then([], rest) == rest
  {
    if rest.Some? {
      assert [] + rest.value == rest.value;
    }
  }

  /** Appending in two steps is appending once. */
  lemma ThenThen(a: seq<string>, b: seq<string>, rest: Option<seq<string>>)
    ensures Then(a, Then(b, rest)) == Then(a + b, rest)
  {
    if rest.Some? {
      assert a + (b + rest.value) == (a + b) + rest.value;
    }
  }

  /** The listing of a reply; None for a NULL reply, which `get_devices` would dereference. */
  method DecodeReply(reply: Option<Reply>) returns (devices: Option<seq<string>>)
    ensures devices == (match reply case None => None case Some(r) => LegacyDevices(r))
  {
    if reply.None? {
      devices := None;
    } else {
      devices := DecodeDevices(reply.value);
    }
  }

  /** `get_devices` as written: creates the request, connects, sends `GetDevices` with the library's
      default timeout, and reads the reply with the untyped loops (undefined on a NULL reply). The
      connection, the request and the reply are never released. `messageCreated` is false when
      `dbus_message_new_method_call` returns NULL: that is only logged, and the NULL message is handed
      to the send, which libdbus refuses by returning a NULL reply without sending. */
  method GetDevicesAsWritten(bus: Bus, messageCreated: bool) returns (devices: Option<seq<string>>, trace: Trace)
    ensures trace.sent == (if messageCreated && bus.available then [Sent(NmRoot.GetDevicesRequest(), DefaultTimeout)] else [])
    ensures devices == (if !messageCreated then None
                        else match Answer(bus, bus.available, NmRoot.GetDevicesRequest(), DefaultTimeout)
                             case None => None
                             case Some(r) => LegacyDevices(r))
    ensures trace.queries == (if messageCreated then 1 else 0)
    ensures trace.connections == (if bus.available then 1 else 0)
    ensures trace.replies == (if messageCreated && Answer(bus, bus.available, NmRoot.GetDevicesRequest(), DefaultTimeout).Some? then 1 else 0)
    ensures !Balanced(trace) <==> messageCreated || bus.available
  {
    var query := CreateMessageMethodCall(NmRoot.NetworkManager, "GetDevices");
    assert query == NmRoot.GetDevicesRequest();
    trace := if messageCreated then NoActivity.Acquire(Query) else NoActivity;
    var connected;
    connected, trace := GetConnection(bus, trace);
    var reply;
    reply, trace := SendWithReplyAndBlock(bus, connected && messageCreated, query, DefaultTimeout, trace);
    assert reply == (if messageCreated then Answer(bus, bus.available, NmRoot.GetDevicesRequest(), DefaultTimeout) else None);
    devices := DecodeReply(reply);
  }

  /** `get_devices` with the release steps `create_wireless_connection` has at its `clean_up` label:
      the same request and result, and nothing left held. */
  method GetDevices(bus: Bus, messageCreated: bool) returns (devices: Option<seq<string>>, trace: Trace)
    ensures trace.sent == (if messageCreated && bus.available then [Sent(NmRoot.GetDevicesRequest(), DefaultTimeout)] else [])
    ensures devices == (if !messageCreated then None
                        else match Answer(bus, bus.available, NmRoot.GetDevicesRequest(), DefaultTimeout)
                             case None => None
                             case Some(r) => LegacyDevices(r))
    ensures Balanced(trace)
  {
    var query := CreateMessageMethodCall(NmRoot.NetworkManager, "GetDevices");
    assert query == NmRoot.GetDevicesRequest();
    trace := if messageCreated then NoActivity.Acquire(Query) else NoActivity;
    var connected;
    connected, trace := GetConnection(bus, trace);
    var reply;
    reply, trace := SendWithReplyAndBlock(bus, connected && messageCreated, query, DefaultTimeout, trace);
    assert reply == (if messageCreated then Answer(bus, bus.available, NmRoot.GetDevicesRequest(), DefaultTimeout) else None);
    devices := DecodeReply(reply);
    trace := ReleaseIfHeld(trace, ReplyMessage, reply.Some?);
    trace := ReleaseIfHeld(trace, Query, messageCreated);
    trace := ReleaseIfHeld(trace, Connection, connected);
  }
}
