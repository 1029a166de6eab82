/**
  The NetworkManager Settings object: listing the stored connection profiles and
  uploading a new WPA-PSK wireless profile.
 */
module NmSettings {
  import opened Wrappers
  import opened CText
  import opened DBusTypes
  import opened NmBase
  import opened BusCall
  import opened WifiStatus
  import opened ConnectionProfile

  const SettingsTarget: Target :=
    Target("org.freedesktop.NetworkManager", "/org/freedesktop/NetworkManager/Settings",
           "org.freedesktop.NetworkManager.Settings")

  // ---------------------------------------------------------------------------
  // The builder: each section's calls write into its settings array in order,
  // and each section is closed before the next one opens.
  // ---------------------------------------------------------------------------

  /** One `message_add_dict_entry` call appends exactly the entry the call describes. */
  lemma AddEntryStep(it: seq<DValue>, c: SettingCall)
    ensures MessageAddDictEntry(it, c.enc, c.key, c.value) == it + [EntryOf(c)]
  {
  }

  /** The settings array after `message_add_dict_entry` has run each call in turn on it. */
  function AddEntries(it: seq<DValue>, calls: seq<SettingCall>): (r: seq<DValue>)
    ensures r == it + EntriesOf(calls)
    decreases |calls|
  {
    if |calls| == 0 then it
    else
      AddEntryStep(it, calls[0]);
      EntriesOfCons(calls);
      AddEntries(MessageAddDictEntry(it, calls[0].enc, calls[0].key, calls[0].value), calls[1..])
  }

  /** The sections written for a script, one `{sa{sv}}` per section call. */
  function BuildSections(script: seq<SectionCall>): (r: seq<DValue>)
    ensures r == SectionsOf(script)
    decreases |script|
  {
    if |script| == 0 then []
    else
      var entries := AddEntries([], script[0].calls);
      assert entries == EntriesOf(script[0].calls) by {
        assert [] + EntriesOf(script[0].calls) == EntriesOf(script[0].calls);
      }
      SectionsOfCons(script);
      [Section(script[0].name, entries)] + BuildSections(script[1..])
  }

  /** The profile `AddWirelessConnection` appends: the script run on `ssid.c_str()` and
      `password.c_str()`. */
  function BuildProfile(ssid: string, password: string): DValue {
    Array(SectionSig, BuildSections(WirelessScript(CStr(ssid), CStr(password))))
  }

  /** The builder writes exactly the profile table, for the C strings the two arguments expose. */
  lemma BuilderWritesProfile(ssid: string, password: string)
    ensures BuildProfile(ssid, password) == WirelessProfile(CStr(ssid), CStr(password))
  {
    ScriptWritesProfile(CStr(ssid), CStr(password));
  }

  /** The `AddConnection` call carrying `profile` as its one argument. */
  function AddConnectionMessage(profile: DValue): Message {
    CreateMessageMethodCall(SettingsTarget, "AddConnection").(args := [profile])
  }

  /** NetworkManager reads the upload as a call of its own `AddConnection` with the profile as the
      only argument, never as a property read. */
  lemma AddConnectionIsInvocation(ssid: string, password: string)
    ensures Interpret(AddConnectionRequest(ssid, password))
         == Invocation(SettingsTarget.dest, SettingsTarget.path, SettingsTarget.iface,
                       "AddConnection", [WirelessProfile(CStr(ssid), CStr(password))])
  {
  }

  /** The request `AddWirelessConnection` sends for these arguments. */
  function AddConnectionRequest(ssid: string, password: string): Message {
    AddConnectionMessage(WirelessProfile(CStr(ssid), CStr(password)))
  }

  /** The request `ListConnections` sends. */
  function ListConnectionsRequest(): Message {
    CreateMessageMethodCall(SettingsTarget, "ListConnections")
  }

  /** The key stored is the password up to its first NUL: a password with a NUL inside reaches
      NetworkManager cut short, with nothing to tell the caller. */
  lemma PskStopsAtNul(ssid: string, password: string)
    ensures Setting(AddConnectionRequest(ssid, password).args[0], "802-11-wireless-security", "psk")
         == Some(Str(CStr(password)))
    ensures NUL in password ==> |CStr(password)| < |password| && password[|CStr(password)|] == NUL
    ensures NUL !in password ==> CStr(password) == password
  {
    SecurityContents(CStr(ssid), CStr(password));
    if NUL !in password {
      CStrOfNulFree(password);
    }
  }

  // ---------------------------------------------------------------------------
  // The two calls
  // ---------------------------------------------------------------------------

  /** `ListConnections`: InvalidReply and the list untouched on a NULL reply; otherwise Ok with the
      decoded object paths (empty when the reply is not an array). */
  method ListConnections(bus: Bus, connections: seq<string>)
    returns (status: Status, connectionsOut: seq<string>, trace: Trace)
    ensures trace.sent == (if bus.available then [Sent(ListConnectionsRequest(), ReplyTimeoutMs)] else [])
    ensures status == Ok || status == InvalidReply
    ensures status == InvalidReply <==> Answer(bus, bus.available, ListConnectionsRequest(), ReplyTimeoutMs).None?
    ensures status == InvalidReply ==> connectionsOut == connections
    ensures status == Ok ==>
      connectionsOut == ExtractStringsFromObjectPathArray(
                          Answer(bus, bus.available, ListConnectionsRequest(), ReplyTimeoutMs).value).value
    ensures Balanced(trace)
  {
    status := Ok;
    connectionsOut := connections;
    var connected;
    connected, trace := GetConnection(bus, NoActivity);
    var query := CreateMessageMethodCall(SettingsTarget, "ListConnections");
    assert query == ListConnectionsRequest();
    trace := trace.Acquire(Query);
    var reply;
    reply, trace := SendWithReplyAndBlock(bus, connected, query, ReplyTimeoutMs, trace);
    if reply.None? {
      status := InvalidReply;
    } else {
      connectionsOut := ExtractStringsFromObjectPathArray(reply.value).value;
    }
    // exit: query, reply, connection
    trace := ReleaseIfHeld(trace, Query, true);
    trace := ReleaseIfHeld(trace, ReplyMessage, reply.Some?);
    trace := ReleaseIfHeld(trace, Connection, connected);
  }

  /** `AddWirelessConnection`: uploads the profile with the library's default timeout. InvalidReply and
      the path untouched on a NULL reply; otherwise Ok, with the path set from the reply, which is ""
      when the reply does not start with an object path. */
  method AddWirelessConnection(bus: Bus, ssid: string, password: string, newConnPath: string)
    returns (status: Status, newConnPathOut: string, trace: Trace)
    ensures trace.sent == (if bus.available then [Sent(AddConnectionRequest(ssid, password), DefaultTimeout)] else [])
    ensures status == Ok || status == InvalidReply
    ensures status == InvalidReply <==> Answer(bus, bus.available, AddConnectionRequest(ssid, password), DefaultTimeout).None?
    ensures status == InvalidReply ==> newConnPathOut == newConnPath
    ensures status == Ok ==>
      newConnPathOut == ExtractObjectPath(Answer(bus, bus.available, AddConnectionRequest(ssid, password), DefaultTimeout).value).value
    ensures Balanced(trace)
  {
    BuilderWritesProfile(ssid, password);
    status, newConnPathOut, trace := AddConnectionCall(bus, BuildProfile(ssid, password), newConnPath);
  }

  /** The body of `AddWirelessConnection` once the profile is built: the call itself and its cleanup. */
  method AddConnectionCall(bus: Bus, profile: DValue, newConnPath: string)
    returns (status: Status, newConnPathOut: string, trace: Trace)
    ensures trace.sent == (if bus.available then [Sent(AddConnectionMessage(profile), DefaultTimeout)] else [])
    ensures status == Ok || status == InvalidReply
    ensures status == InvalidReply <==> Answer(bus, bus.available, AddConnectionMessage(profile), DefaultTimeout).None?
    ensures status == InvalidReply ==> newConnPathOut == newConnPath
    ensures status == Ok ==>
      newConnPathOut == ExtractObjectPath(Answer(bus, bus.available, AddConnectionMessage(profile), DefaultTimeout).value).value
    ensures Balanced(trace)
  {
    status := Ok;
    newConnPathOut := newConnPath;
    var connected;
    connected, trace := GetConnection(bus, NoActivity);
    var query := CreateMessageMethodCall(SettingsTarget, "AddConnection");
    trace := trace.Acquire(Query);
    query := query.(args := [profile]);
    assert query == AddConnectionMessage(profile);
    var reply;
    reply, trace := SendWithReplyAndBlock(bus, connected, query, DefaultTimeout, trace);
    if reply.None? {
      status := InvalidReply;
    } else {
      newConnPathOut := ExtractObjectPath(reply.value).value;
    }
    // exit: reply, query, connection
    trace := ReleaseIfHeld(trace, ReplyMessage, reply.Some?);
    trace := ReleaseIfHeld(trace, Query, true);
    trace := ReleaseIfHeld(trace, Connection, connected);
  }
}
