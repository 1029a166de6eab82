/**
  The WPA-PSK wireless connection profile both controllers upload to
  NetworkManager. A profile travels as an `a{sa{sv}}`: an array of sections, each
  a name and an array of (key, variant) settings.

  The profile appears here twice. `WirelessScript` is the sequence of
  `message_add_dict_entry` calls the builders make, section by section. The
  tables (`ConnectionSettings` ...) and `WirelessProfile` state independently
  which settings must arrive. The builders are proved to turn the script into
  exactly the table, and the receiver's view of the table is stated through a
  lookup by section name and key.
 */
module ConnectionProfile {
  import opened Wrappers
  import opened CText
  import opened DBusTypes
  import opened NmBase

  const ConnectionSection: string := "connection"
  const WirelessSection: string := "802-11-wireless"
  const WirelessSecuritySection: string := "802-11-wireless-security"
  const Ipv4Section: string := "ipv4"
  const Ipv6Section: string := "ipv6"

  /** One setting `{sv}`, one section `{sa{sv}}`, and a whole profile `a{sa{sv}}`. */
  const SettingSig: Sig := SDictEntry(SString, SVariant)
  const SectionSig: Sig := SDictEntry(SString, SArray(SettingSig))
  const ProfileSig: Sig := SArray(SectionSig)

  /** The element signatures the builders pass when they open the two array levels are exactly the
      section and setting types, and the profile's own signature is `a{sa{sv}}`. */
  lemma SectionSignature()
    ensures SigOf("{sa{sv}}") == Some(SectionSig)
    ensures SigText(ProfileSig) == "a{sa{sv}}"
  {
    SigOfText(SectionSig);
  }

  lemma SettingSignature()
    ensures SigOf("{sv}") == Some(SettingSig)
  {
    SigOfText(SettingSig);
  }

  // ---------------------------------------------------------------------------
  // The script
  // ---------------------------------------------------------------------------

  /** One `message_add_dict_entry(values_array, enc, key, value)` call. */
  datatype SettingCall = SettingCall(enc: Encoder, key: string, value: string)

  /** One section: its name is appended, then its settings array is filled by these calls. */
  datatype SectionCall = SectionCall(name: string, calls: seq<SettingCall>)

  function ConnectionCalls(ssid: string): seq<SettingCall> {
    [SettingCall(AddStringEnc, "id", ssid),
     SettingCall(AddStringEnc, "type", "802-11-wireless"),
     SettingCall(AddBoolEnc, "autoconnect", "true")]
  }

  function WirelessCalls(ssid: string): seq<SettingCall> {
    [SettingCall(AddByteArrayEnc, "ssid", ssid),
     SettingCall(AddStringEnc, "mode", "infrastructure"),
     SettingCall(AddStringEnc, "security", "802-11-wireless-security")]
  }

  function WirelessSecurityCalls(psk: string): seq<SettingCall> {
    [SettingCall(AddStringEnc, "auth-alg", "open"),
     SettingCall(AddStringEnc, "key-mgmt", "wpa-psk"),
     SettingCall(AddStringEnc, "psk", psk)]
  }

  function Ipv4Calls(): seq<SettingCall> {
    [SettingCall(AddStringEnc, "method", "auto")]
  }

  function Ipv6Calls(): seq<SettingCall> {
    [SettingCall(AddStringEnc, "method", "ignore")]
  }

  /** The calls both builders make for the C strings `ssid` and `psk`, in source order. */
  function WirelessScript(ssid: string, psk: string): seq<SectionCall> {
    [SectionCall(ConnectionSection, ConnectionCalls(ssid)),
     SectionCall(WirelessSection, WirelessCalls(ssid)),
     SectionCall(WirelessSecuritySection, WirelessSecurityCalls(psk)),
     SectionCall(Ipv4Section, Ipv4Calls()),
     SectionCall(Ipv6Section, Ipv6Calls())]
  }

  /** The entry one call leaves in the settings array. */
  function EntryOf(c: SettingCall): DValue {
    DictEntry([Str(c.key)] + Encode(c.enc, [], c.value))
  }

  // ---------------------------------------------------------------------------
  // The tables
  // ---------------------------------------------------------------------------

  /** One `{sv}` setting: its key and the variant holding its value. */
  function Entry(key: string, value: DValue): DValue {
    DictEntry([Str(key), value])
  }

  /** A section: its name, then the array of its settings. */
  function Section(name: string, settings: seq<DValue>): DValue {
    DictEntry([Str(name), Array(SettingSig, settings)])
  }

  /** "connection": the SSID as the profile's id, its type, and autoconnect on. */
  function ConnectionSettings(ssid: string): seq<DValue> {
    [Entry("id", Variant(SString, Str(ssid))),
     Entry("type", Variant(SString, Str("802-11-wireless"))),
     Entry("autoconnect", Variant(SBoolean, Bool(true)))]
  }

  /** "802-11-wireless": the SSID as raw octets, infrastructure mode, and the name of the section
      holding its security settings. */
  function WirelessSettings(ssid: string): seq<DValue> {
    [Entry("ssid", Variant(SArray(SByte), Array(SByte, ByteValues(Octets(ssid))))),
     Entry("mode", Variant(SString, Str("infrastructure"))),
     Entry("security", Variant(SString, Str("802-11-wireless-security")))]
  }

  /** "802-11-wireless-security": open authentication, WPA-PSK, and the key. */
  function WirelessSecuritySettings(psk: string): seq<DValue> {
    [Entry("auth-alg", Variant(SString, Str("open"))),
     Entry("key-mgmt", Variant(SString, Str("wpa-psk"))),
     Entry("psk", Variant(SString, Str(psk)))]
  }

  function Ipv4Settings(): seq<DValue> {
    [Entry("method", Variant(SString, Str("auto")))]
  }

  function Ipv6Settings(): seq<DValue> {
    [Entry("method", Variant(SString, Str("ignore")))]
  }

  /** The profile NetworkManager is asked to store for the C strings `ssid` and `psk`. */
  function WirelessProfile(ssid: string, psk: string): DValue {
    Array(SectionSig, [
      Section(ConnectionSection, ConnectionSettings(ssid)),
      Section(WirelessSection, WirelessSettings(ssid)),
      Section(WirelessSecuritySection, WirelessSecuritySettings(psk)),
      Section(Ipv4Section, Ipv4Settings()),
      Section(Ipv6Section, Ipv6Settings())])
  }

  /** Each section's calls write exactly that section's table. */
  lemma ConnectionCallsWrite(ssid: string)
    ensures EntriesOf(ConnectionCalls(ssid)) == ConnectionSettings(ssid)
  {
    StringEntry("id", ssid);
    StringEntry("type", "802-11-wireless");
    BoolEntry("autoconnect", "true");
    EntriesOf3(ConnectionCalls(ssid));
  }

  lemma WirelessCallsWrite(ssid: string)
    ensures EntriesOf(WirelessCalls(ssid)) == WirelessSettings(ssid)
  {
    BytesEntry("ssid", ssid);
    StringEntry("mode", "infrastructure");
    StringEntry("security", "802-11-wireless-security");
    EntriesOf3(WirelessCalls(ssid));
  }

  lemma WirelessSecurityCallsWrite(psk: string)
    ensures EntriesOf(WirelessSecurityCalls(psk)) == WirelessSecuritySettings(psk)
  {
    StringEntry("auth-alg", "open");
    StringEntry("key-mgmt", "wpa-psk");
    StringEntry("psk", psk);
    EntriesOf3(WirelessSecurityCalls(psk));
  }

  lemma IpCallsWrite()
    ensures EntriesOf(Ipv4Calls()) == Ipv4Settings()
    ensures EntriesOf(Ipv6Calls()) == Ipv6Settings()
  {
    StringEntry("method", "auto");
    StringEntry("method", "ignore");
  }

  /** The profile table is the script with each section's calls replaced by the entries they write. */
  lemma ScriptWritesProfile(ssid: string, psk: string)
    ensures WirelessProfile(ssid, psk) == Array(SectionSig, SectionsOf(WirelessScript(ssid, psk)))
  {
    ConnectionCallsWrite(ssid);
    WirelessCallsWrite(ssid);
    WirelessSecurityCallsWrite(psk);
    IpCallsWrite();
  }

  /** The entries a run of calls leaves, one per call. */
  function EntriesOf(calls: seq<SettingCall>): (r: seq<DValue>)
    ensures |r| == |calls|
    ensures forall i :: 0 <= i < |calls| ==> r[i] == EntryOf(calls[i])
  {
    seq(|calls|, i requires 0 <= i < |calls| => EntryOf(calls[i]))
  }

  lemma EntriesOfCons(calls: seq<SettingCall>)
    requires |calls| > 0
    ensures EntriesOf(calls) == [EntryOf(calls[0])] + EntriesOf(calls[1..])
  {
  }

  /** The sections a script leaves, one per section call, each holding the entries of its calls. */
  function SectionsOf(script: seq<SectionCall>): (r: seq<DValue>)
    ensures |r| == |script|
    ensures forall i :: 0 <= i < |script| ==> r[i] == Section(script[i].name, EntriesOf(script[i].calls))
  {
    seq(|script|, i requires 0 <= i < |script| => Section(script[i].name, EntriesOf(script[i].calls)))
  }

  lemma SectionsOfCons(script: seq<SectionCall>)
    requires |script| > 0
    ensures SectionsOf(script)
         == [Section(script[0].name, EntriesOf(script[0].calls))] + SectionsOf(script[1..])
  {
  }

  lemma EntriesOf3(calls: seq<SettingCall>)
    requires |calls| == 3
    ensures EntriesOf(calls) == [EntryOf(calls[0]), EntryOf(calls[1]), EntryOf(calls[2])]
  {
  }

  lemma StringEntry(key: string, value: string)
    ensures EntryOf(SettingCall(AddStringEnc, key, value)) == Entry(key, Variant(SString, Str(value)))
  {
    assert [Str(key)] + [Variant(SString, Str(value))] == [Str(key), Variant(SString, Str(value))];
  }

  lemma BoolEntry(key: string, value: string)
    requires value == "true"
    ensures EntryOf(SettingCall(AddBoolEnc, key, value)) == Entry(key, Variant(SBoolean, Bool(true)))
  {
    assert [Str(key)] + [Variant(SBoolean, Bool(true))] == [Str(key), Variant(SBoolean, Bool(true))];
  }

  lemma BytesEntry(key: string, value: string)
    ensures EntryOf(SettingCall(AddByteArrayEnc, key, value))
         == Entry(key, Variant(SArray(SByte), Array(SByte, ByteValues(Octets(value)))))
  {
    var v := Variant(SArray(SByte), Array(SByte, ByteValues(Octets(value))));
    assert Encode(AddByteArrayEnc, [], value) == [v];
    assert [Str(key)] + [v] == [Str(key), v];
  }

  // ---------------------------------------------------------------------------
  // The receiver's view: a section by name, then a setting by key, the first
  // match winning.
  // ---------------------------------------------------------------------------

  /** The key of a dictionary entry whose first field is a string; "" otherwise. */
  function EntryKey(e: DValue): string {
    if e.DictEntry? && |e.fields| >= 1 && e.fields[0].Str? then e.fields[0].s else ""
  }

  /** The value field of a dictionary entry, when it has one. */
  function EntryValue(e: DValue): Option<DValue> {
    if e.DictEntry? && |e.fields| >= 2 then Some(e.fields[1]) else None
  }

  function Keys(entries: seq<DValue>): (r: seq<string>)
    ensures |r| == |entries|
    ensures forall i :: 0 <= i < |entries| ==> r[i] == EntryKey(entries[i])
  {
    seq(|entries|, i requires 0 <= i < |entries| => EntryKey(entries[i]))
  }

  /** The value of the first entry with this key. */
  function Lookup(entries: seq<DValue>, key: string): Option<DValue> {
    if |entries| == 0 then None
    else if EntryKey(entries[0]) == key then EntryValue(entries[0])
    else Lookup(entries[1..], key)
  }

  /** Lookup finds the first entry carrying the key. */
  lemma {:induction false} LookupFirst(entries: seq<DValue>, key: string, i: nat)
    requires i < |entries| && EntryKey(entries[i]) == key
    requires forall j :: 0 <= j < i ==> EntryKey(entries[j]) != key
    ensures Lookup(entries, key) == EntryValue(entries[i])
  {
    if i > 0 {
      forall j | 0 <= j < i - 1 ensures EntryKey(entries[1..][j]) != key {
        assert entries[1..][j] == entries[j + 1];
      }
      LookupFirst(entries[1..], key, i - 1);
    }
  }

  /** Lookup finds nothing when no entry carries the key. */
  lemma {:induction false} LookupAbsent(entries: seq<DValue>, key: string)
    requires key !in Keys(entries)
    ensures Lookup(entries, key) == None
  {
    if |entries| > 0 {
      assert Keys(entries)[0] == EntryKey(entries[0]);
      assert Keys(entries[1..]) == Keys(entries)[1..];
      LookupAbsent(entries[1..], key);
    }
  }

  /** Lookup in a three-entry dictionary, spelled out. */
  lemma Lookup3(a: DValue, b: DValue, c: DValue, key: string)
    ensures Lookup([a, b, c], key)
         == if EntryKey(a) == key then EntryValue(a)
            else if EntryKey(b) == key then EntryValue(b)
            else if EntryKey(c) == key then EntryValue(c)
            else None
  {
    assert [a, b, c][1..] == [b, c];
    assert [b, c][1..] == [c];
    assert [c][1..] == [];
    assert Lookup([c], key) == if EntryKey(c) == key then EntryValue(c) else None;
    assert Lookup([b, c], key) == if EntryKey(b) == key then EntryValue(b) else Lookup([c], key);
  }

  /** The content of setting `key` in section `section`: the value inside its variant. */
  function Setting(profile: DValue, section: string, key: string): Option<DValue> {
    if !profile.Array? then None
    else
      match Lookup(profile.items, section)
      case Some(Array(_, settings)) =>
        (match Lookup(settings, key)
         case Some(Variant(_, x)) => Some(x)
         case _ => None)
      case _ => None
  }

  /** The keys of section `section`, or [] when there is no such section. */
  function SectionKeys(profile: DValue, section: string): seq<string> {
    if !profile.Array? then []
    else
      match Lookup(profile.items, section)
      case Some(Array(_, settings)) => Keys(settings)
      case _ => []
  }

  // ---------------------------------------------------------------------------
  // What the profile says
  // ---------------------------------------------------------------------------

  /** Every entry of a section is a well-formed `{sv}`. */
  predicate AllSettings(entries: seq<DValue>) {
    forall i :: 0 <= i < |entries| ==> HasType(entries[i], SettingSig)
  }

  lemma AllSettings3(a: DValue, b: DValue, c: DValue)
    requires HasType(a, SettingSig) && HasType(b, SettingSig) && HasType(c, SettingSig)
    ensures AllSettings([a, b, c])
  {
  }

  /** String, boolean and byte-array settings are well-formed `{sv}` entries. */
  lemma StringSettingTyped(key: string, x: string)
    ensures HasType(Entry(key, Variant(SString, Str(x))), SettingSig)
  {
  }

  lemma BoolSettingTyped(key: string, b: bool)
    ensures HasType(Entry(key, Variant(SBoolean, Bool(b))), SettingSig)
  {
  }

  lemma BytesSettingTyped(key: string, bs: seq<byte>)
    ensures HasType(Entry(key, Variant(SArray(SByte), Array(SByte, ByteValues(bs)))), SettingSig)
  {
    var items := ByteValues(bs);
    assert forall i :: 0 <= i < |items| ==> HasType(items[i], SByte);
  }

  lemma ConnectionSettingsTyped(ssid: string)
    ensures AllSettings(ConnectionSettings(ssid))
  {
    StringSettingTyped("id", ssid);
    StringSettingTyped("type", "802-11-wireless");
    BoolSettingTyped("autoconnect", true);
    var c := ConnectionSettings(ssid);
    AllSettings3(c[0], c[1], c[2]);
  }

  lemma WirelessSettingsTyped(ssid: string)
    ensures AllSettings(WirelessSettings(ssid))
  {
    BytesSettingTyped("ssid", Octets(ssid));
    StringSettingTyped("mode", "infrastructure");
    StringSettingTyped("security", "802-11-wireless-security");
    var w := WirelessSettings(ssid);
    AllSettings3(w[0], w[1], w[2]);
  }

  lemma WirelessSecuritySettingsTyped(psk: string)
    ensures AllSettings(WirelessSecuritySettings(psk))
  {
    StringSettingTyped("auth-alg", "open");
    StringSettingTyped("key-mgmt", "wpa-psk");
    StringSettingTyped("psk", psk);
    var s := WirelessSecuritySettings(psk);
    AllSettings3(s[0], s[1], s[2]);
  }

  lemma IpSettingsTyped()
    ensures AllSettings(Ipv4Settings()) && AllSettings(Ipv6Settings())
  {
    StringSettingTyped("method", "auto");
    StringSettingTyped("method", "ignore");
  }

  /** The profile is a well-typed `a{sa{sv}}`: the D-Bus type system accepts what is sent. */
  lemma ProfileWellTyped(ssid: string, psk: string)
    ensures HasType(WirelessProfile(ssid, psk), ProfileSig)
  {
    ConnectionSettingsTyped(ssid);
    WirelessSettingsTyped(ssid);
    WirelessSecuritySettingsTyped(psk);
    IpSettingsTyped();
    var items := WirelessProfile(ssid, psk).items;
    assert forall i :: 0 <= i < |items| ==> HasType(items[i], SectionSig);
  }

  /** A section is found under its own name, holding its settings array. */
  lemma SectionEntry(name: string, settings: seq<DValue>)
    ensures EntryKey(Section(name, settings)) == name
    ensures EntryValue(Section(name, settings)) == Some(Array(SettingSig, settings))
  {
  }

  /** The five section names, in order. */
  lemma ProfileSectionNames(ssid: string, psk: string)
    ensures WirelessProfile(ssid, psk).Array?
    ensures Keys(WirelessProfile(ssid, psk).items)
         == ["connection", "802-11-wireless", "802-11-wireless-security", "ipv4", "ipv6"]
  {
    var items := WirelessProfile(ssid, psk).items;
    SectionEntry(ConnectionSection, ConnectionSettings(ssid));
    SectionEntry(WirelessSection, WirelessSettings(ssid));
    SectionEntry(WirelessSecuritySection, WirelessSecuritySettings(psk));
    SectionEntry(Ipv4Section, Ipv4Settings());
    SectionEntry(Ipv6Section, Ipv6Settings());
  }

  /** The five sections, in order, each holding its table. */
  lemma ProfileSections(ssid: string, psk: string)
    ensures WirelessProfile(ssid, psk).Array?
    ensures Keys(WirelessProfile(ssid, psk).items)
         == ["connection", "802-11-wireless", "802-11-wireless-security", "ipv4", "ipv6"]
    ensures Lookup(WirelessProfile(ssid, psk).items, "connection") == Some(Array(SettingSig, ConnectionSettings(ssid)))
    ensures Lookup(WirelessProfile(ssid, psk).items, "802-11-wireless") == Some(Array(SettingSig, WirelessSettings(ssid)))
    ensures Lookup(WirelessProfile(ssid, psk).items, "802-11-wireless-security")
         == Some(Array(SettingSig, WirelessSecuritySettings(psk)))
    ensures Lookup(WirelessProfile(ssid, psk).items, "ipv4") == Some(Array(SettingSig, Ipv4Settings()))
    ensures Lookup(WirelessProfile(ssid, psk).items, "ipv6") == Some(Array(SettingSig, Ipv6Settings()))
  {
    ProfileSectionNames(ssid, psk);
    var items := WirelessProfile(ssid, psk).items;
    var keys := Keys(items);
    assert forall i :: 0 <= i < 5 ==> EntryKey(items[i]) == keys[i];
    LookupFirst(items, "connection", 0);
    LookupFirst(items, "802-11-wireless", 1);
    LookupFirst(items, "802-11-wireless-security", 2);
    LookupFirst(items, "ipv4", 3);
    LookupFirst(items, "ipv6", 4);
  }

  /** The profile's sections, in order, and the keys of each. */
  lemma ProfileLayout(ssid: string, psk: string)
    ensures Keys(WirelessProfile(ssid, psk).items)
         == ["connection", "802-11-wireless", "802-11-wireless-security", "ipv4", "ipv6"]
    ensures SectionKeys(WirelessProfile(ssid, psk), "connection") == ["id", "type", "autoconnect"]
    ensures SectionKeys(WirelessProfile(ssid, psk), "802-11-wireless") == ["ssid", "mode", "security"]
    ensures SectionKeys(WirelessProfile(ssid, psk), "802-11-wireless-security") == ["auth-alg", "key-mgmt", "psk"]
    ensures SectionKeys(WirelessProfile(ssid, psk), "ipv4") == ["method"]
    ensures SectionKeys(WirelessProfile(ssid, psk), "ipv6") == ["method"]
  {
    ProfileSections(ssid, psk);
  }

  /** What the receiver reads out of "connection": the SSID as id, autoconnect on. */
  lemma ConnectionContents(ssid: string, psk: string)
    ensures Setting(WirelessProfile(ssid, psk), "connection", "id") == Some(Str(ssid))
    ensures Setting(WirelessProfile(ssid, psk), "connection", "type") == Some(Str("802-11-wireless"))
    ensures Setting(WirelessProfile(ssid, psk), "connection", "autoconnect") == Some(Bool(true))
  {
    ProfileSections(ssid, psk);
    var c := ConnectionSettings(ssid);
    Lookup3(c[0], c[1], c[2], "id");
    Lookup3(c[0], c[1], c[2], "type");
    Lookup3(c[0], c[1], c[2], "autoconnect");
  }

  /** What the receiver reads out of "802-11-wireless": the network name as the octets of the SSID,
      infrastructure mode, and the security section's name. */
  lemma WirelessContents(ssid: string, psk: string)
    ensures Setting(WirelessProfile(ssid, psk), "802-11-wireless", "ssid") == Some(Array(SByte, ByteValues(Octets(ssid))))
    ensures Setting(WirelessProfile(ssid, psk), "802-11-wireless", "mode") == Some(Str("infrastructure"))
    ensures Setting(WirelessProfile(ssid, psk), "802-11-wireless", "security") == Some(Str("802-11-wireless-security"))
  {
    ProfileSections(ssid, psk);
    var w := WirelessSettings(ssid);
    Lookup3(w[0], w[1], w[2], "ssid");
    Lookup3(w[0], w[1], w[2], "mode");
    Lookup3(w[0], w[1], w[2], "security");
  }

  /** What the receiver reads out of "802-11-wireless-security": WPA-PSK over open authentication,
      with the password as the pre-shared key. */
  lemma SecurityContents(ssid: string, psk: string)
    ensures Setting(WirelessProfile(ssid, psk), "802-11-wireless-security", "auth-alg") == Some(Str("open"))
    ensures Setting(WirelessProfile(ssid, psk), "802-11-wireless-security", "key-mgmt") == Some(Str("wpa-psk"))
    ensures Setting(WirelessProfile(ssid, psk), "802-11-wireless-security", "psk") == Some(Str(psk))
  {
    ProfileSections(ssid, psk);
    var s := WirelessSecuritySettings(psk);
    Lookup3(s[0], s[1], s[2], "auth-alg");
    Lookup3(s[0], s[1], s[2], "key-mgmt");
    Lookup3(s[0], s[1], s[2], "psk");
  }

  /** What the receiver reads out of the two IP sections: automatic IPv4, IPv6 ignored. */
  lemma IpContents(ssid: string, psk: string)
    ensures Setting(WirelessProfile(ssid, psk), "ipv4", "method") == Some(Str("auto"))
    ensures Setting(WirelessProfile(ssid, psk), "ipv6", "method") == Some(Str("ignore"))
  {
    ProfileSections(ssid, psk);
    LookupFirst(Ipv4Settings(), "method", 0);
    LookupFirst(Ipv6Settings(), "method", 0);
  }

  /** The wireless section's `security` setting names a section the profile really carries. */
  lemma SecuritySectionPresent(ssid: string, psk: string)
    ensures Setting(WirelessProfile(ssid, psk), "802-11-wireless", "security").Some?
    ensures var name := Setting(WirelessProfile(ssid, psk), "802-11-wireless", "security").value;
            name.Str? && name.s in Keys(WirelessProfile(ssid, psk).items)
  {
    WirelessContents(ssid, psk);
    ProfileSections(ssid, psk);
  }

  /** No section other than the five is present. */
  lemma NoOtherSections(ssid: string, psk: string, section: string)
    requires section !in ["connection", "802-11-wireless", "802-11-wireless-security", "ipv4", "ipv6"]
    ensures forall key :: Setting(WirelessProfile(ssid, psk), section, key) == None
  {
    ProfileSections(ssid, psk);
    LookupAbsent(WirelessProfile(ssid, psk).items, section);
  }
}
