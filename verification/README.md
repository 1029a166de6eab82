# otbr-web WiFi controller and web front end, modelled in Dafny

This project models the part of the OpenThread border router web service that talks to NetworkManager over D-Bus, and the HTTP framing of its web server.

- **D-Bus value codec.** A D-Bus value is an immutable datatype (`DBusTypes.DValue`). A libdbus append iterator is an append-only sequence of values. A reply is the sequence of its top-level arguments.
  - The encoders `add_bool`, `add_string`, `add_bytearray` and `message_add_dict_entry` are pure functions over that sequence.
  - The decoders `extractStringsFromObjectPathArray`, `extractStringFromVariant`, `extractUInt32FromVariant` and `extractObjectPath` return a value together with an optional named error.
- **Requests.** A request is a `Message` addressed to a target triple (destination, object path, interface). `NmBase.Interpret` reads a message back the way NetworkManager sees it: either a `Properties.Get` of a property, or an invocation of a method with its arguments.
- **Call wrappers.** These are `GetDevices`, `ActivateConnection`, `ListConnections`, `AddWirelessConnection`, `Interface` and `DeviceType`.
  - Each is a method over an abstract bus oracle (`BusCall.Bus`).
  - Each returns the `kWifiStatus_*` code (`WifiStatus.Status`) and the decoded output.
  - Each returns a trace. The trace counts acquired and released connections, queries and replies, and records every message sent with its timeout.
- **Connection profile.** The profile `AddWirelessConnection` uploads is the `a{sa{sv}}` table with five sections.
  - `ConnectionProfile.WirelessProfile` writes the table out directly, as a reference.
  - The builder in `NmSettings` is proved to produce exactly that table.
  - The lemmas state the table's type, its section and key order, and its contents.
- **Legacy controller.** The older `wifi_controller.cpp` builds the same profile through raw iterator calls (open, append, close). These are modelled as a stack machine (`DBusWriter`). The machine's run on the legacy calls is proved to leave the same single argument as the newer builder.
  - Its `get_devices` reads every child of every top-level argument with no tag check. The model proves where this agrees with the checked decoder and where it differs.
- **Web server.**
  - A response is modelled as text. An independent reader (`WebServer.ReadResponse`) parses the status line, the `Content-Length`, the optional CSS type header and the body.
  - The handler lambda of `HandleHttpRequest` and the default static-file resource are both proved to produce frames whose declared length is the body's length.
  - The root-containment test is proved to be exactly the component-prefix relation.
  - The route table `StartWebServer` registers is stated route by route.

Modules follow the source files:

| Module | Models |
|---|---|
| `NmBase` | `dbus_network_manager_base.cpp` |
| `NmRoot` | `dbus_network_manager.cpp` |
| `NmDevice` | `dbus_network_manager_device.cpp` |
| `NmSettings` | `dbus_network_manager_settings.cpp` |
| `DeviceTypes` | `dbus_network_manager_device.hpp` |
| `WifiStatus` | `wifi_controller_common.hpp` |
| `LegacyController` | `wifi_controller.cpp` |
| `WebServer` | `web_server.cpp` |

Shared support:

| Module | Provides |
|---|---|
| `Wrappers` | `Option` and `Result` |
| `CText` | C strings: `c_str`/`strlen` and the octets of a `const char *` |
| `DBusTypes` | signatures and values |
| `DBusWriter` | the iterator stack machine |
| `BusCall` | the bus oracle and the resource trace |
| `ConnectionProfile` | the reference profile table |

`DeviceType` hands back the raw `uint32` the reply holds, with no range check and no mapping of unknown codes to `Unknown`.

## Model

| member | source | states |
|---|---|---|
| CText.CStr | src/web/wifi-controller/dbus_network_manager_settings.cpp:118-146 | what `std::string::c_str()` exposes to a `const char *` parameter is the longest NUL-free prefix of the string, ending where the first NUL stands |
| CText.CStrOfNulFree | src/web/wifi-controller/dbus_network_manager_settings.cpp:118-146 | a string with no NUL passes through `c_str()` unchanged |
| DBusTypes.ParseSigText | src/web/wifi-controller/dbus_network_manager_settings.cpp:110-116 | the D-Bus signature parser reads back every signature text written, and leaves what follows untouched |
| DBusTypes.SigOfText | src/web/wifi-controller/dbus_network_manager_settings.cpp:110-116 | a complete signature text parses to exactly the signature that wrote it |
| DeviceTypes.Code | src/web/wifi-controller/dbus_network_manager_device.hpp:39-67 | every device type has a code in 0..26 |
| DeviceTypes.FromCode | src/web/wifi-controller/dbus_network_manager_device.hpp:39-67 | a code names a device type exactly when it lies in 0..26, and the named type carries that code |
| DeviceTypes.CodesDenseAndDistinct | src/web/wifi-controller/dbus_network_manager_device.hpp:39-67 | the codes are distinct (the name-to-code map is injective) and each maps back to its own name |
| WifiStatus.Code | src/web/wifi-controller/wifi_controller_common.hpp:7-18 | every status code lies in 0..8, and 0 is Ok and nothing else |
| WifiStatus.FromCode | src/web/wifi-controller/wifi_controller_common.hpp:7-18 | a code names a status exactly when it lies in 0..8, and the named status carries that code |
| WifiStatus.CodesDistinct | src/web/wifi-controller/wifi_controller_common.hpp:7-18 | the nine status codes are distinct and each maps back to its own status |
| NmBase.CreateMessagePropertyGet | src/web/wifi-controller/dbus_network_manager_base.cpp:63-78 | the message is read as `Properties.Get` of the named property of the target's interface, at the target's destination and path |
| NmBase.CreateMessageMethodCall | src/web/wifi-controller/dbus_network_manager_base.cpp:80-86 | the message is read as a call of the named method on the target triple, with no arguments |
| NmBase.LeadingObjectPaths | src/web/wifi-controller/dbus_network_manager_base.cpp:99-113 | the paths collected are the longest leading run of OBJECT_PATH elements, in order |
| NmBase.ExtractStringsFromObjectPathArray | src/web/wifi-controller/dbus_network_manager_base.cpp:88-116 | the result is an empty list with `reply_should_be_array` when the first argument is not an ARRAY; otherwise it is, with no error, the leading run of object paths of that array |
| NmBase.ObjectPathArray | src/web/wifi-controller/dbus_network_manager_base.cpp:88-116 | the array of object paths is well-typed as `ao` |
| NmBase.ObjectPathArrayRoundTrip | src/web/wifi-controller/dbus_network_manager_base.cpp:88-116 | decoding a reply whose first argument is an `ao` gives back exactly its paths, whatever follows |
| NmBase.ExtractStringFromVariant | src/web/wifi-controller/dbus_network_manager_base.cpp:118-143 | the outer tag is checked first (`reply_should_be_variant`), then the inner one (`variant_should_be_string`), with "" on either mismatch; there is no error exactly when the first argument is a variant holding a string, and the string returned is that variant's |
| NmBase.ExtractUInt32FromVariant | src/web/wifi-controller/dbus_network_manager_base.cpp:145-166 | the same two checks with `variant_should_be_uint32_t` and 0xffffffff on a mismatch; there is no error exactly when a variant holding a UINT32 comes first, and its value is returned |
| NmBase.UInt32SentinelIsAmbiguous | src/web/wifi-controller/dbus_network_manager_base.cpp:145-166 | a genuine 0xffffffff decodes without error to the same value the failure path returns, so only the error tells the two apart |
| NmBase.ExtractObjectPath | src/web/wifi-controller/dbus_network_manager_base.cpp:168-186 | there is no error exactly when the first argument is an OBJECT_PATH, and then its path is returned; otherwise "" with `reply_should_be_object_path` |
| NmBase.AddBool | src/web/wifi-controller/dbus_network_manager_base.cpp:189-213 | "true" and "false" append one `b` variant holding that truth value; any other token leaves the container as it was |
| NmBase.AddString | src/web/wifi-controller/dbus_network_manager_base.cpp:215-222 | exactly one `s` variant is appended, and the string decoder reads the string back unchanged |
| NmBase.AddByteArray | src/web/wifi-controller/dbus_network_manager_base.cpp:224-238 | exactly one `ay` variant is appended, and its bytes are the octets of the C string it is given, one per character, in order (each character's low eight bits) |
| NmBase.EncodeAppends | src/web/wifi-controller/dbus_network_manager_base.cpp:189-238 | each encoder only appends: one variant when it writes anything, and nothing else in the container changes |
| NmBase.MessageAddDictEntry | src/web/wifi-controller/dbus_network_manager_base.cpp:241-251 | one dict entry is appended, holding the key string followed by exactly what the encoder appended |
| NmBase.DictEntryOfVariant | src/web/wifi-controller/dbus_network_manager_base.cpp:241-251 | when the encoder writes, the entry is the pair of key and that variant |
| NmBase.DictEntryWellFormedIff | src/web/wifi-controller/dbus_network_manager_base.cpp:241-251 | the appended entry is a well-typed `{sv}` exactly when the encoder appended one value |
| NmRoot.ActivateConnectionRequest | src/web/wifi-controller/dbus_network_manager.cpp:85-101 | `ActivateConnection` is a call on the root target with three object-path arguments in the order connection, device, specific object |
| NmRoot.GetDevices | src/web/wifi-controller/dbus_network_manager.cpp:43-83 | `GetDevices` goes out with 1000 ms; InvalidReply with the list untouched exactly when no reply comes, otherwise Ok with the decoded paths; every acquired resource is released |
| NmRoot.ActivateConnection | src/web/wifi-controller/dbus_network_manager.cpp:85-129 | Ok exactly when a reply comes back, whatever it holds; 1000 ms timeout; every acquired resource is released |
| NmDevice.PropertyRequest | src/web/wifi-controller/dbus_network_manager_device.cpp:36-101 | `Interface` and `DeviceType` are read as `Properties.Get` of the named property on the device's own object path and the Device interface, at NetworkManager's bus name |
| NmDevice.Interface | src/web/wifi-controller/dbus_network_manager_device.cpp:43-83 | InvalidReply with the name untouched exactly when no reply comes; otherwise Ok with the decoded string ("" on a tag mismatch); every acquired resource is released |
| NmDevice.DeviceType | src/web/wifi-controller/dbus_network_manager_device.cpp:85-127 | a NULL output pointer gives InvalidArgument before any connection or message exists; otherwise as `Interface`, writing the raw decoded UINT32 (0xffffffff on a mismatch) |
| ConnectionProfile.SectionSignature | src/web/wifi-controller/dbus_network_manager_settings.cpp:110-116 | the container signatures `{sa{sv}}` and `a{sa{sv}}` the builder opens are those of a section and of the whole profile |
| ConnectionProfile.SettingSignature | src/web/wifi-controller/dbus_network_manager_settings.cpp:116 | the `{sv}` signature is that of one setting |
| ConnectionProfile.ConnectionCallsWrite | src/web/wifi-controller/dbus_network_manager_settings.cpp:113-122 | the connection section's calls write id (string), type "802-11-wireless" and autoconnect true |
| ConnectionProfile.WirelessCallsWrite | src/web/wifi-controller/dbus_network_manager_settings.cpp:126-135 | the wireless section's calls write the SSID bytes, mode "infrastructure" and security "802-11-wireless-security" |
| ConnectionProfile.WirelessSecurityCallsWrite | src/web/wifi-controller/dbus_network_manager_settings.cpp:139-148 | the security section's calls write auth-alg "open", key-mgmt "wpa-psk" and the psk |
| ConnectionProfile.IpCallsWrite | src/web/wifi-controller/dbus_network_manager_settings.cpp:152-170 | ipv4 method "auto" and ipv6 method "ignore" |
| ConnectionProfile.ScriptWritesProfile | src/web/wifi-controller/dbus_network_manager_settings.cpp:107-173 | the five sections' calls, in order, write exactly the reference profile table |
| ConnectionProfile.ProfileWellTyped | src/web/wifi-controller/dbus_network_manager_settings.cpp:107-173 | the profile is well-typed against `a{sa{sv}}` for every SSID and psk |
| ConnectionProfile.ProfileLayout | src/web/wifi-controller/dbus_network_manager_settings.cpp:107-173 | five sections in the order connection, 802-11-wireless, 802-11-wireless-security, ipv4, ipv6, each with its keys in the order written |
| ConnectionProfile.ProfileSections | src/web/wifi-controller/dbus_network_manager_settings.cpp:107-173 | looking up each section name yields that section's settings array |
| ConnectionProfile.ConnectionContents | src/web/wifi-controller/dbus_network_manager_settings.cpp:118-120 | the connection id is the SSID string as given, type is "802-11-wireless", autoconnect is true |
| ConnectionProfile.WirelessContents | src/web/wifi-controller/dbus_network_manager_settings.cpp:131-133 | the `ssid` setting holds the SSID's octets as bytes, so the SSID appears both as text and as raw bytes |
| ConnectionProfile.SecurityContents | src/web/wifi-controller/dbus_network_manager_settings.cpp:144-146 | auth-alg "open", key-mgmt "wpa-psk", and the psk copied verbatim |
| ConnectionProfile.IpContents | src/web/wifi-controller/dbus_network_manager_settings.cpp:157-168 | ipv4 method is "auto", ipv6 method is "ignore" |
| ConnectionProfile.SecuritySectionPresent | src/web/wifi-controller/dbus_network_manager_settings.cpp:133-146 | the wireless section's `security` setting names a section the profile does contain |
| ConnectionProfile.NoOtherSections | src/web/wifi-controller/dbus_network_manager_settings.cpp:107-173 | no section outside the five holds any setting |
| NmSettings.AddEntries | src/web/wifi-controller/dbus_network_manager_base.cpp:241-251 | successive `message_add_dict_entry` calls leave the array followed by one entry per call, in order |
| NmSettings.BuildSections | src/web/wifi-controller/dbus_network_manager_settings.cpp:110-171 | opening and closing each section in turn writes exactly one section per script entry |
| NmSettings.BuilderWritesProfile | src/web/wifi-controller/dbus_network_manager_settings.cpp:107-173 | the builder's argument is the reference profile, taken over the C strings of the SSID and password |
| NmSettings.AddConnectionIsInvocation | src/web/wifi-controller/dbus_network_manager_settings.cpp:104-176 | the upload is read as a call of `AddConnection` on the Settings object with the profile as its only argument |
| NmSettings.PskStopsAtNul | src/web/wifi-controller/dbus_network_manager_settings.cpp:146 | the stored psk is the password up to its first NUL: the whole password when it has none, cut short otherwise |
| NmSettings.ListConnections | src/web/wifi-controller/dbus_network_manager_settings.cpp:50-90 | `ListConnections` goes out with 1000 ms; InvalidReply with the list untouched exactly when no reply comes; otherwise Ok with the decoded paths, even when decoding fails; every resource released |
| NmSettings.AddWirelessConnection | src/web/wifi-controller/dbus_network_manager_settings.cpp:92-204 | the profile goes out with timeout -1; InvalidReply with the path untouched exactly when no reply comes; otherwise Ok with the decoded object path ("" on a mismatch); every resource released |
| NmSettings.AddConnectionCall | src/web/wifi-controller/dbus_network_manager_settings.cpp:176-201 | the same status, output and release guarantees for any profile argument |
| DBusWriter.RunConcat | src/web/wifi-controller/wifi_controller.cpp:202-266 | running two runs of iterator calls in sequence is running their concatenation |
| DBusWriter.EmitAllConcat | src/web/wifi-controller/wifi_controller.cpp:202-266 | appending two runs of values in turn is appending their concatenation |
| DBusWriter.RunWrap | src/web/wifi-controller/wifi_controller.cpp:76-87 | open, body, close leaves exactly the sealed container appended to the enclosing one |
| LegacyController.ByteOpsWrite | src/web/wifi-controller/wifi_controller.cpp:65-68 | the legacy byte loop appends one BYTE per octet, in order |
| LegacyController.ByteArrayOpsWrite | src/web/wifi-controller/wifi_controller.cpp:57-73 | legacy `add_bytearray` writes exactly what the newer `add_bytearray` appends |
| LegacyController.EncodeOpsWrite | src/web/wifi-controller/wifi_controller.cpp:17-73 | each legacy encoder writes exactly what the newer one appends (`add_bool` opens nothing for an unknown token) |
| LegacyController.DictEntryOpsWrite | src/web/wifi-controller/wifi_controller.cpp:76-87 | legacy `message_add_dict_entry` writes one entry holding the key, then the encoder's output |
| LegacyController.CallsOpsWrite | src/web/wifi-controller/wifi_controller.cpp:207-264 | a run of legacy `message_add_dict_entry` calls writes one entry per call, in order |
| LegacyController.SectionOpsWrite | src/web/wifi-controller/wifi_controller.cpp:206-215 | one legacy section writes exactly that section |
| LegacyController.ScriptOpsWrite | src/web/wifi-controller/wifi_controller.cpp:206-264 | the five legacy sections write exactly the reference sections |
| LegacyController.ScriptArrayWrite | src/web/wifi-controller/wifi_controller.cpp:203-266 | the outer array leaves one complete argument and no container open |
| LegacyController.LegacyWritesProfile | src/web/wifi-controller/wifi_controller.cpp:202-266 | the legacy iterator calls leave exactly the reference profile as the message's only argument |
| LegacyController.LegacySendsSameRequest | src/web/wifi-controller/wifi_controller.cpp:184-273 | `create_wireless_connection` and `AddWirelessConnection` send the same message for the same credentials |
| LegacyController.CreateWirelessConnection | src/web/wifi-controller/wifi_controller.cpp:184-298 | nothing happens when the message cannot be created; otherwise the profile goes out with timeout -1 when connected; everything acquired is released |
| LegacyController.SendProfile | src/web/wifi-controller/wifi_controller.cpp:269-297 | the send and `clean_up` part: connect, send, release reply, message and connection |
| LegacyController.DecodeDevices | src/web/wifi-controller/wifi_controller.cpp:152-179 | the two nested loops collect every child of every top-level argument, in order |
| LegacyController.LegacyAgreesOnPathArray | src/web/wifi-controller/wifi_controller.cpp:152-179 | on a reply holding one `ao`, the legacy listing and the checked decoder both give its paths |
| LegacyController.TextsOfPaths | src/web/wifi-controller/wifi_controller.cpp:165-175 | the texts of an object-path array are its paths |
| LegacyController.LegacyReadsEveryArgument | src/web/wifi-controller/wifi_controller.cpp:152-179 | with two arrays in the reply the legacy listing reads both, while the checked decoder reads only the first |
| LegacyController.LegacyTakesAnyString | src/web/wifi-controller/wifi_controller.cpp:158-179 | the legacy listing takes strings that are not object paths, which the checked decoder drops |
| LegacyController.GetDevicesAsWritten | src/web/wifi-controller/wifi_controller.cpp:122-182 | `get_devices` sends with timeout -1 and returns the legacy listing; a message that could not be created is only logged, so nothing is sent and no list comes back; it ends still holding its message, its connection and any reply |
| LegacyController.GetDevices | src/web/wifi-controller/wifi_controller.cpp:122-182 | the same request and listing, including the uncreated-message case, with every acquired resource released |
| WebServer.Decimal | src/web/web-service/web_server.cpp:118-128 | a length is written as a non-empty run of digits with no leading zero |
| WebServer.DecimalRoundTrip | src/web/web-service/web_server.cpp:118-128 | reading a written length gives it back |
| WebServer.LeadingDigitsOf | src/web/web-service/web_server.cpp:118-128 | a run of digits followed by a non-digit is read whole, and no further |
| WebServer.ReadFramed | src/web/web-service/web_server.cpp:42-59 | every frame the server writes reads back with its status, length, CSS header and body |
| WebServer.HandlerResponseFrame | src/web/web-service/web_server.cpp:109-139 | a handler answers 200 with the callback's text (empty for a NULL callback), or 400 with the exception message; either way the Content-Length is the body's length |
| WebServer.WithinRootIsPrefix | src/web/web-service/web_server.cpp:180-186 | the length-and-equal test accepts exactly the paths that have the root as a component-wise prefix |
| WebServer.LastDot | src/web/web-service/web_server.cpp:202 | the position found is the last '.' in the name, or none when there is no '.' |
| WebServer.Extension | src/web/web-service/web_server.cpp:202-207 | the extension is empty exactly when there is no last component, it is "." or "..", or it has no '.'; otherwise it is the suffix of the last component from its last '.' |
| WebServer.CssFileExtension | src/web/web-service/web_server.cpp:202-207 | a file whose name ends in ".css" has the extension ".css", which is what selects the CSS type header |
| WebServer.DefaultResponseFrame | src/web/web-service/web_server.cpp:168-240 | 200 only for a readable regular file inside the root, with its contents as body and the CSS type exactly for ".css"; otherwise 400 with "Could not open path " + path + ": " + the reason; the length always matches |
| WebServer.DirectoryServesIndex | src/web/web-service/web_server.cpp:187-195 | a directory inside the root is served its `index.html`, or refused when that does not exist |
| WebServer.OutsideRootRefused | src/web/web-service/web_server.cpp:180-186 | a path outside the root is refused with "path must be within root path" |
| WebServer.RegisterAllDistinct | src/web/web-service/web_server.cpp:109-111 | registering routes with distinct patterns maps each pattern to exactly its own method and handler and keeps earlier routes |
| WebServer.RouteTable | src/web/web-service/web_server.cpp:89-107 | the routes built are exactly the patterns registered, each with its one method and handler |
| WebServer.RouteMethods | src/web/web-service/web_server.cpp:300-338 | join_network, form_network, add_prefix, delete_prefix, boot_mdns and connect_wifi_network answer POST only; get_properties and available_network answer GET only |
| WebServer.RoutedPatterns | src/web/web-service/web_server.cpp:42-52 | exactly those eight patterns are routed |
| WebServer.SettingsNotRouted | src/web/web-service/web_server.cpp:49 | the `^/settings$` pattern is defined but no route answers it |

## Left out

- **The bus itself.** `dbus_bus_get`, `dbus_connection_send_with_reply_and_block`, `dbus_error_*` and message allocation are outside the model. The bus is an oracle: whether it is available, and which reply, if any, each message and timeout get. A timeout of -1 is recorded as given; it means the library's default.
- **libdbus validation.** The library's own checks of signatures and UTF-8 are not modelled, and neither is its behaviour on a NULL connection. With no connection the model sends nothing and gets no reply.
- **Message creation failure** in the newer wrappers is not modelled: they never test the message they create. It is modelled in the legacy `create_wireless_connection` and `get_devices` (their `messageCreated` flag), which both test for it. The first jumps to its cleanup. The second only logs, then hands the NULL message to the send, which libdbus refuses by returning NULL without sending.
- **Logging** (`otbrLog`, `std::cout`) is left out.
- **The uninitialised `DBusError`** that `DeviceType` reads on its InvalidArgument path is undefined behaviour. It is not modelled; the model only guarantees that nothing is acquired on that path.
- **Encoding.** Characters are Unicode code points. The octet a `const char *` character yields is taken as its code point modulo 256; UTF-8 encoding is not modelled.
- **The join workflow.** The "join every WiFi device" workflow is not modelled. In `wifi_service.cpp` the only call into the controller is `create_wireless_connection` (line 56).
- **wifi_service.** `src/web/web-service/wifi_service.cpp` and its header are JSON pass-through over jsoncpp, and the .cpp does not compile.
- **base.hpp.** `src/web/wifi-controller/dbus_network_manager_base.hpp` holds declarations only.
- **The web server's plumbing.**
  - Boost path canonicalisation and the file-system queries are parameters: `WebServer.FileSystem` gives the canonical root, the resolved path and the is-directory, is-file and read answers.
  - The chunked asynchronous sender `DefaultResourceSend` is not modelled. The file's contents are taken as the body it sends.
  - Regular-expression route matching belongs to the HTTP library; routes are keyed by their pattern text.
  - The thread start in `StartWebServer` is not modelled.
  - `HandleConnectWifiNetworkResponse` and the matching free function at the end of `web_server.cpp` are not modelled: they are declared outside the class and cannot compile as written.
- **The empty cache-control and etag strings** in the default response are not modelled: they add nothing to the frame.
- LegacyController.GetDevicesAsWritten: a NULL reply, which the source dereferences, is modelled as no device list (None) rather than as undefined behaviour. This includes the reply to a message that could not be created.
- NmBase.AddByteArray: like `NmBase.AddString`, it takes the text a `const char *` points at, so its argument is NUL-free. Every caller passes `CText.CStr` of a string or a literal. Given a string with a NUL inside, it would read past the point where `strlen` stops.
- LegacyController.DecodeDevices: two cases give None where the source has undefined behaviour. A basic value that is not string-like has no text in the model, where the source would read an undefined union member. A top-level reply argument that is not a container has no children (`Children` gives None), where the source calls `dbus_message_iter_recurse` on it at wifi_controller.cpp:162 and libdbus rejects that.
- WebServer.HandlerResponseFrame: the exception message is taken up to its first NUL, as `what()` is a `const char *`. Exceptions that are not `std::exception` are not modelled.

## Findings

| source | as written | input that shows it | evidently intended | confidence | as-written member | corrected member |
|---|---|---|---|---|---|---|
| src/web/wifi-controller/wifi_controller.cpp:122-182 | `get_devices` never unrefs its message, its reply or its connection | any call with the message created and the bus available: the trace ends holding one connection, one query, and the reply if one came | release each one that is non-NULL, as `create_wireless_connection` does at its `clean_up` label | not executed | LegacyController.GetDevicesAsWritten | LegacyController.GetDevices |
