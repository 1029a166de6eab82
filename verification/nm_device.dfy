/** One NetworkManager device object: its interface name and its hardware class, read as properties. */
module NmDevice {
  import opened Wrappers
  import opened CText
  import opened DBusTypes
  import opened NmBase
  import opened BusCall
  import opened WifiStatus

  const DeviceInterface: string := "org.freedesktop.NetworkManager.Device"

  /** The target for the device at object path `devicePath`. */
  function DeviceTarget(devicePath: string): Target {
    Target("org.freedesktop.NetworkManager", devicePath, DeviceInterface)
  }

  /** The `Properties.Get` both calls send, for the named property of the device at `devicePath`. */
  function PropertyRequest(devicePath: string, property: string): (m: Message)
    ensures Interpret(m) == PropertyRead("org.freedesktop.NetworkManager", devicePath, DeviceInterface, property)
  {
    CreateMessagePropertyGet(DeviceTarget(devicePath), property)
  }

  /** The property read `Interface` sends. */
  function InterfaceRequest(devicePath: string): Message {
    PropertyRequest(devicePath, "Interface")
  }

  /** The property read `DeviceType` sends. */
  function DeviceTypeRequest(devicePath: string): Message {
    PropertyRequest(devicePath, "DeviceType")
  }

  /** `Interface`: InvalidReply and the name untouched on a NULL reply; otherwise Ok with the decoded
      string, which is "" when the reply is not a string variant. */
  method Interface(bus: Bus, devicePath: string, name: string) returns (status: Status, nameOut: string, trace: Trace)
    ensures trace.sent == (if bus.available then [Sent(InterfaceRequest(devicePath), ReplyTimeoutMs)] else [])
    ensures status == Ok || status == InvalidReply
    ensures status == InvalidReply <==> Answer(bus, bus.available, InterfaceRequest(devicePath), ReplyTimeoutMs).None?
    ensures status == InvalidReply ==> nameOut == name
    ensures status == Ok ==>
      nameOut == ExtractStringFromVariant(Answer(bus, bus.available, InterfaceRequest(devicePath), ReplyTimeoutMs).value).value
    ensures Balanced(trace)
  {
    status := Ok;
    nameOut := name;
    var connected;
    connected, trace := GetConnection(bus, NoActivity);
    var query := CreateMessagePropertyGet(DeviceTarget(devicePath), "Interface");
    assert query == InterfaceRequest(devicePath);
    trace := trace.Acquire(Query);
    var reply;
    reply, trace := SendWithReplyAndBlock(bus, connected, query, ReplyTimeoutMs, trace);
    if reply.None? {
      status := InvalidReply;
    } else {
      nameOut := ExtractStringFromVariant(reply.value).value;
    }
    // exit: query, reply, connection
    trace := ReleaseIfHeld(trace, Query, true);
    trace := ReleaseIfHeld(trace, ReplyMessage, reply.Some?);
    trace := ReleaseIfHeld(trace, Connection, connected);
  }

  /** `DeviceType`. The output pointer is modelled as None for NULL, or Some of the value it points
      at. A NULL pointer is refused before anything is acquired or sent. On a NULL reply the pointee is
      untouched; otherwise it receives the decoded number unchecked (0xffffffff on a type mismatch). */
  method DeviceType(bus: Bus, devicePath: string, pDeviceType: Option<uint32>)
    returns (status: Status, pointee: Option<uint32>, trace: Trace)
    ensures pDeviceType.None? ==> status == InvalidArgument && pointee == None && trace == NoActivity
    ensures pDeviceType.Some? ==>
      && trace.sent == (if bus.available then [Sent(DeviceTypeRequest(devicePath), ReplyTimeoutMs)] else [])
      && (status == Ok || status == InvalidReply)
      && (status == InvalidReply <==> Answer(bus, bus.available, DeviceTypeRequest(devicePath), ReplyTimeoutMs).None?)
      && (status == InvalidReply ==> pointee == pDeviceType)
      && (status == Ok ==> pointee == Some(ExtractUInt32FromVariant(
                                          Answer(bus, bus.available, DeviceTypeRequest(devicePath), ReplyTimeoutMs).value).value))
    ensures Balanced(trace)
  {
    status := Ok;
    pointee := pDeviceType;
    trace := NoActivity;
    if pDeviceType.None? {
      status := InvalidArgument;
      return;
    }
    var connected;
    connected, trace := GetConnection(bus, trace);
    var query := CreateMessagePropertyGet(DeviceTarget(devicePath), "DeviceType");
    assert query == DeviceTypeRequest(devicePath);
    trace := trace.Acquire(Query);
    var reply;
    reply, trace := SendWithReplyAndBlock(bus, connected, query, ReplyTimeoutMs, trace);
    if reply.None? {
      status := InvalidReply;
    } else {
      pointee := Some(ExtractUInt32FromVariant(reply.value).value);
    }
    // exit: query, reply, connection
    trace := ReleaseIfHeld(trace, Query, true);
    trace := ReleaseIfHeld(trace, ReplyMessage, reply.Some?);
    trace := ReleaseIfHeld(trace, Connection, connected);
  }
}
