/** The NetworkManager root object: device enumeration and connection activation. */
module NmRoot {
  import opened Wrappers
  import opened CText
  import opened DBusTypes
  import opened NmBase
  import opened BusCall
  import opened WifiStatus

  const NetworkManager: Target :=
    Target("org.freedesktop.NetworkManager", "/org/freedesktop/NetworkManager", "org.freedesktop.NetworkManager")

  /** The request `GetDevices` sends. */
  function GetDevicesRequest(): Message {
    CreateMessageMethodCall(NetworkManager, "GetDevices")
  }

  /** The request `ActivateConnection` sends: three object paths appended in argument order. */
  function ActivateConnectionRequest(connection: string, device: string, specificObject: string): (m: Message)
    ensures Interpret(m) == Invocation(NetworkManager.dest, NetworkManager.path, NetworkManager.iface,
                                       "ActivateConnection",
                                       [ObjPath(connection), ObjPath(device), ObjPath(specificObject)])
  {
    var m' := AppendArgs(CreateMessageMethodCall(NetworkManager, "ActivateConnection"),
                         [ObjPath(connection), ObjPath(device), ObjPath(specificObject)]);
    assert |m'.args| == 3;
    assert Interpret(m') == Invocation(m'.dest, m'.path, m'.iface, m'.member, m'.args);
    m'
  }

  /** `GetDevices`: InvalidReply and `devices` untouched on a NULL reply; otherwise Ok, with `devices`
      replaced by the decoded object paths (empty when the reply is not an array). */
  method GetDevices(bus: Bus, devices: seq<string>) returns (status: Status, devicesOut: seq<string>, trace: Trace)
    ensures trace.sent == (if bus.available then [Sent(GetDevicesRequest(), ReplyTimeoutMs)] else [])
    ensures status == Ok || status == InvalidReply
    ensures status == InvalidReply <==> Answer(bus, bus.available, GetDevicesRequest(), ReplyTimeoutMs).None?
    ensures status == InvalidReply ==> devicesOut == devices
    ensures status == Ok ==>
      devicesOut == ExtractStringsFromObjectPathArray(Answer(bus, bus.available, GetDevicesRequest(), ReplyTimeoutMs).value).value
    ensures Balanced(trace)
  {
    status := Ok;
    devicesOut := devices;
    var connected;
    connected, trace := GetConnection(bus, NoActivity);
    var query := CreateMessageMethodCall(NetworkManager, "GetDevices");
    assert query == GetDevicesRequest();
    trace := trace.Acquire(Query);
    var reply;
    reply, trace := SendWithReplyAndBlock(bus, connected, query, ReplyTimeoutMs, trace);
    if reply.None? {
      status := InvalidReply;
    } else {
      devicesOut := ExtractStringsFromObjectPathArray(reply.value).value;
    }
    // exit: query, reply, connection
    trace := ReleaseIfHeld(trace, Query, true);
    trace := ReleaseIfHeld(trace, ReplyMessage, reply.Some?);
    trace := ReleaseIfHeld(trace, Connection, connected);
  }

  /** `ActivateConnection`: Ok exactly when a reply came back; the reply's contents are never read. */
  method ActivateConnection(bus: Bus, connection: string, device: string, specificObject: string)
    returns (status: Status, trace: Trace)
    ensures trace.sent == (if bus.available then [Sent(ActivateConnectionRequest(connection, device, specificObject), ReplyTimeoutMs)] else [])
    ensures status == Ok || status == InvalidReply
    ensures status == Ok <==> Answer(bus, bus.available, ActivateConnectionRequest(connection, device, specificObject), ReplyTimeoutMs).Some?
    ensures Balanced(trace)
  {
    status := Ok;
    var connected;
    connected, trace := GetConnection(bus, NoActivity);
    var query := CreateMessageMethodCall(NetworkManager, "ActivateConnection");
    trace := trace.Acquire(Query);
    query := AppendArgs(query, [ObjPath(connection), ObjPath(device), ObjPath(specificObject)]);
    assert query == ActivateConnectionRequest(connection, device, specificObject);
    var reply;
    reply, trace := SendWithReplyAndBlock(bus, connected, query, ReplyTimeoutMs, trace);
    if reply.None? {
      status := InvalidReply;
    }
    // exit: query, reply, connection
    trace := ReleaseIfHeld(trace, Query, true);
    trace := ReleaseIfHeld(trace, ReplyMessage, reply.Some?);
    trace := ReleaseIfHeld(trace, Connection, connected);
  }
}
