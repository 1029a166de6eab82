/**
  The system bus as the wrappers meet it. The bus itself is out of sight: a
  `Bus` value says whether a connection can be had and how the service answers
  each (message, timeout) pair. A `Trace` records what a wrapper acquired,
  released and sent, so that resource discipline can be stated about real
  outputs.
 */
module BusCall {
  import opened Wrappers
  import opened DBusTypes
  import opened NmBase

  /** A reply message, as the sequence of its top-level arguments. */
  type Reply = seq<DValue>

  /** `available`: whether `dbus_bus_get` yields a connection; `respond`: the reply, or None when
      `dbus_connection_send_with_reply_and_block` returns NULL (error, timeout, no reply). */
  datatype Bus = Bus(available: bool, respond: (Message, int) -> Option<Reply>)

  /** The timeout the wrappers pass for quick calls, in milliseconds. */
  const ReplyTimeoutMs: int := 1000

  /** The timeout passed for the profile upload: libdbus reads -1 as "use the library default". */
  const DefaultTimeout: int := -1

  datatype Resource = Connection | Query | ReplyMessage

  datatype Sent = Sent(msg: Message, timeoutMs: int)

  /** What a call did with the bus: how many of each resource it still holds, whether it ever released
      one it did not hold, and the requests it put on the wire. */
  datatype Trace = Trace(connections: int, queries: int, replies: int, releasedUnheld: bool, sent: seq<Sent>) {

    function Held(r: Resource): int {
      match r
      case Connection => connections
      case Query => queries
      case ReplyMessage => replies
    }

    function Acquire(r: Resource): Trace {
      match r
      case Connection => this.(connections := connections + 1)
      case Query => this.(queries := queries + 1)
      case ReplyMessage => this.(replies := replies + 1)
    }

    function Release(r: Resource): Trace {
      if Held(r) <= 0 then this.(releasedUnheld := true)
      else
        match r
        case Connection => this.(connections := connections - 1)
        case Query => this.(queries := queries - 1)
        case ReplyMessage => this.(replies := replies - 1)
    }
  }

  const NoActivity: Trace := Trace(0, 0, 0, false, [])

  /** Every resource acquired has been released exactly once, and nothing unheld was released. */
  predicate Balanced(t: Trace) {
    t.connections == 0 && t.queries == 0 && t.replies == 0 && !t.releasedUnheld
  }

  /** The reply a call gets: a NULL connection makes libdbus return a NULL reply without sending. */
  function Answer(bus: Bus, connected: bool, m: Message, timeoutMs: int): Option<Reply> {
    if connected then bus.respond(m, timeoutMs) else None
  }

  /** `getConnection`: a connection when the bus has one to give, recorded as held. */
  method GetConnection(bus: Bus, t: Trace) returns (connected: bool, t': Trace)
    ensures connected == bus.available
    ensures t' == (if connected then t.Acquire(Connection) else t)
  {
    connected := bus.available;
    t' := if connected then t.Acquire(Connection) else t;
  }

  /** `dbus_connection_send_with_reply_and_block`: sends when connected; a non-NULL reply is held. */
  method SendWithReplyAndBlock(bus: Bus, connected: bool, m: Message, timeoutMs: int, t: Trace)
    returns (reply: Option<Reply>, t': Trace)
    ensures reply == Answer(bus, connected, m, timeoutMs)
    ensures t'.(sent := t.sent) == (if reply.Some? then t.Acquire(ReplyMessage) else t)
    ensures t'.sent == t.sent + (if connected then [Sent(m, timeoutMs)] else [])
  {
    reply := Answer(bus, connected, m, timeoutMs);
    t' := if connected then t.(sent := t.sent + [Sent(m, timeoutMs)]) else t;
    if reply.Some? {
      t' := t'.Acquire(ReplyMessage);
    }
  }

  /** The `if (x) unref(x)` steps at a wrapper's exit label. */
  method ReleaseIfHeld(t: Trace, r: Resource, held: bool) returns (t': Trace)
    ensures t' == (if held then t.Release(r) else t)
  {
    t' := if held then t.Release(r) else t;
  }
}
