/** The result codes every NetworkManager wrapper returns. */
module WifiStatus {
  import W = Wrappers

  datatype Status =
    | Ok
    | Failure
    | InvalidArgument
    | ConnectToNetworkFailed
    | GetDevicesFailed
    | NoWifiDevAvailable
    | InvalidConnection
    | InvalidMessage
    | InvalidReply

  /** The integer each status is returned as. */
  function Code(s: Status): (c: nat)
    ensures c < 9
    ensures c == 0 <==> s == Ok
  {
    match s
    case Ok => 0
    case Failure => 1
    case InvalidArgument => 2
    case ConnectToNetworkFailed => 3
    case GetDevicesFailed => 4
    case NoWifiDevAvailable => 5
    case InvalidConnection => 6
    case InvalidMessage => 7
    case InvalidReply => 8
  }

  /** The status an integer stands for, if any: the codes are exactly 0 through 8. */
  function FromCode(c: int): (r: W.Option<Status>)
    ensures r.Some? <==> 0 <= c < 9
    ensures r.Some? ==> Code(r.value) == c
  {
    if c == 0 then W.Some(Ok)
    else if c == 1 then W.Some(Failure)
    else if c == 2 then W.Some(InvalidArgument)
    else if c == 3 then W.Some(ConnectToNetworkFailed)
    else if c == 4 then W.Some(GetDevicesFailed)
    else if c == 5 then W.Some(NoWifiDevAvailable)
    else if c == 6 then W.Some(InvalidConnection)
    else if c == 7 then W.Some(InvalidMessage)
    else if c == 8 then W.Some(InvalidReply)
    else W.None
  }

  /** Distinct statuses are returned as distinct codes, and every status survives the trip through its code. */
  lemma CodesDistinct(s: Status, t: Status)
    ensures FromCode(Code(s)) == W.Some(s)
    ensures Code(s) == Code(t) ==> s == t
  {
  }
}
