/** The hardware classes a NetworkManager device reports through its DeviceType property. */
module DeviceTypes {
  import opened Wrappers

  datatype DeviceType =
    | Unknown | Ethernet | Wifi | Unused1 | Unused2 | Bt | OlpcMesh | Wimax | Modem
    | Infiniband | Bond | Vlan | Adsl | Bridge | Generic | Team | Tun | IpTunnel
    | Macvlan | Vxlan | Veth | Macsec | Dummy | Ppp | OvsInterface | OvsPort | OvsBridge

  /** The number each class is reported as. */
  function Code(t: DeviceType): (c: nat)
    ensures c <= 26
  {
    match t
    case Unknown => 0
    case Ethernet => 1
    case Wifi => 2
    case Unused1 => 3
    case Unused2 => 4
    case Bt => 5
    case OlpcMesh => 6
    case Wimax => 7
    case Modem => 8
    case Infiniband => 9
    case Bond => 10
    case Vlan => 11
    case Adsl => 12
    case Bridge => 13
    case Generic => 14
    case Team => 15
    case Tun => 16
    case IpTunnel => 17
    case Macvlan => 18
    case Vxlan => 19
    case Veth => 20
    case Macsec => 21
    case Dummy => 22
    case Ppp => 23
    case OvsInterface => 24
    case OvsPort => 25
    case OvsBridge => 26
  }

  /** The class a reported number names, if any: exactly the numbers 0 through 26 name one. */
  function FromCode(c: int): (r: Option<DeviceType>)
    ensures r.Some? <==> 0 <= c <= 26
    ensures r.Some? ==> Code(r.value) == c
  {
    if c < 14 then LowFromCode(c) else HighFromCode(c)
  }

  function LowFromCode(c: int): (r: Option<DeviceType>)
    ensures r.Some? <==> 0 <= c < 14
    ensures r.Some? ==> Code(r.value) == c
  {
    if c == 0 then Some(Unknown)
    else if c == 1 then Some(Ethernet)
    else if c == 2 then Some(Wifi)
    else if c == 3 then Some(Unused1)
    else if c == 4 then Some(Unused2)
    else if c == 5 then Some(Bt)
    else if c == 6 then Some(OlpcMesh)
    else if c == 7 then Some(Wimax)
    else if c == 8 then Some(Modem)
    else if c == 9 then Some(Infiniband)
    else if c == 10 then Some(Bond)
    else if c == 11 then Some(Vlan)
    else if c == 12 then Some(Adsl)
    else if c == 13 then Some(Bridge)
    else None
  }

  function HighFromCode(c: int): (r: Option<DeviceType>)
    ensures r.Some? <==> 14 <= c <= 26
    ensures r.Some? ==> Code(r.value) == c
  {
    if c == 14 then Some(Generic)
    else if c == 15 then Some(Team)
    else if c == 16 then Some(Tun)
    else if c == 17 then Some(IpTunnel)
    else if c == 18 then Some(Macvlan)
    else if c == 19 then Some(Vxlan)
    else if c == 20 then Some(Veth)
    else if c == 21 then Some(Macsec)
    else if c == 22 then Some(Dummy)
    else if c == 23 then Some(Ppp)
    else if c == 24 then Some(OvsInterface)
    else if c == 25 then Some(OvsPort)
    else if c == 26 then Some(OvsBridge)
    else None
  }

  /** The codes are dense and distinct: every class comes back from its own code, and two classes
      sharing a code are the same class. */
  lemma CodesDenseAndDistinct(t: DeviceType, u: DeviceType)
    ensures FromCode(Code(t)) == Some(t)
    ensures Code(t) == Code(u) ==> t == u
  {
  }
}
