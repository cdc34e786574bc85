/**
  MulticastSocket: a datagram socket with multicast group membership,
  loopback, time-to-live and outbound-interface options. Every operation
  picks the IPv4 or the IPv6 option by family; IPv4 names an interface by
  its first IPv4 address, IPv6 by its numeric index.
 */
module Multicast {
  import opened Outcomes
  import opened Ints
  import opened Addresses
  import opened Primitive
  import opened Interfaces
  import Datagram

  const MulticastIf4 := OptionKey(IPPROTO_IP, IP_MULTICAST_IF)
  const MulticastIf6 := OptionKey(IPPROTO_IPV6, IPV6_MULTICAST_IF)
  const Loop4 := OptionKey(IPPROTO_IP, IP_MULTICAST_LOOP)
  const Loop6 := OptionKey(IPPROTO_IPV6, IPV6_MULTICAST_LOOP)
  const Ttl4 := OptionKey(IPPROTO_IP, IP_MULTICAST_TTL)
  const Hops6 := OptionKey(IPPROTO_IPV6, IPV6_MULTICAST_HOPS)

  /** Whether a membership call joins or leaves the group. */
  datatype Action = Add | Drop

  /** The membership option of an action, at the IPv4 level. */
  function MembershipKey4(action: Action): OptionKey
  {
    OptionKey(IPPROTO_IP, if action == Add then IP_ADD_MEMBERSHIP else IP_DROP_MEMBERSHIP)
  }

  /** The membership option of an action, at the IPv6 level. */
  function MembershipKey6(action: Action): OptionKey
  {
    OptionKey(IPPROTO_IPV6, if action == Add then IPV6_ADD_MEMBERSHIP else IPV6_DROP_MEMBERSHIP)
  }

  /** The families a multicast socket can be opened for. */
  function MulticastFamilies(cfg: Config): set<SocketFamily>
  {
    if cfg.haveIPv6 then {IPv4, IPv6} else {IPv4}
  }

  /**
    MulticastSocket(family): the datagram socket for `family`, refused with
    InvalidArgument for UNIX_LOCAL on a Unix build (on other builds the
    datagram constructor already refuses it).
   */
  function Open(family: SocketFamily, cfg: Config): (r: Result<Sock>)
    ensures r.Ok? <==> family in MulticastFamilies(cfg)
    ensures r.Err? ==> r.error == InvalidArgument
    ensures r.Ok? ==> r == Datagram.Open(family, cfg)
    ensures family == UnixLocal ==> r == Err(InvalidArgument)
  {
    var s :- Datagram.Open(family, cfg);
    if cfg.unixBuild && family == UnixLocal then Err(InvalidArgument) else Ok(s)
  }

  /** `address().af()`: the native family of the descriptor; InvalidSocket without one. */
  function NativeFamilyOf(s: Sock): (r: Result<NativeFamily>)
    ensures r.Ok? <==> s.af.Some?
    ensures r.Ok? ==> r.value == s.af.value
  {
    if s.af.None? then Err(InvalidSocket) else Ok(s.af.value)
  }

  // ---------------------------------------------------------------------
  // Outbound interface

  /**
    setInterface: on an IPv4 socket IP_MULTICAST_IF gets the interface's
    first IPv4 address, on an IPv6 socket IPV6_MULTICAST_IF gets its index;
    any other family is UnsupportedFamily.
   */
  function SetInterface(s: Sock, itf: NetworkInterface, cfg: Config): (r: Result<Sock>)
    ensures s.af == Some(AF_INET) ==>
      if Supports(itf, V4) then r.Ok? && Wrote(s, r.value, MulticastIf4, Addr(FirstAddress(itf, V4).value))
      else r == Err(NotFound)
    ensures s.af == Some(AF_INET6) && cfg.haveIPv6 ==>
      r.Ok? && Wrote(s, r.value, MulticastIf6, UInt(itf.index))
    ensures s.af == Some(AF_UNIX) || (s.af == Some(AF_INET6) && !cfg.haveIPv6) ==> r == Err(UnsupportedFamily)
    ensures s.af.None? ==> r == Err(InvalidSocket)
  {
    var af :- NativeFamilyOf(s);
    if FamilyOf(af) == IPv4 then
      var a :- FirstAddress(itf, V4);
      SetOption(s, MulticastIf4, Addr(a))
    else if cfg.haveIPv6 && FamilyOf(af) == IPv6 then
      SetOption(s, MulticastIf6, UInt(itf.index))
    else
      Err(UnsupportedFamily)
  }

  /** The IPv4 attempt of getInterface: IP_MULTICAST_IF read back, then looked up by address. */
  function InterfaceByAddress(s: Sock, dir: seq<NetworkInterface>): (r: Result<NetworkInterface>)
    ensures r.Ok? <==> GetAddress(s, MulticastIf4).Ok? && ForAddress(dir, GetAddress(s, MulticastIf4).value).Ok?
    ensures r.Ok? ==> r.value in dir && GetAddress(s, MulticastIf4).value in r.value.addresses
  {
    var a :- GetAddress(s, MulticastIf4);
    ForAddress(dir, a)
  }

  /** The IPv6 attempt of getInterface: IPV6_MULTICAST_IF read as an `int`, then looked up by index. */
  function InterfaceByIndex(s: Sock, dir: seq<NetworkInterface>): (r: Result<NetworkInterface>)
    ensures r.Ok? <==> GetInt(s, MulticastIf6).Ok? &&
                       exists k :: 0 <= k < |dir| && dir[k].index == AsUnsigned(GetInt(s, MulticastIf6).value)
    ensures r.Ok? ==> r.value in dir && r.value.index == AsUnsigned(GetInt(s, MulticastIf6).value)
    ensures r.Err? && GetInt(s, MulticastIf6).Ok? ==> r.error == InterfaceNotFound
  {
    var ix :- GetInt(s, MulticastIf6);
    ForIndex(dir, AsUnsigned(ix))
  }

  /**
    getInterface: the IPv4 attempt's interface if it succeeds; otherwise the
    IPv6 attempt's result, or, without IPv6 support, the IPv4 failure again.
   */
  function GetInterface(s: Sock, dir: seq<NetworkInterface>, cfg: Config): (r: Result<NetworkInterface>)
    ensures r.Ok? ==> r.value in dir
    ensures InterfaceByAddress(s, dir).Ok? ==> r == InterfaceByAddress(s, dir)
    ensures InterfaceByAddress(s, dir).Err? && cfg.haveIPv6 ==> r == InterfaceByIndex(s, dir)
    ensures InterfaceByAddress(s, dir).Err? && !cfg.haveIPv6 ==> r == InterfaceByAddress(s, dir)
  {
    var byAddress := InterfaceByAddress(s, dir);
    if byAddress.Ok? then byAddress
    else if cfg.haveIPv6 then InterfaceByIndex(s, dir)
    else byAddress
  }

  // ---------------------------------------------------------------------
  // Loopback and time-to-live

  /**
    setLoopback: an IPv4 socket stores the flag as an `unsigned char` 1 or 0;
    otherwise, with IPv6 support, as an `unsigned` 1 or 0; otherwise nothing.
   */
  function SetLoopback(s: Sock, flag: bool, cfg: Config): (r: Result<Sock>)
    ensures r.Ok? <==> s.af.Some?
    ensures s.af == Some(AF_INET) ==> Wrote(s, r.value, Loop4, UChar(if flag then 1 else 0))
    ensures s.af.Some? && s.af != Some(AF_INET) && cfg.haveIPv6 ==> Wrote(s, r.value, Loop6, UInt(if flag then 1 else 0))
    ensures s.af.Some? && s.af != Some(AF_INET) && !cfg.haveIPv6 ==> r == Ok(s)
  {
    var af :- NativeFamilyOf(s);
    if af == AF_INET then SetOption(s, Loop4, UChar(if flag then 1 else 0))
    else if cfg.haveIPv6 then SetOption(s, Loop6, UInt(if flag then 1 else 0))
    else Ok(s)
  }

  /** getLoopback: the stored option is nonzero; false on a build without IPv6 for a non-IPv4 socket. */
  function GetLoopback(s: Sock, cfg: Config): (r: Result<bool>)
    ensures s.af == Some(AF_INET) ==> (r.Ok? <==> GetUChar(s, Loop4).Ok?)
    ensures s.af == Some(AF_INET) && r.Ok? ==> (r.value <==> s.store[Loop4] != UChar(0))
    ensures s.af.Some? && s.af != Some(AF_INET) && cfg.haveIPv6 ==> (r.Ok? <==> GetUInt(s, Loop6).Ok?)
    ensures s.af.Some? && s.af != Some(AF_INET) && cfg.haveIPv6 && r.Ok? ==> (r.value <==> s.store[Loop6] != UInt(0))
    ensures s.af.Some? && s.af != Some(AF_INET) && !cfg.haveIPv6 ==> r == Ok(false)
    ensures s.af.None? ==> r == Err(InvalidSocket)
  {
    var af :- NativeFamilyOf(s);
    if af == AF_INET then
      var u :- GetUChar(s, Loop4);
      Ok(u != 0)
    else if cfg.haveIPv6 then
      var u :- GetUInt(s, Loop6);
      Ok(u != 0)
    else
      Ok(false)
  }

  /**
    setTimeToLive: an IPv4 socket stores `(unsigned char) value`; otherwise,
    with IPv6 support, the hop limit is stored unchanged; otherwise nothing.
   */
  function SetTimeToLive(s: Sock, value: uint32, cfg: Config): (r: Result<Sock>)
    ensures r.Ok? <==> s.af.Some?
    ensures s.af == Some(AF_INET) ==> Wrote(s, r.value, Ttl4, UChar(value % 0x100))
    ensures s.af.Some? && s.af != Some(AF_INET) && cfg.haveIPv6 ==> Wrote(s, r.value, Hops6, UInt(value))
    ensures s.af.Some? && s.af != Some(AF_INET) && !cfg.haveIPv6 ==> r == Ok(s)
  {
    var af :- NativeFamilyOf(s);
    if af == AF_INET then SetOption(s, Ttl4, UChar(TruncateToByte(value)))
    else if cfg.haveIPv6 then SetOption(s, Hops6, UInt(value))
    else Ok(s)
  }

  /** getTimeToLive: the stored byte or hop limit; 0 on a build without IPv6 for a non-IPv4 socket. */
  function GetTimeToLive(s: Sock, cfg: Config): (r: Result<uint32>)
    ensures s.af == Some(AF_INET) ==> (r.Ok? <==> GetUChar(s, Ttl4).Ok?)
    ensures s.af == Some(AF_INET) && r.Ok? ==> r.value < 0x100 && s.store[Ttl4] == UChar(r.value)
    ensures s.af.Some? && s.af != Some(AF_INET) && cfg.haveIPv6 ==> r == GetUInt(s, Hops6)
    ensures s.af.Some? && s.af != Some(AF_INET) && !cfg.haveIPv6 ==> r == Ok(0)
    ensures s.af.None? ==> r == Err(InvalidSocket)
  {
    var af :- NativeFamilyOf(s);
    if af == AF_INET then
      var b :- GetUChar(s, Ttl4);
      Ok(b)
    else if cfg.haveIPv6 then
      GetUInt(s, Hops6)
    else
      Ok(0)
  }

  // ---------------------------------------------------------------------
  // Interface selection and group membership

  /**
    findFirstInterface: the first interface of the directory, in map order,
    eligible for the group's family; NotFound if there is none, or if the
    group is IPv6 on a build without IPv6 support.
   */
  function FindFirstInterface(group: IPAddress, dir: seq<NetworkInterface>, cfg: Config): (r: Result<NetworkInterface>)
    ensures r.Ok? <==> ((group.family == V4 || cfg.haveIPv6) &&
                       exists k :: 0 <= k < |dir| && Eligible(dir[k], group.family))
    ensures r.Err? ==> r.error == NotFound
    ensures r.Ok? ==> exists k :: 0 <= k < |dir| && dir[k] == r.value && Eligible(dir[k], group.family) &&
                        forall j :: 0 <= j < k ==> !Eligible(dir[j], group.family)
  {
    if group.family == V4 || cfg.haveIPv6 then
      match FirstMatch(dir, (itf: NetworkInterface) => Eligible(itf, group.family))
      case None => Err(NotFound)
      case Some(k) => Ok(dir[k])
    else
      Err(NotFound)
  }

  /**
    The shared body of the two-argument joinGroup and leaveGroup. An IPv4
    group is paired with the interface's first IPv4 address bytes, an IPv6
    group with the interface index; an IPv6 group on a build without IPv6
    support issues nothing.
   */
  function ChangeMembership(s: Sock, group: IPAddress, itf: NetworkInterface, cfg: Config, action: Action): (r: Result<Sock>)
    ensures group.family == V4 && !Supports(itf, V4) ==> r == Err(NotFound)
    ensures group.family == V4 && Supports(itf, V4) ==>
      (r.Ok? <==> s.af.Some?) &&
      (r.Ok? ==> Issued(s, r.value, SetRawOptionCall(MembershipKey4(action),
                                    IPv4Membership(group.bytes, FirstAddress(itf, V4).value.bytes))))
    ensures group.family == V6 && cfg.haveIPv6 ==>
      (r.Ok? <==> s.af.Some?) &&
      (r.Ok? ==> Issued(s, r.value, SetRawOptionCall(MembershipKey6(action), IPv6Membership(group.bytes, itf.index))))
    ensures group.family == V6 && !cfg.haveIPv6 ==> r == Ok(s)
  {
    if group.family == V4 then
      var a :- FirstAddress(itf, V4);
      SetRawOption(s, MembershipKey4(action), IPv4Membership(group.bytes, a.bytes))
    else if cfg.haveIPv6 then
      SetRawOption(s, MembershipKey6(action), IPv6Membership(group.bytes, itf.index))
    else
      Ok(s)
  }

  /** joinGroup(group, interface): one add-membership call for the pair. */
  function JoinGroupOn(s: Sock, group: IPAddress, itf: NetworkInterface, cfg: Config): (r: Result<Sock>)
    ensures group.family == V4 && !Supports(itf, V4) ==> r == Err(NotFound)
    ensures group.family == V4 && Supports(itf, V4) && s.af.Some? ==>
      r.Ok? && Issued(s, r.value, SetRawOptionCall(OptionKey(IPPROTO_IP, IP_ADD_MEMBERSHIP),
                                  IPv4Membership(group.bytes, FirstAddress(itf, V4).value.bytes)))
    ensures group.family == V6 && cfg.haveIPv6 && s.af.Some? ==>
      r.Ok? && Issued(s, r.value, SetRawOptionCall(OptionKey(IPPROTO_IPV6, IPV6_ADD_MEMBERSHIP),
                                  IPv6Membership(group.bytes, itf.index)))
    ensures group.family == V6 && !cfg.haveIPv6 ==> r == Ok(s)
    ensures (group.family == V4 || cfg.haveIPv6) && s.af.None? ==> r.Err?
  {
    ChangeMembership(s, group, itf, cfg, Add)
  }

  /** leaveGroup(group, interface): one drop-membership call for the pair. */
  function LeaveGroupOn(s: Sock, group: IPAddress, itf: NetworkInterface, cfg: Config): (r: Result<Sock>)
    ensures group.family == V4 && !Supports(itf, V4) ==> r == Err(NotFound)
    ensures group.family == V4 && Supports(itf, V4) && s.af.Some? ==>
      r.Ok? && Issued(s, r.value, SetRawOptionCall(OptionKey(IPPROTO_IP, IP_DROP_MEMBERSHIP),
                                  IPv4Membership(group.bytes, FirstAddress(itf, V4).value.bytes)))
    ensures group.family == V6 && cfg.haveIPv6 && s.af.Some? ==>
      r.Ok? && Issued(s, r.value, SetRawOptionCall(OptionKey(IPPROTO_IPV6, IPV6_DROP_MEMBERSHIP),
                                  IPv6Membership(group.bytes, itf.index)))
    ensures group.family == V6 && !cfg.haveIPv6 ==> r == Ok(s)
    ensures (group.family == V4 || cfg.haveIPv6) && s.af.None? ==> r.Err?
  {
    ChangeMembership(s, group, itf, cfg, Drop)
  }

  /**
    joinGroup(group): the interface is the first eligible one; when there is
    none the NotFound failure is all there is, and no call is issued.
   */
  function JoinGroup(s: Sock, group: IPAddress, dir: seq<NetworkInterface>, cfg: Config): (r: Result<Sock>)
    ensures FindFirstInterface(group, dir, cfg).Err? ==> r == Err(NotFound)
    ensures FindFirstInterface(group, dir, cfg).Ok? ==> r == JoinGroupOn(s, group, FindFirstInterface(group, dir, cfg).value, cfg)
  {
    var itf :- FindFirstInterface(group, dir, cfg);
    JoinGroupOn(s, group, itf, cfg)
  }

  /**
    leaveGroup(group): uses a default-constructed interface and never consults
    the directory (it takes none).
   */
  function LeaveGroup(s: Sock, group: IPAddress, cfg: Config): (r: Result<Sock>)
    ensures r == LeaveGroupOn(s, group, DefaultInterface(), cfg)
    ensures group.family == V4 ==> r == Err(NotFound)
    ensures group.family == V6 && cfg.haveIPv6 && s.af.Some? ==>
      r.Ok? && Issued(s, r.value, SetRawOptionCall(OptionKey(IPPROTO_IPV6, IPV6_DROP_MEMBERSHIP),
                                  IPv6Membership(group.bytes, NoIndex)))
  {
    LeaveGroupOn(s, group, DefaultInterface(), cfg)
  }

  // ---------------------------------------------------------------------
  // Properties

  /** The interfaces eligible for `family`, in directory order. */
  function EligibleInterfaces(dir: seq<NetworkInterface>, family: IPFamily): seq<NetworkInterface>
  {
    Filter(dir, (itf: NetworkInterface) => Eligible(itf, family))
  }

  /**
    Interface selection is first-match: with the family enabled, it finds an
    interface exactly when one is eligible, and then it is the first of them.
   */
  lemma {:induction false} FindFirstIsFirstEligible(group: IPAddress, dir: seq<NetworkInterface>, cfg: Config)
    requires group.family == V4 || cfg.haveIPv6
    ensures FindFirstInterface(group, dir, cfg).Ok? <==> EligibleInterfaces(dir, group.family) != []
    ensures FindFirstInterface(group, dir, cfg).Ok? ==>
              FindFirstInterface(group, dir, cfg).value == EligibleInterfaces(dir, group.family)[0]
  {
    FirstMatchIsHeadOfFilter(dir, (itf: NetworkInterface) => Eligible(itf, group.family));
  }

  /** With no eligible interface, joinGroup(group) fails with NotFound and issues no membership call. */
  lemma JoinWithoutEligibleInterface(s: Sock, group: IPAddress, dir: seq<NetworkInterface>, cfg: Config)
    requires forall k :: 0 <= k < |dir| ==> !Eligible(dir[k], group.family)
    ensures JoinGroup(s, group, dir, cfg) == Err(NotFound)
  {
  }

  /** joinGroup(group) joins on the first eligible interface, whatever comes after it. */
  lemma {:induction false} JoinUsesFirstEligible(s: Sock, group: IPAddress, dir: seq<NetworkInterface>, cfg: Config)
    requires group.family == V4 || cfg.haveIPv6
    requires EligibleInterfaces(dir, group.family) != []
    ensures JoinGroup(s, group, dir, cfg) == JoinGroupOn(s, group, EligibleInterfaces(dir, group.family)[0], cfg)
  {
    FindFirstIsFirstEligible(group, dir, cfg);
  }

  /**
    leaveGroup mirrors joinGroup: on an open socket, joining and then leaving
    with the same group and interface issues the add and the drop option of
    the same level with the same membership descriptor, and changes no option.
   */
  lemma JoinThenLeave(s: Sock, group: IPAddress, itf: NetworkInterface, cfg: Config)
    requires s.af.Some?
    requires group.family == V4 ==> Supports(itf, V4)
    requires group.family == V6 ==> cfg.haveIPv6
    ensures JoinGroupOn(s, group, itf, cfg).Ok?
    ensures LeaveGroupOn(JoinGroupOn(s, group, itf, cfg).value, group, itf, cfg).Ok?
    ensures var joined := JoinGroupOn(s, group, itf, cfg).value;
            var left := LeaveGroupOn(joined, group, itf, cfg).value;
            && left.store == s.store
            && |left.trace| == |s.trace| + 2
            && left.trace[..|s.trace|] == s.trace
            && left.trace[|s.trace|].SetRawOptionCall?
            && left.trace[|s.trace| + 1].SetRawOptionCall?
            && left.trace[|s.trace|].request == left.trace[|s.trace| + 1].request
            && left.trace[|s.trace|].key.level == left.trace[|s.trace| + 1].key.level
            && left.trace[|s.trace|].key.name in {IP_ADD_MEMBERSHIP, IPV6_ADD_MEMBERSHIP}
            && left.trace[|s.trace| + 1].key.name in {IP_DROP_MEMBERSHIP, IPV6_DROP_MEMBERSHIP}
  {
  }

  /** An IPv6 membership descriptor names the interface by index, never by address. */
  lemma IPv6MembershipIsIndexKeyed(s: Sock, group: IPAddress, itf: NetworkInterface, cfg: Config)
    requires s.af.Some? && group.family == V6 && cfg.haveIPv6
    ensures JoinGroupOn(s, group, itf, cfg).Ok?
    ensures var t := JoinGroupOn(s, group, itf, cfg).value.trace;
            t[|t| - 1] == SetRawOptionCall(OptionKey(IPPROTO_IPV6, IPV6_ADD_MEMBERSHIP), IPv6Membership(group.bytes, itf.index))
  {
  }

  /** getLoopback after setLoopback(flag) yields flag, and no other option changes. */
  lemma LoopbackRoundTrip(s: Sock, flag: bool, cfg: Config, other: OptionKey)
    requires s.af.Some?
    requires s.af == Some(AF_INET) || cfg.haveIPv6
    requires other != Loop4 && other != Loop6
    ensures SetLoopback(s, flag, cfg).Ok?
    ensures GetLoopback(SetLoopback(s, flag, cfg).value, cfg) == Ok(flag)
    ensures GetOption(SetLoopback(s, flag, cfg).value, other) == GetOption(s, other)
  {
  }

  /**
    getTimeToLive after setTimeToLive(v) yields v modulo 256 on an IPv4
    socket (so v itself when v <= 255) and v on an IPv6 socket.
   */
  lemma TimeToLiveRoundTrip(s: Sock, value: uint32, cfg: Config)
    requires s.af.Some?
    requires s.af == Some(AF_INET) || cfg.haveIPv6
    ensures SetTimeToLive(s, value, cfg).Ok?
    ensures s.af == Some(AF_INET) ==> GetTimeToLive(SetTimeToLive(s, value, cfg).value, cfg) == Ok(value % 0x100)
    ensures s.af == Some(AF_INET) && value <= 0xFF ==> GetTimeToLive(SetTimeToLive(s, value, cfg).value, cfg) == Ok(value)
    ensures s.af != Some(AF_INET) ==> GetTimeToLive(SetTimeToLive(s, value, cfg).value, cfg) == Ok(value)
  {
  }

  /**
    On an IPv4 socket, getInterface after setInterface(itf) yields the first
    directory interface that has itf's first IPv4 address bound.
   */
  lemma InterfaceRoundTripIPv4(s: Sock, itf: NetworkInterface, dir: seq<NetworkInterface>, cfg: Config)
    requires s.af == Some(AF_INET)
    requires Supports(itf, V4)
    requires itf in dir
    ensures SetInterface(s, itf, cfg).Ok?
    ensures var a := FirstAddress(itf, V4).value;
            GetInterface(SetInterface(s, itf, cfg).value, dir, cfg) == ForAddress(dir, a)
    ensures GetInterface(SetInterface(s, itf, cfg).value, dir, cfg).Ok?
    ensures FirstAddress(itf, V4).value in GetInterface(SetInterface(s, itf, cfg).value, dir, cfg).value.addresses
  {
  }

  /**
    On an IPv6 socket with no IPv4 multicast interface recorded, getInterface
    falls back to the index path and yields exactly the interface set by
    setInterface.
   */
  lemma InterfaceRoundTripIPv6(s: Sock, itf: NetworkInterface, dir: seq<NetworkInterface>, cfg: Config)
    requires s.af == Some(AF_INET6) && cfg.haveIPv6
    requires MulticastIf4 !in s.store
    requires ValidDirectory(dir) && itf in dir
    ensures SetInterface(s, itf, cfg).Ok?
    ensures GetInterface(SetInterface(s, itf, cfg).value, dir, cfg) == Ok(itf)
  {
    ForIndexOfMember(dir, itf);
  }

  /** Without IPv6 support a failing IPv4 attempt is the failure getInterface reports. */
  lemma GetInterfaceRethrows(s: Sock, dir: seq<NetworkInterface>, cfg: Config)
    requires !cfg.haveIPv6
    requires InterfaceByAddress(s, dir).Err?
    ensures GetInterface(s, dir, cfg).Err?
    ensures GetInterface(s, dir, cfg) == InterfaceByAddress(s, dir)
    ensures s.af.Some? && MulticastIf4 !in s.store ==> GetInterface(s, dir, cfg) == Err(SocketError)
  {
  }

  // ---------------------------------------------------------------------
  // Worked scenarios

  const Group239: IPAddress := IPAddress(V4, [239, 0, 0, 1])
  const Loopback1: NetworkInterface := NetworkInterface(1, [IPAddress(V4, [127, 0, 0, 1])], true, false)
  const Tunnel2: NetworkInterface := NetworkInterface(2, [IPAddress(V4, [10, 8, 0, 1])], false, true)
  const Ethernet3: NetworkInterface := NetworkInterface(3, [IPAddress(V4, [192, 168, 1, 10])], false, false)

  /**
    An IPv4 socket joining 239.0.0.1 with the directory [loopback, tunnel,
    ethernet 192.168.1.10] pairs the group with 192.168.1.10.
   */
  lemma JoinScenarioIPv4(cfg: Config)
    ensures Open(IPv4, cfg).Ok?
    ensures var s := Open(IPv4, cfg).value;
            var r := JoinGroup(s, Group239, [Loopback1, Tunnel2, Ethernet3], cfg);
            && r.Ok?
            && r.value.trace == s.trace + [SetRawOptionCall(OptionKey(IPPROTO_IP, IP_ADD_MEMBERSHIP),
                                                            IPv4Membership([239, 0, 0, 1], [192, 168, 1, 10]))]
  {
    var dir := [Loopback1, Tunnel2, Ethernet3];
    var a := IPAddress(V4, [192, 168, 1, 10]);
    assert FirstAddress(Ethernet3, V4) == Ok(a);
    assert a.bytes[0] != 0 && a.bytes[0] != 0xFF;
    assert Eligible(dir[2], V4);
    assert !Eligible(dir[0], V4) && !Eligible(dir[1], V4);
    assert FindFirstInterface(Group239, dir, cfg) == Ok(Ethernet3);
  }

  /** When only loopback and point-to-point interfaces exist, joining 239.0.0.1 fails with NotFound. */
  lemma JoinScenarioNoEligible(cfg: Config)
    ensures Open(IPv4, cfg).Ok?
    ensures JoinGroup(Open(IPv4, cfg).value, Group239, [Loopback1, Tunnel2], cfg) == Err(NotFound)
  {
  }

  /** Joining ff02::1 on interface index 3 issues an IPv6 membership keyed by index 3. */
  lemma JoinScenarioIPv6(s: Sock, cfg: Config)
    requires s.af == Some(AF_INET6) && cfg.haveIPv6
    ensures var group := IPAddress(V6, [0xFF, 0x02, 0, 0, 0, 0, 0, 0, 0, 0, 0, 0, 0, 0, 0, 1]);
            var itf := NetworkInterface(3, [], false, false);
            JoinGroupOn(s, group, itf, cfg) ==
              Ok(Sock(s.af, s.store, s.trace + [SetRawOptionCall(OptionKey(IPPROTO_IPV6, IPV6_ADD_MEMBERSHIP),
                                                                 IPv6Membership(group.bytes, 3))]))
  {
  }

  /** setTimeToLive(64) on a new IPv4 multicast socket reads back as 64. */
  lemma TimeToLiveScenario(cfg: Config)
    ensures Open(IPv4, cfg).Ok?
    ensures var s := Open(IPv4, cfg).value;
            SetTimeToLive(s, 64, cfg).Ok? && GetTimeToLive(SetTimeToLive(s, 64, cfg).value, cfg) == Ok(64)
  {
  }
}
