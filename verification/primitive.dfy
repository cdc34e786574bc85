/**
  The socket-descriptor primitive (SocketImpl) that the core calls into, kept
  abstract: a socket is the native family of its descriptor (if it has one),
  a store of option values keyed by (level, name), and the trace of every
  primitive call issued on it. No system call is modelled: `initSocket`
  always yields a descriptor, option writes always succeed, and a read
  returns what was last written at that key.
 */
module Primitive {
  import opened Outcomes
  import opened Ints
  import opened Addresses

  /** The compile-time gates POCO_HAVE_IPv6 and POCO_OS_FAMILY_UNIX. */
  datatype Config = Config(haveIPv6: bool, unixBuild: bool)

  /** SocketAddress::Family: the family a caller asks a socket for. */
  datatype SocketFamily = IPv4 | IPv6 | UnixLocal

  /** Native address-family constants handed to `initSocket`. */
  datatype NativeFamily = AF_INET | AF_INET6 | AF_UNIX

  /** The SocketAddress family reported for a descriptor of native family `af`. */
  function FamilyOf(af: NativeFamily): SocketFamily
  {
    match af
    case AF_INET => IPv4
    case AF_INET6 => IPv6
    case AF_UNIX => UnixLocal
  }

  datatype SocketType = SOCK_DGRAM | SOCK_RAW

  datatype Level = IPPROTO_IP | IPPROTO_IPV6

  datatype OptionName =
    | IP_HDRINCL
    | IP_MULTICAST_IF | IP_MULTICAST_LOOP | IP_MULTICAST_TTL
    | IP_ADD_MEMBERSHIP | IP_DROP_MEMBERSHIP
    | IPV6_MULTICAST_IF | IPV6_MULTICAST_LOOP | IPV6_MULTICAST_HOPS
    | IPV6_ADD_MEMBERSHIP | IPV6_DROP_MEMBERSHIP

  datatype OptionKey = OptionKey(level: Level, name: OptionName)

  /** A typed option value, tagged with the C++ type it was written as. */
  datatype OptionValue =
    | UChar(b: byte)
    | UInt(u: uint32)
    | Int(i: int32)
    | Addr(a: IPAddress)

  /**
    A multicast membership descriptor: `ip_mreq` keys the interface by its
    IPv4 address bytes, `ipv6_mreq` by its numeric index.
   */
  datatype MembershipRequest =
    | IPv4Membership(group: seq<byte>, interfaceAddress: seq<byte>)
    | IPv6Membership(group: seq<byte>, interfaceIndex: uint32)

  /** One primitive call; `protocol` is None when `initSocket` gets no protocol argument. */
  datatype Call =
    | InitSocketCall(af: NativeFamily, kind: SocketType, protocol: Option<int32>)
    | SetOptionCall(key: OptionKey, value: OptionValue)
    | SetRawOptionCall(key: OptionKey, request: MembershipRequest)

  datatype Sock = Sock(af: Option<NativeFamily>, store: map<OptionKey, OptionValue>, trace: seq<Call>)

  /** A socket object that does not hold a native descriptor yet. */
  function Fresh(): (s: Sock)
    ensures s.af.None? && s.trace == []
  {
    Sock(None, map[], [])
  }

  /** Wrapping an existing descriptor: its family and current options, no call issued. */
  function Adopt(af: NativeFamily, options: map<OptionKey, OptionValue>): (s: Sock)
    ensures s.af == Some(af) && s.store == options && s.trace == []
  {
    Sock(Some(af), options, [])
  }

  /** `r` is `s` after exactly one more call that changed no option value. */
  predicate Issued(s: Sock, r: Sock, call: Call)
  {
    r.af == s.af && r.store == s.store && r.trace == s.trace + [call]
  }

  /** `r` is `s` after exactly one `setOption(key, v)` call. */
  predicate Wrote(s: Sock, r: Sock, key: OptionKey, v: OptionValue)
  {
    r.af == s.af && r.store == s.store[key := v] && r.trace == s.trace + [SetOptionCall(key, v)]
  }

  /** SocketImpl::initSocket(af, type[, proto]): the socket now holds a descriptor of family `af`. */
  function InitSocket(s: Sock, af: NativeFamily, kind: SocketType, protocol: Option<int32>): (r: Sock)
    ensures r.af == Some(af) && r.store == s.store
    ensures r.trace == s.trace + [InitSocketCall(af, kind, protocol)]
  {
    Sock(Some(af), s.store, s.trace + [InitSocketCall(af, kind, protocol)])
  }

  /** SocketImpl::setOption(level, name, value). */
  function SetOption(s: Sock, key: OptionKey, v: OptionValue): (r: Result<Sock>)
    ensures r.Ok? <==> s.af.Some?
    ensures r.Ok? ==> Wrote(s, r.value, key, v)
    ensures r.Err? ==> r.error == InvalidSocket
  {
    if s.af.None? then Err(InvalidSocket)
    else Ok(Sock(s.af, s.store[key := v], s.trace + [SetOptionCall(key, v)]))
  }

  /** SocketImpl::setRawOption(level, name, buffer, length) with a membership descriptor. */
  function SetRawOption(s: Sock, key: OptionKey, request: MembershipRequest): (r: Result<Sock>)
    ensures r.Ok? <==> s.af.Some?
    ensures r.Ok? ==> Issued(s, r.value, SetRawOptionCall(key, request))
    ensures r.Err? ==> r.error == InvalidSocket
  {
    if s.af.None? then Err(InvalidSocket)
    else Ok(Sock(s.af, s.store, s.trace + [SetRawOptionCall(key, request)]))
  }

  /** SocketImpl::getOption(level, name, value): the value last stored at `key`. */
  function GetOption(s: Sock, key: OptionKey): (r: Result<OptionValue>)
    ensures r.Ok? <==> s.af.Some? && key in s.store
    ensures r.Ok? ==> r.value == s.store[key]
  {
    if s.af.None? then Err(InvalidSocket)
    else if key in s.store then Ok(s.store[key])
    else Err(SocketError)
  }

  /** getOption into an `unsigned char`. */
  function GetUChar(s: Sock, key: OptionKey): (r: Result<byte>)
    ensures r.Ok? <==> GetOption(s, key).Ok? && GetOption(s, key).value.UChar?
    ensures r.Ok? ==> s.store[key] == UChar(r.value)
  {
    var v :- GetOption(s, key);
    if v.UChar? then Ok(v.b) else Err(SocketError)
  }

  /** getOption into an `unsigned`. */
  function GetUInt(s: Sock, key: OptionKey): (r: Result<uint32>)
    ensures r.Ok? <==> GetOption(s, key).Ok? && GetOption(s, key).value.UInt?
    ensures r.Ok? ==> s.store[key] == UInt(r.value)
  {
    var v :- GetOption(s, key);
    if v.UInt? then Ok(v.u) else Err(SocketError)
  }

  /** getOption into an `int`: a value written as `unsigned` is read back in two's complement. */
  function GetInt(s: Sock, key: OptionKey): (r: Result<int32>)
    ensures r.Ok? <==> GetOption(s, key).Ok? && (GetOption(s, key).value.Int? || GetOption(s, key).value.UInt?)
    ensures r.Ok? ==> r.value % 0x1_0000_0000 == (match s.store[key] case Int(i) => i % 0x1_0000_0000 case UInt(u) => u case _ => 0)
  {
    var v :- GetOption(s, key);
    match v
    case Int(i) => Ok(i)
    case UInt(u) => Ok(AsSigned(u))
    case _ => Err(SocketError)
  }

  /** getOption into an IPAddress. */
  function GetAddress(s: Sock, key: OptionKey): (r: Result<IPAddress>)
    ensures r.Ok? <==> GetOption(s, key).Ok? && GetOption(s, key).value.Addr?
    ensures r.Ok? ==> s.store[key] == Addr(r.value)
  {
    var v :- GetOption(s, key);
    if v.Addr? then Ok(v.a) else Err(SocketError)
  }

  /** The option store reads back what was written, and no other key changes. */
  lemma ReadAfterWrite(s: Sock, key: OptionKey, v: OptionValue, other: OptionKey)
    requires s.af.Some?
    requires other != key
    ensures SetOption(s, key, v).Ok?
    ensures GetOption(SetOption(s, key, v).value, key) == Ok(v)
    ensures GetOption(SetOption(s, key, v).value, other) == GetOption(s, other)
  {
  }
}
