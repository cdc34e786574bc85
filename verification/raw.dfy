/**
  RawSocketImpl: opens a raw IP descriptor for the requested family and
  protocol, then turns kernel header inclusion off (IP_HDRINCL = 0).
 */
module Raw {
  import opened Outcomes
  import opened Ints
  import opened Primitive

  /** IPPROTO_RAW, the protocol of a raw socket opened without one (255). */
  const IPPROTO_RAW: int32 := 255

  /** The option key that init2 always writes, at the IPv4 level even for an IPv6 socket. */
  const HeaderInclude := OptionKey(IPPROTO_IP, IP_HDRINCL)

  /** The families a raw socket accepts: IPv4, and IPv6 when the build supports it. */
  function RawFamilies(cfg: Config): set<SocketFamily>
  {
    if cfg.haveIPv6 then {IPv4, IPv6} else {IPv4}
  }

  /**
    RawSocketImpl::init2: exactly two calls, in order: `initSocket(af,
    SOCK_RAW, proto)` and then `setOption(IPPROTO_IP, IP_HDRINCL, 0)`.
   */
  function Init2(s: Sock, af: NativeFamily, proto: int32): (r: Result<Sock>)
    ensures r.Ok?
    ensures r.value.af == Some(af)
    ensures r.value.trace == s.trace + [InitSocketCall(af, SOCK_RAW, Some(proto)), SetOptionCall(HeaderInclude, Int(0))]
    ensures GetInt(r.value, HeaderInclude) == Ok(0)
  {
    var withDescriptor := InitSocket(s, af, SOCK_RAW, Some(proto));
    SetOption(withDescriptor, HeaderInclude, Int(0))
  }

  /** RawSocketImpl::init: init2 with the raw protocol. */
  function Init(s: Sock, af: NativeFamily): (r: Result<Sock>)
    ensures r.Ok? && r.value.af == Some(af)
    ensures r.value.trace == s.trace + [InitSocketCall(af, SOCK_RAW, Some(IPPROTO_RAW)), SetOptionCall(HeaderInclude, Int(0))]
  {
    Init2(s, af, IPPROTO_RAW)
  }

  /** RawSocketImpl(family, proto). */
  function Open(family: SocketFamily, proto: int32, cfg: Config): (r: Result<Sock>)
    ensures r.Ok? <==> family in RawFamilies(cfg)
    ensures r.Err? ==> r.error == InvalidArgument
    ensures r.Ok? ==> r.value.af.Some? && FamilyOf(r.value.af.value) == family
    ensures r.Ok? ==> r.value.trace == [InitSocketCall(r.value.af.value, SOCK_RAW, Some(proto)), SetOptionCall(HeaderInclude, Int(0))]
  {
    if family == IPv4 then Init2(Fresh(), AF_INET, proto)
    else if cfg.haveIPv6 && family == IPv6 then Init2(Fresh(), AF_INET6, proto)
    else Err(InvalidArgument)
  }

  /** RawSocketImpl(): the same socket as an IPv4 raw socket with protocol IPPROTO_RAW. */
  function Default(): (r: Sock)
    ensures r.af == Some(AF_INET)
    ensures forall cfg: Config :: Open(IPv4, IPPROTO_RAW, cfg) == Ok(r)
  {
    Init(Fresh(), AF_INET).value
  }

  /** RawSocketImpl(sockfd): wraps the descriptor, issues neither `initSocket` nor IP_HDRINCL. */
  function FromDescriptor(af: NativeFamily, options: map<OptionKey, OptionValue>): (r: Sock)
    ensures r.af == Some(af) && r.trace == []
  {
    Adopt(af, options)
  }

  /** UNIX_LOCAL is never a raw socket family, whatever the build. */
  lemma OpenRejectsUnixLocal(proto: int32, cfg: Config)
    ensures Open(UnixLocal, proto, cfg) == Err(InvalidArgument)
  {
  }
}
