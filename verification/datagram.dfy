/**
  DatagramSocketImpl: maps the requested address family to the native family
  constant and opens a connectionless, message-oriented descriptor.
 */
module Datagram {
  import opened Outcomes
  import opened Primitive

  /** The families a build accepts: IPv4 always, IPv6 with IPv6 support, UNIX_LOCAL on Unix. */
  function EnabledFamilies(cfg: Config): set<SocketFamily>
  {
    {IPv4} + (if cfg.haveIPv6 then {IPv6} else {}) + (if cfg.unixBuild then {UnixLocal} else {})
  }

  /** The native family the constructor passes to `init`, or InvalidArgument. */
  function NativeFamilyFor(family: SocketFamily, cfg: Config): (r: Result<NativeFamily>)
    ensures r.Ok? <==> family in EnabledFamilies(cfg)
    ensures r.Ok? ==> FamilyOf(r.value) == family
    ensures r.Err? ==> r.error == InvalidArgument
  {
    if family == IPv4 then Ok(AF_INET)
    else if cfg.haveIPv6 && family == IPv6 then Ok(AF_INET6)
    else if cfg.unixBuild && family == UnixLocal then Ok(AF_UNIX)
    else Err(InvalidArgument)
  }

  /** DatagramSocketImpl::init: one `initSocket(af, SOCK_DGRAM)`, with no protocol argument. */
  function Init(s: Sock, af: NativeFamily): (r: Sock)
    ensures r.af == Some(af) && r.store == s.store
    ensures r.trace == s.trace + [InitSocketCall(af, SOCK_DGRAM, None)]
  {
    InitSocket(s, af, SOCK_DGRAM, None)
  }

  /** DatagramSocketImpl(family). */
  function Open(family: SocketFamily, cfg: Config): (r: Result<Sock>)
    ensures r.Ok? <==> family in EnabledFamilies(cfg)
    ensures r.Err? ==> r.error == InvalidArgument
    ensures r.Ok? ==> r.value.af.Some? && FamilyOf(r.value.af.value) == family
    ensures r.Ok? ==> r.value.trace == [InitSocketCall(r.value.af.value, SOCK_DGRAM, None)]
  {
    var af :- NativeFamilyFor(family, cfg);
    Ok(Init(Fresh(), af))
  }

  /** DatagramSocketImpl(): no descriptor is created. */
  function Default(): (r: Sock)
    ensures r.af.None? && r.trace == []
  {
    Fresh()
  }

  /** DatagramSocketImpl(sockfd): wraps the descriptor and issues no call. */
  function FromDescriptor(af: NativeFamily, options: map<OptionKey, OptionValue>): (r: Sock)
    ensures r.af == Some(af) && r.trace == []
  {
    Adopt(af, options)
  }

  /** Each family maps to its own native constant, and nothing else. */
  lemma OpenNativeFamily(family: SocketFamily, cfg: Config)
    requires family in EnabledFamilies(cfg)
    ensures Open(family, cfg).Ok?
    ensures family == IPv4 ==> Open(family, cfg).value.af == Some(AF_INET)
    ensures family == IPv6 ==> Open(family, cfg).value.af == Some(AF_INET6)
    ensures family == UnixLocal ==> Open(family, cfg).value.af == Some(AF_UNIX)
  {
  }
}
