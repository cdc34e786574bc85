# Net sockets: family dispatch and multicast membership, in Dafny

This project models the core of the Net library's socket layer, from
poco-libzt, a port of POCO:

- `DatagramSocketImpl` maps a requested address family (IPv4, IPv6 or
  UNIX_LOCAL) to a native family constant. It then opens one `SOCK_DGRAM`
  descriptor, or rejects the family with InvalidArgument.
- `RawSocketImpl` maps IPv4 or IPv6 to a `SOCK_RAW` descriptor for the
  caller's protocol. It then always sets `IP_HDRINCL` to 0 at the
  `IPPROTO_IP` level.
- `MulticastSocket` handles group membership, loopback, time-to-live and the
  outbound interface:
  - `findFirstInterface` is a first-match search for an eligible interface.
  - `joinGroup` / `leaveGroup` build the family's membership descriptor. IPv4
    keys the interface by address, IPv6 by index.
  - `setInterface` / `getInterface` dispatch on family. `getInterface` falls
    back from the IPv4 path to the IPv6 path.

The socket-descriptor primitive (`SocketImpl`) is abstract. A socket
(`Primitive.Sock`) has three parts:
- the native family of its descriptor, or none;
- a store of option values keyed by (level, name);
- the trace of every primitive call issued on it.

`setOption` writes the store and appends to the trace. `setRawOption` only
appends. `getOption` reads the store. A missing key, or a value of another
C++ type, is a SocketError; a socket without a descriptor gives InvalidSocket.
The build gates `POCO_HAVE_IPv6` and `POCO_OS_FAMILY_UNIX` become the two
flags of `Primitive.Config`. Exceptions become `Outcomes.Result` errors; a
failed operation returns no socket, so it issues nothing.

The interface directory is a sequence of `NetworkInterface` records in map
order. Each record has an index, an address list and the loopback and
point-to-point flags. NetworkInterface.cpp and IPAddress.cpp are not part of
this model. The behaviours the core relies on are defined as follows:
- `supportsIPv4` / `supportsIPv6`: some address of that family is bound.
- `firstAddress(family)`: the first address of that family in the list, or
  NotFound.
- `forAddress`: the first interface with that address bound.
- `forIndex`: the first interface with that index.
- Either lookup fails with InterfaceNotFound.
- A default-constructed interface has index `NO_INDEX` (~0u) and no addresses.
- `isUnicast`: neither the wildcard address, the IPv4 broadcast address nor a
  multicast address (224.0.0.0/4 per RFC 1112 section 4, ff00::/8 per RFC 4291
  section 2.7).

Files: `outcomes.dfy`, `ints.dfy` (C++ integer widths), `addresses.dfy`,
`primitive.dfy`, `interfaces.dfy`, `datagram.dfy`, `raw.dfy`, `multicast.dfy`.

## Model

| member | source | states |
|---|---|---|
| Datagram.NativeFamilyFor | Net/src/DatagramSocketImpl.cpp:31-52 | Succeeds exactly for the families the build enables: IPv4 always, IPv6 with IPv6 support, UNIX_LOCAL on Unix. The chosen native constant reports back the requested family. Every other request is InvalidArgument. |
| Datagram.Init | Net/src/DatagramSocketImpl.cpp:65-68 | Issues exactly one `initSocket(af, SOCK_DGRAM)` with no protocol argument, whatever the family. The socket then holds a descriptor of family `af`. |
| Datagram.Open | Net/src/DatagramSocketImpl.cpp:31-52 | Opens exactly for the enabled families; anything else is InvalidArgument and opens nothing. The socket's whole trace is one `SOCK_DGRAM` init, and the socket reports the requested family. |
| Datagram.OpenNativeFamily | Net/src/DatagramSocketImpl.cpp:33-50 | IPv4 opens `AF_INET`, IPv6 opens `AF_INET6` and UNIX_LOCAL opens `AF_UNIX`, whenever the build enables that family. |
| Datagram.Default | Net/src/DatagramSocketImpl.cpp:26-28 | The default constructor creates no descriptor and issues no call. |
| Datagram.FromDescriptor | Net/src/DatagramSocketImpl.cpp:55-57 | Wrapping a descriptor issues no call. |
| Raw.Init2 | Net/src/RawSocketImpl.cpp:74-78 | Issues exactly two calls, in order: `initSocket(af, SOCK_RAW, proto)`, then `setOption(IPPROTO_IP, IP_HDRINCL, 0)`. The level is `IPPROTO_IP` even for an IPv6 socket. Reading `IP_HDRINCL` afterwards gives 0. |
| Raw.Init | Net/src/RawSocketImpl.cpp:68-71 | The same two calls, with protocol `IPPROTO_RAW`. |
| Raw.Open | Net/src/RawSocketImpl.cpp:36-54 | Opens exactly for IPv4, and for IPv6 when the build supports it; anything else, UNIX_LOCAL included, is InvalidArgument and issues nothing. The caller's protocol reaches `initSocket` unchanged, and the socket reports the requested family. |
| Raw.Default | Net/src/RawSocketImpl.cpp:26-33 | The default constructor gives the same socket as an IPv4 raw socket with protocol `IPPROTO_RAW`, on every build. |
| Raw.FromDescriptor | Net/src/RawSocketImpl.cpp:57-60 | Wrapping a descriptor issues neither `initSocket` nor `IP_HDRINCL`. |
| Raw.OpenRejectsUnixLocal | Net/src/RawSocketImpl.cpp:52 | UNIX_LOCAL is InvalidArgument for a raw socket on every build. |
| Multicast.Open | Net/src/MulticastSocket.cpp:54-60 | A multicast socket opens exactly for IPv4, and for IPv6 with IPv6 support. It is then the datagram socket of that family. UNIX_LOCAL is InvalidArgument on every build. |
| Multicast.SetInterface | Net/src/MulticastSocket.cpp:85-98 | On an IPv4 socket, writes `IP_MULTICAST_IF` with the interface's first IPv4 address; NotFound if it has none. On an IPv6 socket with IPv6 support, writes `IPV6_MULTICAST_IF` with the interface index. Any other family is UnsupportedFamily. |
| Multicast.InterfaceByAddress | Net/src/MulticastSocket.cpp:103-108 | The IPv4 attempt succeeds exactly when `IP_MULTICAST_IF` holds an address and some directory interface has it bound. The result is such an interface. |
| Multicast.InterfaceByIndex | Net/src/MulticastSocket.cpp:111-114 | The IPv6 attempt succeeds exactly when `IPV6_MULTICAST_IF` can be read as an `int` and some directory interface has that value, passed back as unsigned, as its index. It then returns such an interface. If the read succeeds but no interface matches, the error is InterfaceNotFound. |
| Multicast.GetInterface | Net/src/MulticastSocket.cpp:101-119 | Any interface returned belongs to the directory. If the IPv4 attempt succeeds its result is returned. Otherwise the result is the IPv6 attempt's, or the IPv4 failure rethrown without IPv6 support. |
| Multicast.SetLoopback | Net/src/MulticastSocket.cpp:122-149 | An `AF_INET` socket writes `IP_MULTICAST_LOOP` as the byte 1 or 0. Any other socket writes `IPV6_MULTICAST_LOOP` as the unsigned 1 or 0 with IPv6 support, and does nothing without it. No other option changes. |
| Multicast.GetLoopback | Net/src/MulticastSocket.cpp:152-183 | Reads the family's loopback option and returns whether it is nonzero. A non-`AF_INET` socket without IPv6 support returns false. |
| Multicast.SetTimeToLive | Net/src/MulticastSocket.cpp:186-212 | An `AF_INET` socket writes `IP_MULTICAST_TTL` as the value truncated to one byte. Any other socket writes `IPV6_MULTICAST_HOPS` unchanged with IPv6 support, and does nothing without it. |
| Multicast.GetTimeToLive | Net/src/MulticastSocket.cpp:215-244 | An `AF_INET` socket returns the stored byte, always below 256. With IPv6 support any other socket returns the stored hop limit; without it, 0. |
| Multicast.FindFirstInterface | Net/src/MulticastSocket.cpp:294-327 | Finds an interface exactly when the group's family is enabled and some interface is eligible. Eligible means: supports the family, its first address of that family is unicast, not loopback, not point-to-point. The result is the earliest eligible interface in directory order. Otherwise the error is NotFound. |
| Multicast.ChangeMembership | Net/src/MulticastSocket.cpp:253-291 | An IPv4 group pairs the group bytes with the interface's first IPv4 address bytes at `IPPROTO_IP`; NotFound if it has none. An IPv6 group with IPv6 support pairs the group bytes with the interface index at `IPPROTO_IPV6`. An IPv6 group without IPv6 support issues nothing. Exactly one call is issued and no option value changes. |
| Multicast.JoinGroupOn | Net/src/MulticastSocket.cpp:253-291 | Issues exactly one `IP_ADD_MEMBERSHIP` (group bytes, interface's first IPv4 address bytes), or one `IPV6_ADD_MEMBERSHIP` (group bytes, interface index). |
| Multicast.LeaveGroupOn | Net/src/MulticastSocket.cpp:337-375 | Issues exactly one `IP_DROP_MEMBERSHIP` or `IPV6_DROP_MEMBERSHIP`, with the same descriptor layout as joining. |
| Multicast.JoinGroup | Net/src/MulticastSocket.cpp:247-250 | Joining without an interface uses the interface `findFirstInterface` selects. If selection fails, the result is NotFound and nothing is issued. |
| Multicast.LeaveGroup | Net/src/MulticastSocket.cpp:330-334 | Leaving without an interface uses a default-constructed interface and takes no directory. For an IPv6 group it drops membership on index `NO_INDEX`. For an IPv4 group it fails with NotFound, because that interface has no IPv4 address. |
| Multicast.FindFirstIsFirstEligible | Net/src/MulticastSocket.cpp:294-327 | With the family enabled, selection succeeds exactly when the list of eligible interfaces is non-empty, and returns its head. |
| Multicast.JoinWithoutEligibleInterface | Net/src/MulticastSocket.cpp:247-250 | With no eligible interface, `joinGroup(group)` is NotFound and issues no membership option. |
| Multicast.JoinUsesFirstEligible | Net/src/MulticastSocket.cpp:247-250 | `joinGroup(group)` is `joinGroup(group, interface)` on the first eligible interface. |
| Multicast.JoinThenLeave | Net/src/MulticastSocket.cpp:253-375 | Joining then leaving with the same group and interface appends an add and a drop option. Both are at the same level with the same membership descriptor, and the option store is unchanged. |
| Multicast.IPv6MembershipIsIndexKeyed | Net/src/MulticastSocket.cpp:280-287 | An IPv6 join issues `IPV6_ADD_MEMBERSHIP` with the group bytes and the interface index; the descriptor holds no address. |
| Multicast.LoopbackRoundTrip | Net/src/MulticastSocket.cpp:122-183 | On an `AF_INET` socket, or on any socket with IPv6 support, `getLoopback` after `setLoopback(b)` returns `b`. No other option changes. |
| Multicast.TimeToLiveRoundTrip | Net/src/MulticastSocket.cpp:186-244 | After `setTimeToLive(v)`, `getTimeToLive` returns v mod 256 on an `AF_INET` socket, which is v itself for v ≤ 255. It returns v on the IPv6 path. |
| Multicast.InterfaceRoundTripIPv4 | Net/src/MulticastSocket.cpp:85-119 | On an IPv4 socket, `getInterface` after `setInterface(itf)` returns the first directory interface that has itf's first IPv4 address bound. |
| Multicast.InterfaceRoundTripIPv6 | Net/src/MulticastSocket.cpp:85-119 | On an IPv6 socket with no IPv4 multicast interface recorded, and a directory keyed by index, `getInterface` after `setInterface(itf)` falls back to the index path and returns itf. |
| Multicast.GetInterfaceRethrows | Net/src/MulticastSocket.cpp:109-118 | Without IPv6 support, whenever the IPv4 attempt fails, `getInterface` reports that same failure. Examples are `IP_MULTICAST_IF` never written, or an address no interface has bound. When the option was never written on an open socket, the failure is SocketError. |
| Multicast.JoinScenarioIPv4 | Net/src/MulticastSocket.cpp:247-327 | Directory [loopback, point-to-point, 192.168.1.10]: joining 239.0.0.1 issues one `IP_ADD_MEMBERSHIP` pairing 239.0.0.1 with 192.168.1.10. |
| Multicast.JoinScenarioNoEligible | Net/src/MulticastSocket.cpp:247-327 | When only loopback and point-to-point interfaces exist, joining 239.0.0.1 is NotFound. |
| Multicast.JoinScenarioIPv6 | Net/src/MulticastSocket.cpp:274-289 | Joining ff02::1 on interface index 3 issues `IPV6_ADD_MEMBERSHIP` keyed by index 3. |
| Multicast.TimeToLiveScenario | Net/src/MulticastSocket.cpp:186-244 | `setTimeToLive(64)` on a new IPv4 multicast socket reads back as 64. |
| Interfaces.FirstMatch | Net/src/MulticastSocket.cpp:299-308 | The search loop returns the position of an element satisfying the test, and no earlier element satisfies it. It returns nothing exactly when no element does. |
| Interfaces.FirstMatchIsHeadOfFilter | Net/src/MulticastSocket.cpp:299-322 | The first-match search agrees with the reference: the head of the in-order filtered list. |
| Interfaces.FirstAddress | Net/src/MulticastSocket.cpp:302 | `firstAddress(family)` succeeds exactly when the interface supports the family. It returns the earliest bound address of that family; otherwise NotFound. |
| Interfaces.ForAddress | Net/src/MulticastSocket.cpp:107 | `forAddress` succeeds exactly when some directory interface has the address bound, and returns such an interface; otherwise InterfaceNotFound. |
| Interfaces.ForIndex | Net/src/MulticastSocket.cpp:114 | `forIndex` succeeds exactly when some directory interface has that index, and returns such an interface; otherwise InterfaceNotFound. |
| Interfaces.ForIndexOfMember | Net/src/MulticastSocket.cpp:114 | In a directory keyed by index, looking up a member's index returns that member. |

## Left out

- Real system calls behind `initSocket`, `setOption`, `getOption` and
  `setRawOption` are not modelled; each is recorded in the trace and the
  option store. Their failures are left out: every write succeeds. A read
  fails only for an option this layer never wrote, or one written as another
  C++ type.
- Kernel option defaults (for example the initial TTL and loopback setting)
  are not modelled. A new socket's store is empty, so reading an option no
  one has written is a SocketError.
- Kernel-side membership tracking and the IGMP/MLD reports a join or leave
  causes are left out. A second `leaveGroup` just appends another drop call.
- The `USE_LIBZT` branches are left out, including the `assert(false)` IPv6
  loopback and TTL branches (MulticastSocket.cpp lines 142, 174, 205, 236). Only
  the native-sockets build is modelled.
- The HP-UX `ip_mreq` declaration, the `IPV6_JOIN_GROUP` aliasing, the
  `memcpy` struct layout and the numeric values of native constants are left
  out. Descriptors are (group bytes, interface address bytes) or (group bytes,
  interface index) pairs.
- `NetworkInterface::map()` enumeration is left out; the directory is an
  input. NetworkInterface.cpp and IPAddress.cpp are not part of this model.
  `firstAddress`, `supportsIPv4/6`, `forAddress`, `forIndex` and `isUnicast`
  follow the definitions given above.
- `MulticastSocket(const SocketAddress&, bool)` binds, and
  `MulticastSocket(const Socket&)` and `operator=` check the wrapped
  implementation's type. Both live in DatagramSocket and Socket, which are
  not part of this model. The default `MulticastSocket()` and the destructors
  do nothing here.
- The constructor that refuses UNIX_LOCAL on a Unix build has already opened
  the `AF_UNIX` descriptor when it throws. That descriptor is released by the
  destructor, outside the model.

Behaviour of the code worth noting:
- `joinGroup` / `leaveGroup` with an IPv6 group on a build without IPv6
  support issue nothing and succeed (MulticastSocket.cpp lines 274-290).
- Without IPv6 support, `getInterface` rethrows the IPv4 attempt's failure
  (MulticastSocket.cpp line 116).
- `setLoopback` and `setTimeToLive` on a non-`AF_INET` socket without IPv6
  support do nothing, and `getLoopback` and `getTimeToLive` return false and
  0 (MulticastSocket.cpp lines 137-148, 169-181, 201-211 and 232-242).
- The single-argument `leaveGroup` passes a default-constructed interface
  (MulticastSocket.cpp lines 332-333). Since `firstAddress` fails for an
  interface without addresses, an IPv4 leave through it is NotFound.
