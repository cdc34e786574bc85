/**
  The network interface directory (NetworkInterface and NetworkInterface::Map).
  The directory is given as a sequence of interface records in map order;
  each record has its index, its address list and its loopback and
  point-to-point flags. Which families an interface supports, and its first
  address of a family, are derived from the address list.
 */
module Interfaces {
  import opened Outcomes
  import opened Ints
  import opened Addresses

  datatype NetworkInterface = NetworkInterface(
    index: uint32,
    addresses: seq<IPAddress>,
    isLoopback: bool,
    isPointToPoint: bool)

  /** NetworkInterface::NO_INDEX, the index of a default-constructed interface (~0u). */
  const NoIndex: uint32 := 0xFFFF_FFFF

  /** A default-constructed NetworkInterface: no index and no addresses. */
  function DefaultInterface(): (itf: NetworkInterface)
    ensures itf.index == NoIndex && itf.addresses == []
  {
    NetworkInterface(NoIndex, [], false, false)
  }

  /** The position of the first element of `s` satisfying `p`, if there is one. */
  function FirstMatch<T>(s: seq<T>, p: T -> bool): (r: Option<nat>)
    ensures r.Some? ==> r.value < |s| && p(s[r.value])
    ensures r.Some? ==> forall j :: 0 <= j < r.value ==> !p(s[j])
    ensures r.None? <==> forall j :: 0 <= j < |s| ==> !p(s[j])
  {
    if |s| == 0 then None
    else if p(s[0]) then Some(0)
    else match FirstMatch(s[1..], p)
      case None => None
      case Some(k) => Some(k + 1)
  }

  /** The elements of `s` satisfying `p`, in order: the reference for a first-match search. */
  function Filter<T>(s: seq<T>, p: T -> bool): seq<T>
  {
    if |s| == 0 then []
    else if p(s[0]) then [s[0]] + Filter(s[1..], p)
    else Filter(s[1..], p)
  }

  /** A first-match search finds exactly the head of the filtered sequence. */
  lemma {:induction false} FirstMatchIsHeadOfFilter<T>(s: seq<T>, p: T -> bool)
    ensures FirstMatch(s, p).None? <==> Filter(s, p) == []
    ensures FirstMatch(s, p).Some? ==> Filter(s, p)[0] == s[FirstMatch(s, p).value]
  {
    if |s| > 0 && !p(s[0]) {
      FirstMatchIsHeadOfFilter(s[1..], p);
    }
  }

  /** NetworkInterface::supportsIPv4 / supportsIPv6: some address of that family is bound. */
  predicate Supports(itf: NetworkInterface, family: IPFamily)
  {
    exists i :: 0 <= i < |itf.addresses| && itf.addresses[i].family == family
  }

  /** NetworkInterface::firstAddress(family); NotFound when no address of that family is bound. */
  function FirstAddress(itf: NetworkInterface, family: IPFamily): (r: Result<IPAddress>)
    ensures r.Ok? <==> Supports(itf, family)
    ensures r.Err? ==> r.error == NotFound
    ensures r.Ok? ==> r.value.family == family && r.value in itf.addresses
    ensures r.Ok? ==> exists k :: 0 <= k < |itf.addresses| && itf.addresses[k] == r.value &&
                        forall j :: 0 <= j < k ==> itf.addresses[j].family != family
  {
    match FirstMatch(itf.addresses, (a: IPAddress) => a.family == family)
    case None => Err(NotFound)
    case Some(k) => Ok(itf.addresses[k])
  }

  /**
    The eligibility test of multicast interface selection: the interface
    supports the family, its first address of that family is unicast, and it
    is neither a loopback nor a point-to-point interface.
   */
  predicate Eligible(itf: NetworkInterface, family: IPFamily)
  {
    && Supports(itf, family)
    && FirstAddress(itf, family).value.IsUnicast()
    && !itf.isLoopback
    && !itf.isPointToPoint
  }

  /** The directory is keyed by interface index, in increasing order (a std::map). */
  predicate ValidDirectory(dir: seq<NetworkInterface>)
  {
    forall i, j :: 0 <= i < j < |dir| ==> dir[i].index < dir[j].index
  }

  /** NetworkInterface::forAddress: the first interface that has `a` bound. */
  function ForAddress(dir: seq<NetworkInterface>, a: IPAddress): (r: Result<NetworkInterface>)
    ensures r.Ok? <==> exists k :: 0 <= k < |dir| && a in dir[k].addresses
    ensures r.Ok? ==> r.value in dir && a in r.value.addresses
    ensures r.Err? ==> r.error == InterfaceNotFound
  {
    match FirstMatch(dir, (itf: NetworkInterface) => a in itf.addresses)
    case None => Err(InterfaceNotFound)
    case Some(k) => Ok(dir[k])
  }

  /** NetworkInterface::forIndex: the interface with index `ix`. */
  function ForIndex(dir: seq<NetworkInterface>, ix: uint32): (r: Result<NetworkInterface>)
    ensures r.Ok? <==> exists k :: 0 <= k < |dir| && dir[k].index == ix
    ensures r.Ok? ==> r.value in dir && r.value.index == ix
    ensures r.Err? ==> r.error == InterfaceNotFound
  {
    match FirstMatch(dir, (itf: NetworkInterface) => itf.index == ix)
    case None => Err(InterfaceNotFound)
    case Some(k) => Ok(dir[k])
  }

  /** In a directory keyed by index, looking up a member's index yields that member. */
  lemma ForIndexOfMember(dir: seq<NetworkInterface>, itf: NetworkInterface)
    requires ValidDirectory(dir)
    requires itf in dir
    ensures ForIndex(dir, itf.index) == Ok(itf)
  {
  }
}
