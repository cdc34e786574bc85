/**
  IP addresses as the sockets layer sees them: a family tag and the raw
  address bytes in network order (IPAddress in the C++ code).
 */
module Addresses {
  import opened Ints

  /** IPAddress::Family. */
  datatype IPFamily = V4 | V6

  /** Number of address bytes of each family. */
  function AddressLength(family: IPFamily): nat
  {
    match family
    case V4 => 4
    case V6 => 16
  }

  datatype IPAddress = IPAddress(family: IPFamily, bytes: seq<byte>) {

    /** The byte length matches the family (4 for IPv4, 16 for IPv6). */
    predicate Valid() {
      |bytes| == AddressLength(family)
    }

    /** The all-zero address (0.0.0.0 or ::). */
    predicate IsWildcard() {
      forall i :: 0 <= i < |bytes| ==> bytes[i] == 0
    }

    /** 255.255.255.255; IPv6 has no broadcast address. */
    predicate IsBroadcast() {
      family == V4 && forall i :: 0 <= i < |bytes| ==> bytes[i] == 0xFF
    }

    /** 224.0.0.0/4 for IPv4 (RFC 1112 section 4) and ff00::/8 for IPv6 (RFC 4291 section 2.7). */
    predicate IsMulticast() {
      |bytes| > 0 &&
      match family
      case V4 => 0xE0 <= bytes[0] < 0xF0
      case V6 => bytes[0] == 0xFF
    }

    /** An address naming a single host: neither wildcard, broadcast nor multicast. */
    predicate IsUnicast() {
      !IsWildcard() && !IsBroadcast() && !IsMulticast()
    }
  }
}
