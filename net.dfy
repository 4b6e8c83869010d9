/**
 * Peer identities: a host address (QHostAddress) and a port, compared by value.
 */
module Net {
  import opened Wire

  type Octets4 = s: seq<Byte> | |s| == 4 witness [0, 0, 0, 0]
  type Octets16 = s: seq<Byte> | |s| == 16 witness seq(16, _ => 0)

  /** A host address; NullAddress is what a default-constructed QHostAddress holds. */
  datatype HostAddress = NullAddress | IPv4Address(v4: Octets4) | IPv6Address(v6: Octets16)

  /** The (address, port) pair that identifies a server or a client. */
  datatype PeerAddress = PeerAddress(address: HostAddress, port: UInt16)

  /** The peer an unconnected socket reports: null address, port 0. */
  const NullPeer: PeerAddress := PeerAddress(NullAddress, 0)

  /** True for an IPv6 address of the form ::ffff:a.b.c.d. */
  predicate IsV4Mapped(a: Octets16)
  {
    a[..10] == seq(10, _ => 0) && a[10] == 0xFF && a[11] == 0xFF
  }

  /**
   * The 4 host-order bytes of an address read as IPv4: the address itself,
   * the embedded address of a v4-mapped IPv6 address, and zero otherwise.
   */
  function ToIPv4Bytes(a: HostAddress): (r: seq<Byte>)
    ensures |r| == 4
    ensures a.IPv4Address? ==> r == a.v4
  {
    match a
    case IPv4Address(v4) => v4
    case IPv6Address(v6) => if IsV4Mapped(v6) then v6[12..] else [0, 0, 0, 0]
    case NullAddress => [0, 0, 0, 0]
  }

  /**
   * The 16 bytes of an address read as IPv6: the address itself, the
   * v4-mapped form of an IPv4 address, and zero for the null address.
   */
  function ToIPv6Bytes(a: HostAddress): (r: seq<Byte>)
    ensures |r| == 16
    ensures a.IPv6Address? ==> r == a.v6
  {
    match a
    case IPv6Address(v6) => v6
    case IPv4Address(v4) => seq(10, _ => 0) + [0xFF, 0xFF] + v4
    case NullAddress => seq(16, _ => 0)
  }
}
