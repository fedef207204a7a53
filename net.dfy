/**
 * Values shared by the UDP-over-IPv6 transport, its endpoints and the
 * IPv6-in-IPv6 tunnel: fixed-width integers, IPv6 and socket addresses,
 * packets with their headers and tags, and the records the transport layers
 * exchange with the network layer below them.
 *
 * Packets are values: a copy handed to one receiver can never be changed by
 * another, which is what the source obtains with `Packet::Copy`.
 */
module Net {

  type uint8 = x: int | 0 <= x < 0x100
  type uint16 = x: int | 0 <= x < 0x1_0000
  type uint32 = x: int | 0 <= x < 0x1_0000_0000
  type int32 = x: int | -0x8000_0000 <= x < 0x8000_0000

  datatype Option<T> = None | Some(value: T)

  /** An IPv6 address, as its 16 octets in network order. */
  type Ipv6Address = a: seq<uint8> | |a| == 16
    witness [0, 0, 0, 0, 0, 0, 0, 0, 0, 0, 0, 0, 0, 0, 0, 0]

  /** `::`. The source calls it "any" where it is a wildcard and "zero" where it marks an unset address. */
  const Any: Ipv6Address := [0, 0, 0, 0, 0, 0, 0, 0, 0, 0, 0, 0, 0, 0, 0, 0]
  const Zero: Ipv6Address := Any

  /** A socket address: an IPv6 address with a port, or an address of some other family. */
  datatype Address =
    | Inet6SocketAddress(ip: Ipv6Address, port: uint16)
    | OtherFamilyAddress(family: nat)

  /** Identifies a node (the simulated host) that owns a protocol instance. */
  type NodeId = nat

  /** Identifies a network device. */
  type DeviceId = nat

  /** The interface a packet arrived on; only the index of its device is ever read. */
  datatype Ipv6Interface = Ipv6Interface(deviceIfIndex: nat)

  /** A route chosen by the routing collaborator: the source address it selects and an opaque rest. */
  datatype Route = Route(source: Ipv6Address, path: nat)

  /** The headers the core adds to or removes from a packet. */
  datatype Header =
    | UdpHeader(sourcePort: uint16, destinationPort: uint16, checksumEnabled: bool)
    | Ipv6Header(source: Ipv6Address, destination: Ipv6Address, nextHeader: uint8, hopLimit: uint8)

  /** The packet tags the core reads or writes, at most one of each kind. */
  datatype Tags = Tags(
    socketAddress: Option<Address>,  // SocketAddressTag: where a received datagram came from
    ipTtl: Option<uint8>,            // SocketIpTtlTag: hop limit to use when sending
    dontFragment: Option<bool>,      // SocketSetDontFragmentTag
    recvIf: Option<nat>)             // Ipv6PacketInfoTag: index of the receiving device

  const NoTags := Tags(None, None, None, None)

  /** A packet: its identity, the headers in front of its payload, the payload length and its tags. */
  datatype Packet = Packet(uid: nat, headers: seq<Header>, payloadSize: nat, tags: Tags)

  function HeaderSize(h: Header): nat
  {
    match h
    case UdpHeader(_, _, _) => 8
    case Ipv6Header(_, _, _, _) => 40
  }

  function HeadersSize(hs: seq<Header>): nat
  {
    if hs == [] then 0 else HeaderSize(hs[0]) + HeadersSize(hs[1..])
  }

  /** `Packet::GetSize`: the headers still in front of the payload count toward it. */
  function Size(p: Packet): nat
  {
    HeadersSize(p.headers) + p.payloadSize
  }

  /** `Packet::AddHeader`: `h` goes in front, and removing it gives `p` back. */
  function AddHeader(p: Packet, h: Header): (q: Packet)
    ensures q.headers != [] && q.headers[0] == h
    ensures q.(headers := q.headers[1..]) == p
    ensures Size(q) == Size(p) + HeaderSize(h)
  {
    var q := p.(headers := [h] + p.headers);
    assert q.headers[1..] == p.headers;
    q
  }

  /** What the network layer is asked to send: `Ipv6L3Protocol::Send (packet, source, destination, protocol, route)`. */
  datatype L3Send = L3Send(packet: Packet, source: Ipv6Address, destination: Ipv6Address, protocol: uint8, route: Option<Route>)

  /** The status a transport protocol reports for an inbound packet. */
  datatype RxStatus = RxOk | RxCsumFailed | RxEndpointUnreach

  /** The socket error codes the core sets. */
  datatype SocketErrno =
    | ErrorNotError
    | ErrorNotConn
    | ErrorMsgSize
    | ErrorAgain
    | ErrorShutdown
    | ErrorOpNotSupp
    | ErrorInval
    | ErrorBadF
    | ErrorNoRouteToHost

  /**
   * The address classification predicates of `Ipv6Address`. They belong to the
   * address class, which is not part of this model, so the core receives them.
   */
  datatype AddressClassifier = AddressClassifier(
    isMulticast: Ipv6Address -> bool,
    isLinkLocal: Ipv6Address -> bool,
    isAllNodesMulticast: Ipv6Address -> bool,
    isAllRoutersMulticast: Ipv6Address -> bool,
    isAllHostsMulticast: Ipv6Address -> bool,
    isSolicitedMulticast: Ipv6Address -> bool)
}
