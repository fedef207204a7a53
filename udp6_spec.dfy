/**
 * The value-level rules of the UDP-over-IPv6 transport: how the ports of the
 * datagram an ICMPv6 error quotes are read back, which endpoint allocation a
 * bind asks for, how received bytes are accounted, when a datagram is
 * admitted to the receive queue, and what a send attempt decides.
 */
module Udp6Spec {
  import opened Net

  /** The IPv6 next-header value of UDP. */
  const UdpProtocolNumber: uint8 := 17

  // ---------------------------------------------------------------------------
  // Ports in the quoted transport header of an ICMPv6 error

  /**
   * A port as the two octets of a UDP header field, most significant first
   * (RFC 768: source port, then destination port, at the start of the header).
   */
  function EncodePort(port: uint16): (b: seq<uint8>)
    ensures |b| == 2 && (b[0] as int) * 0x100 + b[1] == port
  {
    [port / 0x100, port % 0x100]
  }

  /**
   * `ReceiveIcmp` reads the source and destination ports of the quoted
   * datagram from the first four octets of the ICMPv6 payload (the invoking
   * packet, section 3 of RFC 4443). Re-encoding the ports gives those octets back.
   */
  function DecodePorts(payload: seq<uint8>): (ports: (uint16, uint16))
    requires |payload| >= 4
    ensures EncodePort(ports.0) + EncodePort(ports.1) == payload[..4]
  {
    ((payload[0] as int) * 0x100 + payload[1], (payload[2] as int) * 0x100 + payload[3])
  }

  /** Decoding the start of an encoded UDP header yields its ports, whatever follows them. */
  lemma DecodePortsOfHeader(sport: uint16, dport: uint16, rest: seq<uint8>)
    ensures DecodePorts(EncodePort(sport) + EncodePort(dport) + rest) == (sport, dport)
  {
    var payload := EncodePort(sport) + EncodePort(dport) + rest;
    assert payload[0] == sport / 0x100 && payload[1] == sport % 0x100;
    assert payload[2] == dport / 0x100 && payload[3] == dport % 0x100;
  }

  // ---------------------------------------------------------------------------
  // The status of an inbound datagram

  /**
   * `Receive` fails the checksum only when checksums are enabled and the
   * datagram's does not verify; it then looks the endpoints up, and reports
   * unreachable exactly when none matched.
   */
  function RxStatusOf(checksumEnabled: bool, checksumValid: bool, matched: nat): (s: RxStatus)
    ensures s == RxCsumFailed <==> checksumEnabled && !checksumValid
    ensures s == RxEndpointUnreach <==> (!checksumEnabled || checksumValid) && matched == 0
    ensures s == RxOk <==> (!checksumEnabled || checksumValid) && matched > 0
  {
    if checksumEnabled && !checksumValid then RxCsumFailed
    else if matched == 0 then RxEndpointUnreach
    else RxOk
  }

  // ---------------------------------------------------------------------------
  // Endpoint allocation requests

  /** The five allocation calls of the endpoint demultiplexer, by their arguments. */
  datatype AllocRequest =
    | AllocAny
    | AllocPort(port: uint16)
    | AllocAddress(address: Ipv6Address)
    | AllocAddressPort(address: Ipv6Address, port: uint16)
    | AllocFull(localAddress: Ipv6Address, localPort: uint16, peerAddress: Ipv6Address, peerPort: uint16)

  /** The local address and port a request names, the wildcard (any, 0) standing for what it leaves out. */
  function RequestedLocal(req: AllocRequest): (Ipv6Address, uint16)
  {
    match req
    case AllocAny => (Any, 0)
    case AllocPort(p) => (Any, p)
    case AllocAddress(a) => (a, 0)
    case AllocAddressPort(a, p) => (a, p)
    case AllocFull(a, p, _, _) => (a, p)
  }

  /**
   * The allocation `Bind (address)` asks for: the address is passed exactly
   * when it is not the wildcard, the port exactly when it is not 0, and the
   * request names the bound address and port and nothing else.
   */
  function AllocRequestFor(ip: Ipv6Address, port: uint16): (req: AllocRequest)
    ensures !req.AllocFull?
    ensures req.AllocAddress? || req.AllocAddressPort? <==> ip != Any
    ensures req.AllocPort? || req.AllocAddressPort? <==> port != 0
    ensures RequestedLocal(req) == (ip, port)
  {
    if ip == Any && port == 0 then AllocAny
    else if ip == Any then AllocPort(port)
    else if port == 0 then AllocAddress(ip)
    else AllocAddressPort(ip, port)
  }

  // ---------------------------------------------------------------------------
  // Receive queue accounting

  /** The bytes held by a receive queue. */
  function QueuedBytes(q: seq<Packet>): nat
  {
    if q == [] then 0 else Size(q[0]) + QueuedBytes(q[1..])
  }

  /** Enqueuing at the back adds the packet's size. */
  lemma {:induction false} QueuedBytesAppend(q: seq<Packet>, p: Packet)
    ensures QueuedBytes(q + [p]) == QueuedBytes(q) + Size(p)
  {
    if q == [] {
      assert q + [p] == [p];
    } else {
      assert (q + [p])[1..] == q[1..] + [p];
      QueuedBytesAppend(q[1..], p);
    }
  }

  /** The front packet of a queue is part of its bytes. */
  lemma FrontWithinQueuedBytes(q: seq<Packet>)
    requires q != []
    ensures Size(q[0]) <= QueuedBytes(q)
    ensures QueuedBytes(q[1..]) == QueuedBytes(q) - Size(q[0])
  {
  }

  /**
   * Admission to the receive queue AS WRITTEN: the source adds the counter
   * and the size in 32-bit unsigned arithmetic, which wraps.
   */
  function AdmitsAsWritten(rxAvailable: uint32, size: uint32, rcvBufSize: uint32): (ok: bool)
    ensures rxAvailable + size < 0x1_0000_0000 ==> (ok <==> rxAvailable + size <= rcvBufSize)
    ensures rxAvailable + size >= 0x1_0000_0000 ==> (ok <==> rxAvailable + size - 0x1_0000_0000 <= rcvBufSize)
  {
    (rxAvailable + size) % 0x1_0000_0000 <= rcvBufSize
  }

  /**
   * With one byte queued and a 131072-byte buffer, a datagram of 2^32 - 1
   * bytes is admitted, and the wrapped counter then reads 0 while 2^32 bytes
   * are queued.
   */
  lemma AdmitsAsWrittenOverflow()
    ensures AdmitsAsWritten(1, 0xFFFF_FFFF, 131072)
    ensures 1 + 0xFFFF_FFFF > 131072
    ensures (1 + 0xFFFF_FFFF) % 0x1_0000_0000 == 0
  {
  }

  /**
   * Admission to the receive queue as intended: the queue after the arrival
   * stays within the receive buffer, so the counter still fits in 32 bits.
   */
  function Admits(rxAvailable: nat, size: nat, rcvBufSize: uint32): (ok: bool)
    ensures ok ==> rxAvailable + size < 0x1_0000_0000
  {
    rxAvailable + size <= rcvBufSize
  }

  /** Wherever the 32-bit sum does not wrap, the intended rule and the written one agree. */
  lemma AdmitsAgreesWithoutWrap(rxAvailable: uint32, size: uint32, rcvBufSize: uint32)
    requires rxAvailable + size < 0x1_0000_0000
    ensures Admits(rxAvailable, size, rcvBufSize) == AdmitsAsWritten(rxAvailable, size, rcvBufSize)
  {
  }

  /**
   * A queue grown only by admitted arrivals stays within the buffer. (No
   * automatic induction: the proof is the appeal to `QueuedBytesAppend`.)
   */
  lemma {:induction false} AdmittedStaysWithinBuffer(q: seq<Packet>, p: Packet, rcvBufSize: uint32)
    requires Admits(QueuedBytes(q), Size(p), rcvBufSize)
    ensures QueuedBytes(q + [p]) <= rcvBufSize
  {
    QueuedBytesAppend(q, p);
  }

  /** The tags of a received datagram once the socket has noted the receiving device, if asked to. */
  function ArrivalTags(p: Packet, recvPktInfo: bool, iface: Ipv6Interface): (q: Packet)
    ensures Size(q) == Size(p)
    ensures q.tags.recvIf == (if recvPktInfo then Some(iface.deviceIfIndex) else p.tags.recvIf)
  {
    if recvPktInfo then p.(tags := p.tags.(recvIf := Some(iface.deviceIfIndex))) else p
  }

  /** A datagram tagged with the socket address it came from, as queued for `RecvFrom`. */
  function WithSource(p: Packet, saddr: Ipv6Address, sport: uint16): (q: Packet)
    ensures Size(q) == Size(p)
    ensures q.tags.socketAddress == Some(Inet6SocketAddress(saddr, sport))
  {
    p.(tags := p.tags.(socketAddress := Some(Inet6SocketAddress(saddr, sport))))
  }

  // ---------------------------------------------------------------------------
  // Sending

  /**
   * The largest datagram a socket accepts: the 65535-byte IP datagram less a
   * 20-byte IPv4 header and the 8-byte UDP header. No send buffer is modelled.
   */
  const MaxIpv6UdpDatagramSize: uint32 := 65507

  /** `GetTxAvailable`: the ceiling above, whatever the socket holds. */
  function GetTxAvailable(): (r: uint32)
    ensures r + 20 + 8 == 65535
  {
    MaxIpv6UdpDatagramSize
  }

  /** What the node's routing protocol answers for a destination: no protocol, or a route or an error. */
  datatype Routing =
    | NoRoutingProtocol
    | RoutingProtocol(route: Option<Route>, errno: SocketErrno)

  /** The decision a send makes: no endpoint could be bound, an error, or a hand-over to UDP. */
  datatype SendVerdict =
    | BindFailed
    | Refused(errno: SocketErrno)
    | Handed(source: Ipv6Address, route: Option<Route>, notifySend: bool)

  /**
   * The checks of `DoSendTo`, in their order: an endpoint, then send shutdown,
   * then the size ceiling, then the source address: the endpoint's own when
   * it is bound to one, otherwise the routed one.
   */
  function SendVerdictOf(bound: bool, shutdownSend: bool, size: nat, localAddr: Ipv6Address, routing: Routing): (v: SendVerdict)
    ensures v.BindFailed? <==> !bound
    ensures bound && shutdownSend ==> v == Refused(ErrorShutdown)
    ensures bound && !shutdownSend && size > MaxIpv6UdpDatagramSize ==> v == Refused(ErrorMsgSize)
    ensures v.Handed? <==>
      bound && !shutdownSend && size <= MaxIpv6UdpDatagramSize &&
      (localAddr != Any || (routing.RoutingProtocol? && routing.route.Some?))
    ensures v.Handed? && localAddr != Any ==> v == Handed(localAddr, None, true)
    ensures v.Handed? && localAddr == Any ==>
      routing.RoutingProtocol? && v == Handed(routing.route.value.source, routing.route, false)
    ensures v.Refused? && bound && !shutdownSend && size <= MaxIpv6UdpDatagramSize ==>
      localAddr == Any &&
      v.errno == (if routing.NoRoutingProtocol? then ErrorNoRouteToHost else routing.errno)
  {
    if !bound then BindFailed
    else if shutdownSend then Refused(ErrorShutdown)
    else if size > GetTxAvailable() then Refused(ErrorMsgSize)
    else if localAddr != Any then Handed(localAddr, None, true)
    else match routing
      case NoRoutingProtocol => Refused(ErrorNoRouteToHost)
      case RoutingProtocol(route, errno) =>
        if route.Some? then Handed(route.value.source, route, false) else Refused(errno)
  }

  /**
   * The tags a datagram leaves the socket with: the hop limit of the socket
   * (its multicast one for a multicast destination) when that is not 0, and
   * a don't-fragment tag from the MTU-discovery flag when it had none. A
   * don't-fragment tag it already carried is taken off and not put back.
   */
  function SendTags(p: Packet, destIsMulticast: bool, ipTtl: uint8, ipMulticastTtl: uint8, mtuDiscover: bool): (q: Packet)
    ensures q.uid == p.uid && q.headers == p.headers && q.payloadSize == p.payloadSize
    ensures q.tags.socketAddress == p.tags.socketAddress && q.tags.recvIf == p.tags.recvIf
    ensures destIsMulticast && ipMulticastTtl != 0 ==> q.tags.ipTtl == Some(ipMulticastTtl)
    ensures !destIsMulticast && ipTtl != 0 ==> q.tags.ipTtl == Some(ipTtl)
    ensures (if destIsMulticast then ipMulticastTtl == 0 else ipTtl == 0) ==> q.tags.ipTtl == p.tags.ipTtl
    ensures q.tags.dontFragment.Some? <==> p.tags.dontFragment.None?
    ensures q.tags.dontFragment.Some? ==> q.tags.dontFragment.value == mtuDiscover
  {
    var ttl :=
      if ipMulticastTtl != 0 && destIsMulticast then Some(ipMulticastTtl)
      else if ipTtl != 0 && !destIsMulticast then Some(ipTtl)
      else p.tags.ipTtl;
    var df := if p.tags.dontFragment.Some? then None else Some(mtuDiscover);
    p.(tags := p.tags.(ipTtl := ttl, dontFragment := df))
  }

  /** A datagram as UDP hands it to IPv6: the UDP header with the two ports in front. */
  function UdpDatagram(p: Packet, sport: uint16, dport: uint16, checksumEnabled: bool): Packet
  {
    AddHeader(p, UdpHeader(sport, dport, checksumEnabled))
  }
}
