/**
 * The UDP transport over IPv6 (`Udp6L4Protocol`) and its datagram sockets
 * (`Udp6SocketImpl`). The two refer to each other, so they share a module.
 *
 * The endpoint demultiplexer, the routing protocol, the checksum verification
 * and the address predicates are not part of this model: each call to one of
 * them is a parameter carrying its answer, and the transport records the
 * demultiplexer calls it makes in `demuxCalls`, so that a contract can say
 * which request was made with which arguments.
 */
module Udp6 {
  import opened Net
  import opened EndPoints
  import opened Udp6Spec

  /** A call made to the endpoint demultiplexer, with its arguments. */
  datatype DemuxCall =
    | AllocateCall(request: AllocRequest)
    | DeAllocateCall(endPoint: Ipv6EndPoint)
    | LookupCall(dst: Ipv6Address, dport: uint16, src: Ipv6Address, sport: uint16, iface: Ipv6Interface)
    | SimpleLookupCall(dst: Ipv6Address, dport: uint16, src: Ipv6Address, sport: uint16)

  /** The socket attributes a new socket starts with. */
  datatype SocketOptions = SocketOptions(
    rcvBufSize: uint32, ipTtl: uint8, ipMulticastTtl: uint8, ipMulticastIf: int32,
    ipMulticastLoop: bool, mtuDiscover: bool, recvPktInfo: bool, icmpNotify: bool)

  /** What a socket reports to its application: notifications and the drop trace. */
  datatype SocketEvent =
    | ConnectionSucceeded
    | DataSent(size: nat)
    | SendSpace(available: uint32)
    | DataRecv
    | RxDropped(packet: Packet)
    | IcmpNotified(error: IcmpError)

  /**
   * `FinishBind` on `e`: its three callbacks now lead to socket `s`, and
   * nothing else about it changed.
   */
  twostate predicate WiredTo(e: Ipv6EndPoint, s: Udp6SocketImpl)
    reads e
  {
    && e.State() == old(e.State()).(rxCallback := Callback(s), icmpCallback := Callback(s), destroyCallback := Callback(s))
    && e.invocations == old(e.invocations)
    && e.scheduled == old(e.scheduled)
    && e.destroyed == old(e.destroyed)
  }

  /**
   * The demultiplexer's answer to an allocation: an endpoint, if any, bound
   * to the address and port the request names, where it names them.
   */
  predicate Honours(request: AllocRequest, e: Ipv6EndPoint?)
    reads e
  {
    e != null ==>
      var (addr, port) := RequestedLocal(request);
      && (addr != Any ==> e.localAddr == addr)
      && (port != 0 ==> e.localPort == port)
  }

  class Udp6L4Protocol {
    var node: Option<NodeId>
    /** `Node::ChecksumEnabled`, a simulation-wide setting. */
    const checksumEnabled: bool
    var sockets: seq<Udp6SocketImpl>
    var demuxCalls: seq<DemuxCall>
    /** The datagrams handed to IPv6, in order. */
    var sent: seq<L3Send>

    /** A protocol with a fresh demultiplexer and no node yet. */
    constructor (checksumEnabled: bool)
      ensures this.checksumEnabled == checksumEnabled
      ensures node == None && sockets == [] && demuxCalls == [] && sent == []
    {
      this.checksumEnabled := checksumEnabled;
      node := None;
      sockets, demuxCalls, sent := [], [], [];
    }

    method SetNode(n: NodeId)
      modifies this`node
      ensures node == Some(n)
    {
      node := Some(n);
    }

    /** A new socket on this protocol's node, remembered by the protocol. */
    method CreateSocket(options: SocketOptions) returns (s: Udp6SocketImpl)
      modifies this`sockets
      ensures fresh(s)
      ensures sockets == old(sockets) + [s]
      ensures s.node == node && s.udp == this && s.endPoint == null
      ensures s.Valid() && s.deliveryQueue == [] && s.events == []
      ensures !s.connected && !s.shutdownSend && !s.shutdownRecv && s.errno == ErrorNotError
    {
      s := new Udp6SocketImpl(options);
      s.SetNode(node);
      s.SetUdp(this);
      sockets := sockets + [s];
    }

    /**
     * The five `Allocate` overloads: the request goes to the demultiplexer
     * unchanged and its answer, `found`, comes back unchanged.
     */
    method Allocate(request: AllocRequest, found: Ipv6EndPoint?) returns (e: Ipv6EndPoint?)
      requires Honours(request, found)
      modifies this`demuxCalls
      ensures e == found
      ensures e != null ==>
        && (RequestedLocal(request).0 != Any ==> e.localAddr == RequestedLocal(request).0)
        && (RequestedLocal(request).1 != 0 ==> e.localPort == RequestedLocal(request).1)
      ensures demuxCalls == old(demuxCalls) + [AllocateCall(request)]
    {
      demuxCalls := demuxCalls + [AllocateCall(request)];
      e := found;
    }

    /**
     * The endpoint goes to the demultiplexer, which deletes it: its
     * destructor runs and invokes its destroy callback.
     */
    method DeAllocate(endPoint: Ipv6EndPoint)
      requires !endPoint.destroyed
      modifies this`demuxCalls, endPoint`invocations, endPoint`destroyed
      ensures demuxCalls == old(demuxCalls) + [DeAllocateCall(endPoint)]
      ensures endPoint.destroyed
      ensures endPoint.invocations == old(endPoint.invocations) +
        (if endPoint.destroyCallback.Callback? then [DestroyInvoked(endPoint.destroyCallback.owner)] else [])
    {
      demuxCalls := demuxCalls + [DeAllocateCall(endPoint)];
      endPoint.Destroy();
    }

    /**
     * An ICMPv6 error about a datagram this node sent. The ports come from
     * the quoted UDP header; `found` is what the demultiplexer's simple
     * lookup answers for them. Only that endpoint is told.
     */
    method ReceiveIcmp(icmpSource: Ipv6Address, icmpTtl: uint8, icmpType: uint8, icmpCode: uint8, icmpInfo: uint32,
                       payloadSource: Ipv6Address, payloadDestination: Ipv6Address, payload: seq<uint8>,
                       found: Ipv6EndPoint?)
      requires |payload| >= 4
      modifies this`demuxCalls, found
      ensures var (src, dst) := DecodePorts(payload);
        demuxCalls == old(demuxCalls) + [SimpleLookupCall(payloadSource, src, payloadDestination, dst)]
      ensures found != null ==>
        found.State() == old(found.State()) && found.invocations == old(found.invocations) && found.destroyed == old(found.destroyed)
      ensures found != null ==>
        found.scheduled == old(found.scheduled) +
          (if found.icmpCallback.Callback? then [IcmpError(icmpSource, icmpTtl, icmpType, icmpCode, icmpInfo)] else [])
    {
      var (src, dst) := DecodePorts(payload);
      demuxCalls := demuxCalls + [SimpleLookupCall(payloadSource, src, payloadDestination, dst)];
      if found != null {
        found.ForwardIcmp(IcmpError(icmpSource, icmpTtl, icmpType, icmpCode, icmpInfo));
      }
    }

    /**
     * An inbound datagram: its UDP header is taken off, the checksum gate
     * applied, and every endpoint the demultiplexer matches (`matched`, its
     * answer to the lookup) gets its own copy with the header's ports.
     */
    method Receive(packet: Packet, src: Ipv6Address, dst: Ipv6Address, iface: Ipv6Interface,
                   checksumValid: bool, matched: seq<Ipv6EndPoint>) returns (status: RxStatus)
      requires packet.headers != [] && packet.headers[0].UdpHeader?
      requires forall i, j :: 0 <= i < j < |matched| ==> matched[i] != matched[j]
      modifies this`demuxCalls, matched
      ensures status == RxStatusOf(checksumEnabled, checksumValid, |matched|)
      ensures var h := packet.headers[0];
        demuxCalls == old(demuxCalls) +
          (if status == RxCsumFailed then [] else [LookupCall(dst, h.destinationPort, src, h.sourcePort, iface)])
      ensures forall e :: e in matched ==>
        e.State() == old(e.State()) && e.scheduled == old(e.scheduled) && e.destroyed == old(e.destroyed)
      ensures status == RxCsumFailed ==> forall e :: e in matched ==> e.invocations == old(e.invocations)
      ensures status != RxCsumFailed ==>
        var h := packet.headers[0];
        forall e :: e in matched ==>
          e.invocations == old(e.invocations) +
            RxDelivery(e.rxCallback, packet.(headers := packet.headers[1..]), src, dst, h.sourcePort, h.destinationPort, iface)
    {
      var h := packet.headers[0];
      var payload := packet.(headers := packet.headers[1..]);
      if checksumEnabled && !checksumValid {
        return RxCsumFailed;
      }
      demuxCalls := demuxCalls + [LookupCall(dst, h.destinationPort, src, h.sourcePort, iface)];
      if matched == [] {
        return RxEndpointUnreach;
      }
      var i := 0;
      while i < |matched|
        invariant 0 <= i <= |matched|
        invariant demuxCalls == old(demuxCalls) + [LookupCall(dst, h.destinationPort, src, h.sourcePort, iface)]
        invariant forall e :: e in matched ==>
          e.State() == old(e.State()) && e.scheduled == old(e.scheduled) && e.destroyed == old(e.destroyed)
        invariant forall k :: 0 <= k < i ==>
          matched[k].invocations == old(matched[k].invocations) +
            RxDelivery(matched[k].rxCallback, payload, src, dst, h.sourcePort, h.destinationPort, iface)
        invariant forall k :: i <= k < |matched| ==> matched[k].invocations == old(matched[k].invocations)
      {
        matched[i].ForwardUp(payload, src, dst, h.sourcePort, h.destinationPort, iface);
        i := i + 1;
      }
      status := RxOk;
    }

    /** `Send` without a route: the UDP header goes in front and IPv6 gets the datagram with protocol 17. */
    method Send(packet: Packet, saddr: Ipv6Address, daddr: Ipv6Address, sport: uint16, dport: uint16)
      requires node.Some?
      modifies this`sent
      ensures sent == old(sent) + [L3Send(UdpDatagram(packet, sport, dport, checksumEnabled), saddr, daddr, UdpProtocolNumber, None)]
    {
      SendWithRoute(packet, saddr, daddr, sport, dport, None);
    }

    /** `Send` with a route, which may be null (`None`), handed on to IPv6 with the datagram. */
    method SendWithRoute(packet: Packet, saddr: Ipv6Address, daddr: Ipv6Address, sport: uint16, dport: uint16,
                         route: Option<Route>)
      requires node.Some?
      modifies this`sent
      ensures sent == old(sent) + [L3Send(UdpDatagram(packet, sport, dport, checksumEnabled), saddr, daddr, UdpProtocolNumber, route)]
    {
      var datagram := AddHeader(packet, UdpHeader(sport, dport, checksumEnabled));
      sent := sent + [L3Send(datagram, saddr, daddr, UdpProtocolNumber, route)];
    }
  }

  class Udp6SocketImpl {
    var endPoint: Ipv6EndPoint?
    var node: Option<NodeId>
    var udp: Udp6L4Protocol?
    var errno: SocketErrno
    var shutdownSend: bool
    var shutdownRecv: bool
    var connected: bool
    var defaultAddress: Ipv6Address
    var defaultPort: uint16
    /** Received datagrams, oldest first, each tagged with the address it came from. */
    var deliveryQueue: seq<Packet>
    /** The bytes in `deliveryQueue`, kept separately so that reading it does not walk the queue. */
    var rxAvailable: uint32
    var rcvBufSize: uint32
    var ipTtl: uint8
    var ipMulticastTtl: uint8
    var ipMulticastIf: int32
    var ipMulticastLoop: bool
    var mtuDiscover: bool
    var allowBroadcast: bool
    /** Whether received datagrams are tagged with the receiving device. */
    var recvPktInfo: bool
    /** Whether the application asked to hear of ICMP errors. */
    var icmpNotify: bool
    /** Notifications to the application and the drop trace, in order. */
    var events: seq<SocketEvent>

    /** The receive queue's counter is its size in bytes, and every queued datagram says where it came from. */
    ghost predicate Valid()
      reads this
    {
      && rxAvailable == QueuedBytes(deliveryQueue)
      && forall i :: 0 <= i < |deliveryQueue| ==> deliveryQueue[i].tags.socketAddress.Some?
    }

    /** An unbound, unconnected socket with an empty receive queue and no node or protocol yet. */
    constructor (options: SocketOptions)
      ensures Valid()
      ensures endPoint == null && node == None && udp == null
      ensures errno == ErrorNotError && !shutdownSend && !shutdownRecv && !connected
      ensures defaultAddress == Any && defaultPort == 0
      ensures deliveryQueue == [] && rxAvailable == 0 && events == []
      ensures rcvBufSize == options.rcvBufSize && ipTtl == options.ipTtl
      ensures ipMulticastTtl == options.ipMulticastTtl && ipMulticastIf == options.ipMulticastIf
      ensures ipMulticastLoop == options.ipMulticastLoop && mtuDiscover == options.mtuDiscover
      ensures recvPktInfo == options.recvPktInfo && icmpNotify == options.icmpNotify
      ensures !allowBroadcast
    {
      endPoint, node, udp := null, None, null;
      errno := ErrorNotError;
      shutdownSend, shutdownRecv, connected := false, false, false;
      defaultAddress, defaultPort := Any, 0;
      deliveryQueue, rxAvailable := [], 0;
      rcvBufSize, ipTtl, ipMulticastTtl := options.rcvBufSize, options.ipTtl, options.ipMulticastTtl;
      ipMulticastIf, ipMulticastLoop, mtuDiscover := options.ipMulticastIf, options.ipMulticastLoop, options.mtuDiscover;
      recvPktInfo, icmpNotify := options.recvPktInfo, options.icmpNotify;
      allowBroadcast := false;
      events := [];
    }

    method SetNode(n: Option<NodeId>)
      modifies this`node
      ensures node == n
    {
      node := n;
    }

    method SetUdp(u: Udp6L4Protocol)
      modifies this`udp
      ensures udp == u
    {
      udp := u;
    }

    /** The endpoint's destroy callback: the socket forgets its endpoint, node and protocol. */
    method Destroy()
      modifies this`node, this`endPoint, this`udp
      ensures node == None && endPoint == null && udp == null
    {
      node, endPoint, udp := None, null, null;
    }

    /** Fails exactly when no endpoint was allocated; otherwise points the endpoint's three callbacks at this socket. */
    method FinishBind() returns (r: int)
      modifies endPoint
      ensures r == (if endPoint == null then -1 else 0)
      ensures endPoint != null ==> WiredTo(endPoint, this)
    {
      if endPoint == null {
        return -1;
      }
      endPoint.SetRxCallback(Callback(this));
      endPoint.SetIcmpCallback(Callback(this));
      endPoint.SetDestroyCallback(Callback(this));
      return 0;
    }

    /** `Bind ()`: any address, an ephemeral port; `found` is the demultiplexer's answer. */
    method Bind(found: Ipv6EndPoint?) returns (r: int)
      requires udp != null
      modifies this`endPoint, udp`demuxCalls, found
      ensures endPoint == found
      ensures udp.demuxCalls == old(udp.demuxCalls) + [AllocateCall(AllocAny)]
      ensures r == (if found == null then -1 else 0)
      ensures found != null ==> WiredTo(found, this)
    {
      endPoint := udp.Allocate(AllocAny, found);
      r := FinishBind();
    }

    /**
     * `Bind (address)`: an address of another family is refused before
     * anything is allocated; otherwise the allocation names exactly the
     * parts of the address that are not wildcards.
     */
    method BindAddress(address: Address, found: Ipv6EndPoint?) returns (r: int)
      requires udp != null
      requires address.Inet6SocketAddress? ==> Honours(AllocRequestFor(address.ip, address.port), found)
      modifies this`endPoint, this`errno, udp`demuxCalls, found
      ensures !address.Inet6SocketAddress? ==>
        && r == -1 && errno == ErrorInval
        && endPoint == old(endPoint) && udp.demuxCalls == old(udp.demuxCalls)
        && (found != null ==> unchanged(found))
      ensures address.Inet6SocketAddress? ==>
        && endPoint == found && errno == old(errno)
        && udp.demuxCalls == old(udp.demuxCalls) + [AllocateCall(AllocRequestFor(address.ip, address.port))]
        && r == (if found == null then -1 else 0)
        && (found != null ==> WiredTo(found, this))
      ensures address.Inet6SocketAddress? && r == 0 ==>
        && (address.ip != Any ==> GetSockName().ip == address.ip)
        && (address.port != 0 ==> GetSockName().port == address.port)
    {
      if !address.Inet6SocketAddress? {
        errno := ErrorInval;
        return -1;
      }
      var request := AllocRequestFor(address.ip, address.port);
      endPoint := udp.Allocate(request, found);
      r := FinishBind();
    }

    method ShutdownSend() returns (r: int)
      modifies this`shutdownSend
      ensures shutdownSend && r == 0
    {
      shutdownSend := true;
      return 0;
    }

    method ShutdownRecv() returns (r: int)
      modifies this`shutdownRecv
      ensures shutdownRecv && r == 0
    {
      shutdownRecv := true;
      return 0;
    }

    /** Closing a socket shut in both directions is an error that changes nothing; otherwise it shuts both. */
    method Close() returns (r: int)
      modifies this`shutdownSend, this`shutdownRecv, this`errno
      ensures shutdownSend && shutdownRecv
      ensures old(shutdownSend && shutdownRecv) ==> r == -1 && errno == ErrorBadF
      ensures !old(shutdownSend && shutdownRecv) ==> r == 0 && errno == old(errno)
    {
      if shutdownRecv && shutdownSend {
        errno := ErrorBadF;
        return -1;
      }
      shutdownRecv := true;
      shutdownSend := true;
      return 0;
    }

    /** Remembers the peer for `Send`; no packet is exchanged. */
    method Connect(address: Address) returns (r: int)
      requires address.Inet6SocketAddress?
      modifies this`defaultAddress, this`defaultPort, this`connected, this`events
      ensures defaultAddress == address.ip && defaultPort == address.port && connected
      ensures events == old(events) + [ConnectionSucceeded]
      ensures r == 0
    {
      defaultAddress := address.ip;
      defaultPort := address.port;
      events := events + [ConnectionSucceeded];
      connected := true;
      return 0;
    }

    /** A datagram socket does not listen. */
    method Listen() returns (r: int)
      modifies this`errno
      ensures r == -1 && errno == ErrorOpNotSupp
    {
      errno := ErrorOpNotSupp;
      return -1;
    }

    /**
     * The outcome of `DoSendTo (p, dest, port)`, from the state before it
     * to the state after: an endpoint is allocated first if there is none
     * (`found` being the demultiplexer's answer), and then `Decided` holds.
     */
    twostate predicate SentTo(p: Packet, dest: Ipv6Address, port: uint16, found: Ipv6EndPoint?,
                              routing: Routing, cls: AddressClassifier, r: int)
      reads this, udp, endPoint, found
    {
      && udp != null && udp == old(udp)
      && (if old(endPoint) == null then
            && endPoint == found
            && udp.demuxCalls == old(udp.demuxCalls) + [AllocateCall(AllocAny)]
            && (found != null ==> WiredTo(found, this))
          else
            && endPoint == old(endPoint)
            && udp.demuxCalls == old(udp.demuxCalls))
      && Decided(p, dest, port, routing, cls, r)
    }

    /**
     * The rest of a send: `SendVerdictOf` decides on the endpoint as it now
     * is, and the verdict fixes the result, the error code, what UDP sends
     * and what the application hears.
     */
    twostate predicate Decided(p: Packet, dest: Ipv6Address, port: uint16, routing: Routing, cls: AddressClassifier, r: int)
      reads this, udp, endPoint
    {
      && udp != null && udp == old(udp)
      && var v := SendVerdictOf(endPoint != null, shutdownSend, Size(p),
                                if endPoint != null then endPoint.localAddr else Any, routing);
         match v
         case BindFailed =>
           r == -1 && errno == old(errno) && udp.sent == old(udp.sent) && events == old(events)
         case Refused(e) =>
           r == -1 && errno == e && udp.sent == old(udp.sent) && events == old(events)
         case Handed(source, route, notifySend) =>
           && r == Size(p) && errno == old(errno)
           && udp.sent == old(udp.sent) +
                [L3Send(UdpDatagram(SendTags(p, cls.isMulticast(dest), ipTtl, ipMulticastTtl, mtuDiscover),
                                    endPoint.localPort, port, udp.checksumEnabled),
                        source, dest, UdpProtocolNumber, route)]
           && events == old(events) + [DataSent(Size(p))] + (if notifySend then [SendSpace(GetTxAvailable())] else [])
    }

    /** Sends to `dest`, `port`, binding first if need be, whatever the connected state. */
    method DoSendTo(p: Packet, dest: Ipv6Address, port: uint16, found: Ipv6EndPoint?,
                    routing: Routing, cls: AddressClassifier) returns (r: int)
      requires udp != null && node.Some? && udp.node.Some?
      modifies this`endPoint, this`errno, this`events, udp`demuxCalls, udp`sent
      modifies if endPoint == null then {found} else {}
      ensures SentTo(p, dest, port, found, routing, cls, r)
    {
      if endPoint == null {
        var b := Bind(found);
        if b == -1 {
          return -1;
        }
      }
      r := SendBound(p, dest, port, routing, cls);
    }

    /** The checks and the hand-over of `DoSendTo` once the socket has an endpoint. */
    method SendBound(p: Packet, dest: Ipv6Address, port: uint16, routing: Routing, cls: AddressClassifier)
      returns (r: int)
      requires endPoint != null && udp != null && node.Some? && udp.node.Some?
      modifies this`errno, this`events, udp`sent
      ensures Decided(p, dest, port, routing, cls, r)
    {
      if shutdownSend {
        errno := ErrorShutdown;
        return -1;
      }
      if Size(p) > GetTxAvailable() {
        errno := ErrorMsgSize;
        return -1;
      }
      var tagged := SendTags(p, cls.isMulticast(dest), ipTtl, ipMulticastTtl, mtuDiscover);
      if endPoint.localAddr != Any {
        udp.SendWithRoute(tagged, endPoint.localAddr, dest, endPoint.localPort, port, None);
        events := events + [DataSent(Size(p)), SendSpace(GetTxAvailable())];
        return Size(p);
      }
      match routing
      case NoRoutingProtocol =>
        errno := ErrorNoRouteToHost;
        return -1;
      case RoutingProtocol(route, routeErrno) =>
        if route.Some? {
          udp.SendWithRoute(tagged, route.value.source, dest, endPoint.localPort, port, route);
          events := events + [DataSent(Size(p))];
          return Size(p);
        }
        errno := routeErrno;
        return -1;
    }

    /** Sends to the connected peer: binds if need be, refuses after send shutdown, then as `DoSendTo`. */
    method DoSend(p: Packet, found: Ipv6EndPoint?, routing: Routing, cls: AddressClassifier) returns (r: int)
      requires udp != null && node.Some? && udp.node.Some?
      modifies this`endPoint, this`errno, this`events, udp`demuxCalls, udp`sent
      modifies if endPoint == null then {found} else {}
      ensures SentTo(p, defaultAddress, defaultPort, found, routing, cls, r)
    {
      if endPoint == null {
        var b := Bind(found);
        if b == -1 {
          return -1;
        }
      }
      if shutdownSend {
        errno := ErrorShutdown;
        return -1;
      }
      r := DoSendTo(p, defaultAddress, defaultPort, found, routing, cls);
    }

    /** `Send`: only a connected socket sends, and only to its peer. */
    method Send(p: Packet, found: Ipv6EndPoint?, routing: Routing, cls: AddressClassifier) returns (r: int)
      requires udp != null && node.Some? && udp.node.Some?
      modifies this`endPoint, this`errno, this`events, udp`demuxCalls, udp`sent
      modifies if endPoint == null then {found} else {}
      ensures !connected ==>
        && r == -1 && errno == ErrorNotConn
        && endPoint == old(endPoint) && events == old(events)
        && udp.demuxCalls == old(udp.demuxCalls) && udp.sent == old(udp.sent)
        && (found != null ==> unchanged(found))
      ensures connected ==> SentTo(p, defaultAddress, defaultPort, found, routing, cls, r)
    {
      if !connected {
        errno := ErrorNotConn;
        return -1;
      }
      r := DoSend(p, found, routing, cls);
    }

    /** `SendTo`: sends to the given address, connected or not. */
    method SendTo(p: Packet, address: Address, found: Ipv6EndPoint?, routing: Routing, cls: AddressClassifier)
      returns (r: int)
      requires address.Inet6SocketAddress?
      requires udp != null && node.Some? && udp.node.Some?
      modifies this`endPoint, this`errno, this`events, udp`demuxCalls, udp`sent
      modifies if endPoint == null then {found} else {}
      ensures SentTo(p, address.ip, address.port, found, routing, cls, r)
    {
      r := DoSendTo(p, address.ip, address.port, found, routing, cls);
    }

    /**
     * `DoSendTo (p, address)`: a connected socket sends to its peer and
     * ignores `address`; an unconnected one sends to `address`. Nothing in
     * the socket calls it.
     */
    method DoSendToAddress(p: Packet, address: Address, found: Ipv6EndPoint?, routing: Routing, cls: AddressClassifier)
      returns (r: int)
      requires !connected ==> address.Inet6SocketAddress?
      requires udp != null && node.Some? && udp.node.Some?
      modifies this`endPoint, this`errno, this`events, udp`demuxCalls, udp`sent
      modifies if endPoint == null then {found} else {}
      ensures connected ==> SentTo(p, defaultAddress, defaultPort, found, routing, cls, r)
      ensures !connected ==> SentTo(p, address.ip, address.port, found, routing, cls, r)
    {
      if !connected {
        r := DoSendTo(p, address.ip, address.port, found, routing, cls);
      } else {
        r := DoSendTo(p, defaultAddress, defaultPort, found, routing, cls);
      }
    }

    /** The bytes waiting to be read: the sum over the receive queue. */
    function GetRxAvailable(): (r: uint32)
      requires Valid()
      reads this
      ensures r == QueuedBytes(deliveryQueue)
    {
      rxAvailable
    }

    /**
     * The outcome of `Recv (maxSize)`: an empty queue is an error; a front
     * datagram too large for the caller stays where it is; otherwise the
     * front datagram is taken and its bytes leave the counter.
     */
    twostate predicate Dequeued(maxSize: uint32, new packet: Option<Packet>)
      reads this
    {
      if old(deliveryQueue) == [] then
        packet == None && errno == ErrorAgain && deliveryQueue == [] && rxAvailable == old(rxAvailable)
      else if Size(old(deliveryQueue[0])) <= maxSize then
        && packet == Some(old(deliveryQueue[0])) && errno == old(errno)
        && deliveryQueue == old(deliveryQueue[1..])
        && rxAvailable == old(rxAvailable) - Size(old(deliveryQueue[0]))
      else
        && packet == None && errno == old(errno)
        && deliveryQueue == old(deliveryQueue) && rxAvailable == old(rxAvailable)
    }

    method Recv(maxSize: uint32) returns (packet: Option<Packet>)
      requires Valid()
      modifies this`deliveryQueue, this`rxAvailable, this`errno
      ensures Valid()
      ensures Dequeued(maxSize, packet)
    {
      if deliveryQueue == [] {
        errno := ErrorAgain;
        return None;
      }
      var p := deliveryQueue[0];
      if Size(p) <= maxSize {
        FrontWithinQueuedBytes(deliveryQueue);
        deliveryQueue := deliveryQueue[1..];
        rxAvailable := rxAvailable - Size(p);
        return Some(p);
      }
      return None;
    }

    /** As `Recv`, and a datagram taken comes with the socket address it was sent from. */
    method RecvFrom(maxSize: uint32) returns (packet: Option<Packet>, from: Option<Address>)
      requires Valid()
      modifies this`deliveryQueue, this`rxAvailable, this`errno
      ensures Valid()
      ensures Dequeued(maxSize, packet)
      ensures packet.Some? <==> from.Some?
      ensures packet.Some? ==> Some(from.value) == packet.value.tags.socketAddress
    {
      packet := Recv(maxSize);
      from := None;
      if packet.Some? {
        from := packet.value.tags.socketAddress;
      }
    }

    /** The endpoint's local address and port, or `::` and 0 when the socket is not bound. */
    function GetSockName(): (a: Address)
      reads this, endPoint
      ensures a.Inet6SocketAddress?
      ensures endPoint != null ==> a.ip == endPoint.localAddr && a.port == endPoint.localPort
      ensures endPoint == null ==> a.ip == Zero && a.port == 0
    {
      if endPoint != null then Inet6SocketAddress(endPoint.localAddr, endPoint.localPort)
      else Inet6SocketAddress(Zero, 0)
    }

    /**
     * The endpoint's receive callback. Nothing happens after receive
     * shutdown; a datagram that fits in the receive buffer is queued at the
     * back with its source address, and one that does not is dropped.
     */
    method ForwardUp(packet: Packet, saddr: Ipv6Address, daddr: Ipv6Address,
                     sport: uint16, dport: uint16, iface: Ipv6Interface)
      requires Valid()
      modifies this`deliveryQueue, this`rxAvailable, this`events
      ensures Valid()
      ensures shutdownRecv ==>
        deliveryQueue == old(deliveryQueue) && rxAvailable == old(rxAvailable) && events == old(events)
      ensures !shutdownRecv ==>
        var q := ArrivalTags(packet, recvPktInfo, iface);
        if Admits(old(rxAvailable), Size(q), rcvBufSize) then
          && deliveryQueue == old(deliveryQueue) + [WithSource(q, saddr, sport)]
          && rxAvailable == old(rxAvailable) + Size(q)
          && events == old(events) + [DataRecv]
        else
          && deliveryQueue == old(deliveryQueue) && rxAvailable == old(rxAvailable)
          && events == old(events) + [RxDropped(q)]
    {
      if shutdownRecv {
        return;
      }
      var q := ArrivalTags(packet, recvPktInfo, iface);
      if Admits(rxAvailable, Size(q), rcvBufSize) {
        var tagged := WithSource(q, saddr, sport);
        QueuedBytesAppend(deliveryQueue, tagged);
        deliveryQueue := deliveryQueue + [tagged];
        rxAvailable := rxAvailable + Size(q);
        events := events + [DataRecv];
      } else {
        events := events + [RxDropped(q)];
      }
    }

    /** The endpoint's ICMP callback: passed on to the application when it asked for it. */
    method ForwardIcmp(error: IcmpError)
      modifies this`events
      ensures events == old(events) + (if icmpNotify then [IcmpNotified(error)] else [])
    {
      if icmpNotify {
        events := events + [IcmpNotified(error)];
      }
    }

    method SetRcvBufSize(size: uint32)
      modifies this`rcvBufSize
      ensures rcvBufSize == size
    {
      rcvBufSize := size;
    }

    method SetIpTtl(ttl: uint8)
      modifies this`ipTtl
      ensures ipTtl == ttl
    {
      ipTtl := ttl;
    }

    method SetIpMulticastTtl(ttl: uint8)
      modifies this`ipMulticastTtl
      ensures ipMulticastTtl == ttl
    {
      ipMulticastTtl := ttl;
    }

    method SetIpMulticastIf(ipIf: int32)
      modifies this`ipMulticastIf
      ensures ipMulticastIf == ipIf
    {
      ipMulticastIf := ipIf;
    }

    method SetIpMulticastLoop(loop: bool)
      modifies this`ipMulticastLoop
      ensures ipMulticastLoop == loop
    {
      ipMulticastLoop := loop;
    }

    method SetMtuDiscover(discover: bool)
      modifies this`mtuDiscover
      ensures mtuDiscover == discover
    {
      mtuDiscover := discover;
    }

    /** Accepted whatever its value, though no broadcast path reads it. */
    method SetAllowBroadcast(allow: bool) returns (ok: bool)
      modifies this`allowBroadcast
      ensures allowBroadcast == allow && ok
    {
      allowBroadcast := allow;
      return true;
    }
  }
}
