/**
 * `Ipv6EndPoint`: one bound transport address (local and peer address and
 * port) with three optional callbacks, the way its owner is told about a
 * received datagram, an ICMP error and the endpoint's destruction.
 *
 * A callback is modelled by the object it was made for. Invoking it appends
 * an `Invocation` to `invocations`; asking the simulator to invoke it later
 * appends to `scheduled`, and `DoForwardIcmp` is that later event.
 */
module EndPoints {
  import opened Net

  /** A callback: unset, or bound to a method of `owner`. */
  datatype Callback = NullCallback | Callback(owner: object)

  /** The arguments of an ICMP error notification. */
  datatype IcmpError = IcmpError(source: Ipv6Address, ttl: uint8, icmpType: uint8, code: uint8, info: uint32)

  /** One invocation of a callback. */
  datatype Invocation =
    | RxInvoked(owner: object, packet: Packet, saddr: Ipv6Address, daddr: Ipv6Address,
                sport: uint16, dport: uint16, iface: Ipv6Interface)
    | IcmpInvoked(owner: object, error: IcmpError)
    | DestroyInvoked(owner: object)

  /** The fields of an endpoint other than its logs. */
  datatype EndPointState = EndPointState(
    localAddr: Ipv6Address, localPort: uint16,
    peerAddr: Ipv6Address, peerPort: uint16,
    boundDevice: Option<DeviceId>,
    rxCallback: Callback, icmpCallback: Callback, destroyCallback: Callback)

  /** What invoking the receive callback `cb` with these arguments adds to the log. */
  function RxDelivery(cb: Callback, p: Packet, saddr: Ipv6Address, daddr: Ipv6Address,
                      sport: uint16, dport: uint16, iface: Ipv6Interface): (r: seq<Invocation>)
    ensures |r| == (if cb.Callback? then 1 else 0)
    ensures r != [] ==> r[0] == RxInvoked(cb.owner, p, saddr, daddr, sport, dport, iface)
  {
    if cb.Callback? then [RxInvoked(cb.owner, p, saddr, daddr, sport, dport, iface)] else []
  }

  class Ipv6EndPoint {
    var localAddr: Ipv6Address
    var localPort: uint16
    var peerAddr: Ipv6Address
    var peerPort: uint16
    var boundDevice: Option<DeviceId>
    var rxCallback: Callback
    var icmpCallback: Callback
    var destroyCallback: Callback
    /** The callbacks invoked so far, in order. */
    var invocations: seq<Invocation>
    /** ICMP deliveries handed to the simulator and not yet run, in order. */
    var scheduled: seq<IcmpError>
    /** Set by the destructor: an endpoint is destroyed at most once. */
    ghost var destroyed: bool

    function State(): EndPointState
      reads this
    {
      EndPointState(localAddr, localPort, peerAddr, peerPort, boundDevice,
                    rxCallback, icmpCallback, destroyCallback)
    }

    /** The peer is unset (any address, port 0) and no callback is set. */
    constructor (addr: Ipv6Address, port: uint16)
      ensures localAddr == addr && localPort == port
      ensures peerAddr == Any && peerPort == 0
      ensures boundDevice == None
      ensures rxCallback == NullCallback && icmpCallback == NullCallback && destroyCallback == NullCallback
      ensures invocations == [] && scheduled == [] && !destroyed
    {
      localAddr, localPort := addr, port;
      peerAddr, peerPort := Any, 0;
      boundDevice := None;
      rxCallback, icmpCallback, destroyCallback := NullCallback, NullCallback, NullCallback;
      invocations, scheduled := [], [];
      destroyed := false;
    }

    method SetLocalAddress(addr: Ipv6Address)
      modifies this`localAddr
      ensures localAddr == addr
    {
      localAddr := addr;
    }

    method SetLocalPort(port: uint16)
      modifies this`localPort
      ensures localPort == port
    {
      localPort := port;
    }

    method SetPeer(addr: Ipv6Address, port: uint16)
      modifies this`peerAddr, this`peerPort
      ensures peerAddr == addr && peerPort == port
      ensures localAddr == old(localAddr) && localPort == old(localPort)
    {
      peerAddr := addr;
      peerPort := port;
    }

    /** Binds the endpoint to `device`; `None`, the null device, leaves it bound to none. */
    method BindToNetDevice(device: Option<DeviceId>)
      modifies this`boundDevice
      ensures boundDevice == device
    {
      boundDevice := device;
    }

    method SetRxCallback(cb: Callback)
      modifies this`rxCallback
      ensures rxCallback == cb
    {
      rxCallback := cb;
    }

    method SetIcmpCallback(cb: Callback)
      modifies this`icmpCallback
      ensures icmpCallback == cb
    {
      icmpCallback := cb;
    }

    method SetDestroyCallback(cb: Callback)
      modifies this`destroyCallback
      ensures destroyCallback == cb
    {
      destroyCallback := cb;
    }

    /** Hands a received datagram to the receive callback, synchronously, when one is set. */
    method ForwardUp(p: Packet, saddr: Ipv6Address, daddr: Ipv6Address,
                     sport: uint16, dport: uint16, iface: Ipv6Interface)
      modifies this`invocations
      ensures invocations == old(invocations) + RxDelivery(rxCallback, p, saddr, daddr, sport, dport, iface)
    {
      if rxCallback.Callback? {
        invocations := invocations + [RxInvoked(rxCallback.owner, p, saddr, daddr, sport, dport, iface)];
      }
    }

    /**
     * Does not invoke the ICMP callback: when one is set, asks the simulator to
     * run `DoForwardIcmp` with the same arguments at the current time.
     */
    method ForwardIcmp(error: IcmpError)
      modifies this`scheduled
      ensures scheduled == old(scheduled) + (if icmpCallback.Callback? then [error] else [])
    {
      if icmpCallback.Callback? {
        scheduled := scheduled + [error];
      }
    }

    /**
     * The deferred delivery: the simulator runs the oldest pending one. The
     * source invokes the callback without testing it, so it must still be set.
     */
    method DoForwardIcmp()
      requires scheduled != [] && icmpCallback.Callback?
      modifies this`scheduled, this`invocations
      ensures scheduled == old(scheduled[1..])
      ensures invocations == old(invocations) + [IcmpInvoked(icmpCallback.owner, old(scheduled[0]))]
    {
      var error := scheduled[0];
      scheduled := scheduled[1..];
      invocations := invocations + [IcmpInvoked(icmpCallback.owner, error)];
    }

    /** The destructor: invokes the destroy callback once, when one is set. */
    method Destroy()
      requires !destroyed
      modifies this`invocations, this`destroyed
      ensures destroyed
      ensures invocations == old(invocations) +
        (if destroyCallback.Callback? then [DestroyInvoked(destroyCallback.owner)] else [])
    {
      if destroyCallback.Callback? {
        invocations := invocations + [DestroyInvoked(destroyCallback.owner)];
      }
      destroyed := true;
    }
  }
}
