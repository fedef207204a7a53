/**
 * `Ipv6TunnelL4Protocol`: IPv6-in-IPv6 tunnelling (protocol 41). It keeps the
 * pool of tunnel devices of `TunnelPool`, updating the list in place, and
 * decapsulates inbound tunnel packets (section 3.3 of RFC 2473), resending
 * the inner packet unless `LoopFiltered` names it: a link-local source or
 * destination, or a destination in the all-nodes, all-routers, all-hosts or
 * a solicited-node multicast group. Other link-scope multicast is forwarded.
 *
 * The IPv6 layer below is not part of this model. The index it gives a new
 * interface, the routing protocol's answer and the address predicates are
 * parameters; interface set-up and sends are recorded in `configured` and
 * `sent`.
 */
module Ipv6Tunnel {
  import opened Net
  import opened TunnelPool

  const TunnelProtocolNumber: uint8 := 41

  /** An interface the protocol added to the IPv6 layer, with its routing metric, and whether it was set up. */
  datatype InterfaceSetup = InterfaceSetup(ifIndex: nat, metric: nat, up: bool)

  /**
   * The inner packets `Receive` must not forward: those from or to a
   * link-local address, and those to the all-nodes, all-routers, all-hosts
   * or a solicited-node multicast group.
   */
  predicate LoopFiltered(cls: AddressClassifier, source: Ipv6Address, destination: Ipv6Address)
  {
    || cls.isLinkLocal(source)
    || cls.isLinkLocal(destination)
    || cls.isAllNodesMulticast(destination)
    || cls.isAllRoutersMulticast(destination)
    || cls.isAllHostsMulticast(destination)
    || cls.isSolicitedMulticast(destination)
  }

  /**
   * The hop limit the forwarded inner packet is tagged with: one less than it
   * arrived with, in 8-bit unsigned arithmetic.
   */
  function ForwardedHopLimit(hopLimit: uint8): (ttl: uint8)
    ensures hopLimit > 0 ==> ttl + 1 == hopLimit
    ensures hopLimit == 0 ==> ttl == 255
  {
    (hopLimit - 1) % 0x100
  }

  /**
   * The packet a tunnel payload carries. The IPv6 layer has already taken off
   * the outer header; the inner IPv6 header at the front of the payload is
   * taken off here, and its hop limit less one is attached as the tag the
   * IPv6 layer sends the packet with.
   */
  function Decapsulate(packet: Packet): (inner: Packet)
    requires packet.headers != [] && packet.headers[0].Ipv6Header?
    ensures inner.headers == packet.headers[1..]
    ensures Size(inner) + 40 == Size(packet)
    ensures inner.tags == packet.tags.(ipTtl := Some(ForwardedHopLimit(packet.headers[0].hopLimit)))
  {
    var h := packet.headers[0];
    assert packet.headers == [h] + packet.headers[1..];
    packet.(headers := packet.headers[1..], tags := packet.tags.(ipTtl := Some(ForwardedHopLimit(h.hopLimit))))
  }

  /**
   * Putting an IPv6 header in front of a packet and decapsulating it again
   * gives back the packet, its hop-limit tag set one below that header's.
   */
  lemma DecapsulateEncapsulated(p: Packet, source: Ipv6Address, destination: Ipv6Address, nextHeader: uint8, hopLimit: uint8)
    ensures Decapsulate(AddHeader(p, Ipv6Header(source, destination, nextHeader, hopLimit))) ==
      p.(tags := p.tags.(ipTtl := Some(ForwardedHopLimit(hopLimit))))
  {
    var q := AddHeader(p, Ipv6Header(source, destination, nextHeader, hopLimit));
    assert q.headers[1..] == p.headers;
  }

  class Ipv6TunnelL4Protocol {
    var node: Option<NodeId>
    /** The tunnel devices, in the order they were created. */
    var devices: seq<TunnelDevice>
    /** Interfaces added for tunnel devices, in order. */
    var configured: seq<InterfaceSetup>
    /** The packets handed to IPv6, in order. */
    var sent: seq<L3Send>

    ghost predicate Valid()
      reads this
    {
      PoolValid(devices)
    }

    constructor ()
      ensures Valid()
      ensures node == None && devices == [] && configured == [] && sent == []
    {
      node := None;
      devices, configured, sent := [], [], [];
    }

    method SetNode(n: NodeId)
      modifies this`node
      ensures node == Some(n)
    {
      node := Some(n);
    }

    /** The first device in list order bound to `remote`, by its position. */
    method GetTunnelDevice(remote: Ipv6Address) returns (found: Option<nat>)
      ensures found == FindDevice(devices, remote)
    {
      var i := 0;
      while i < |devices|
        invariant 0 <= i <= |devices|
        invariant forall k :: 0 <= k < i ==> devices[k].remote != remote
      {
        if devices[i].remote == remote {
          return Some(i);
        }
        i := i + 1;
      }
      return None;
    }

    /**
     * Binds `remote` to a tunnel device, returning the index of its interface
     * truncated to 16 bits. `freshIf` is the index the IPv6 layer gives an
     * interface added now; an interface is added, with metric 1, and set up,
     * only for a device that has none.
     */
    method AddTunnel(remote: Ipv6Address, local: Ipv6Address, freshIf: nat) returns (ifIndex: uint16)
      requires Valid() && node.Some? && Unused(devices, freshIf)
      modifies this`devices, this`configured
      ensures Valid()
      ensures var r := PoolAdd(old(devices), remote, local, freshIf);
        && devices == r.devices
        && ifIndex == r.ifIndex % 0x1_0000
        && configured == old(configured) + (if r.slot == |old(devices)| then [InterfaceSetup(freshIf, 1, true)] else [])
    {
      ghost var before := devices;
      AddKeepsPoolValid(devices, remote, local, freshIf);
      var s: nat;
      var d: TunnelDevice;
      var found := GetTunnelDevice(remote);
      if found.Some? {
        s, d := found.value, devices[found.value];
      } else {
        var free := GetTunnelDevice(Zero);
        if free.Some? {
          s, d := free.value, devices[free.value];
        } else {
          s, d := |devices|, NewDevice;
          devices := devices + [d];
        }
        d := d.(remote := remote, local := local);
      }
      d := d.(refCount := d.refCount + 1);
      var index: nat;
      if d.ifIndex.None? {
        index := freshIf;
        d := d.(ifIndex := Some(freshIf));
        configured := configured + [InterfaceSetup(freshIf, 1, true)];
      } else {
        index := d.ifIndex.value;
      }
      devices := devices[s := d];
      ifIndex := index % 0x1_0000;
      assert devices == PoolAdd(before, remote, local, freshIf).devices;
    }

    /** Drops one binding of `remote`, freeing its device when none is left. */
    method RemoveTunnel(remote: Ipv6Address)
      requires Valid()
      modifies this`devices
      ensures Valid()
      ensures devices == PoolRemove(old(devices), remote)
    {
      RemoveKeepsPoolValid(devices, remote);
      var found := GetTunnelDevice(remote);
      if found.Some? {
        var d := devices[found.value];
        d := d.(refCount := d.refCount - 1);
        if d.refCount == 0 {
          d := d.(remote := Zero);
        }
        devices := devices[found.value := d];
      }
    }

    /**
     * Moves one binding of `remote` to `newRemote`: a shared device is left
     * to its other bindings and `newRemote` is added afresh; an unshared one
     * is repointed in place. The device for `remote` must exist and be in use.
     */
    method ModifyTunnel(remote: Ipv6Address, newRemote: Ipv6Address, local: Ipv6Address, freshIf: nat)
      returns (ifIndex: uint16)
      requires Valid() && node.Some? && Unused(devices, freshIf)
      requires FindDevice(devices, remote).Some? && devices[FindDevice(devices, remote).value].refCount > 0
      modifies this`devices, this`configured
      ensures Valid()
      ensures var r := PoolModify(old(devices), remote, newRemote, local, freshIf);
        devices == r.0 && ifIndex == r.1 % 0x1_0000
      ensures configured == old(configured) +
        (if |devices| > |old(devices)| then [InterfaceSetup(freshIf, 1, true)] else [])
    {
      ModifyKeepsPoolValid(devices, remote, newRemote, local, freshIf);
      var found := GetTunnelDevice(remote);
      var i := found.value;
      if devices[i].refCount > 1 {
        RemoveTunnel(remote);
        assert Unused(devices, freshIf) by {
          forall k | 0 <= k < |devices| ensures devices[k].ifIndex != Some(freshIf) {
            assert devices[k].ifIndex == old(devices)[k].ifIndex;
          }
        }
        ifIndex := AddTunnel(newRemote, local, freshIf);
        return;
      }
      var index := devices[i].ifIndex.value;
      devices := devices[i := devices[i].(remote := newRemote)];
      ifIndex := index % 0x1_0000;
    }

    /**
     * An inbound tunnel payload, the outer header already removed by the IPv6
     * layer. Its inner packet is dropped if `LoopFiltered`
     * and otherwise sent once, from the inner source to the inner
     * destination with the inner next header, along `route`, what routing
     * answers for it. The status is always success.
     */
    method Receive(packet: Packet, src: Ipv6Address, dst: Ipv6Address, iface: Ipv6Interface,
                   cls: AddressClassifier, route: Option<Route>) returns (status: RxStatus)
      requires node.Some? && packet.headers != [] && packet.headers[0].Ipv6Header?
      modifies this`sent
      ensures status == RxOk
      ensures var inner := packet.headers[0];
        sent == old(sent) +
          (if LoopFiltered(cls, inner.source, inner.destination) then []
           else [L3Send(Decapsulate(packet), inner.source, inner.destination, inner.nextHeader, route)])
    {
      var inner := packet.headers[0];
      if LoopFiltered(cls, inner.source, inner.destination) {
        return RxOk;
      }
      var p := Decapsulate(packet);
      sent := sent + [L3Send(p, inner.source, inner.destination, inner.nextHeader, route)];
      return RxOk;
    }

    /** Sends `packet` to `dst` over IPv6 with protocol 41 and hop limit `ttl`, without a route. */
    method SendMessage(packet: Packet, src: Ipv6Address, dst: Ipv6Address, ttl: uint8)
      requires node.Some?
      modifies this`sent
      ensures sent == old(sent) + [L3Send(packet.(tags := packet.tags.(ipTtl := Some(ttl))), src, dst, TunnelProtocolNumber, None)]
    {
      sent := sent + [L3Send(packet.(tags := packet.tags.(ipTtl := Some(ttl))), src, dst, TunnelProtocolNumber, None)];
    }
  }
}
