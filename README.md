# UDP over IPv6 and the PMIPv6 tunnel pool of ns-3.13, in Dafny

This project models the transport core of the ns-3.13 IPv6 stack used by
the PMIPv6 extension. It has four parts:

- **`Ipv6EndPoint`** (`endpoint.dfy`, module `EndPoints`): one bound
  transport address with three optional callbacks. The receive callback is
  invoked synchronously. An ICMP error is scheduled for later delivery. The
  destroy callback runs from the destructor.
- **`Udp6L4Protocol`** (`udp6.dfy`, module `Udp6`): the UDP transport.
  - Inbound datagrams pass a checksum gate, a demultiplexer lookup, and a
    fan-out of one copy to every matched endpoint.
  - An ICMPv6 error is routed to the endpoint named by the ports of the
    datagram it quotes.
  - Outbound datagrams get the UDP header and go to IPv6 with protocol 17.
- **`Udp6SocketImpl`** (`udp6.dfy`): the datagram socket. It holds:
  - its endpoint, its connected flag and default peer;
  - two independent shutdown flags and an error code;
  - a FIFO receive queue with a byte counter bounded by the receive buffer.
- **`Ipv6TunnelL4Protocol`** (`tunnel.dfy`, module `Ipv6Tunnel`; the pool
  itself is in `tunnel_pool.dfy`, module `TunnelPool`): IPv6-in-IPv6
  tunnelling, protocol 41.
  - It keeps a reference-counted pool of tunnel devices, one per remote
    tunnel end. This is the shared bidirectional tunnel of section 5.6.1 of
    RFC 5213.
  - It receives tunnel payloads whose outer header the IPv6 layer has
    already removed (section 3.3 of RFC 2473). It drops the inner packets
    `LoopFiltered` names: a link-local source or destination, or a
    destination in the all-nodes, all-routers, all-hosts or a
    solicited-node multicast group. Other link-scope multicast is forwarded.
    It resends the rest without the inner header it read, its hop limit
    decremented.

`net.dfy` (module `Net`) holds the values these parts share:
- fixed-width integers;
- IPv6 and socket addresses;
- packets as values, with their headers, size and tags;
- the send record handed to IPv6.

`udp6_spec.dfy` (module `Udp6Spec`) holds the pure rules of the UDP side:
- port decoding;
- the choice of allocation;
- receive-queue accounting and admission;
- the send decision.

How the model is built:
- Objects the source updates in place are classes whose methods state
  their whole new state.
- Each collaborator outside the core becomes a parameter of the operation
  that calls it, carrying its answer: the demultiplexer, the routing
  protocol, the checksum verification, the address predicates, and the
  index IPv6 gives a new interface.
- The calls the core makes into these collaborators are recorded in
  sequences so that contracts can name them:
  - demultiplexer calls in `demuxCalls`;
  - sends handed to IPv6 in `sent`;
  - application notifications in `events`;
  - callback invocations in `invocations`.
- A callback is modelled by the object it was made for. Invoking it
  appends an entry to the endpoint's `invocations`. The socket's own
  `ForwardUp`, `ForwardIcmp` and `Destroy` are the methods those entries
  stand for.

Where the descriptions of this system and its code differ, the model
follows the code:

- `SendTo` sends to the address it is given even on a connected socket
  (`udp6-socket-impl.cc:498-506`). Only the unused overload
  `DoSendTo (p, address)` substitutes the default peer.
- A send with no route reports `ERROR_NOROUTETOHOST` only when the node has
  no routing protocol at all. When the routing protocol finds no route, the
  error is whatever that protocol reports.
- A tunnel device is free when its remote address is `::`, not when its
  count is 0 (`ipv6-tunnel-l4-protocol.cc:201`). `AddTunnel (::, …)` therefore
  counts a binding on a free device. The bookkeeping lemmas exclude `::` as
  a remote end.
- `ModifyTunnel` on an unshared device repoints it at the new remote end
  without checking whether another device is already bound to that end
  (`ipv6-tunnel-l4-protocol.cc:261-268`). Two devices can then be bound to
  the same remote end, against the rule of one tunnel per remote end.
  `ModifyUnsharedCanDuplicateRemote` and `ModifyCanDuplicateRemote` show it.
  `ModifyKeepsConsistent` holds only for a new remote end that is not bound.
- The IPv6 socket keeps the IPv4 send ceiling of 65507 bytes (65535 less a
  20-byte IPv4 header and the UDP header), not 65527.
- `ShutdownSend` and `ShutdownRecv` always succeed and return 0, even when
  the flag is already set (`udp6-socket-impl.cc:197-211`). Only `Close`
  fails, with `ERROR_BADF`, once both flags are set.
- The receive buffer bounds the queue only at the moment of each arrival.
  `SetRcvBufSize` can lower the limit below what is already queued, so
  "queued bytes ≤ buffer" is not an invariant of the socket.
  `AdmittedStaysWithinBuffer` states what does hold.
- A tunnel packet whose inner hop limit is 0 is forwarded with hop limit
  255: the decrement is 8-bit unsigned (`ipv6-tunnel-l4-protocol.cc:171`).
  `ForwardedHopLimit` states this.

## Model

| member | source | states |
|---|---|---|
| `EndPoints.RxDelivery` | ns-3.13/src/internet/model/ipv6-end-point.cc:129-141 | invoking the receive callback yields exactly one invocation with the six arguments when the callback is set, none otherwise |
| `EndPoints.Ipv6EndPoint.constructor` | ns-3.13/src/internet/model/ipv6-end-point.cc:38-44 | a new endpoint has the given local address and port, peer `::` and port 0, no callbacks and no device |
| `EndPoints.Ipv6EndPoint.SetLocalAddress` | ns-3.13/src/internet/model/ipv6-end-point.cc:54-62 | the local address reads back as the value set |
| `EndPoints.Ipv6EndPoint.SetLocalPort` | ns-3.13/src/internet/model/ipv6-end-point.cc:64-72 | the local port reads back as the value set |
| `EndPoints.Ipv6EndPoint.SetPeer` | ns-3.13/src/internet/model/ipv6-end-point.cc:74-88 | peer address and port read back as set; the local address and port are unchanged |
| `EndPoints.Ipv6EndPoint.BindToNetDevice` | ns-3.13/src/internet/model/ipv6-end-point.cc:91-102 | the endpoint is bound to the given device, or unbound again when given none (a null device) |
| `EndPoints.Ipv6EndPoint.SetRxCallback` | ns-3.13/src/internet/model/ipv6-end-point.cc:109-113 | the receive callback is the one given |
| `EndPoints.Ipv6EndPoint.SetIcmpCallback` | ns-3.13/src/internet/model/ipv6-end-point.cc:115-118 | the ICMP callback is the one given |
| `EndPoints.Ipv6EndPoint.SetDestroyCallback` | ns-3.13/src/internet/model/ipv6-end-point.cc:120-123 | the destroy callback is the one given |
| `EndPoints.Ipv6EndPoint.ForwardUp` | ns-3.13/src/internet/model/ipv6-end-point.cc:129-141 | the receive callback is invoked once with the same six arguments if set; otherwise nothing happens |
| `EndPoints.Ipv6EndPoint.ForwardIcmp` | ns-3.13/src/internet/model/ipv6-end-point.cc:143-151 | the ICMP callback is not invoked now; one deferred delivery is scheduled, only if it is set |
| `EndPoints.Ipv6EndPoint.DoForwardIcmp` | ns-3.13/src/internet/model/ipv6-end-point.cc:166-170 | the oldest scheduled delivery invokes the ICMP callback with its arguments and leaves the schedule |
| `EndPoints.Ipv6EndPoint.Destroy` | ns-3.13/src/internet/model/ipv6-end-point.cc:46-52 | destruction invokes the destroy callback exactly once if it is set, and happens once |
| `Udp6Spec.EncodePort` | ns-3.13/src/internet/model/udp6-l4-protocol.cc:196-200 | the two octets of a port, most significant first, recombine to the port |
| `Udp6Spec.DecodePorts` | ns-3.13/src/internet/model/udp6-l4-protocol.cc:196-200 | the ports read from the first four payload octets re-encode to exactly those octets |
| `Udp6Spec.DecodePortsOfHeader` | ns-3.13/src/internet/model/udp6-l4-protocol.cc:196-200 | decoding the start of an encoded UDP header gives back its source and destination ports, whatever follows |
| `Udp6Spec.RxStatusOf` | ns-3.13/src/internet/model/udp6-l4-protocol.cc:227-254 | checksum failure iff checksums are on and the datagram's fails; otherwise unreachable iff no endpoint matched, else success |
| `Udp6Spec.AllocRequestFor` | ns-3.13/src/internet/model/udp6-socket-impl.cc:176-192 | the address is passed iff it is not `::`, the port iff it is not 0, never the four-argument form, and the request names exactly the address and port bound |
| `Udp6Spec.QueuedBytesAppend` | ns-3.13/src/internet/model/udp6-socket-impl.cc:648-649 | enqueuing at the back adds the datagram's size to the queued bytes |
| `Udp6Spec.FrontWithinQueuedBytes` | ns-3.13/src/internet/model/udp6-socket-impl.cc:526-530 | the front datagram's size is part of the queued bytes, and taking it leaves the rest |
| `Udp6Spec.AdmitsAsWritten` | ns-3.13/src/internet/model/udp6-socket-impl.cc:642 | the admission test as written: where the 32-bit sum does not wrap, admitted iff the queue after the arrival fits the buffer; where it wraps, admitted iff the sum less 2^32 fits |
| `Udp6Spec.AdmitsAsWrittenOverflow` | ns-3.13/src/internet/model/udp6-socket-impl.cc:642 | with the 32-bit wrapping sum, 1 queued byte and a 2^32 - 1 byte datagram pass a 131072-byte buffer, and the counter wraps to 0 |
| `Udp6Spec.Admits` | ns-3.13/src/internet/model/udp6-socket-impl.cc:642 | an arrival is admitted only if the queue after it fits the buffer, so the counter cannot wrap |
| `Udp6Spec.AdmitsAgreesWithoutWrap` | ns-3.13/src/internet/model/udp6-socket-impl.cc:642 | where the 32-bit sum does not wrap, the corrected rule and the written one agree |
| `Udp6Spec.AdmittedStaysWithinBuffer` | ns-3.13/src/internet/model/udp6-socket-impl.cc:642-649 | a queue grown by an admitted arrival holds at most the buffer's size in bytes |
| `Udp6Spec.ArrivalTags` | ns-3.13/src/internet/model/udp6-socket-impl.cc:634-640 | with packet info on, the datagram carries the index of the receiving device; its size is unchanged |
| `Udp6Spec.WithSource` | ns-3.13/src/internet/model/udp6-socket-impl.cc:644-647 | the queued datagram carries the IPv6 socket address it came from; its size is unchanged |
| `Udp6Spec.GetTxAvailable` | ns-3.13/src/internet/model/udp6-socket-impl.cc:489-496 | the send ceiling is the 65535-byte datagram less a 20-byte IPv4 header and the 8-byte UDP header: the IPv4 figure 65507, not the 65527 an IPv6 payload allows |
| `Udp6Spec.SendVerdictOf` | ns-3.13/src/internet/model/udp6-socket-impl.cc:303-485 | no endpoint, then send shutdown, then size over 65507, then the source: the endpoint's address unless `::`, else the route's; a send happens iff every check passes and a source is found; otherwise the error is no-route-to-host without a routing protocol, else the routing error |
| `Udp6Spec.SendTags` | ns-3.13/src/internet/model/udp6-socket-impl.cc:341-369 | the hop-limit tag is the multicast one for a multicast destination, else the unicast one, when not 0; a don't-fragment tag is added from MTU discovery iff none was present, and one present is removed |
| `Udp6.Udp6L4Protocol.constructor` | ns-3.13/src/internet/model/udp6-l4-protocol.cc:63-67 | no node, no sockets, nothing sent or asked of the demultiplexer |
| `Udp6.Udp6L4Protocol.SetNode` | ns-3.13/src/internet/model/udp6-l4-protocol.cc:74-78 | the protocol belongs to the given node |
| `Udp6.Udp6L4Protocol.CreateSocket` | ns-3.13/src/internet/model/udp6-l4-protocol.cc:134-143 | the socket list grows by exactly the new socket, which knows this protocol and its node and starts unbound, unconnected and empty |
| `Udp6.Udp6L4Protocol.Allocate` | ns-3.13/src/internet/model/udp6-l4-protocol.cc:145-179 | the request goes to the demultiplexer unchanged and its answer comes back unchanged, bound to the address and port the request names where it names them |
| `Udp6.Udp6L4Protocol.DeAllocate` | ns-3.13/src/internet/model/udp6-l4-protocol.cc:181-186 | the endpoint goes to the demultiplexer and is destroyed, its destroy callback invoked if set |
| `Udp6.Udp6L4Protocol.ReceiveIcmp` | ns-3.13/src/internet/model/udp6-l4-protocol.cc:188-213 | the simple lookup uses the two decoded ports; only the endpoint found is told, with the five ICMP arguments; nothing else changes |
| `Udp6.Udp6L4Protocol.Receive` | ns-3.13/src/internet/model/udp6-l4-protocol.cc:215-255 | status per `RxStatusOf`; no lookup after a failed checksum; otherwise every matched endpoint gets exactly one delivery of the datagram without its UDP header, with the header's ports |
| `Udp6.Udp6L4Protocol.Send` | ns-3.13/src/internet/model/udp6-l4-protocol.cc:257-280 | IPv6 gets the datagram with the ports in its UDP header, protocol 17 and no route |
| `Udp6.Udp6L4Protocol.SendWithRoute` | ns-3.13/src/internet/model/udp6-l4-protocol.cc:282-304 | IPv6 gets the datagram with the ports in its UDP header, protocol 17 and the given route |
| `Udp6.Udp6SocketImpl.constructor` | ns-3.13/src/internet/model/udp6-socket-impl.cc:59-71 | no endpoint, node or protocol; no error; not shut down or connected; empty queue and counter 0; broadcast not allowed |
| `Udp6.Udp6SocketImpl.SetNode` | ns-3.13/src/internet/model/udp6-socket-impl.cc:97-102 | the socket belongs to the given node |
| `Udp6.Udp6SocketImpl.SetUdp` | ns-3.13/src/internet/model/udp6-socket-impl.cc:103-109 | the socket sends through the given protocol |
| `Udp6.Udp6SocketImpl.Destroy` | ns-3.13/src/internet/model/udp6-socket-impl.cc:132-139 | endpoint, node and protocol are all forgotten |
| `Udp6.Udp6SocketImpl.FinishBind` | ns-3.13/src/internet/model/udp6-socket-impl.cc:141-153 | fails iff there is no endpoint; otherwise its three callbacks lead to this socket and nothing else about it changes |
| `Udp6.Udp6SocketImpl.Bind` | ns-3.13/src/internet/model/udp6-socket-impl.cc:155-161 | a wildcard allocation is requested; the answer becomes the endpoint; fails iff there is none |
| `Udp6.Udp6SocketImpl.BindAddress` | ns-3.13/src/internet/model/udp6-socket-impl.cc:163-195 | another family is refused with `ERROR_INVAL` and no allocation; otherwise the allocation named by `AllocRequestFor`, then as `FinishBind`; on success `GetSockName` reports the address and port bound, where they are not wildcards |
| `Udp6.Udp6SocketImpl.ShutdownSend` | ns-3.13/src/internet/model/udp6-socket-impl.cc:197-203 | sending is shut down; returns 0 |
| `Udp6.Udp6SocketImpl.ShutdownRecv` | ns-3.13/src/internet/model/udp6-socket-impl.cc:205-211 | receiving is shut down; returns 0 |
| `Udp6.Udp6SocketImpl.Close` | ns-3.13/src/internet/model/udp6-socket-impl.cc:213-225 | on a socket shut both ways, -1 with `ERROR_BADF` and nothing else changes; otherwise both shut and 0 |
| `Udp6.Udp6SocketImpl.Connect` | ns-3.13/src/internet/model/udp6-socket-impl.cc:227-238 | default peer set, connected, connection reported, 0 |
| `Udp6.Udp6SocketImpl.Listen` | ns-3.13/src/internet/model/udp6-socket-impl.cc:240-245 | always -1 with `ERROR_OPNOTSUPP` |
| `Udp6.Udp6SocketImpl.DoSendTo` | ns-3.13/src/internet/model/udp6-socket-impl.cc:303-485 | binds first if unbound, then the outcome `SendVerdictOf` decides: result, error code, the one datagram UDP sends (tags, ports, source, route) or none, and the notifications |
| `Udp6.Udp6SocketImpl.SendBound` | ns-3.13/src/internet/model/udp6-socket-impl.cc:317-482 | with an endpoint present, the shutdown and size checks and the hand-over decided by `SendVerdictOf` |
| `Udp6.Udp6SocketImpl.DoSend` | ns-3.13/src/internet/model/udp6-socket-impl.cc:260-280 | the `DoSendTo` outcome for the default peer |
| `Udp6.Udp6SocketImpl.Send` | ns-3.13/src/internet/model/udp6-socket-impl.cc:247-258 | unconnected: -1 with `ERROR_NOTCONN` and nothing allocated, sent or reported; connected: the `DoSendTo` outcome for the default peer |
| `Udp6.Udp6SocketImpl.SendTo` | ns-3.13/src/internet/model/udp6-socket-impl.cc:498-506 | the `DoSendTo` outcome for the given address, connected or not |
| `Udp6.Udp6SocketImpl.DoSendToAddress` | ns-3.13/src/internet/model/udp6-socket-impl.cc:282-301 | connected: the `DoSendTo` outcome for the default peer; unconnected: for the given address |
| `Udp6.Udp6SocketImpl.GetRxAvailable` | ns-3.13/src/internet/model/udp6-socket-impl.cc:508-515 | the counter equals the total size of the queued datagrams |
| `Udp6.Udp6SocketImpl.Recv` | ns-3.13/src/internet/model/udp6-socket-impl.cc:517-537 | empty queue: none with `ERROR_AGAIN`; front too large: none, queue and counter unchanged; otherwise the front is taken and its size leaves the counter; the counter keeps equalling the queued bytes |
| `Udp6.Udp6SocketImpl.RecvFrom` | ns-3.13/src/internet/model/udp6-socket-impl.cc:539-557 | as `Recv`, and a datagram taken comes with the source address it was tagged with |
| `Udp6.Udp6SocketImpl.GetSockName` | ns-3.13/src/internet/model/udp6-socket-impl.cc:559-574 | the endpoint's local address and port, or `::` and 0 when unbound |
| `Udp6.Udp6SocketImpl.ForwardUp` | ns-3.13/src/internet/model/udp6-socket-impl.cc:622-662 | nothing after receive shutdown; an admitted datagram is queued at the back with its source and its size added; otherwise it is dropped with the queue unchanged; the counter keeps equalling the queued bytes |
| `Udp6.Udp6SocketImpl.ForwardIcmp` | ns-3.13/src/internet/model/udp6-socket-impl.cc:664-675 | the application hears of the ICMP error iff it asked to |
| `Udp6.Udp6SocketImpl.SetRcvBufSize` | ns-3.13/src/internet/model/udp6-socket-impl.cc:678-682 | the receive buffer size reads back as set |
| `Udp6.Udp6SocketImpl.SetIpTtl` | ns-3.13/src/internet/model/udp6-socket-impl.cc:690-694 | the unicast hop limit reads back as set |
| `Udp6.Udp6SocketImpl.SetIpMulticastTtl` | ns-3.13/src/internet/model/udp6-socket-impl.cc:702-706 | the multicast hop limit reads back as set |
| `Udp6.Udp6SocketImpl.SetIpMulticastIf` | ns-3.13/src/internet/model/udp6-socket-impl.cc:714-718 | the multicast interface reads back as set |
| `Udp6.Udp6SocketImpl.SetIpMulticastLoop` | ns-3.13/src/internet/model/udp6-socket-impl.cc:726-730 | the multicast loop flag reads back as set |
| `Udp6.Udp6SocketImpl.SetMtuDiscover` | ns-3.13/src/internet/model/udp6-socket-impl.cc:738-742 | the MTU-discovery flag reads back as set |
| `Udp6.Udp6SocketImpl.SetAllowBroadcast` | ns-3.13/src/internet/model/udp6-socket-impl.cc:749-754 | the flag reads back as set and the call reports success |
| `TunnelPool.FindDevice` | ns-3.13/src/pmip6/model/ipv6-tunnel-l4-protocol.cc:279-292 | the first device in list order bound to the remote end, or none iff no device is |
| `TunnelPool.PoolAdd` | ns-3.13/src/pmip6/model/ipv6-tunnel-l4-protocol.cc:192-234 | exactly one device gains one binding: the one bound to the remote end (its local end kept), else the first free one, else a new one appended; the list grows only in the last case; an interface is added only to a device without one, so a reused device keeps its index |
| `TunnelPool.PoolRemove` | ns-3.13/src/pmip6/model/ipv6-tunnel-l4-protocol.cc:236-251 | the matching device loses one binding and is freed at 0; no match, no change |
| `TunnelPool.PoolModify` | ns-3.13/src/pmip6/model/ipv6-tunnel-l4-protocol.cc:253-277 | shared: remove then add the new remote end; unshared: only the remote end changes, count, local end and interface kept, and its interface is reported |
| `TunnelPool.AddKeepsPoolValid` | ns-3.13/src/pmip6/model/ipv6-tunnel-l4-protocol.cc:218-233 | after an add every device still has an interface of its own |
| `TunnelPool.RemoveKeepsPoolValid` | ns-3.13/src/pmip6/model/ipv6-tunnel-l4-protocol.cc:236-251 | a remove keeps every device on its own interface |
| `TunnelPool.ModifyKeepsPoolValid` | ns-3.13/src/pmip6/model/ipv6-tunnel-l4-protocol.cc:253-277 | a modify keeps every device on its own interface |
| `TunnelPool.AddKeepsConsistent` | ns-3.13/src/pmip6/model/ipv6-tunnel-l4-protocol.cc:192-216 | adding a non-`::` remote end keeps: bound iff counted, counts non-negative, one device per remote end |
| `TunnelPool.RemoveKeepsConsistent` | ns-3.13/src/pmip6/model/ipv6-tunnel-l4-protocol.cc:236-251 | removing a non-`::` remote end keeps the same bookkeeping |
| `TunnelPool.ModifyKeepsConsistent` | ns-3.13/src/pmip6/model/ipv6-tunnel-l4-protocol.cc:253-277 | modifying to a new remote end that is neither `::` nor bound keeps the same bookkeeping |
| `TunnelPool.ModifyUnsharedCanDuplicateRemote` | ns-3.13/src/pmip6/model/ipv6-tunnel-l4-protocol.cc:261-268 | repointing an unshared device at a remote end another device is already bound to leaves two devices bound to it, which breaks the bookkeeping |
| `TunnelPool.ModifyCanDuplicateRemote` | ns-3.13/src/pmip6/model/ipv6-tunnel-l4-protocol.cc:261-268 | from a consistent pool of two unshared devices bound to R1 and R2, modifying R1 to R2 leaves both devices bound to R2 |
| `TunnelPool.AddRemoveAddRestores` | ns-3.13/src/pmip6/model/ipv6-tunnel-l4-protocol.cc:192-251 | add, remove, add of one remote end leaves the pool exactly as the first add did, on the same device with the same interface index |
| `TunnelPool.DistinctRemotesDistinctInterfaces` | ns-3.13/src/pmip6/model/ipv6-tunnel-l4-protocol.cc:192-234 | two different remote ends added in turn get different devices and interface indices, and the second add leaves the first device as it was |
| `TunnelPool.ModifySharedLeavesOldDevice` | ns-3.13/src/pmip6/model/ipv6-tunnel-l4-protocol.cc:253-266 | modifying a shared binding leaves its old device bound to the old remote end with one binding fewer and the same interface |
| `Ipv6Tunnel.LoopFiltered` | ns-3.13/src/pmip6/model/ipv6-tunnel-l4-protocol.cc:155-166 | the inner packets that are not forwarded: a link-local source or destination, or a destination in the all-nodes, all-routers, all-hosts or a solicited-node multicast group |
| `Ipv6Tunnel.ForwardedHopLimit` | ns-3.13/src/pmip6/model/ipv6-tunnel-l4-protocol.cc:169-172 | one less than the inner hop limit, and 255 for hop limit 0 (8-bit wrap) |
| `Ipv6Tunnel.Decapsulate` | ns-3.13/src/pmip6/model/ipv6-tunnel-l4-protocol.cc:150-172 | the inner IPv6 header at the front of the tunnel payload (the outer one is already gone) is removed, 40 bytes fewer, and its hop limit less one becomes the packet's hop-limit tag |
| `Ipv6Tunnel.DecapsulateEncapsulated` | ns-3.13/src/pmip6/model/ipv6-tunnel-l4-protocol.cc:150-172 | decapsulating a packet behind an IPv6 header gives it back with only its hop-limit tag changed |
| `Ipv6Tunnel.Ipv6TunnelL4Protocol.constructor` | ns-3.13/src/pmip6/model/ipv6-tunnel-l4-protocol.cc:67-71 | no node, no devices, nothing configured or sent |
| `Ipv6Tunnel.Ipv6TunnelL4Protocol.SetNode` | ns-3.13/src/pmip6/model/ipv6-tunnel-l4-protocol.cc:114-118 | the protocol belongs to the given node |
| `Ipv6Tunnel.Ipv6TunnelL4Protocol.GetTunnelDevice` | ns-3.13/src/pmip6/model/ipv6-tunnel-l4-protocol.cc:279-292 | the loop finds `FindDevice`'s answer: the first device bound to the remote end, or none |
| `Ipv6Tunnel.Ipv6TunnelL4Protocol.AddTunnel` | ns-3.13/src/pmip6/model/ipv6-tunnel-l4-protocol.cc:192-234 | the device list becomes `PoolAdd`'s; the index returned is its interface truncated to 16 bits; a new interface with metric 1, set up, is configured iff a device was created; every device keeps an interface of its own |
| `Ipv6Tunnel.Ipv6TunnelL4Protocol.RemoveTunnel` | ns-3.13/src/pmip6/model/ipv6-tunnel-l4-protocol.cc:236-251 | the device list becomes `PoolRemove`'s |
| `Ipv6Tunnel.Ipv6TunnelL4Protocol.ModifyTunnel` | ns-3.13/src/pmip6/model/ipv6-tunnel-l4-protocol.cc:253-277 | the device list and index become `PoolModify`'s; an interface is configured only when the split creates a device |
| `Ipv6Tunnel.Ipv6TunnelL4Protocol.Receive` | ns-3.13/src/pmip6/model/ipv6-tunnel-l4-protocol.cc:144-190 | always success; the inner packets `LoopFiltered` names (link-local source or destination; all-nodes, all-routers, all-hosts or solicited-node destination) are not sent; anything else, other link-scope multicast included, is sent exactly once, decapsulated, from the inner source to the inner destination with the inner next header and the routed path |
| `Ipv6Tunnel.Ipv6TunnelL4Protocol.SendMessage` | ns-3.13/src/pmip6/model/ipv6-tunnel-l4-protocol.cc:132-142 | IPv6 gets the packet tagged with the given hop limit, protocol 41 and no route |

## Left out

- The endpoint demultiplexer (`Ipv6EndPointDemux`: `Allocate`, `Lookup`, `SimpleLookup`, `DeAllocate`) is not part of this model. Each call's answer is a parameter: an endpoint or none, or the list of matched endpoints. The lookup's wildcard matching and the ephemeral port choice are not modelled.
- UDP checksum arithmetic and header serialisation are not part of this model. `Receive` takes whether the datagram's checksum verifies as a parameter, which counts only when checksums are enabled.
- The routing protocol (`RouteOutput`, the static routing helper) is an oracle: a `Routing` value for the socket, an optional route for the tunnel. The route's output device is not modelled.
- The `Ipv6Address` classification predicates come from the address class, which is not part of this model. They are uninterpreted functions.
- Packets are values with headers, a payload size and the four tags the core uses. A tag written on the caller's packet before it is copied (`DoSendTo`) is not visible to the caller. Likewise `Udp6L4Protocol::Receive` removes the UDP header from the caller's packet in place (`udp6-l4-protocol.cc:230`); the model's `Receive` hands on a header-less copy and leaves the caller's value unchanged. Tag-list assertions on duplicate tags are not modelled.
- The commented-out broadcast paths of `DoSendTo`, and `MulticastJoinGroup`/`MulticastLeaveGroup`, which do nothing and return 0.
- Socket `BindToNetDevice`: the socket-level device binding of the `Socket` base class is not part of this model. The endpoint-level `Ipv6EndPoint.BindToNetDevice` is modelled.
- The socket destructor: it calls `DeAllocate`, whose endpoint destruction invokes the socket's `Destroy`. Both of those are modelled, but not the chain as one call.
- Option getters and `GetErrno`/`GetNode`/`GetSocketType`: the fields are read directly.
- `GetTypeId`, `NotifyNewAggregate`, `DoDispose`, destructors of the protocols, trace sources, the socket factory, and the traffic-generator applications and helpers.
- The simulator: the endpoint's scheduled ICMP deliveries are a pending list, and `DoForwardIcmp` is the event that runs the oldest.
- `TunnelNetDevice` is not part of this model. A device is its two ends, its count and its interface. Its count is an unbounded integer decremented without a floor; its MAC address allocation and `Node::AddDevice` are left out. A new device is assumed to start with count 0.
- `SendMessage` adds the hop-limit tag to the caller's own packet. The model tags only the value it sends, so the caller's packet is unchanged.
- Udp6.Udp6SocketImpl.constructor: the source never initialises `m_defaultPort` (`udp6-socket-impl.cc:59-71`), so its value before `Connect` is unspecified; `m_defaultAddress` gets the address class's own default. The model starts them at 0 and `::`. Neither is read before `Connect` sets them, because `Send` refuses an unconnected socket.
- The `flags` arguments of `Send`, `SendTo`, `Recv` and `RecvFrom` are never read and are not parameters.
- Udp6.Udp6SocketImpl.DoSendTo: requires the socket and its protocol to have a node. The source dereferences the socket's node on every path past the size check (`udp6-socket-impl.cc:332`), but reads the protocol's node only inside `Udp6L4Protocol::Send` (`udp6-l4-protocol.cc:264`, `:288`), which is reached only on the two send paths (`udp6-socket-impl.cc:429`, `:462`). The model asks both of the caller on all paths; `CreateSocket` gives a socket its protocol's node. The same holds for `SendBound`, `DoSend`, `Send`, `SendTo` and `DoSendToAddress`.
- Udp6.Udp6L4Protocol.Allocate: requires the demultiplexer's answer to be bound to the address and port the request names, where it names them. This is the demultiplexer's promise, not a check in this code. `BindAddress` asks the same of its caller.
- Udp6.Udp6L4Protocol.Receive: requires the matched endpoints to be distinct, an assumption about the demultiplexer's answer.
- Udp6.Udp6SocketImpl.ForwardUp: admits with the corrected `Admits` rather than the 32-bit wrapping sum (see Findings).
- Ipv6Tunnel.Ipv6TunnelL4Protocol.AddTunnel: requires the index the IPv6 layer gives a new interface to be unused by the pool's devices. This is a property of the IPv6 layer, which is not part of this model.

## Findings

| source | as written | input that shows it | evidently intended | confidence | as-written member | corrected member |
|---|---|---|---|---|---|---|
| ns-3.13/src/internet/model/udp6-socket-impl.cc:642 | `m_rxAvailable + packet->GetSize () <= m_rcvBufSize` is computed in 32-bit unsigned arithmetic, which wraps | 1 byte queued, a datagram of 2^32 - 1 bytes, a 131072-byte buffer: the sum wraps to 0, the datagram is queued, and the counter reads 0 with 2^32 bytes queued | admit only if the queued bytes after the arrival fit the buffer | low (needs a datagram near 4 GiB); not executed | `Udp6Spec.AdmitsAsWrittenOverflow` | `Udp6Spec.Admits` |
