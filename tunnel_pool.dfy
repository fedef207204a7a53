/**
 * The pool of IPv6-in-IPv6 tunnel devices kept by the tunnel protocol, as a
 * value: a list of devices, each bound to one remote tunnel end and counting
 * the bindings that rely on it (the reference-counted bidirectional tunnel
 * between a local mobility anchor and a mobile access gateway, section 5.6.1
 * of RFC 5213). A device whose remote address is `::` is free. Devices are
 * never removed, so a device keeps its position in the list, and with it its
 * IPv6 interface, for the life of the protocol.
 */
module TunnelPool {
  import opened Net

  /**
   * A tunnel device: its two tunnel ends, its reference count, and the index
   * of the IPv6 interface on it, if one has been added.
   */
  datatype TunnelDevice = TunnelDevice(remote: Ipv6Address, local: Ipv6Address, refCount: int, ifIndex: Option<nat>)

  /**
   * A freshly created device before its ends are set: no bindings and no
   * interface. (Its initial addresses are overwritten before use.)
   */
  const NewDevice := TunnelDevice(Zero, Zero, 0, None)

  /** Every device has an IPv6 interface, and no two share one. */
  ghost predicate PoolValid(devs: seq<TunnelDevice>)
  {
    && (forall k :: 0 <= k < |devs| ==> devs[k].ifIndex.Some?)
    && (forall i, j :: 0 <= i < j < |devs| ==> devs[i].ifIndex != devs[j].ifIndex)
  }

  /** `ifIndex` is the interface of no device in the pool. */
  ghost predicate Unused(devs: seq<TunnelDevice>, ifIndex: nat)
  {
    forall k :: 0 <= k < |devs| ==> devs[k].ifIndex != Some(ifIndex)
  }

  /**
   * The bookkeeping the pool is meant to keep: a device bound to a remote end
   * is counted at least once, a free device not at all, and no two devices
   * are bound to the same remote end.
   */
  ghost predicate Consistent(devs: seq<TunnelDevice>)
  {
    && (forall k :: 0 <= k < |devs| ==> (devs[k].remote == Zero <==> devs[k].refCount == 0))
    && (forall k :: 0 <= k < |devs| ==> devs[k].refCount >= 0)
    && (forall i, j :: 0 <= i < j < |devs| && devs[i].remote != Zero ==> devs[i].remote != devs[j].remote)
  }

  /** `GetTunnelDevice`: the position of the first device bound to `remote`, in list order. */
  function FindDevice(devs: seq<TunnelDevice>, remote: Ipv6Address): (r: Option<nat>)
    ensures r.Some? ==> r.value < |devs| && devs[r.value].remote == remote
    ensures r.Some? ==> forall k :: 0 <= k < r.value ==> devs[k].remote != remote
    ensures r.None? <==> forall k :: 0 <= k < |devs| ==> devs[k].remote != remote
  {
    if devs == [] then None
    else if devs[0].remote == remote then Some(0)
    else match FindDevice(devs[1..], remote)
      case None => None
      case Some(i) => Some(i + 1)
  }

  /** The device `AddTunnel` chooses, with the interface index it reports. */
  datatype AddResult = AddResult(devices: seq<TunnelDevice>, slot: nat, ifIndex: nat)

  /** Where `AddTunnel (remote, …)` looks: the device bound to `remote`, else the first free one, else a new one at the end. */
  function AddSlot(devs: seq<TunnelDevice>, remote: Ipv6Address): (s: nat)
    ensures s <= |devs|
  {
    match FindDevice(devs, remote)
    case Some(i) => i
    case None =>
      match FindDevice(devs, Zero)
      case Some(j) => j
      case None => |devs|
  }

  /**
   * `AddTunnel (remote, local)`. `freshIf` is the index the IPv6 layer gives
   * an interface added now. Exactly one device gains a binding: the one
   * already bound to `remote`, which keeps its local end, or else the first
   * free device, or else a new device at the end of the list, which are set
   * to the two ends. A device gets an interface only if it had none, so a
   * reused device keeps its index. Nothing else in the pool changes.
   */
  function PoolAdd(devs: seq<TunnelDevice>, remote: Ipv6Address, local: Ipv6Address, freshIf: nat): (r: AddResult)
    ensures var found := FindDevice(devs, remote); var free := FindDevice(devs, Zero);
      r.slot == (if found.Some? then found.value else if free.Some? then free.value else |devs|)
    ensures |r.devices| == (if r.slot == |devs| then |devs| + 1 else |devs|)
    ensures r.slot < |r.devices|
    ensures forall k :: 0 <= k < |devs| && k != r.slot ==> r.devices[k] == devs[k]
    ensures r.devices[r.slot].remote == remote
    ensures r.devices[r.slot].refCount == (if r.slot < |devs| then devs[r.slot].refCount else 0) + 1
    ensures r.devices[r.slot].local == (if FindDevice(devs, remote).Some? then devs[r.slot].local else local)
    ensures r.devices[r.slot].ifIndex == Some(r.ifIndex)
    ensures r.slot < |devs| && devs[r.slot].ifIndex.Some? ==> r.ifIndex == devs[r.slot].ifIndex.value
    ensures r.slot == |devs| || devs[r.slot].ifIndex.None? ==> r.ifIndex == freshIf
  {
    var s := AddSlot(devs, remote);
    var d := if s < |devs| then devs[s] else NewDevice;
    var bound := if FindDevice(devs, remote).Some? then d else d.(remote := remote, local := local);
    var counted := bound.(refCount := bound.refCount + 1);
    var d' := if counted.ifIndex.None? then counted.(ifIndex := Some(freshIf)) else counted;
    AddResult(if s < |devs| then devs[s := d'] else devs + [d'], s, d'.ifIndex.value)
  }

  /**
   * `RemoveTunnel (remote)`: the first device bound to `remote` loses a
   * binding and is freed when none is left; without such a device nothing
   * changes.
   */
  function PoolRemove(devs: seq<TunnelDevice>, remote: Ipv6Address): (r: seq<TunnelDevice>)
    ensures |r| == |devs|
    ensures FindDevice(devs, remote).None? ==> r == devs
    ensures FindDevice(devs, remote).Some? ==>
      var i := FindDevice(devs, remote).value;
      && (forall k :: 0 <= k < |devs| && k != i ==> r[k] == devs[k])
      && r[i].refCount == devs[i].refCount - 1
      && r[i].remote == (if devs[i].refCount - 1 == 0 then Zero else remote)
      && r[i].local == devs[i].local && r[i].ifIndex == devs[i].ifIndex
  {
    match FindDevice(devs, remote)
    case None => devs
    case Some(i) =>
      var d := devs[i].(refCount := devs[i].refCount - 1);
      devs[i := if d.refCount == 0 then d.(remote := Zero) else d]
  }

  /**
   * `ModifyTunnel (remote, newRemote, local)` on a device bound to `remote`
   * with at least one binding: a shared device gives up one binding and
   * `newRemote` is added as by `PoolAdd`; an unshared one is repointed at
   * `newRemote` and keeps its count, local end and interface.
   */
  function PoolModify(devs: seq<TunnelDevice>, remote: Ipv6Address, newRemote: Ipv6Address, local: Ipv6Address,
                      freshIf: nat): (r: (seq<TunnelDevice>, nat))
    requires PoolValid(devs)
    requires FindDevice(devs, remote).Some?
    ensures var i := FindDevice(devs, remote).value;
      devs[i].refCount > 1 ==>
        var a := PoolAdd(PoolRemove(devs, remote), newRemote, local, freshIf);
        r == (a.devices, a.ifIndex)
    ensures var i := FindDevice(devs, remote).value;
      devs[i].refCount <= 1 ==>
        && |r.0| == |devs|
        && (forall k :: 0 <= k < |devs| && k != i ==> r.0[k] == devs[k])
        && r.0[i].remote == newRemote
        && r.0[i].local == devs[i].local && r.0[i].refCount == devs[i].refCount
        && r.0[i].ifIndex == devs[i].ifIndex == Some(r.1)
  {
    var i := FindDevice(devs, remote).value;
    if devs[i].refCount > 1 then
      var a := PoolAdd(PoolRemove(devs, remote), newRemote, local, freshIf);
      (a.devices, a.ifIndex)
    else
      (devs[i := devs[i].(remote := newRemote)], devs[i].ifIndex.value)
  }

  // ---------------------------------------------------------------------------
  // Interfaces stay valid

  /** Adding keeps every device on its own interface, provided the fresh index is not in use. */
  lemma AddKeepsPoolValid(devs: seq<TunnelDevice>, remote: Ipv6Address, local: Ipv6Address, freshIf: nat)
    requires PoolValid(devs) && Unused(devs, freshIf)
    ensures PoolValid(PoolAdd(devs, remote, local, freshIf).devices)
  {
    var r := PoolAdd(devs, remote, local, freshIf);
    forall i, j | 0 <= i < j < |r.devices|
      ensures r.devices[i].ifIndex != r.devices[j].ifIndex
    {
      if i == r.slot || j == r.slot {
        if r.slot == |devs| {
          assert r.devices[r.slot].ifIndex == Some(freshIf);
        }
      }
    }
  }

  lemma RemoveKeepsPoolValid(devs: seq<TunnelDevice>, remote: Ipv6Address)
    requires PoolValid(devs)
    ensures PoolValid(PoolRemove(devs, remote))
  {
  }

  lemma ModifyKeepsPoolValid(devs: seq<TunnelDevice>, remote: Ipv6Address, newRemote: Ipv6Address,
                                               local: Ipv6Address, freshIf: nat)
    requires PoolValid(devs) && Unused(devs, freshIf)
    requires FindDevice(devs, remote).Some?
    ensures PoolValid(PoolModify(devs, remote, newRemote, local, freshIf).0)
  {
    var i := FindDevice(devs, remote).value;
    if devs[i].refCount > 1 {
      var removed := PoolRemove(devs, remote);
      RemoveKeepsPoolValid(devs, remote);
      assert Unused(removed, freshIf) by {
        forall k | 0 <= k < |removed| ensures removed[k].ifIndex != Some(freshIf) {
          assert removed[k].ifIndex == devs[k].ifIndex;
        }
      }
      AddKeepsPoolValid(removed, newRemote, local, freshIf);
    }
  }

  // ---------------------------------------------------------------------------
  // Bookkeeping stays consistent

  /** Adding a binding to a remote end other than `::` keeps the bookkeeping consistent. */
  lemma AddKeepsConsistent(devs: seq<TunnelDevice>, remote: Ipv6Address, local: Ipv6Address, freshIf: nat)
    requires Consistent(devs) && remote != Zero
    ensures Consistent(PoolAdd(devs, remote, local, freshIf).devices)
  {
    var r := PoolAdd(devs, remote, local, freshIf);
    forall i, j | 0 <= i < j < |r.devices| && r.devices[i].remote != Zero
      ensures r.devices[i].remote != r.devices[j].remote
    {
      if i == r.slot || j == r.slot {
        var other := if i == r.slot then j else i;
        if FindDevice(devs, remote).None? {
          assert r.devices[other] == devs[other];
        } else {
          assert other < |devs| && r.devices[other] == devs[other];
        }
      }
    }
  }

  /** Removing a binding to a remote end other than `::` keeps the bookkeeping consistent. */
  lemma RemoveKeepsConsistent(devs: seq<TunnelDevice>, remote: Ipv6Address)
    requires Consistent(devs) && remote != Zero
    ensures Consistent(PoolRemove(devs, remote))
  {
    var r := PoolRemove(devs, remote);
    forall i, j | 0 <= i < j < |r| && r[i].remote != Zero
      ensures r[i].remote != r[j].remote
    {
    }
  }

  /**
   * Modifying a binding of a remote end other than `::` keeps the
   * bookkeeping consistent when the new remote end is neither `::` nor
   * already bound.
   */
  lemma ModifyKeepsConsistent(devs: seq<TunnelDevice>, remote: Ipv6Address, newRemote: Ipv6Address,
                                                local: Ipv6Address, freshIf: nat)
    requires PoolValid(devs) && Consistent(devs)
    requires remote != Zero && newRemote != Zero && FindDevice(devs, newRemote).None?
    requires FindDevice(devs, remote).Some?
    ensures Consistent(PoolModify(devs, remote, newRemote, local, freshIf).0)
  {
    var i := FindDevice(devs, remote).value;
    if devs[i].refCount > 1 {
      RemoveKeepsConsistent(devs, remote);
      AddKeepsConsistent(PoolRemove(devs, remote), newRemote, local, freshIf);
    } else {
      var r := PoolModify(devs, remote, newRemote, local, freshIf).0;
      forall a, b | 0 <= a < b < |r| && r[a].remote != Zero
        ensures r[a].remote != r[b].remote
      {
        if a != i && b != i {
          assert r[a] == devs[a] && r[b] == devs[b];
        }
      }
    }
  }

  /**
   * Repointing an unshared device does not look for `newRemote` first: when
   * another device is already bound to it, two devices end up bound to the
   * same remote end and the bookkeeping is broken.
   */
  lemma ModifyUnsharedCanDuplicateRemote(devs: seq<TunnelDevice>, remote: Ipv6Address,
                                                           newRemote: Ipv6Address, local: Ipv6Address, freshIf: nat)
    requires PoolValid(devs) && newRemote != Zero && newRemote != remote
    requires FindDevice(devs, remote).Some? && devs[FindDevice(devs, remote).value].refCount <= 1
    requires FindDevice(devs, newRemote).Some?
    ensures var r := PoolModify(devs, remote, newRemote, local, freshIf).0;
      && r[FindDevice(devs, remote).value].remote == newRemote
      && r[FindDevice(devs, newRemote).value].remote == newRemote
      && !Consistent(r)
  {
    var i := FindDevice(devs, remote).value;
    var j := FindDevice(devs, newRemote).value;
    var r := PoolModify(devs, remote, newRemote, local, freshIf).0;
    assert i != j;
    assert r[j] == devs[j];
    var a, b := if i < j then i else j, if i < j then j else i;
    assert 0 <= a < b < |r| && r[a].remote != Zero && r[a].remote == r[b].remote;
  }

  /**
   * A consistent pool of two unshared devices, bound to two different remote
   * ends on interfaces 0 and 1: modifying the first binding to the second
   * remote end leaves both devices bound to it.
   */
  lemma ModifyCanDuplicateRemote()
    ensures var r1: Ipv6Address := [0, 0, 0, 0, 0, 0, 0, 0, 0, 0, 0, 0, 0, 0, 0, 1];
      var r2: Ipv6Address := [0, 0, 0, 0, 0, 0, 0, 0, 0, 0, 0, 0, 0, 0, 0, 2];
      var devs := [TunnelDevice(r1, Zero, 1, Some(0)), TunnelDevice(r2, Zero, 1, Some(1))];
      && PoolValid(devs) && Consistent(devs)
      && PoolModify(devs, r1, r2, Zero, 2).0 == [TunnelDevice(r2, Zero, 1, Some(0)), TunnelDevice(r2, Zero, 1, Some(1))]
      && !Consistent(PoolModify(devs, r1, r2, Zero, 2).0)
  {
    var r1: Ipv6Address := [0, 0, 0, 0, 0, 0, 0, 0, 0, 0, 0, 0, 0, 0, 0, 1];
    var r2: Ipv6Address := [0, 0, 0, 0, 0, 0, 0, 0, 0, 0, 0, 0, 0, 0, 0, 2];
    var devs := [TunnelDevice(r1, Zero, 1, Some(0)), TunnelDevice(r2, Zero, 1, Some(1))];
    assert r1 != r2 && r1 != Zero && r2 != Zero by {
      assert r1[15] != r2[15] && r1[15] != Zero[15] && r2[15] != Zero[15];
    }
    assert FindDevice(devs, r1) == Some(0);
    assert FindDevice(devs, r2) == Some(1);
    ModifyUnsharedCanDuplicateRemote(devs, r1, r2, Zero, 2);
  }

  // ---------------------------------------------------------------------------
  // Index stability

  /**
   * `AddTunnel (R, L)`, `RemoveTunnel (R)`, `AddTunnel (R, L)` leaves the
   * pool exactly as the first `AddTunnel` did and reports the same interface
   * index: the binding comes back to the device it left. (No induction
   * here: automatic induction is off to keep the proof cheap; likewise in
   * the two helpers below.)
   */
  lemma {:induction false} AddRemoveAddRestores(devs: seq<TunnelDevice>, remote: Ipv6Address, local: Ipv6Address,
                                               freshIf: nat, laterFreshIf: nat)
    requires PoolValid(devs) && Consistent(devs) && remote != Zero
    ensures var first := PoolAdd(devs, remote, local, freshIf);
      PoolAdd(PoolRemove(first.devices, remote), remote, local, laterFreshIf) == first
  {
    if FindDevice(devs, remote).Some? {
      AddToBoundDevice(devs, remote, local, freshIf, laterFreshIf);
    } else {
      AddToFreedDevice(devs, remote, local, freshIf, laterFreshIf);
    }
  }

  /** A binding added to a device already bound to the remote end, removed again, leaves the pool as it was. */
  lemma {:induction false} AddToBoundDevice(devs: seq<TunnelDevice>, remote: Ipv6Address, local: Ipv6Address,
                                           freshIf: nat, laterFreshIf: nat)
    requires PoolValid(devs) && Consistent(devs) && remote != Zero
    requires FindDevice(devs, remote).Some?
    ensures var first := PoolAdd(devs, remote, local, freshIf);
      PoolAdd(PoolRemove(first.devices, remote), remote, local, laterFreshIf) == first
  {
    var first := PoolAdd(devs, remote, local, freshIf);
    RemoveFindsAddedDevice(devs, remote, local, freshIf);
    var removed := PoolRemove(first.devices, remote);
    var s := first.slot;
    assert removed[s] == devs[s];
    assert removed == devs;
  }

  /** The device an `AddTunnel` bound is the one a following `RemoveTunnel` of the same remote end finds. */
  lemma RemoveFindsAddedDevice(devs: seq<TunnelDevice>, remote: Ipv6Address, local: Ipv6Address, freshIf: nat)
    ensures var first := PoolAdd(devs, remote, local, freshIf);
      FindDevice(first.devices, remote) == Some(first.slot)
  {
    var first := PoolAdd(devs, remote, local, freshIf);
    forall k | 0 <= k < first.slot ensures first.devices[k].remote != remote {
      assert first.devices[k] == devs[k];
    }
  }

  /** A binding to a remote end that had no device, removed again, frees its device, which the next `AddTunnel` takes back. */
  lemma {:induction false} AddToFreedDevice(devs: seq<TunnelDevice>, remote: Ipv6Address, local: Ipv6Address,
                                           freshIf: nat, laterFreshIf: nat)
    requires PoolValid(devs) && Consistent(devs) && remote != Zero
    requires FindDevice(devs, remote).None?
    ensures var first := PoolAdd(devs, remote, local, freshIf);
      PoolAdd(PoolRemove(first.devices, remote), remote, local, laterFreshIf) == first
  {
    var first := PoolAdd(devs, remote, local, freshIf);
    var s := first.slot;
    RemoveFindsAddedDevice(devs, remote, local, freshIf);
    var removed := PoolRemove(first.devices, remote);
    assert removed[s] == first.devices[s].(refCount := 0, remote := Zero);
    assert FindDevice(removed, remote).None? by {
      forall k | 0 <= k < |removed| ensures removed[k].remote != remote {
        if k != s {
          assert removed[k] == devs[k];
        }
      }
    }
    assert FindDevice(removed, Zero) == Some(s) by {
      forall k | 0 <= k < s ensures removed[k].remote != Zero {
        assert removed[k] == devs[k];
      }
    }
    var again := PoolAdd(removed, remote, local, laterFreshIf);
    assert again.slot == s;
    assert again.devices == first.devices;
  }

  /**
   * Adding two different remote ends, the first not `::`, binds them to two
   * different devices on two different interfaces, and the second leaves the
   * first binding's device as it was.
   */
  lemma DistinctRemotesDistinctInterfaces(devs: seq<TunnelDevice>, remote1: Ipv6Address, remote2: Ipv6Address,
                                                            local1: Ipv6Address, local2: Ipv6Address, freshIf1: nat, freshIf2: nat)
    requires PoolValid(devs) && Unused(devs, freshIf1)
    requires remote1 != remote2 && remote1 != Zero
    requires Unused(PoolAdd(devs, remote1, local1, freshIf1).devices, freshIf2)
    ensures var first := PoolAdd(devs, remote1, local1, freshIf1);
      var second := PoolAdd(first.devices, remote2, local2, freshIf2);
      && second.slot != first.slot
      && second.ifIndex != first.ifIndex
      && second.devices[first.slot] == first.devices[first.slot]
  {
    var first := PoolAdd(devs, remote1, local1, freshIf1);
    var second := PoolAdd(first.devices, remote2, local2, freshIf2);
    AddKeepsPoolValid(devs, remote1, local1, freshIf1);
    AddKeepsPoolValid(first.devices, remote2, local2, freshIf2);
    assert first.devices[first.slot].remote == remote1;
    assert second.slot != first.slot;
    assert second.devices[first.slot] == first.devices[first.slot];
    assert second.devices[second.slot].ifIndex == Some(second.ifIndex);
    assert second.devices[first.slot].ifIndex == Some(first.ifIndex);
  }

  /**
   * Modifying a shared binding leaves the device it was on bound to the old
   * remote end with one binding fewer and the same interface.
   */
  lemma ModifySharedLeavesOldDevice(devs: seq<TunnelDevice>, remote: Ipv6Address, newRemote: Ipv6Address,
                                                      local: Ipv6Address, freshIf: nat)
    requires PoolValid(devs) && remote != Zero && newRemote != remote
    requires FindDevice(devs, remote).Some? && devs[FindDevice(devs, remote).value].refCount > 1
    ensures var i := FindDevice(devs, remote).value;
      PoolModify(devs, remote, newRemote, local, freshIf).0[i] == devs[i].(refCount := devs[i].refCount - 1)
  {
    var i := FindDevice(devs, remote).value;
    var removed := PoolRemove(devs, remote);
    assert removed[i] == devs[i].(refCount := devs[i].refCount - 1);
    var a := PoolAdd(removed, newRemote, local, freshIf);
    assert a.slot != i;
  }
}
