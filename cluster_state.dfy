/** `ClusterState`: one cluster's view of the shared VLAN pool, its
    orphaned-address counter, and the operations that reserve and release
    network tokens. The Java class's static members (the pool, `trim`,
    `getNetworkAllocation`, `getVlanAssignedNetwork`) are the `VlanPool`
    object every cluster state shares and the module-level methods below. */
module Cluster {
  import opened Wrappers
  import opened VlanTags
  import opened NetworkAllocation
  import opened OrphanTracking

  /** Java's `int` range. */
  predicate IsInt32(x: int)
  {
    -0x8000_0000 <= x < 0x8000_0000
  }

  /** Two's-complement wrap-around of an exact value into an `int`. */
  function WrapInt32(x: int): (r: int)
    ensures IsInt32(r)
    ensures (r - x) % 0x1_0000_0000 == 0
  {
    var m := x % 0x1_0000_0000;
    if m >= 0x8000_0000 then m - 0x1_0000_0000 else m
  }

  /** `String.hashCode`: h = 31 * h + c over the characters, in `int`
      arithmetic. */
  function StringHash(s: string): (h: int)
    ensures IsInt32(h)
  {
    if s == [] then 0 else WrapInt32(31 * StringHash(s[..|s| - 1]) + s[|s| - 1] as int)
  }

  class ClusterState {
    const clusterName: string
    /** The pool shared by every cluster state (a static field in Java). */
    const vlans: VlanPool
    var orphans: Orphans

    constructor (clusterName: string, vlans: VlanPool)
      ensures this.clusterName == clusterName && this.vlans == vlans && orphans == map[]
    {
      this.clusterName := clusterName;
      this.vlans := vlans;
      orphans := map[];
    }

    /** `clearOrphan`: forgets the address; `staleWarning` is the warning
        logged when the forgotten count exceeded 2. */
    method ClearOrphan(address: ClusterAddressInfo) returns (staleWarning: bool)
      modifies this
      ensures Clearing(orphans, staleWarning) == Clear(old(orphans), address)
    {
      var delay := if address in orphans then Some(orphans[address]) else None;
      orphans := orphans - {address};
      var count := if delay.None? then 0 else delay.value;
      staleWarning := count > StaleAbove;
    }

    /** `handleOrphan`: records one more sighting of the address and, above
        the threshold, remediates and forgets it. `lookup` is what the
        address registry returns (None when it throws for a missing
        address); `action` is the remediation performed. */
    method HandleOrphan(address: ClusterAddressInfo, lookup: Option<AddressState>) returns (action: Remediation)
      modifies this
      ensures Observation(orphans, action) == Observe(old(orphans), address, lookup, clusterName)
    {
      var previous := if address in orphans then Some(orphans[address]) else None;
      if previous.None? {
        orphans := orphans[address := FirstSighting];
      }
      var orphanCount := if previous.None? then FirstSighting else previous.value;
      orphans := orphans[address := orphanCount + 1];
      action := NoAction;
      if orphanCount > RemediateAbove {
        match lookup {
          case None =>
          case Some(addr) =>
            if addr.isAssigned {
              action := DispatchUnassign(clusterName, address);
            } else if addr.isSystemOwned {
              action := ReleaseAddress(address.address);
            }
        }
        orphans := orphans - {address};
      }
    }

    /** `extantAllocation`: pins an explicit VLAN for an existing network.
        It succeeds exactly when the tag is available, and then the pool
        loses exactly that tag; otherwise the pool is unchanged. The
        account name is the one looked up for `accountId`. */
    method ExtantAllocation(accountName: string, networkName: string, networkUuid: string, vlan: int)
      returns (r: Result<NetworkToken, Exception>)
      modifies vlans
      ensures r.Ok? <==> vlan in old(vlans.tags)
      ensures r.Ok? ==> vlans.tags == old(vlans.tags) - {vlan} &&
                        r.value == NetworkToken(clusterName, accountName, networkName, networkUuid, vlan)
      ensures r.Err? ==> vlans.tags == old(vlans.tags) && r.error == NetworkAlreadyExists
    {
      var netToken := NetworkToken(clusterName, accountName, networkName, networkUuid, vlan);
      var removed := vlans.Remove(vlan);
      if !removed {
        return Err(NetworkAlreadyExists);
      }
      return Ok(netToken);
    }

    /** `releaseNetworkAllocation`: see `Release`. `thrown` is the
        exception that escapes (only a null VLAN). */
    method ReleaseNetworkAllocation(token: NetworkToken, registry: NetworkRegistry) returns (thrown: Option<Exception>)
      modifies vlans, registry
      ensures Step(vlans.tags, registry.nets, thrown) == Release(old(vlans.tags), old(registry.nets), token.networkName)
    {
      thrown := None;
      if token.networkName in registry.nets {
        var existingNet := registry.nets[token.networkName];
        if existingNet.tokens == 0 {
          if existingNet.vlan.None? {
            return Some(NullPointer);
          }
          vlans.Add(existingNet.vlan.value);
        }
        registry.nets := registry.nets - {token.networkName};
      }
    }

    /** `equals`: two cluster states are equal when they are the same
        object or carry the same cluster name. */
    predicate Equals(o: ClusterState?)
    {
      this == o || (o != null && clusterName == o.clusterName)
    }

    /** `hashCode`: the cluster name's string hash. */
    function HashCode(): (h: int)
      ensures IsInt32(h)
    {
      StringHash(clusterName)
    }
  }

  /** Equality is decided by the cluster name alone, and is an
      equivalence. */
  lemma EqualsIsByName(a: ClusterState, b: ClusterState, c: ClusterState)
    ensures a.Equals(b) <==> a.clusterName == b.clusterName
    ensures !a.Equals(null)
    ensures a.Equals(a)
    ensures a.Equals(b) ==> b.Equals(a)
    ensures a.Equals(b) && b.Equals(c) ==> a.Equals(c)
  {
  }

  /** Equal cluster states have equal hash codes. */
  lemma EqualsAgreesWithHashCode(a: ClusterState, b: ClusterState)
    requires a.Equals(b)
    ensures a.HashCode() == b.HashCode()
  {
  }

  /** `getVlanAssignedNetwork`: see `AssignVlan`. `initOk` is what the
      network's `initVlan` returns for the polled tag. */
  method GetVlanAssignedNetwork(vlans: VlanPool, registry: NetworkRegistry, networkName: string, initOk: bool)
    returns (r: Result<Network, Exception>)
    modifies vlans, registry
    ensures Step(vlans.tags, registry.nets, r) == AssignVlan(old(vlans.tags), old(registry.nets), networkName, initOk)
  {
    if networkName !in registry.nets {
      return Err(NoSuchElement);
    }
    var network := registry.nets[networkName];
    if NeedsVlan(network) {
      var vlan := vlans.PollFirst();
      if vlan.None? {
        return Err(NotEnoughResourcesAvailable(VlanTagsExhausted));
      } else if !initOk {
        vlans.Add(vlan.value);
        return Err(NotEnoughResourcesAvailable(VlanInitFailed));
      }
      network := network.(vlan := vlan);
      registry.nets := registry.nets[networkName := network];
    }
    return Ok(network);
  }

  /** `getNetworkAllocation`: see `Reserve`. `configs` is what the
      configuration store yields to `trim` (None when it fails), `cluster`
      the cluster named by the resource token. The requesting user is not
      consulted. */
  method GetNetworkAllocation(vlans: VlanPool, registry: NetworkRegistry, configs: Option<seq<ClusterConfiguration>>,
                              cluster: string, networkName: string, initOk: bool)
    returns (r: Result<NetworkToken, Exception>)
    modifies vlans, registry
    ensures Step(vlans.tags, registry.nets, r) == Reserve(old(vlans.tags), old(registry.nets), configs, cluster, networkName, initOk)
  {
    vlans.Trim(configs);
    var found := GetVlanAssignedNetwork(vlans, registry, networkName, initOk);
    match found {
      case Err(NoSuchElement) =>
        r := Err(NotEnoughResourcesAvailable(RegistryEntryFailed(networkName)));
      case Err(e) =>
        r := Err(e);
      case Ok(network) =>
        var token := TokenFor(cluster, network);
        registry.nets := registry.nets[networkName := network.(tokens := network.tokens + 1)];
        r := Ok(token);
    }
  }
}
