# Cluster resource allocation — a Dafny model

This project models the resource-allocation core of Eucalyptus's
`ClusterState` (cluster manager). It covers three things:

- **The VLAN tag pool.** This is a set of unassigned tags that every cluster state shares (a static field in Java). It is filled with 2..4094 at start-up. `pollFirst` takes the lowest tag, `remove` takes a specific tag and `add` returns one. `trim` reconciles the pool with the bounds it folds out of the cluster configuration records.
- **Network-token reservation and release.** `getVlanAssignedNetwork` and `getNetworkAllocation` give a logical network the lowest free tag when its VLAN is null or 0. If `initVlan` fails, the tag goes back into the pool. `extantAllocation` pins an explicit tag. `releaseNetworkAllocation` returns a network's tag when the network has no tokens left, and drops the network from the registry.
- **The orphaned-address counter.** `handleOrphan` counts sightings of an address that the controller does not recognise. On the fourth sighting it remediates: it dispatches an unassign command, or it releases a system-owned address. `clearOrphan` forgets the record and warns when the count was stale.

Modules:

- `Wrappers` (wrappers.dfy) defines Option and Result.
- `VlanTags` (vlan_tags.dfy) holds the pool:
  - the `VlanPool` class, whose `tags` field is the shared set;
  - the bounds fold, `ConfiguredBounds`, specified by `LowerBound` and `UpperBound`;
  - `Trim`, specified by `Trimmed`.
- `NetworkAllocation` (network_allocation.dfy) specifies the allocation operations as functions of the pool and the network registry: `AssignVlan`, `Reserve` and `Release`. It also holds the invariant `Exclusive` (no registered network's VLAN is available, and no two networks share one) and the lemmas about these.
- `OrphanTracking` (orphan_tracking.dfy) holds `Observe` and `Clear` over the map from address to count, plus the lemmas about repeated sightings.
- `Cluster` (cluster_state.dfy) holds the `ClusterState` class and the two static allocation methods. Each of its state-changing methods except `ExtantAllocation` is proved equal to the matching specification function. The contract of `ExtantAllocation` states its effect on the pool and its result directly.

Several collaborators are not part of this model and become parameters or plain state:

- The network registry (`Networks`) is a `NetworkRegistry` object holding a `map<string, Network>`.
- What `initVlan` returns is the boolean `initOk`.
- The configuration store's answer is `Option<seq<ClusterConfiguration>>`; `None` stands for a `PersistenceException`.
- The address lookup is an `Option<AddressState>`; `None` is a lookup miss.
- The asynchronous unassign dispatch and `addr.release()` are the returned `Remediation` value.
- The account lookup in `extantAllocation` becomes the account name passed in.

Some behaviours of the code are easy to miss. The model keeps them as written:

- `trim` never adds a tag. The pool becomes `pool ∩ [min, max)`.
- After a persistence failure, `trim` uses the defaults 2 and 4095, not the previously known bounds.
- `clearOrphan` already warns after two sightings, because the count is then 3 and 3 > 2.
- `releaseNetworkAllocation` drops the registry entry even when the network still has tokens. It does not return the tag in that case, so the tag is stranded. `ReleaseWithTokensStrandsVlan` states this.
- A network without tokens whose VLAN is 0 puts tag 0 into the pool.
- A network without tokens whose VLAN is null makes the pool's `add` throw before the entry is dropped.

## Model

| member | source | states |
|---|---|---|
| `VlanTags.Populate` | clc/modules/cluster-manager/src/main/java/com/eucalyptus/cluster/ClusterState.java:174-179 | the initial fill is exactly the tags 2..4094 |
| `VlanTags.InitialPoolSize` | clc/modules/cluster-manager/src/main/java/com/eucalyptus/cluster/ClusterState.java:174-179 | the initial pool holds 4093 tags |
| `VlanTags.VlanPool.constructor` | clc/modules/cluster-manager/src/main/java/com/eucalyptus/cluster/ClusterState.java:95 | the shared pool starts as the populated range |
| `VlanTags.VlanPool.PollFirst` | clc/modules/cluster-manager/src/main/java/com/eucalyptus/cluster/ClusterState.java:210 | an empty pool yields null and is unchanged; otherwise the lowest tag is returned and only it is removed |
| `VlanTags.VlanPool.Remove` | clc/modules/cluster-manager/src/main/java/com/eucalyptus/cluster/ClusterState.java:188 | reports whether the tag was present; the pool loses exactly that tag |
| `VlanTags.VlanPool.Add` | clc/modules/cluster-manager/src/main/java/com/eucalyptus/cluster/ClusterState.java:214 | the pool gains the tag; re-adding a present tag changes nothing |
| `VlanTags.ConfiguredBounds` | clc/modules/cluster-manager/src/main/java/com/eucalyptus/cluster/ClusterState.java:149-155 | the loop's min/max equal the in-order fold of the configured bounds |
| `VlanTags.LowerBoundIsTightest` | clc/modules/cluster-manager/src/main/java/com/eucalyptus/cluster/ClusterState.java:153 | min is the largest of 2 and every non-null minVlan |
| `VlanTags.UpperBoundIsTightest` | clc/modules/cluster-manager/src/main/java/com/eucalyptus/cluster/ClusterState.java:154 | max is the smallest of 4095 and every non-null maxVlan |
| `VlanTags.VlanPool.Trim` | clc/modules/cluster-manager/src/main/java/com/eucalyptus/cluster/ClusterState.java:147-172 | after trim the pool is the old pool intersected with [min, max); a persistence failure keeps the defaults |
| `VlanTags.TrimProperties` | clc/modules/cluster-manager/src/main/java/com/eucalyptus/cluster/ClusterState.java:159-168 | trim only removes tags; every survivor lies in [min, max) and in [2, 4095); crossed bounds empty the pool; at most max - min tags remain; trimming again changes nothing |
| `NetworkAllocation.ShrinkingPoolKeepsExclusive` | clc/modules/cluster-manager/src/main/java/com/eucalyptus/cluster/ClusterState.java:161-163 | removing tags from the pool never makes a held tag available |
| `NetworkAllocation.AssignVlan` | clc/modules/cluster-manager/src/main/java/com/eucalyptus/cluster/ClusterState.java:206-221 | a returned network carries a VLAN and is what the registry now holds |
| `NetworkAllocation.AssignVlanOutcome` | clc/modules/cluster-manager/src/main/java/com/eucalyptus/cluster/ClusterState.java:207-220 | fails iff lookup miss (NoSuchElement), or VLAN needed with empty pool or failed initVlan (NotEnoughResourcesAvailable with the "vlan tags" or the "usable vlan tag" message respectively); failures leave pool and registry unchanged, so the tag drawn for a failed initVlan is back; a held VLAN leaves everything untouched; otherwise the lowest tag is assigned and only it leaves the pool |
| `NetworkAllocation.AssignVlanKeepsExclusive` | clc/modules/cluster-manager/src/main/java/com/eucalyptus/cluster/ClusterState.java:209-218 | assignment never gives a tag to two networks or leaves an assigned tag available |
| `NetworkAllocation.ReserveOutcome` | clc/modules/cluster-manager/src/main/java/com/eucalyptus/cluster/ClusterState.java:194-205 | in any state: a failed reservation leaves only the trimming and is NotEnoughResourcesAvailable; a token's VLAN is the network's, which now holds a token; the trimmed pool loses exactly that tag when the network needed one and nothing otherwise; no other registry entry changes |
| `NetworkAllocation.ReservedVlanUnavailable` | clc/modules/cluster-manager/src/main/java/com/eucalyptus/cluster/ClusterState.java:207-220 | starting from an exclusive pool and registry, a reserved token's VLAN is not available afterwards |
| `NetworkAllocation.ReserveKeepsExclusive` | clc/modules/cluster-manager/src/main/java/com/eucalyptus/cluster/ClusterState.java:194-205 | reservation keeps pool and registry exclusive |
| `NetworkAllocation.ReleaseOutcome` | clc/modules/cluster-manager/src/main/java/com/eucalyptus/cluster/ClusterState.java:223-232 | a lookup miss is a no-op; the entry is dropped and nothing else changes; the VLAN returns iff no tokens remain; a null VLAN throws with no change |
| `NetworkAllocation.ReleaseIdempotent` | clc/modules/cluster-manager/src/main/java/com/eucalyptus/cluster/ClusterState.java:226-231 | releasing twice equals releasing once; no tag is returned twice |
| `NetworkAllocation.ReleaseKeepsExclusive` | clc/modules/cluster-manager/src/main/java/com/eucalyptus/cluster/ClusterState.java:227-230 | release keeps pool and registry exclusive |
| `NetworkAllocation.ReleaseWithTokensStrandsVlan` | clc/modules/cluster-manager/src/main/java/com/eucalyptus/cluster/ClusterState.java:227-230 | releasing a network that still has tokens leaves its tag neither available nor held, and a second release is a miss |
| `OrphanTracking.Remedy` | clc/modules/cluster-manager/src/main/java/com/eucalyptus/cluster/ClusterState.java:119-126 | unassign is dispatched iff the address is assigned; a system-owned unassigned address is released; a miss or any other address gets nothing |
| `OrphanTracking.ObserveIsLocal` | clc/modules/cluster-manager/src/main/java/com/eucalyptus/cluster/ClusterState.java:111-127 | a sighting touches no other address's record |
| `OrphanTracking.Clear` | clc/modules/cluster-manager/src/main/java/com/eucalyptus/cluster/ClusterState.java:102-108 | the address is absent afterwards and all others are kept; the warning fires iff the removed count exceeded 2 |
| `OrphanTracking.ClearIdempotent` | clc/modules/cluster-manager/src/main/java/com/eucalyptus/cluster/ClusterState.java:103-104 | clearing an absent address or clearing twice changes nothing and does not warn |
| `OrphanTracking.CountsRunOneAhead` | clc/modules/cluster-manager/src/main/java/com/eucalyptus/cluster/ClusterState.java:110-115 | after the k-th sighting of a new address, k <= 3, the count is k + 1 and nothing was remediated |
| `OrphanTracking.FourthSightingRemediates` | clc/modules/cluster-manager/src/main/java/com/eucalyptus/cluster/ClusterState.java:116-128 | the 4th sighting performs exactly one remediation and leaves no record |
| `OrphanTracking.FifthSightingStartsOver` | clc/modules/cluster-manager/src/main/java/com/eucalyptus/cluster/ClusterState.java:127 | after remediation the next sighting counts as a first |
| `OrphanTracking.StaleAfterTwoSightings` | clc/modules/cluster-manager/src/main/java/com/eucalyptus/cluster/ClusterState.java:105-107 | clearing after k <= 3 sightings removes the record without remediation and warns iff k >= 2 |
| `Cluster.ClusterState.constructor` | clc/modules/cluster-manager/src/main/java/com/eucalyptus/cluster/ClusterState.java:181-183 | a cluster state holds its name, the shared pool and no orphans |
| `Cluster.ClusterState.ClearOrphan` | clc/modules/cluster-manager/src/main/java/com/eucalyptus/cluster/ClusterState.java:102-108 | the new record map and the warning are those of `Clear` |
| `Cluster.ClusterState.HandleOrphan` | clc/modules/cluster-manager/src/main/java/com/eucalyptus/cluster/ClusterState.java:109-129 | the putIfAbsent/put/remove sequence yields the record map and remediation of `Observe` |
| `Cluster.ClusterState.ExtantAllocation` | clc/modules/cluster-manager/src/main/java/com/eucalyptus/cluster/ClusterState.java:185-192 | succeeds iff the tag is available, then removes exactly it and returns the token; otherwise NetworkAlreadyExists with the pool unchanged |
| `Cluster.ClusterState.ReleaseNetworkAllocation` | clc/modules/cluster-manager/src/main/java/com/eucalyptus/cluster/ClusterState.java:223-232 | the new pool, registry and escaping exception are those of `Release` |
| `Cluster.ClusterState.HashCode` | clc/modules/cluster-manager/src/main/java/com/eucalyptus/cluster/ClusterState.java:246-249 | the hash is the cluster name's hash, a 32-bit value |
| `Cluster.EqualsIsByName` | clc/modules/cluster-manager/src/main/java/com/eucalyptus/cluster/ClusterState.java:234-244 | equality holds iff the cluster names agree, never with null, and is an equivalence |
| `Cluster.EqualsAgreesWithHashCode` | clc/modules/cluster-manager/src/main/java/com/eucalyptus/cluster/ClusterState.java:234-249 | equal cluster states have equal hash codes |
| `Cluster.GetVlanAssignedNetwork` | clc/modules/cluster-manager/src/main/java/com/eucalyptus/cluster/ClusterState.java:206-221 | pool, registry and result are those of `AssignVlan` |
| `Cluster.GetNetworkAllocation` | clc/modules/cluster-manager/src/main/java/com/eucalyptus/cluster/ClusterState.java:194-205 | trim then assign then mint: pool, registry and result are those of `Reserve` |

## Left out

- Logging and audit events (`LOG`, `EventRecord`). The stale-orphan warning is the `staleWarning` result. The other messages are not modelled.
- Concurrency. `ConcurrentSkipListSet` and `ConcurrentSkipListMap` are modelled as sequential `set<int>` and `map` values. Interleavings of `trim` with `pollFirst` and `add` are not modelled.
- The account lookup (`Accounts.lookupAccountFullNameById`) and its failures. `ExtantAllocation` takes the account name directly.
- `Network`, `NetworkToken` and `Networks` are not part of this model. Two assumptions stand in for them:
  - `createNetworkToken` adds one token to the network and returns a token with the network's fields.
  - `initVlan` sets the network's VLAN on success and changes nothing on failure.
- Exceptions other than a lookup miss in `handleOrphan` are not modelled. These come from `Addresses.lookup`, from `addr.release()` and from the unassign dispatch (ClusterState.java:119-123). In the source they escape before `orphans.remove` (:127), so the record stays at its new count and the next sighting remediates again. `Observe`, `Cluster.ClusterState.HandleOrphan` and `OrphanTracking.FourthSightingRemediates` assume that remediation cannot fail, and always remove the record.
- An exception thrown by `initVlan` is not modelled. In the source it escapes before the re-add at :214, so the polled tag is lost. `Cluster.GetVlanAssignedNetwork` only models `initVlan` returning true or false (`initOk`).
- A null cluster name is not modelled. The constructor accepts one, and `equals` (:241) and `hashCode` (:248) then throw a NullPointerException. In the model the name is always a string.
- `ClusterAddressInfo` is not part of this model beyond its public address, which is the key of the orphan map.
- `getClass()` in `equals`. Dafny has no subclasses of `ClusterState`, so the class check always passes.
- `Cluster.ClusterState.HashCode`: Java hashes UTF-16 code units, but the model hashes Dafny characters (Unicode scalar values). The two agree only on characters in the Basic Multilingual Plane.
- Accessors that do no work: mode, address capacity, public addressing, addressing-initialised and `toString`.
- clc/eucadmin/eucadmin/utils.py is not part of this model. It only does recursive filesystem `chown`/`chmod`.
- The `AccountEntity` persistence entity is not part of this model. It only holds data.
