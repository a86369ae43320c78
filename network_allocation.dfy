/** Reservation and release of network tokens on top of the shared VLAN
    pool: the specification of `getVlanAssignedNetwork`,
    `getNetworkAllocation` and `releaseNetworkAllocation` as functions of
    the pool and the network registry, and the exclusivity invariant they
    keep. */
module NetworkAllocation {
  import opened Wrappers
  import opened VlanTags

  /** A logical network as the registry (`Networks`) holds it. `vlan` is
      the Java `Integer` (None for null); `tokens` counts the tokens still
      referencing the network, so `hasTokens()` is `tokens > 0`. */
  datatype Network = Network(account: string, name: string, uuid: string, vlan: Option<int>, tokens: nat)

  /** A tenant's claim on a network's VLAN in one cluster. */
  datatype NetworkToken = NetworkToken(cluster: string, account: string, networkName: string, networkUuid: string, vlan: int)

  /** The exceptions the allocation operations throw. */
  datatype Exception =
    | NotEnoughResourcesAvailable(message: string)
    | NoSuchElement
    | NetworkAlreadyExists
    | NullPointer

  const VlanTagsExhausted: string := "Not enough resources available: vlan tags"
  const VlanInitFailed: string := "Not enough resources available: an error occured obtaining a usable vlan tag"

  function RegistryEntryFailed(networkName: string): string
  {
    "Failed to create registry entry for network named: " + networkName
  }

  /** The registry of logical networks by name (the `Networks` singleton).
      Only its contents are modelled. */
  class NetworkRegistry {
    var nets: map<string, Network>

    constructor (nets: map<string, Network>)
      ensures this.nets == nets
    {
      this.nets := nets;
    }
  }

  /** A VLAN that is null or 0 means the network still needs one. */
  predicate NeedsVlan(n: Network)
  {
    n.vlan == None || n.vlan == Some(0)
  }

  /** The effect of one operation on the shared pool and the registry,
      together with what it returns. */
  datatype Step<T> = Step(pool: set<int>, nets: map<string, Network>, result: T)

  /** No tag a registered network holds is available, and no two
      registered networks hold the same tag. */
  ghost predicate Exclusive(pool: set<int>, nets: map<string, Network>)
  {
    (forall n :: n in nets && !NeedsVlan(nets[n]) ==> nets[n].vlan.value !in pool) &&
    (forall n, m :: n in nets && m in nets && n != m && !NeedsVlan(nets[n]) && !NeedsVlan(nets[m]) ==>
       nets[n].vlan != nets[m].vlan)
  }

  /** Taking tags out of the pool never breaks exclusivity (`trim`,
      `extantAllocation`). */
  lemma ShrinkingPoolKeepsExclusive(pool: set<int>, smaller: set<int>, nets: map<string, Network>)
    requires Exclusive(pool, nets) && smaller <= pool
    ensures Exclusive(smaller, nets)
  {
  }

  /** `getVlanAssignedNetwork`: look the network up; when its VLAN is
      null or 0, poll the lowest tag and initialise the network with it,
      putting the tag back if initialisation fails. `initOk` is what
      `initVlan` returns. */
  ghost function AssignVlan(pool: set<int>, nets: map<string, Network>, name: string, initOk: bool): (r: Step<Result<Network, Exception>>)
    ensures r.result.Ok? ==> r.result.value.vlan.Some? && name in r.nets && r.nets[name] == r.result.value
  {
    if name !in nets then Step(pool, nets, Err(NoSuchElement))
    else if !NeedsVlan(nets[name]) then Step(pool, nets, Ok(nets[name]))
    else if pool == {} then Step(pool, nets, Err(NotEnoughResourcesAvailable(VlanTagsExhausted)))
    else
      var tag := Least(pool);
      if !initOk then Step((pool - {tag}) + {tag}, nets, Err(NotEnoughResourcesAvailable(VlanInitFailed)))
      else
        var net := nets[name].(vlan := Some(tag));
        Step(pool - {tag}, nets[name := net], Ok(net))
  }

  /** What `getVlanAssignedNetwork` promises: it fails exactly on a lookup
      miss (`NoSuchElement`), or when a network needing a VLAN meets an
      empty pool or a failed `initVlan` (`NotEnoughResourcesAvailable`,
      with a different message for each); every failure leaves the pool and the registry as
      they were (in particular a tag drawn for a failed `initVlan` is back);
      a network that already holds a VLAN is returned untouched; otherwise
      the network gets the lowest pooled tag and the pool loses exactly
      that tag. */
  lemma AssignVlanOutcome(pool: set<int>, nets: map<string, Network>, name: string, initOk: bool)
    ensures var r := AssignVlan(pool, nets, name, initOk);
      && (r.result.Err? <==> name !in nets || (NeedsVlan(nets[name]) && (pool == {} || !initOk)))
      && (r.result == Err(NoSuchElement) <==> name !in nets)
      && (name in nets && NeedsVlan(nets[name]) && pool == {} ==>
            r.result == Err(NotEnoughResourcesAvailable(VlanTagsExhausted)))
      && (name in nets && NeedsVlan(nets[name]) && pool != {} && !initOk ==>
            r.result == Err(NotEnoughResourcesAvailable(VlanInitFailed)))
      && (r.result.Err? ==> r.pool == pool && r.nets == nets)
      && (r.result.Ok? && !NeedsVlan(nets[name]) ==> r.pool == pool && r.nets == nets && r.result.value == nets[name])
      && (r.result.Ok? && NeedsVlan(nets[name]) ==>
            var tag := r.result.value.vlan.value;
            IsLeast(tag, pool) && r.pool == pool - {tag} &&
            r.nets == nets[name := nets[name].(vlan := Some(tag))])
  {
    if name in nets && NeedsVlan(nets[name]) && pool != {} && !initOk {
      var tag := Least(pool);
      assert (pool - {tag}) + {tag} == pool;
    }
  }

  /** Assigning a VLAN keeps the pool and the registry exclusive. */
  lemma AssignVlanKeepsExclusive(pool: set<int>, nets: map<string, Network>, name: string, initOk: bool)
    requires Exclusive(pool, nets)
    ensures var r := AssignVlan(pool, nets, name, initOk); Exclusive(r.pool, r.nets)
  {
    var r := AssignVlan(pool, nets, name, initOk);
    AssignVlanOutcome(pool, nets, name, initOk);
    if r.result.Ok? && NeedsVlan(nets[name]) {
      var tag := r.result.value.vlan.value;
      forall n | n in r.nets && !NeedsVlan(r.nets[n])
        ensures r.nets[n].vlan.value !in r.pool
      {
        if n != name {
          assert r.nets[n] == nets[n];
        }
      }
      forall n, m | n in r.nets && m in r.nets && n != m && !NeedsVlan(r.nets[n]) && !NeedsVlan(r.nets[m])
        ensures r.nets[n].vlan != r.nets[m].vlan
      {
        if n == name {
          assert r.nets[m] == nets[m];
          assert nets[m].vlan.value !in pool;
        } else if m == name {
          assert r.nets[n] == nets[n];
          assert nets[n].vlan.value !in pool;
        }
      }
    }
  }

  /** The token `createNetworkToken` mints for a network with a VLAN. */
  function TokenFor(cluster: string, net: Network): NetworkToken
    requires net.vlan.Some?
  {
    NetworkToken(cluster, net.account, net.name, net.uuid, net.vlan.value)
  }

  /** `getNetworkAllocation`: trim the pool, assign the network a VLAN,
      and mint a token on it (the network then counts one more token). A
      lookup miss surfaces as `NotEnoughResourcesAvailable`. */
  ghost function Reserve(pool: set<int>, nets: map<string, Network>, configs: Option<seq<ClusterConfiguration>>,
                         cluster: string, name: string, initOk: bool): (r: Step<Result<NetworkToken, Exception>>)
  {
    var s := AssignVlan(Trimmed(pool, configs), nets, name, initOk);
    match s.result
    case Err(NoSuchElement) => Step(s.pool, s.nets, Err(NotEnoughResourcesAvailable(RegistryEntryFailed(name))))
    case Err(e) => Step(s.pool, s.nets, Err(e))
    case Ok(net) => Step(s.pool, s.nets[name := net.(tokens := net.tokens + 1)], Ok(TokenFor(cluster, net)))
  }

  /** A reservation either fails, with only the trimming left behind and
      always as `NotEnoughResourcesAvailable`, or returns a token whose VLAN
      the registered network now holds. The trimmed pool then loses exactly
      that tag when the network needed one and nothing otherwise, and no
      other registry entry changes. This holds whatever state the pool and
      the registry are in. */
  lemma ReserveOutcome(pool: set<int>, nets: map<string, Network>, configs: Option<seq<ClusterConfiguration>>,
                       cluster: string, name: string, initOk: bool)
    ensures var r := Reserve(pool, nets, configs, cluster, name, initOk);
      && (r.result.Err? ==> r.pool == Trimmed(pool, configs) && r.nets == nets && r.result.error.NotEnoughResourcesAvailable?)
      && (r.result.Ok? ==>
            var token := r.result.value;
            && name in nets && name in r.nets && r.nets[name].vlan == Some(token.vlan) && r.nets[name].tokens > 0
            && token.cluster == cluster && token.networkName == r.nets[name].name
            && (NeedsVlan(nets[name]) ==> r.pool == Trimmed(pool, configs) - {token.vlan})
            && (!NeedsVlan(nets[name]) ==> r.pool == Trimmed(pool, configs))
            && r.nets.Keys == nets.Keys
            && (forall n :: n in nets && n != name ==> r.nets[n] == nets[n]))
  {
    AssignVlanOutcome(Trimmed(pool, configs), nets, name, initOk);
  }

  /** When the pool and the registry are exclusive beforehand, a reserved
      token's VLAN is never available afterwards. */
  lemma ReservedVlanUnavailable(pool: set<int>, nets: map<string, Network>, configs: Option<seq<ClusterConfiguration>>,
                                cluster: string, name: string, initOk: bool)
    requires Exclusive(pool, nets)
    ensures var r := Reserve(pool, nets, configs, cluster, name, initOk);
      r.result.Ok? ==> r.result.value.vlan !in r.pool
  {
    var trimmed := Trimmed(pool, configs);
    ShrinkingPoolKeepsExclusive(pool, trimmed, nets);
    AssignVlanOutcome(trimmed, nets, name, initOk);
  }

  /** Reserving keeps the pool and the registry exclusive. */
  lemma ReserveKeepsExclusive(pool: set<int>, nets: map<string, Network>, configs: Option<seq<ClusterConfiguration>>,
                              cluster: string, name: string, initOk: bool)
    requires Exclusive(pool, nets)
    ensures var r := Reserve(pool, nets, configs, cluster, name, initOk); Exclusive(r.pool, r.nets)
  {
    var trimmed := Trimmed(pool, configs);
    TrimProperties(pool, configs);
    ShrinkingPoolKeepsExclusive(pool, trimmed, nets);
    AssignVlanKeepsExclusive(trimmed, nets, name, initOk);
    var s := AssignVlan(trimmed, nets, name, initOk);
    var r := Reserve(pool, nets, configs, cluster, name, initOk);
    if s.result.Ok? {
      forall n | n in r.nets ensures r.nets[n].vlan == s.nets[n].vlan {
      }
    }
  }

  /** `releaseNetworkAllocation`: look the token's network up; when it has
      no tokens left, add its VLAN back to the pool; then drop it from the
      registry. A lookup miss changes nothing. A null VLAN on a network
      without tokens makes the pool's `add` throw before the registry entry
      is dropped. */
  ghost function Release(pool: set<int>, nets: map<string, Network>, name: string): (r: Step<Option<Exception>>)
  {
    if name !in nets then Step(pool, nets, None)
    else if nets[name].tokens == 0 then
      match nets[name].vlan
      case None => Step(pool, nets, Some(NullPointer))
      case Some(v) => Step(pool + {v}, nets - {name}, None)
    else Step(pool, nets - {name}, None)
  }

  /** What releasing promises: a miss is a silent no-op; otherwise, unless
      the VLAN is null, the entry is gone and no other entry changed; the
      pool gains the network's VLAN exactly when it had no tokens, and is
      unchanged otherwise (re-adding a tag already pooled changes
      nothing). */
  lemma ReleaseOutcome(pool: set<int>, nets: map<string, Network>, name: string)
    ensures var r := Release(pool, nets, name);
      && (name !in nets ==> r.pool == pool && r.nets == nets && r.result == None)
      && (r.result == Some(NullPointer) <==> name in nets && nets[name].tokens == 0 && nets[name].vlan == None)
      && (r.result.Some? ==> r.pool == pool && r.nets == nets)
      && (r.result.None? ==> name !in r.nets && forall n :: n in nets && n != name ==> n in r.nets && r.nets[n] == nets[n])
      && (r.result.None? && name in nets && nets[name].tokens == 0 ==> r.pool == pool + {nets[name].vlan.value})
      && (name in nets && nets[name].tokens > 0 ==> r.pool == pool)
      && (name in nets && nets[name].vlan.Some? && nets[name].vlan.value in pool ==> r.pool == pool)
  {
    if name in nets && nets[name].vlan.Some? && nets[name].vlan.value in pool {
      assert pool + {nets[name].vlan.value} == pool;
    }
  }

  /** Releasing twice is releasing once: the second call finds nothing
      (or throws again on a null VLAN) and never returns a tag twice. */
  lemma ReleaseIdempotent(pool: set<int>, nets: map<string, Network>, name: string)
    ensures var r := Release(pool, nets, name);
      var r2 := Release(r.pool, r.nets, name);
      r2.pool == r.pool && r2.nets == r.nets && r2.result == r.result
  {
  }

  /** Releasing keeps the pool and the registry exclusive. */
  lemma ReleaseKeepsExclusive(pool: set<int>, nets: map<string, Network>, name: string)
    requires Exclusive(pool, nets)
    ensures var r := Release(pool, nets, name); Exclusive(r.pool, r.nets)
  {
    var r := Release(pool, nets, name);
    if name in nets && nets[name].tokens == 0 && nets[name].vlan.Some? {
      var v := nets[name].vlan.value;
      forall n | n in r.nets && !NeedsVlan(r.nets[n])
        ensures r.nets[n].vlan.value !in r.pool
      {
        assert n in nets && n != name && r.nets[n] == nets[n];
        if v != 0 {
          assert !NeedsVlan(nets[name]);
        }
      }
    }
  }

  /** Releasing a network that still has tokens drops its entry without
      returning its VLAN: the tag is then neither available nor held by any
      registered network, and a later release of the same name is a lookup
      miss. */
  lemma ReleaseWithTokensStrandsVlan(pool: set<int>, nets: map<string, Network>, name: string)
    requires Exclusive(pool, nets)
    requires name in nets && nets[name].tokens > 0 && !NeedsVlan(nets[name])
    ensures var v := nets[name].vlan.value;
      var r := Release(pool, nets, name);
      && v !in r.pool
      && (forall n :: n in r.nets ==> r.nets[n].vlan != Some(v))
      && Release(r.pool, r.nets, name) == Step(r.pool, r.nets, None)
  {
  }
}
