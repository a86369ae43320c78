/** The orphaned-address counter of a cluster (`ClusterState.orphans`):
    the specification of `handleOrphan` and `clearOrphan` as functions of
    the map from address to sighting count. */
module OrphanTracking {
  import opened Wrappers

  /** An address the cluster reports as in use. Only the public address
      itself is modelled. */
  datatype ClusterAddressInfo = ClusterAddressInfo(address: string)

  /** What the address registry knows about an address it finds. */
  datatype AddressState = AddressState(isAssigned: bool, isSystemOwned: bool)

  /** What a remediation does: dispatch an asynchronous unassign command
      to the named cluster, release a system-owned address, or nothing. */
  datatype Remediation = NoAction | DispatchUnassign(cluster: string, address: ClusterAddressInfo) | ReleaseAddress(publicAddress: string)

  type Orphans = map<ClusterAddressInfo, int>

  /** The count recorded for a first sighting, the count above which a
      cleared record is reported stale, and the count above which a
      sighting remediates. */
  const FirstSighting: int := 1
  const StaleAbove: int := 2
  const RemediateAbove: int := 3

  /** The remediation for an address, given what the address lookup
      found (None for a lookup miss). */
  function Remedy(lookup: Option<AddressState>, cluster: string, a: ClusterAddressInfo): (act: Remediation)
    ensures act.DispatchUnassign? <==> lookup.Some? && lookup.value.isAssigned
    ensures act.ReleaseAddress? <==> lookup.Some? && !lookup.value.isAssigned && lookup.value.isSystemOwned
    ensures act.DispatchUnassign? ==> act == DispatchUnassign(cluster, a)
    ensures act.ReleaseAddress? ==> act.publicAddress == a.address
  {
    match lookup
    case None => NoAction
    case Some(s) =>
      if s.isAssigned then DispatchUnassign(cluster, a)
      else if s.isSystemOwned then ReleaseAddress(a.address)
      else NoAction
  }

  datatype Observation = Observation(orphans: Orphans, action: Remediation)

  /** `handleOrphan`: the count read is the stored one, or 1 when there is
      none; one more than it is stored; a count above 3 remediates and
      forgets the address. */
  function Observe(orphans: Orphans, a: ClusterAddressInfo, lookup: Option<AddressState>, cluster: string): Observation
  {
    var count := if a in orphans then orphans[a] else FirstSighting;
    if count > RemediateAbove then Observation(orphans - {a}, Remedy(lookup, cluster, a))
    else Observation(orphans[a := count + 1], NoAction)
  }

  /** A sighting changes only its own address's record. */
  lemma ObserveIsLocal(orphans: Orphans, a: ClusterAddressInfo, lookup: Option<AddressState>, cluster: string)
    ensures var o := Observe(orphans, a, lookup, cluster);
      forall b :: b != a ==> (b in o.orphans <==> b in orphans) && (b in orphans ==> o.orphans[b] == orphans[b])
  {
  }

  datatype Clearing = Clearing(orphans: Orphans, staleWarning: bool)

  /** `clearOrphan`: forget the address; warn when the forgotten count
      exceeds 2. */
  function Clear(orphans: Orphans, a: ClusterAddressInfo): (c: Clearing)
    ensures a !in c.orphans && forall b :: b != a && b in orphans ==> b in c.orphans && c.orphans[b] == orphans[b]
    ensures c.orphans.Keys == orphans.Keys - {a}
    ensures c.staleWarning <==> a in orphans && orphans[a] > StaleAbove
  {
    var delay := if a in orphans then orphans[a] else 0;
    Clearing(orphans - {a}, delay > StaleAbove)
  }

  /** Clearing an absent address, or clearing twice, changes nothing and
      warns nothing. */
  lemma ClearIdempotent(orphans: Orphans, a: ClusterAddressInfo)
    ensures a !in orphans ==> Clear(orphans, a) == Clearing(orphans, false)
    ensures var c := Clear(orphans, a); Clear(c.orphans, a) == Clearing(c.orphans, false)
  {
    assert a !in orphans ==> orphans - {a} == orphans;
  }

  datatype Sightings = Sightings(orphans: Orphans, actions: seq<Remediation>)

  /** `k` consecutive sightings of the same address, with the remediation
      each one performs. */
  function Repeat(orphans: Orphans, a: ClusterAddressInfo, k: nat, lookup: Option<AddressState>, cluster: string): (s: Sightings)
    ensures |s.actions| == k
  {
    if k == 0 then Sightings(orphans, [])
    else
      var p := Repeat(orphans, a, k - 1, lookup, cluster);
      var o := Observe(p.orphans, a, lookup, cluster);
      Sightings(o.orphans, p.actions + [o.action])
  }

  /** After the k-th sighting of a new address, k <= 3, the stored count
      is k + 1 and nothing has been remediated. */
  lemma {:induction false} CountsRunOneAhead(orphans: Orphans, a: ClusterAddressInfo, k: nat, lookup: Option<AddressState>, cluster: string)
    requires a !in orphans && 1 <= k <= RemediateAbove
    ensures var s := Repeat(orphans, a, k, lookup, cluster);
      s.orphans == orphans[a := k + 1] && forall i :: 0 <= i < k ==> s.actions[i] == NoAction
  {
    if k > 1 {
      CountsRunOneAhead(orphans, a, k - 1, lookup, cluster);
      assert orphans[a := k][a := k + 1] == orphans[a := k + 1];
    }
  }

  /** The fourth sighting remediates exactly once, as the lookup
      dictates, and leaves no record behind. */
  lemma FourthSightingRemediates(orphans: Orphans, a: ClusterAddressInfo, lookup: Option<AddressState>, cluster: string)
    requires a !in orphans
    ensures var s := Repeat(orphans, a, 4, lookup, cluster);
      s.orphans == orphans && s.actions == [NoAction, NoAction, NoAction, Remedy(lookup, cluster, a)]
  {
    CountsRunOneAhead(orphans, a, 3, lookup, cluster);
    var p := Repeat(orphans, a, 3, lookup, cluster);
    assert p.actions == [NoAction, NoAction, NoAction];
    assert orphans[a := 4] - {a} == orphans;
  }

  /** After remediation the cycle starts over: a fifth sighting counts as
      a first one. */
  lemma FifthSightingStartsOver(orphans: Orphans, a: ClusterAddressInfo, lookup: Option<AddressState>, cluster: string)
    requires a !in orphans
    ensures Repeat(orphans, a, 5, lookup, cluster).orphans == orphans[a := FirstSighting + 1]
  {
    FourthSightingRemediates(orphans, a, lookup, cluster);
  }

  /** Clearing after k sightings of a new address (k <= 3) removes the
      record and never remediates; it warns exactly when k >= 2. */
  lemma StaleAfterTwoSightings(orphans: Orphans, a: ClusterAddressInfo, k: nat, lookup: Option<AddressState>, cluster: string)
    requires a !in orphans && k <= RemediateAbove
    ensures var c := Clear(Repeat(orphans, a, k, lookup, cluster).orphans, a);
      c.orphans == orphans && (c.staleWarning <==> k >= 2)
  {
    if k >= 1 {
      CountsRunOneAhead(orphans, a, k, lookup, cluster);
      assert orphans[a := k + 1] - {a} == orphans;
    }
  }
}
