/** The pool of unassigned VLAN tags (`ClusterState.availableVlans`), its
    initial fill, and the re-derivation of its bounds from the cluster
    configurations (`ClusterState.trim`). */
module VlanTags {
  import opened Wrappers

  /** The floor and the (exclusive) ceiling of the tag range when no
      configuration narrows it. */
  const DefaultMin: int := 2
  const DefaultMax: int := 4095

  /** Tag `t` lies in the half-open interval [lo, hi). */
  predicate InRange(t: int, lo: int, hi: int)
  {
    lo <= t < hi
  }

  /** The half-open interval of tags [lo, hi); empty when lo >= hi. (The
      bounds are spelled out beside `InRange` so that the comprehension is
      seen to be finite.) */
  function Range(lo: int, hi: int): set<int>
  {
    set t: int | lo <= t < hi && InRange(t, lo, hi)
  }

  lemma {:induction false} RangeSize(lo: int, hi: int)
    requires lo <= hi
    ensures |Range(lo, hi)| == hi - lo
    decreases hi - lo
  {
    if lo == hi {
      assert Range(lo, hi) == {};
    } else {
      RangeSize(lo, hi - 1);
      assert Range(lo, hi) == Range(lo, hi - 1) + {hi - 1};
    }
  }

  /** A subset of [lo, hi) has at most hi - lo elements (none when lo >= hi). */
  lemma {:induction false} SubsetOfRangeSize(s: set<int>, lo: int, hi: int)
    requires s <= Range(lo, hi)
    ensures lo <= hi ==> |s| <= hi - lo
    ensures hi <= lo ==> s == {}
  {
    if lo <= hi {
      RangeSize(lo, hi);
      SubsetSize(s, Range(lo, hi));
    }
  }

  lemma {:induction false} SubsetSize(a: set<int>, b: set<int>)
    requires a <= b
    ensures |a| <= |b|
    decreases |b|
  {
    if a != {} {
      assert (forall y :: y !in a) ==> a == {};
      var x :| x in a;
      SubsetSize(a - {x}, b - {x});
    }
  }

  /** The freshly populated pool holds exactly 4093 tags. */
  lemma InitialPoolSize()
    ensures |Range(DefaultMin, DefaultMax)| == 4093
  {
    RangeSize(DefaultMin, DefaultMax);
  }

  /** `m` is the lowest tag of `s`. */
  predicate IsLeast(m: int, s: set<int>)
  {
    m in s && forall t :: t in s ==> m <= t
  }

  /** Every nonempty finite set of tags has a lowest element. */
  lemma {:induction false} LeastExists(s: set<int>)
    requires s != {}
    ensures exists m :: IsLeast(m, s)
    decreases |s|
  {
    assert (forall y :: y !in s) ==> s == {};
    var x :| x in s;
    assert forall t :: t in s ==> t == x || t in s - {x};
    if s - {x} == {} {
      assert IsLeast(x, s);
    } else {
      LeastExists(s - {x});
      var m :| IsLeast(m, s - {x});
      if x < m {
        assert IsLeast(x, s);
      } else {
        assert IsLeast(m, s);
      }
    }
  }

  /** The tag `pollFirst` takes from a nonempty pool. */
  ghost function Least(s: set<int>): (m: int)
    requires s != {}
    ensures IsLeast(m, s)
  {
    LeastExists(s);
    var m :| IsLeast(m, s); m
  }

  /** One `ClusterConfiguration` record as far as `trim` reads it: either
      bound may be unset (null). */
  datatype ClusterConfiguration = ClusterConfiguration(minVlan: Option<int>, maxVlan: Option<int>)

  /** The lower bound `trim` folds over the configurations, in their order:
      start at the floor and raise it to every larger configured minimum. */
  function LowerBound(cs: seq<ClusterConfiguration>): int
  {
    if cs == [] then DefaultMin
    else
      var lo := LowerBound(cs[..|cs| - 1]);
      var c := cs[|cs| - 1];
      if c.minVlan.Some? && c.minVlan.value > lo then c.minVlan.value else lo
  }

  /** The upper bound `trim` folds over the configurations: start at the
      ceiling and lower it to every smaller configured maximum. */
  function UpperBound(cs: seq<ClusterConfiguration>): int
  {
    if cs == [] then DefaultMax
    else
      var hi := UpperBound(cs[..|cs| - 1]);
      var c := cs[|cs| - 1];
      if c.maxVlan.Some? && c.maxVlan.value < hi then c.maxVlan.value else hi
  }

  /** The lower bound is the largest of the floor and every configured
      minimum. */
  lemma {:induction false} LowerBoundIsTightest(cs: seq<ClusterConfiguration>)
    ensures LowerBound(cs) >= DefaultMin
    ensures forall i :: 0 <= i < |cs| && cs[i].minVlan.Some? ==> cs[i].minVlan.value <= LowerBound(cs)
    ensures LowerBound(cs) == DefaultMin || exists i :: 0 <= i < |cs| && cs[i].minVlan == Some(LowerBound(cs))
  {
    if cs != [] {
      var init := cs[..|cs| - 1];
      LowerBoundIsTightest(init);
      assert forall i :: 0 <= i < |init| ==> init[i] == cs[i];
    }
  }

  /** The upper bound is the smallest of the ceiling and every configured
      maximum. */
  lemma {:induction false} UpperBoundIsTightest(cs: seq<ClusterConfiguration>)
    ensures UpperBound(cs) <= DefaultMax
    ensures forall i :: 0 <= i < |cs| && cs[i].maxVlan.Some? ==> UpperBound(cs) <= cs[i].maxVlan.value
    ensures UpperBound(cs) == DefaultMax || exists i :: 0 <= i < |cs| && cs[i].maxVlan == Some(UpperBound(cs))
  {
    if cs != [] {
      var init := cs[..|cs| - 1];
      UpperBoundIsTightest(init);
      assert forall i :: 0 <= i < |init| ==> init[i] == cs[i];
    }
  }

  /** The bounds `trim` works with. `None` stands for a configuration store
      that throws a persistence failure: the defaults are kept. */
  function TrimLow(configs: Option<seq<ClusterConfiguration>>): int
  {
    if configs.Some? then LowerBound(configs.value) else DefaultMin
  }

  function TrimHigh(configs: Option<seq<ClusterConfiguration>>): int
  {
    if configs.Some? then UpperBound(configs.value) else DefaultMax
  }

  /** The pool `trim` leaves behind. */
  function Trimmed(pool: set<int>, configs: Option<seq<ClusterConfiguration>>): set<int>
  {
    pool * Range(TrimLow(configs), TrimHigh(configs))
  }

  /** What re-deriving the bounds guarantees: only tags already pooled
      survive, all of them inside the configured bounds and inside
      [2, 4095); nothing survives crossed bounds; the pool holds at most
      max - min tags; and trimming again with the same bounds changes
      nothing. */
  lemma TrimProperties(pool: set<int>, configs: Option<seq<ClusterConfiguration>>)
    ensures Trimmed(pool, configs) <= pool
    ensures forall t :: t in Trimmed(pool, configs) ==> TrimLow(configs) <= t < TrimHigh(configs)
    ensures Trimmed(pool, configs) <= Range(DefaultMin, DefaultMax)
    ensures TrimLow(configs) >= TrimHigh(configs) ==> Trimmed(pool, configs) == {}
    ensures TrimLow(configs) <= TrimHigh(configs) ==> |Trimmed(pool, configs)| <= TrimHigh(configs) - TrimLow(configs)
    ensures Trimmed(Trimmed(pool, configs), configs) == Trimmed(pool, configs)
  {
    var lo, hi := TrimLow(configs), TrimHigh(configs);
    if configs.Some? {
      LowerBoundIsTightest(configs.value);
      UpperBoundIsTightest(configs.value);
    }
    SubsetOfRangeSize(Trimmed(pool, configs), lo, hi);
  }

  /** Folds the configured bounds in order, as the `for` loop in `trim`
      does. */
  method ConfiguredBounds(cs: seq<ClusterConfiguration>) returns (min: int, max: int)
    ensures min == LowerBound(cs) && max == UpperBound(cs)
  {
    min, max := DefaultMin, DefaultMax;
    var k := 0;
    while k < |cs|
      invariant 0 <= k <= |cs|
      invariant min == LowerBound(cs[..k]) && max == UpperBound(cs[..k])
    {
      var cc := cs[k];
      assert cs[..k + 1][..k] == cs[..k];
      if cc.minVlan.Some? {
        min := if cc.minVlan.value > min then cc.minVlan.value else min;
      }
      if cc.maxVlan.Some? {
        max := if cc.maxVlan.value < max then cc.maxVlan.value else max;
      }
      k := k + 1;
    }
    assert cs[..k] == cs;
  }

  /** The fills `populate` gives the shared pool: every tag in [2, 4095). */
  method Populate() returns (list: set<int>)
    ensures list == Range(DefaultMin, DefaultMax)
  {
    list := {};
    var i := DefaultMin;
    while i < DefaultMax
      invariant DefaultMin <= i <= DefaultMax
      invariant list == Range(DefaultMin, i)
    {
      list := list + {i};
      i := i + 1;
    }
  }

  /** The process-wide set of unassigned VLAN tags (`availableVlans`). One
      object is shared by every cluster state. */
  class VlanPool {
    var tags: set<int>

    constructor ()
      ensures tags == Range(DefaultMin, DefaultMax)
    {
      var list := Populate();
      tags := list;
    }

    /** `pollFirst`: removes and returns the lowest tag, or nothing (null)
        when the pool is empty. */
    method PollFirst() returns (t: Option<int>)
      modifies this
      ensures old(tags) == {} ==> t == None && tags == old(tags)
      ensures old(tags) != {} ==> t == Some(Least(old(tags))) && tags == old(tags) - {t.value}
    {
      if tags == {} {
        t := None;
      } else {
        LeastExists(tags);
        var m :| m in tags && forall x :: x in tags ==> m <= x;
        t := Some(m);
        tags := tags - {m};
      }
    }

    /** `remove`: takes out exactly `v` and reports whether it was there. */
    method Remove(v: int) returns (removed: bool)
      modifies this
      ensures removed == (v in old(tags))
      ensures tags == old(tags) - {v}
    {
      removed := v in tags;
      tags := tags - {v};
    }

    /** `add`: puts `v` back; a tag already present leaves the pool as is. */
    method Add(v: int)
      modifies this
      ensures tags == old(tags) + {v}
    {
      tags := tags + {v};
    }

    /** `trim`: re-derives the bounds and reconciles the pool with them.
        The candidate list [min, max) minus the pool is built first; the
        pool then loses everything below min and from max on; finally each
        candidate in [min, max) that is not in that list is added, and
        those are exactly the tags the pool already held. */
    method Trim(configs: Option<seq<ClusterConfiguration>>)
      modifies this
      ensures tags == Trimmed(old(tags), configs)
    {
      var min, max := DefaultMin, DefaultMax;
      if configs.Some? {
        min, max := ConfiguredBounds(configs.value);
      }
      var newVlanList: set<int> := {};
      var i := min;
      while i < max
        invariant min <= i && (i <= max || i == min)
        invariant newVlanList == Range(min, i)
      {
        newVlanList := newVlanList + {i};
        i := i + 1;
      }
      assert newVlanList == Range(min, max);
      newVlanList := newVlanList - tags;
      tags := tags - (set t | t in tags && t < min);
      tags := tags - (set t | t in tags && t >= max);
      i := min;
      while i < max
        invariant min <= i && (i <= max || i == min)
        invariant newVlanList == Range(min, max) - old(tags)
        invariant tags == old(tags) * Range(min, max)
      {
        if i !in newVlanList {
          tags := tags + {i};
        }
        i := i + 1;
      }
    }
  }
}
