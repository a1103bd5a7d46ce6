/** The grow-only counter of `crates/crdt/src/gcounter.rs`. */
module GCounters {
  import opened Prelude

  /** The serialized form of a counter. */
  datatype Counter = Counter(site: string, slots: map<string, u64>)

  function Slot(slots: map<string, u64>, site: string): u64 {
    if site in slots then slots[site] else 0
  }

  function Incremented(c: Counter, amount: u64): Counter {
    c.(slots := c.slots[c.site := SaturatingAdd(Slot(c.slots, c.site), amount)])
  }

  /** The pointwise maximum of two slot maps. */
  function MergedSlots(a: map<string, u64>, b: map<string, u64>): map<string, u64> {
    map site | site in a.Keys + b.Keys :: Max(Slot(a, site), Slot(b, site))
  }

  function RetainOrigin(c: Counter, origin: string): Counter {
    Counter(origin, if origin in c.slots then map[origin := c.slots[origin]] else map[])
  }

  /** The exact sum of all slots, without a machine bound. */
  ghost function Sum(slots: map<string, u64>): nat {
    if slots == map[] then 0
    else
      var site :| site in slots;
      slots[site] + Sum(slots - {site})
  }

  /** The reported total: the exact sum, capped at the largest `u64`. */
  ghost function Total(slots: map<string, u64>): u64 {
    Min(Sum(slots), U64_MAX)
  }

  /** The sum does not depend on which slot is taken first. */
  lemma {:induction false} SumWithout(slots: map<string, u64>, site: string)
    requires site in slots
    ensures Sum(slots) == slots[site] + Sum(slots - {site})
    decreases slots.Keys
  {
    var first :| first in slots && Sum(slots) == slots[first] + Sum(slots - {first});
    if first != site {
      SumWithout(slots - {first}, site);
      SumWithout(slots - {site}, first);
      assert slots - {first} - {site} == slots - {site} - {first};
    }
  }

  /** There is spend exactly when some slot has it. */
  lemma {:induction false} SumIsPositiveIff(slots: map<string, u64>)
    ensures Sum(slots) > 0 <==> exists site :: Slot(slots, site) > 0
    decreases slots.Keys
  {
    if slots != map[] {
      var site :| site in slots && Sum(slots) == slots[site] + Sum(slots - {site});
      var rest := slots - {site};
      SumIsPositiveIff(rest);
      assert forall s | s != site :: Slot(rest, s) == Slot(slots, s);
      assert Slot(slots, site) == slots[site];
    }
  }

  /** A pointwise larger counter has a larger sum. */
  lemma {:induction false} SumMonotone(a: map<string, u64>, b: map<string, u64>)
    requires a.Keys <= b.Keys
    requires forall site | site in a :: a[site] <= b[site]
    ensures Sum(a) <= Sum(b)
    decreases a.Keys
  {
    if a != map[] {
      var site :| site in a;
      SumWithout(a, site);
      SumWithout(b, site);
      SumMonotone(a - {site}, b - {site});
    }
  }

  /** A merge never lowers what a counter reports. */
  lemma MergeNeverLowersTotal(a: map<string, u64>, b: map<string, u64>)
    ensures Total(a) <= Total(MergedSlots(a, b))
  {
    SumMonotone(a, MergedSlots(a, b));
  }

  class GCounter {
    const siteId: string
    var slots: map<string, u64>

    function Value(): Counter
      reads this
    {
      Counter(siteId, slots)
    }

    constructor (siteId: string)
      ensures Value() == Counter(siteId, map[])
    {
      this.siteId := siteId;
      slots := map[];
    }

    method Increment(amount: u64)
      modifies this
      ensures Value() == Incremented(old(Value()), amount)
      ensures Slot(slots, siteId) == Min(Slot(old(slots), siteId) + amount, U64_MAX)
      ensures forall site | site != siteId :: Slot(slots, site) == Slot(old(slots), site)
    {
      slots := slots[siteId := SaturatingAdd(Slot(slots, siteId), amount)];
    }

    /** A saturating fold over the slots in any order reports the capped exact sum. */
    method ComputeTotal() returns (total: u64)
      ensures total == Total(slots)
    {
      total := 0;
      var rest := slots;
      while rest != map[]
        invariant Min(total + Sum(rest), U64_MAX) == Total(slots)
        decreases rest.Keys
      {
        var site :| site in rest;
        SumWithout(rest, site);
        total := SaturatingAdd(total, rest[site]);
        rest := rest - {site};
      }
    }

    method Merge(other: GCounter)
      requires other != this
      modifies this
      ensures slots == MergedSlots(old(slots), other.slots)
    {
      var sites := other.slots.Keys;
      while sites != {}
        invariant sites <= other.slots.Keys
        invariant slots.Keys == old(slots).Keys + (other.slots.Keys - sites)
        invariant forall site | site in slots ::
                    slots[site] == if site in other.slots && site !in sites
                                   then Max(Slot(old(slots), site), other.slots[site])
                                   else Slot(old(slots), site)
        decreases sites
      {
        var site :| site in sites;
        slots := slots[site := Max(Slot(slots, site), other.slots[site])];
        sites := sites - {site};
      }
    }

    method RemoveSlot(site: string)
      modifies this
      ensures slots == old(slots) - {site}
      ensures Sum(slots) == Sum(old(slots)) - Slot(old(slots), site)
    {
      if site in slots {
        SumWithout(slots, site);
      } else {
        assert slots - {site} == slots;
      }
      slots := slots - {site};
    }
  }
}
