/**
 Spend ingested from gossip, `merge_tenant_spend_from_origin`: only the claimed origin's
 slot is believed, and new tenants and new origins are refused at capacity.
 */
module SpendIngest {
  import opened Prelude
  import opened GCounters
  import opened TenantSpend

  const MAX_TRACKED_TENANTS: nat := 1024
  const MAX_TENANT_SPEND_ORIGINS: nat := 256

  /** One tenant's entry of one broadcast: what `origin` claims of its own slot. */
  datatype Claim = Claim(origin: string, tenant: string, value: u64)

  function Ingested(spend: Spend, site: string, c: Claim): Spend {
    if c.value == 0 then spend
    else if c.tenant !in spend && |spend| >= MAX_TRACKED_TENANTS then spend
    else
      var entry := CounterFor(spend, site, c.tenant);
      if c.origin !in entry.slots && |entry.slots| >= MAX_TENANT_SPEND_ORIGINS then spend
      else spend[c.tenant := MergedCounter(spend, site, c.tenant, map[c.origin := c.value])]
  }

  /** The claims of a run, in arrival order. */
  function IngestedAll(spend: Spend, site: string, claims: seq<Claim>): Spend {
    if claims == [] then spend
    else Ingested(IngestedAll(spend, site, claims[..|claims| - 1]), site, claims[|claims| - 1])
  }

  function SlotsOf(spend: Spend, tenant: string): map<string, u64> {
    if tenant in spend then spend[tenant].slots else map[]
  }

  /** The claims a broadcast carries, in the order its tenants are visited. */
  function Claims(origin: string, payload: Spend, order: seq<string>): (claims: seq<Claim>)
    requires forall t | t in order :: t in payload
    ensures |claims| == |order|
    ensures forall i | 0 <= i < |order| :: claims[i] == Claim(origin, order[i], Slot(payload[order[i]].slots, origin))
  {
    seq(|order|, i requires 0 <= i < |order| => Claim(origin, order[i], Slot(payload[order[i]].slots, origin)))
  }

  lemma ExtendClaims(origin: string, payload: Spend, order: seq<string>, tenant: string)
    requires (forall t | t in order :: t in payload) && tenant in payload
    ensures Claims(origin, payload, order + [tenant])
         == Claims(origin, payload, order) + [Claim(origin, tenant, Slot(payload[tenant].slots, origin))]
  {
  }

  lemma MergedOneSlot(slots: map<string, u64>, origin: string, value: u64)
    ensures MergedSlots(slots, map[origin := value]) == slots[origin := Max(Slot(slots, origin), value)]
  {
  }

  /** Whether a claim is taken. */
  predicate Admitted(spend: Spend, c: Claim) {
    && c.value > 0
    && (c.tenant in spend || |spend| < MAX_TRACKED_TENANTS)
    && (c.origin in SlotsOf(spend, c.tenant) || |SlotsOf(spend, c.tenant)| < MAX_TENANT_SPEND_ORIGINS)
  }

  /** A claim that is taken sets one slot of one tenant; any other changes nothing. */
  lemma IngestedForm(spend: Spend, site: string, c: Claim)
    ensures var held := CounterFor(spend, site, c.tenant);
            var value := Max(SlotOf(spend, c.tenant, c.origin), c.value);
            Ingested(spend, site, c) ==
              if Admitted(spend, c) then spend[c.tenant := Counter(held.site, held.slots[c.origin := value])] else spend
  {
    MergedOneSlot(CounterFor(spend, site, c.tenant).slots, c.origin, c.value);
  }

  lemma IngestedSlots(spend: Spend, site: string, c: Claim)
    ensures var s := Ingested(spend, site, c);
            && spend.Keys <= s.Keys
            && (forall t | t != c.tenant :: SlotsOf(s, t) == SlotsOf(spend, t))
            && (forall o | o != c.origin :: o in SlotsOf(s, c.tenant) <==> o in SlotsOf(spend, c.tenant))
            && (forall o | o in SlotsOf(spend, c.tenant) && o != c.origin ::
                  SlotsOf(s, c.tenant)[o] == SlotsOf(spend, c.tenant)[o])
            && SlotOf(spend, c.tenant, c.origin) <= SlotOf(s, c.tenant, c.origin)
            && (c.origin in SlotsOf(spend, c.tenant) ==>
                  SlotOf(s, c.tenant, c.origin) == Max(SlotOf(spend, c.tenant, c.origin), c.value))
  {
    IngestedForm(spend, site, c);
  }

  /** Over any run, slots of origins that claimed nothing are untouched and no slot is lowered. */
  lemma {:induction false} OnlyClaimantsGrow(
    spend: Spend, site: string, claims: seq<Claim>, tenant: string, origin: string)
    ensures var s := IngestedAll(spend, site, claims);
            && SlotOf(spend, tenant, origin) <= SlotOf(s, tenant, origin)
            && ((forall c | c in claims :: c.origin != origin) ==>
                  && (origin in SlotsOf(s, tenant) <==> origin in SlotsOf(spend, tenant))
                  && SlotOf(s, tenant, origin) == SlotOf(spend, tenant, origin))
  {
    if claims != [] {
      var init, last := claims[..|claims| - 1], claims[|claims| - 1];
      assert forall c | c in init :: c in claims;
      OnlyClaimantsGrow(spend, site, init, tenant, origin);
      IngestedSlots(IngestedAll(spend, site, init), site, last);
    }
  }

  /** Over any run, both capacities hold as far as they held at the start. */
  lemma {:induction false} CapacitiesHold(spend: Spend, site: string, claims: seq<Claim>, tenant: string)
    ensures var s := IngestedAll(spend, site, claims);
            && |s| <= Max(|spend|, MAX_TRACKED_TENANTS)
            && |SlotsOf(s, tenant)| <= Max(|SlotsOf(spend, tenant)|, MAX_TENANT_SPEND_ORIGINS)
  {
    if claims != [] {
      CapacitiesHold(spend, site, claims[..|claims| - 1], tenant);
      IngestKeepsCapacities(IngestedAll(spend, site, claims[..|claims| - 1]), site, claims[|claims| - 1], tenant);
    }
  }

  lemma IngestKeepsCapacities(spend: Spend, site: string, c: Claim, tenant: string)
    ensures |Ingested(spend, site, c)| <= Max(|spend|, MAX_TRACKED_TENANTS)
    ensures |SlotsOf(Ingested(spend, site, c), tenant)| <= Max(|SlotsOf(spend, tenant)|, MAX_TENANT_SPEND_ORIGINS)
  {
    var s := Ingested(spend, site, c);
    IngestedForm(spend, site, c);
    if Admitted(spend, c) {
      InsertSize(spend, c.tenant, s[c.tenant]);
      InsertSize(SlotsOf(spend, c.tenant), c.origin, Max(SlotOf(spend, c.tenant, c.origin), c.value));
    }
  }

  lemma InsertSize<K, V>(m: map<K, V>, k: K, v: V)
    ensures |m[k := v]| == if k in m then |m| else |m| + 1
  {
    var m' := m[k := v];
    assert |m'.Keys| == |m'| && |m.Keys| == |m|;
    assert m'.Keys == m.Keys + {k};
  }

  /** A pair already tracked always takes the claim, even at capacity. */
  lemma TrackedPairsAlwaysUpdate(spend: Spend, site: string, claims: seq<Claim>, i: nat)
    requires i < |claims| && claims[i].origin in SlotsOf(spend, claims[i].tenant)
    ensures SlotOf(IngestedAll(spend, site, claims), claims[i].tenant, claims[i].origin) >= claims[i].value
  {
    var c := claims[i];
    var mid := IngestedAll(spend, site, claims[..i]);
    SlotsPersist(spend, site, claims[..i], c.tenant, c.origin);
    IngestedSlots(mid, site, c);
    assert claims[..i + 1][..i] == claims[..i];
    Continues(spend, site, claims, i + 1);
    OnlyClaimantsGrow(IngestedAll(spend, site, claims[..i + 1]), site, claims[i + 1..], c.tenant, c.origin);
  }

  lemma {:induction false} SlotsPersist(spend: Spend, site: string, claims: seq<Claim>, tenant: string, origin: string)
    requires origin in SlotsOf(spend, tenant)
    ensures origin in SlotsOf(IngestedAll(spend, site, claims), tenant)
  {
    if claims != [] {
      var init, last := claims[..|claims| - 1], claims[|claims| - 1];
      SlotsPersist(spend, site, init, tenant, origin);
      IngestedSlots(IngestedAll(spend, site, init), site, last);
    }
  }

  /** A run is its first part followed by the rest. */
  lemma {:induction false} Continues(spend: Spend, site: string, claims: seq<Claim>, i: nat)
    requires i <= |claims|
    ensures IngestedAll(spend, site, claims)
         == IngestedAll(IngestedAll(spend, site, claims[..i]), site, claims[i..])
  {
    if i == |claims| {
      assert claims[..i] == claims;
    } else {
      var init, rest := claims[..|claims| - 1], claims[i..];
      var mid := IngestedAll(spend, site, claims[..i]);
      assert init[..i] == claims[..i];
      Continues(spend, site, init, i);
      assert init[i..] == rest[..|rest| - 1];
      assert IngestedAll(mid, site, rest) == Ingested(IngestedAll(mid, site, init[i..]), site, rest[|rest| - 1]);
    }
  }

  // ---- Within capacity, a run is a pointwise maximum ----

  /** The tenants held or claimed. */
  ghost function Tenants(spend: Spend, claims: seq<Claim>): set<string> {
    if claims == [] then spend.Keys
    else
      var c := claims[|claims| - 1];
      Tenants(spend, claims[..|claims| - 1]) + (if c.value > 0 then {c.tenant} else {})
  }

  /** The origins of a tenant held or claimed. */
  ghost function Origins(spend: Spend, claims: seq<Claim>, tenant: string): set<string> {
    if claims == [] then SlotsOf(spend, tenant).Keys
    else
      var c := claims[|claims| - 1];
      Origins(spend, claims[..|claims| - 1], tenant) + (if c.value > 0 && c.tenant == tenant then {c.origin} else {})
  }

  lemma {:induction false} TenantsMember(spend: Spend, claims: seq<Claim>, t: string)
    ensures t in Tenants(spend, claims) <==> t in spend || exists c :: c in claims && c.value > 0 && c.tenant == t
  {
    if claims != [] {
      TenantsMember(spend, claims[..|claims| - 1], t);
      assert claims == claims[..|claims| - 1] + [claims[|claims| - 1]];
    }
  }

  lemma {:induction false} OriginsMember(spend: Spend, claims: seq<Claim>, t: string, o: string)
    ensures o in Origins(spend, claims, t) <==>
            o in SlotsOf(spend, t) || exists c :: c in claims && c.value > 0 && c.tenant == t && c.origin == o
  {
    if claims != [] {
      OriginsMember(spend, claims[..|claims| - 1], t, o);
      assert claims == claims[..|claims| - 1] + [claims[|claims| - 1]];
    }
  }

  lemma SameClaimsSameKeys(spend: Spend, claims: seq<Claim>, others: seq<Claim>, t: string)
    requires forall c :: c in claims <==> c in others
    ensures Tenants(spend, claims) == Tenants(spend, others)
    ensures Origins(spend, claims, t) == Origins(spend, others, t)
  {
    forall x
      ensures x in Tenants(spend, claims) <==> x in Tenants(spend, others)
    {
      TenantsMember(spend, claims, x);
      TenantsMember(spend, others, x);
    }
    forall o
      ensures o in Origins(spend, claims, t) <==> o in Origins(spend, others, t)
    {
      OriginsMember(spend, claims, t, o);
      OriginsMember(spend, others, t, o);
    }
  }

  ghost predicate Fits(spend: Spend, claims: seq<Claim>) {
    && |Tenants(spend, claims)| <= MAX_TRACKED_TENANTS
    && (forall tenant :: |Origins(spend, claims, tenant)| <= MAX_TENANT_SPEND_ORIGINS)
  }

  /** `s` tracks exactly the pairs held or claimed. */
  ghost predicate Tracks(spend: Spend, claims: seq<Claim>, s: Spend) {
    && s.Keys == Tenants(spend, claims)
    && (forall t :: SlotsOf(s, t).Keys == Origins(spend, claims, t))
  }

  /** A pair's slot is the largest of what was held and what was claimed. */
  ghost predicate IsMaximum(spend: Spend, claims: seq<Claim>, s: Spend, t: string, o: string) {
    && SlotOf(spend, t, o) <= SlotOf(s, t, o)
    && (forall c | c in claims && c.tenant == t && c.origin == o :: c.value <= SlotOf(s, t, o))
    && (SlotOf(s, t, o) == SlotOf(spend, t, o) || Claim(o, t, SlotOf(s, t, o)) in claims)
  }

  lemma SubsetSize<T>(a: set<T>, b: set<T>)
    requires a <= b
    ensures |a| <= |b|
    ensures a != b ==> |a| < |b|
  {
    assert b == a + (b - a);
  }

  lemma FitsPrefix(spend: Spend, claims: seq<Claim>)
    requires claims != [] && Fits(spend, claims)
    ensures Fits(spend, claims[..|claims| - 1])
  {
    var init := claims[..|claims| - 1];
    SubsetSize(Tenants(spend, init), Tenants(spend, claims));
    forall tenant
      ensures |Origins(spend, init, tenant)| <= MAX_TENANT_SPEND_ORIGINS
    {
      SubsetSize(Origins(spend, init, tenant), Origins(spend, claims, tenant));
    }
  }

  /** `s'` is `s` with one slot of one tenant set. */
  ghost predicate OneSlotSet(s: Spend, s': Spend, tenant: string, origin: string, value: u64) {
    && s'.Keys == s.Keys + {tenant}
    && (forall t | t != tenant :: SlotsOf(s', t) == SlotsOf(s, t))
    && SlotsOf(s', tenant) == SlotsOf(s, tenant)[origin := value]
  }

  lemma UpdateSetsOneSlot(s: Spend, site: string, tenant: string, origin: string, value: u64)
    ensures OneSlotSet(s, s[tenant := Counter(site, SlotsOf(s, tenant)[origin := value])], tenant, origin, value)
  {
  }

  /** An admitted claim raises one slot to at least the claim and touches no other. */
  lemma AdmittedEffect(s: Spend, site: string, c: Claim)
    requires Admitted(s, c)
    ensures OneSlotSet(s, Ingested(s, site, c), c.tenant, c.origin, Max(SlotOf(s, c.tenant, c.origin), c.value))
  {
    IngestedForm(s, site, c);
    UpdateSetsOneSlot(s, CounterFor(s, site, c.tenant).site, c.tenant, c.origin,
                      Max(SlotOf(s, c.tenant, c.origin), c.value));
  }

  /** When everything fits, there is room for the last claim. */
  lemma HasRoom(spend: Spend, claims: seq<Claim>, s: Spend)
    requires claims != [] && claims[|claims| - 1].value > 0
    requires Fits(spend, claims) && Tracks(spend, claims[..|claims| - 1], s)
    ensures Admitted(s, claims[|claims| - 1])
  {
    var init, c := claims[..|claims| - 1], claims[|claims| - 1];
    SubsetSize(Tenants(spend, init), Tenants(spend, claims));
    SubsetSize(Origins(spend, init, c.tenant), Origins(spend, claims, c.tenant));
    var slots := SlotsOf(s, c.tenant);
    assert |s.Keys| == |s| && |slots.Keys| == |slots|;
  }

  /** A claim's effect when everything fits: a zero changes nothing, any other sets its slot. */
  ghost predicate Taken(s: Spend, s': Spend, c: Claim) {
    && (c.value == 0 ==> s' == s)
    && (c.value > 0 ==> OneSlotSet(s, s', c.tenant, c.origin, Max(SlotOf(s, c.tenant, c.origin), c.value)))
  }

  lemma FittingClaimIsTaken(spend: Spend, site: string, claims: seq<Claim>, s: Spend)
    requires claims != [] && Fits(spend, claims) && Tracks(spend, claims[..|claims| - 1], s)
    ensures Taken(s, Ingested(s, site, claims[|claims| - 1]), claims[|claims| - 1])
  {
    if claims[|claims| - 1].value > 0 {
      HasRoom(spend, claims, s);
      AdmittedEffect(s, site, claims[|claims| - 1]);
    }
  }

  lemma TracksOneMore(spend: Spend, claims: seq<Claim>, s: Spend, s': Spend)
    requires claims != [] && Tracks(spend, claims[..|claims| - 1], s) && Taken(s, s', claims[|claims| - 1])
    ensures Tracks(spend, claims, s')
  {
    var init, c := claims[..|claims| - 1], claims[|claims| - 1];
    forall t
      ensures SlotsOf(s', t).Keys == Origins(spend, claims, t)
    {
      assert SlotsOf(s, t).Keys == Origins(spend, init, t);
      assert c.value > 0 && t == c.tenant ==> SlotsOf(s', t).Keys == SlotsOf(s, t).Keys + {c.origin};
    }
  }

  /** Within capacity, any run of claims tracks every pair claimed. */
  lemma {:induction false} FittingRunTracks(spend: Spend, site: string, claims: seq<Claim>)
    requires Fits(spend, claims)
    ensures Tracks(spend, claims, IngestedAll(spend, site, claims))
  {
    if claims != [] {
      FitsPrefix(spend, claims);
      FittingRunTracks(spend, site, claims[..|claims| - 1]);
      var s := IngestedAll(spend, site, claims[..|claims| - 1]);
      FittingClaimIsTaken(spend, site, claims, s);
      TracksOneMore(spend, claims, s, IngestedAll(spend, site, claims));
    }
  }

  lemma SlotAfter(s: Spend, s': Spend, tenant: string, origin: string, value: u64, t: string, o: string)
    requires OneSlotSet(s, s', tenant, origin, value)
    ensures SlotOf(s', t, o) == if t == tenant && o == origin then value else SlotOf(s, t, o)
  {
    assert SlotOf(s, t, o) == Slot(SlotsOf(s, t), o) && SlotOf(s', t, o) == Slot(SlotsOf(s', t), o);
  }

  lemma MaximumOneMore(spend: Spend, claims: seq<Claim>, s: Spend, s': Spend, t: string, o: string)
    requires claims != [] && IsMaximum(spend, claims[..|claims| - 1], s, t, o) && Taken(s, s', claims[|claims| - 1])
    ensures IsMaximum(spend, claims, s', t, o)
  {
    var init, c := claims[..|claims| - 1], claims[|claims| - 1];
    if c.value > 0 {
      SlotAfter(s, s', c.tenant, c.origin, Max(SlotOf(s, c.tenant, c.origin), c.value), t, o);
    }
    assert claims == init + [c];
    assert forall x :: x in claims <==> x in init || x == c;
  }

  /** Within capacity, any run of claims ends every pair at its maximum. */
  lemma {:induction false} FittingRunIsMaximum(spend: Spend, site: string, claims: seq<Claim>, t: string, o: string)
    requires Fits(spend, claims)
    ensures IsMaximum(spend, claims, IngestedAll(spend, site, claims), t, o)
  {
    if claims != [] {
      FitsPrefix(spend, claims);
      FittingRunIsMaximum(spend, site, claims[..|claims| - 1], t, o);
      FittingRunTracks(spend, site, claims[..|claims| - 1]);
      var s := IngestedAll(spend, site, claims[..|claims| - 1]);
      FittingClaimIsTaken(spend, site, claims, s);
      MaximumOneMore(spend, claims, s, IngestedAll(spend, site, claims), t, o);
    }
  }

  lemma MaximumIsUnique(spend: Spend, claims: seq<Claim>, others: seq<Claim>, a: Spend, b: Spend, t: string, o: string)
    requires forall c :: c in claims <==> c in others
    requires IsMaximum(spend, claims, a, t, o) && IsMaximum(spend, others, b, t, o)
    ensures SlotOf(a, t, o) == SlotOf(b, t, o)
  {
  }

  lemma SameSlots(spend: Spend, site: string, claims: seq<Claim>, others: seq<Claim>, t: string, o: string)
    requires Fits(spend, claims) && Fits(spend, others)
    requires forall c :: c in claims <==> c in others
    ensures SlotOf(IngestedAll(spend, site, claims), t, o) == SlotOf(IngestedAll(spend, site, others), t, o)
  {
    FittingRunIsMaximum(spend, site, claims, t, o);
    FittingRunIsMaximum(spend, site, others, t, o);
    MaximumIsUnique(
      spend, claims, others, IngestedAll(spend, site, claims), IngestedAll(spend, site, others), t, o);
  }

  lemma SameSlotsSameMap(a: Spend, b: Spend, t: string)
    requires SlotsOf(a, t).Keys == SlotsOf(b, t).Keys && forall o :: SlotOf(a, t, o) == SlotOf(b, t, o)
    ensures SlotsOf(a, t) == SlotsOf(b, t)
  {
    var x, y := SlotsOf(a, t), SlotsOf(b, t);
    assert forall o | o in x :: x[o] == SlotOf(a, t, o) && y[o] == SlotOf(b, t, o);
  }

  /** Within capacity, delivery order and repetition do not matter. */
  lemma FittingRunsConverge(spend: Spend, site: string, claims: seq<Claim>, others: seq<Claim>, t: string)
    requires Fits(spend, claims) && Fits(spend, others)
    requires forall c :: c in claims <==> c in others
    ensures IngestedAll(spend, site, claims).Keys == IngestedAll(spend, site, others).Keys
    ensures SlotsOf(IngestedAll(spend, site, claims), t) == SlotsOf(IngestedAll(spend, site, others), t)
  {
    var a, b := IngestedAll(spend, site, claims), IngestedAll(spend, site, others);
    FittingRunTracks(spend, site, claims);
    FittingRunTracks(spend, site, others);
    SameClaimsSameKeys(spend, claims, others, t);
    forall o
      ensures SlotOf(a, t, o) == SlotOf(b, t, o)
    {
      SameSlots(spend, site, claims, others, t, o);
    }
    SameSlotsSameMap(a, b, t);
  }
}
