/**
 The mergeable snapshot of `crates/crdt/src/grid_state.rs`: capabilities, provider records
 and tenant spend, updated in place.
 */
module GridState {
  import opened Prelude
  import opened Providers
  import opened TenantSpend
  import opened SpendIngest
  import GCounters
  import O = OrSets

  datatype Capability = Model(name: string) | Tool(name: string) | Agent(name: string)

  /** The value of a snapshot: what is serialized and exchanged. */
  datatype Snapshot = Snapshot(
    site: string,
    capabilities: O.State<Capability>,
    providers: Records,
    tenantSpend: Spend)

  ghost function Merged(a: Snapshot, b: Snapshot): Snapshot {
    Snapshot(
      a.site,
      O.Merged(a.capabilities, b.capabilities),
      MergedRecords(a.providers, b.providers),
      MergedSpend(a.tenantSpend, a.site, b.tenantSpend))
  }

  /** The origin's in-scope records upserted, in `order`, over everything out of scope. */
  ghost predicate ReplacedInOrder(
    before: Records, after: Records, origin: string, revision: u64, networks: Option<set<string>>,
    authoritative: Records, order: seq<string>)
  {
    var stamped := Stamped(authoritative, origin, revision, networks);
    && Lists(order, stamped.Keys) && (forall i | 0 <= i < |order| :: order[i] in stamped)
    && after == UpsertedAll(Outside(before, origin, networks), stamped, order)
  }

  class GridStateSnapshot {
    const siteId: string
    const capabilities: O.OrSet<Capability>
    var providers: Records
    var tenantSpend: Spend

    ghost function Value(): Snapshot
      reads this, capabilities
    {
      Snapshot(siteId, capabilities.Value(), providers, tenantSpend)
    }

    constructor (siteId: string)
      ensures fresh(capabilities)
      ensures Value() == Snapshot(siteId, O.New(siteId), map[], map[])
    {
      this.siteId := siteId;
      this.capabilities := new O.OrSet(siteId);
      providers := map[];
      tenantSpend := map[];
    }

    method AddCapability(capability: Capability) returns (added: bool)
      modifies capabilities
      ensures added <==> old(capabilities.counter) < U64_MAX
      ensures Value() == old(Value()).(capabilities := O.Added(old(capabilities.Value()), capability))
    {
      added := capabilities.Add(capability);
    }

    method UpsertProvider(p: ProviderState)
      modifies this`providers
      ensures providers == Upserted(old(providers), p)
      ensures old(WellKeyed(providers)) ==> WellKeyed(providers)
    {
      var k := KeyOf(p);
      if k in providers && !Supersedes(p, providers[k]) {
        return;
      }
      providers := providers[k := p];
    }

    /** Upsert every record of a map; `order` is the order its keys were visited in. */
    method UpsertAll(incoming: Records) returns (ghost order: seq<string>)
      modifies this`providers
      ensures Lists(order, incoming.Keys) && (forall i | 0 <= i < |order| :: order[i] in incoming)
      ensures providers == UpsertedAll(old(providers), incoming, order)
      ensures WellKeyed(incoming) ==> providers == MergedRecords(old(providers), incoming)
      ensures old(WellKeyed(providers)) ==> WellKeyed(providers)
    {
      var keys := incoming.Keys;
      order := [];
      while keys != {}
        invariant keys <= incoming.Keys && Lists(order, incoming.Keys - keys)
        invariant forall i | 0 <= i < |order| :: order[i] in incoming
        invariant providers == UpsertedAll(old(providers), incoming, order)
        invariant old(WellKeyed(providers)) ==> WellKeyed(providers)
        decreases keys
      {
        var k :| k in keys;
        UpsertProvider(incoming[k]);
        ghost var longer := order + [k];
        assert longer[..|longer| - 1] == order;
        order := longer;
        keys := keys - {k};
      }
      assert incoming.Keys - keys == incoming.Keys;
      if WellKeyed(incoming) {
        UpsertingAllIsMerging(old(providers), incoming, order);
      }
    }

    method Merge(other: GridStateSnapshot) returns (ghost order: seq<string>)
      requires other != this && other.capabilities != capabilities
      modifies this, capabilities
      ensures Lists(order, other.providers.Keys) && (forall i | 0 <= i < |order| :: order[i] in other.providers)
      ensures Value() == Merged(old(Value()), other.Value()).(
                         providers := UpsertedAll(old(providers), other.providers, order))
      ensures WellKeyed(other.providers) ==> Value() == Merged(old(Value()), other.Value())
      ensures old(WellKeyed(providers)) ==> WellKeyed(providers)
    {
      capabilities.Merge(other.capabilities);
      order := UpsertAll(other.providers);
      MergeTenantSpend(other.tenantSpend);
    }

    method MergeTenantSpend(other: Spend)
      modifies this`tenantSpend
      ensures tenantSpend == MergedSpend(old(tenantSpend), siteId, other)
    {
      var tenants := other.Keys;
      while tenants != {}
        invariant tenants <= other.Keys
        invariant tenantSpend.Keys == old(tenantSpend).Keys + (other.Keys - tenants)
        invariant forall t | t in tenantSpend && (t in tenants || t !in other) ::
                    t in old(tenantSpend) && tenantSpend[t] == old(tenantSpend)[t]
        invariant forall t | t in other && t !in tenants ::
                    tenantSpend[t] == MergedCounter(old(tenantSpend), siteId, t, other[t].slots)
        decreases tenants
      {
        var t :| t in tenants;
        tenantSpend := tenantSpend[t := MergedCounter(tenantSpend, siteId, t, other[t].slots)];
        tenants := tenants - {t};
      }
    }

    /** Trusts only the claimed origin's slot; `order` is the order tenants were visited in. */
    method MergeTenantSpendFromOrigin(origin: string, other: Spend) returns (ghost order: seq<string>)
      modifies this`tenantSpend
      ensures Lists(order, other.Keys)
      ensures tenantSpend == IngestedAll(old(tenantSpend), siteId, Claims(origin, other, order))
    {
      order := [];
      var tenants := other.Keys;
      while tenants != {}
        invariant tenants <= other.Keys
        invariant Lists(order, other.Keys - tenants)
        invariant tenantSpend == IngestedAll(old(tenantSpend), siteId, Claims(origin, other, order))
        decreases tenants
      {
        var t :| t in tenants;
        IngestClaim(origin, t, other[t]);
        ExtendClaims(origin, other, order, t);
        order := order + [t];
        tenants := tenants - {t};
      }
    }

    method IngestClaim(origin: string, tenant: string, counter: GCounters.Counter)
      modifies this`tenantSpend
      ensures tenantSpend ==
              Ingested(old(tenantSpend), siteId, Claim(origin, tenant, GCounters.Slot(counter.slots, origin)))
    {
      var originOnly := GCounters.RetainOrigin(counter, origin);
      if GCounters.Slot(originOnly.slots, origin) == 0 {
        return;
      }
      if tenant !in tenantSpend && |tenantSpend| >= MAX_TRACKED_TENANTS {
        return;
      }
      var entry := CounterFor(tenantSpend, siteId, tenant);
      if origin in entry.slots || |entry.slots| < MAX_TENANT_SPEND_ORIGINS {
        entry := entry.(slots := GCounters.MergedSlots(entry.slots, originOnly.slots));
      }
      tenantSpend := tenantSpend[tenant := entry];
    }

    /** Retires an origin's spend: its slots go, and counters left without spend with them. */
    method RemoveOriginTenantSpend(origin: string)
      modifies this`tenantSpend
      ensures tenantSpend == Retired(old(tenantSpend), origin)
    {
      var kept: Spend := map[];
      var tenants := tenantSpend.Keys;
      while tenants != {}
        invariant tenants <= tenantSpend.Keys && tenantSpend == old(tenantSpend)
        invariant forall t | t in kept ::
                    && t in tenantSpend && t !in tenants
                    && kept[t] == tenantSpend[t].(slots := tenantSpend[t].slots - {origin})
        invariant forall t | t in tenantSpend && t !in tenants ::
                    t in kept <==> GCounters.Total(tenantSpend[t].slots - {origin}) > 0
        decreases tenants
      {
        var t :| t in tenants;
        var left := new GCounters.GCounter(tenantSpend[t].site);
        left.slots := tenantSpend[t].slots;
        left.RemoveSlot(origin);
        var total := left.ComputeTotal();
        if total > 0 {
          kept := kept[t := left.Value()];
        }
        tenants := tenants - {t};
      }
      tenantSpend := kept;
    }

    method IncrementTenantSpend(tenant: string, amount: u64)
      modifies this`tenantSpend
      ensures tenantSpend == Recorded(old(tenantSpend), siteId, tenant, amount)
    {
      tenantSpend := tenantSpend[tenant := GCounters.Incremented(CounterFor(tenantSpend, siteId, tenant), amount)];
    }

    method ReplaceOriginProviders(origin: string, revision: u64, authoritative: Records)
      returns (ghost order: seq<string>)
      modifies this`providers
      ensures ReplacedInOrder(old(providers), providers, origin, revision, None, authoritative, order)
      ensures WellKeyed(authoritative) ==>
                providers == Replaced(old(providers), origin, revision, None, authoritative)
    {
      providers := Outside(providers, origin, None);
      order := UpsertAll(Stamped(authoritative, origin, revision, None));
    }

    /** Reports the networks of the records it accepted. */
    method ReplaceOriginProvidersInNetworks(
      origin: string, revision: u64, networks: set<string>, authoritative: Records)
      returns (accepted: set<string>, ghost order: seq<string>)
      modifies this`providers
      ensures ReplacedInOrder(old(providers), providers, origin, revision, Some(networks), authoritative, order)
      ensures WellKeyed(authoritative) ==>
                providers == Replaced(old(providers), origin, revision, Some(networks), authoritative)
      ensures accepted <= networks
      ensures forall n :: n in accepted <==>
                n in networks &&
                exists k :: k in authoritative && authoritative[k].siteId == origin && authoritative[k].networkId == n
    {
      providers := Outside(providers, origin, Some(networks));
      var incoming := Stamped(authoritative, origin, revision, Some(networks));
      accepted := set k | k in incoming :: incoming[k].networkId;
      forall n
        ensures n in accepted <==>
                n in networks &&
                exists k :: k in authoritative && authoritative[k].siteId == origin && authoritative[k].networkId == n
      {
        if n in accepted {
          var k :| k in incoming && incoming[k].networkId == n;
          assert k in authoritative && authoritative[k].networkId == n;
        }
        if n in networks {
          if k :| k in authoritative && authoritative[k].siteId == origin && authoritative[k].networkId == n {
            assert k in incoming;
          }
        }
      }
      order := UpsertAll(incoming);
    }
  }
}
