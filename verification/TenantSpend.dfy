/** Per-tenant spend, the `tenant_spend` map of `crates/crdt/src/grid_state.rs`. */
module TenantSpend {
  import opened Prelude
  import opened GCounters

  type Spend = map<string, Counter>

  /** The tenant's counter, or the empty one its first use creates for `site`. */
  function CounterFor(spend: Spend, site: string, tenant: string): Counter {
    if tenant in spend then spend[tenant] else Counter(site, map[])
  }

  function SlotOf(spend: Spend, tenant: string, site: string): u64 {
    if tenant in spend then Slot(spend[tenant].slots, site) else 0
  }

  function Recorded(spend: Spend, site: string, tenant: string, amount: u64): Spend {
    spend[tenant := Incremented(CounterFor(spend, site, tenant), amount)]
  }

  function MergedCounter(spend: Spend, site: string, tenant: string, slots: map<string, u64>): Counter {
    var held := CounterFor(spend, site, tenant);
    held.(slots := MergedSlots(held.slots, slots))
  }

  /** Spend without an origin's slots, and without the counters that leaves at nothing. */
  ghost function Retired(spend: Spend, origin: string): Spend {
    map tenant | tenant in spend && Total(spend[tenant].slots - {origin}) > 0 ::
      spend[tenant].(slots := spend[tenant].slots - {origin})
  }

  /**
   Retiring an origin takes exactly its spend: its slots read nothing, every other slot reads as it did,
   and a tenant stays exactly when some other site spent for it.
   */
  lemma RetiredExactly(spend: Spend, origin: string, tenant: string, site: string)
    ensures SlotOf(Retired(spend, origin), tenant, origin) == 0
    ensures site != origin ==> SlotOf(Retired(spend, origin), tenant, site) == SlotOf(spend, tenant, site)
    ensures tenant in Retired(spend, origin) <==> exists s :: s != origin && SlotOf(spend, tenant, s) > 0
    ensures tenant in Retired(spend, origin) ==>
              origin !in Retired(spend, origin)[tenant].slots
              && Retired(spend, origin)[tenant].site == spend[tenant].site
  {
    if tenant in spend {
      var slots := spend[tenant].slots;
      var rest := slots - {origin};
      SumIsPositiveIff(rest);
      assert forall s | s != origin :: Slot(rest, s) == SlotOf(spend, tenant, s);
      assert Slot(rest, origin) == 0;
      assert Total(rest) > 0 <==> Sum(rest) > 0;
    }
  }

  /** A trusted merge takes every slot of every tenant. */
  function MergedSpend(spend: Spend, site: string, other: Spend): Spend {
    map tenant | tenant in spend.Keys + other.Keys ::
      if tenant in other then MergedCounter(spend, site, tenant, other[tenant].slots) else spend[tenant]
  }
}

/**
 Every run of sites that record spend, exchange snapshots, lose everything and come back: no
 view of a site's spend is ever ahead, and its own is exact unless it recorded before it recovered.
 */
module SpendNetwork {
  import opened Prelude
  import opened GCounters
  import opened TenantSpend

  /** `spent` is the exact spend of each (site, tenant), kept outside the sites. */
  datatype World = World(spent: map<(string, string), nat>, sites: map<string, Spend>, sent: seq<Spend>)

  datatype Step =
    | Join(site: string)
    | Restart(site: string)
    | Record(site: string, tenant: string, amount: u64)
    | Snapshot(site: string)
    | Deliver(site: string, message: nat)

  function SpentBy(w: World, site: string, tenant: string): nat {
    if (site, tenant) in w.spent then w.spent[(site, tenant)] else 0
  }

  function Next(w: World, step: Step): World {
    match step
    case Join(site) =>
      if site in w.sites then w else w.(sites := w.sites[site := map[]])
    case Restart(site) =>
      if site !in w.sites then w else w.(sites := w.sites[site := map[]])
    case Record(site, tenant, amount) =>
      if site !in w.sites then w
      else w.(spent := w.spent[(site, tenant) := SpentBy(w, site, tenant) + amount],
              sites := w.sites[site := Recorded(w.sites[site], site, tenant, amount)])
    case Snapshot(site) =>
      if site !in w.sites then w else w.(sent := w.sent + [w.sites[site]])
    case Deliver(site, m) =>
      if site !in w.sites || m >= |w.sent| then w
      else w.(sites := w.sites[site := MergedSpend(w.sites[site], site, w.sent[m])])
  }

  function Run(w: World, steps: seq<Step>): World {
    if steps == [] then w else Next(Run(w, steps[..|steps| - 1]), steps[|steps| - 1])
  }

  function After(steps: seq<Step>): World {
    Run(World(map[], map[], []), steps)
  }

  /** What a site has really spent, as a slot can hold it. */
  function TrueSlot(w: World, site: string, tenant: string): u64 {
    Min(SpentBy(w, site, tenant), U64_MAX)
  }

  /** No slot of a view is ahead of its site, and no site that never spent has one. */
  ghost predicate Behind(w: World, view: Spend) {
    forall tenant, s | tenant in view && s in view[tenant].slots ::
      (s, tenant) in w.spent && view[tenant].slots[s] <= TrueSlot(w, s, tenant)
  }

  ghost predicate Inv(w: World) {
    && (forall site | site in w.sites :: Behind(w, w.sites[site]))
    && (forall m | 0 <= m < |w.sent| :: Behind(w, w.sent[m]))
    && (forall site, tenant | site in w.sites && tenant in w.sites[site] :: w.sites[site][tenant].site == site)
    && (forall site, tenant | (site, tenant) in w.spent :: site in w.sites)
  }

  /** A view stays behind when spend only grows. */
  lemma BehindGrows(w: World, w': World, view: Spend)
    requires Behind(w, view)
    requires w.spent.Keys <= w'.spent.Keys
    requires forall s, t :: TrueSlot(w, s, t) <= TrueSlot(w', s, t)
    ensures Behind(w', view)
  {
  }

  /** Recording spend moves the recorder's own slot no further than its true spend. */
  lemma RecordStaysBehind(w: World, site: string, tenant: string, amount: u64)
    requires Inv(w) && site in w.sites
    ensures var w' := Next(w, Record(site, tenant, amount)); Behind(w', w'.sites[site])
  {
    var w' := Next(w, Record(site, tenant, amount));
    assert Behind(w, w.sites[site]);
    BehindGrows(w, w', w.sites[site]);
    assert SlotOf(w.sites[site], tenant, site) <= TrueSlot(w, site, tenant);
  }

  lemma RecordKeepsInv(w: World, site: string, tenant: string, amount: u64)
    requires Inv(w) && site in w.sites
    ensures Inv(Next(w, Record(site, tenant, amount)))
  {
    var w' := Next(w, Record(site, tenant, amount));
    RecordStaysBehind(w, site, tenant, amount);
    forall m | 0 <= m < |w'.sent|
      ensures Behind(w', w'.sent[m])
    {
      BehindGrows(w, w', w.sent[m]);
    }
    forall p | p in w'.sites && p != site
      ensures Behind(w', w'.sites[p])
    {
      BehindGrows(w, w', w.sites[p]);
    }
  }

  lemma MergedSlot(a: Spend, site: string, b: Spend, tenant: string, s: string)
    ensures SlotOf(MergedSpend(a, site, b), tenant, s) == Max(SlotOf(a, tenant, s), SlotOf(b, tenant, s))
  {
  }

  /** Merging two views that are behind gives a view that is behind. */
  lemma MergedIsBehind(w: World, a: Spend, site: string, b: Spend)
    requires Behind(w, a) && Behind(w, b)
    ensures Behind(w, MergedSpend(a, site, b))
  {
    var merged := MergedSpend(a, site, b);
    forall tenant, s | tenant in merged && s in merged[tenant].slots
      ensures (s, tenant) in w.spent && merged[tenant].slots[s] <= TrueSlot(w, s, tenant)
    {
      MergedSlot(a, site, b, tenant, s);
    }
  }

  lemma DeliverKeepsInv(w: World, site: string, m: nat)
    requires Inv(w) && site in w.sites && m < |w.sent|
    ensures Inv(Next(w, Deliver(site, m)))
  {
    assert Behind(w, w.sent[m]) && Behind(w, w.sites[site]);
    MergedIsBehind(w, w.sites[site], site, w.sent[m]);
  }

  lemma NextKeepsInv(w: World, step: Step)
    requires Inv(w)
    ensures Inv(Next(w, step))
  {
    match step
    case Record(site, tenant, amount) =>
      if site in w.sites {
        RecordKeepsInv(w, site, tenant, amount);
      }
    case Deliver(site, m) =>
      if site in w.sites && m < |w.sent| {
        DeliverKeepsInv(w, site, m);
      }
    case _ =>
  }

  lemma {:induction false} RunKeepsInv(w: World, steps: seq<Step>)
    requires Inv(w)
    ensures Inv(Run(w, steps))
  {
    if steps != [] {
      RunKeepsInv(w, steps[..|steps| - 1]);
      NextKeepsInv(Run(w, steps[..|steps| - 1]), steps[|steps| - 1]);
    }
  }

  // ---- A site's own slot ----

  /** The site's own slots are exactly what it spent. */
  ghost predicate OwnExact(w: World, site: string) {
    site in w.sites && forall tenant :: SlotOf(w.sites[site], tenant, site) == TrueSlot(w, site, tenant)
  }

  lemma RecordedSlot(spend: Spend, site: string, tenant: string, amount: u64, t: string)
    requires tenant in spend ==> spend[tenant].site == site
    ensures SlotOf(Recorded(spend, site, tenant, amount), t, site)
         == if t == tenant then SaturatingAdd(SlotOf(spend, t, site), amount) else SlotOf(spend, t, site)
  {
  }

  lemma RecordKeepsOwnExact(w: World, site: string, step: Step)
    requires Inv(w) && OwnExact(w, site) && step.Record?
    ensures OwnExact(Next(w, step), site)
  {
    if step.site == site {
      forall tenant
        ensures SlotOf(Next(w, step).sites[site], tenant, site) == TrueSlot(Next(w, step), site, tenant)
      {
        assert SlotOf(w.sites[site], tenant, site) == TrueSlot(w, site, tenant);
        RecordedSlot(w.sites[site], site, step.tenant, step.amount, tenant);
      }
    } else {
      assert forall tenant :: TrueSlot(Next(w, step), site, tenant) == TrueSlot(w, site, tenant);
    }
  }

  lemma DeliverKeepsOwnExact(w: World, site: string, m: nat)
    requires Inv(w) && OwnExact(w, site)
    ensures OwnExact(Next(w, Deliver(site, m)), site)
  {
    if m < |w.sent| {
      assert Behind(w, w.sent[m]);
      forall tenant
        ensures SlotOf(MergedSpend(w.sites[site], site, w.sent[m]), tenant, site) == TrueSlot(w, site, tenant)
      {
        assert SlotOf(w.sites[site], tenant, site) == TrueSlot(w, site, tenant);
        MergedSlot(w.sites[site], site, w.sent[m], tenant, site);
      }
    }
  }

  lemma NextKeepsOwnExact(w: World, site: string, step: Step)
    requires Inv(w) && OwnExact(w, site) && step != Restart(site)
    ensures OwnExact(Next(w, step), site)
  {
    if step.Record? {
      RecordKeepsOwnExact(w, site, step);
    } else if step.Deliver? && step.site == site {
      DeliverKeepsOwnExact(w, site, step.message);
    }
  }

  /** Exact own slots stay exact until the site restarts. */
  lemma {:induction false} OwnExactLasts(w: World, steps: seq<Step>, site: string)
    requires Inv(w) && OwnExact(w, site) && Restart(site) !in steps
    ensures OwnExact(Run(w, steps), site)
  {
    if steps != [] {
      var init := steps[..|steps| - 1];
      assert Restart(site) !in init && steps[|steps| - 1] != Restart(site);
      OwnExactLasts(w, init, site);
      RunKeepsInv(w, init);
      NextKeepsOwnExact(Run(w, init), site, steps[|steps| - 1]);
    }
  }

  /** A snapshot that holds all the site ever spent. */
  ghost predicate HoldsAll(w: World, site: string, m: nat) {
    m < |w.sent| && forall tenant :: SlotOf(w.sent[m], tenant, site) == TrueSlot(w, site, tenant)
  }

  /** After a restart, the site is exact again once it receives such a snapshot. */
  lemma RecoveryRestoresExactness(before: seq<Step>, m: nat, after: seq<Step>, site: string)
    requires site in After(before).sites && HoldsAll(After(before), site, m) && Restart(site) !in after
    ensures OwnExact(Run(Next(After(before), Deliver(site, m)), after), site)
  {
    var w := After(before);
    RunKeepsInv(World(map[], map[], []), before);
    var w' := Next(w, Deliver(site, m));
    assert Behind(w, w.sites[site]);
    forall tenant
      ensures SlotOf(w'.sites[site], tenant, site) == TrueSlot(w', site, tenant)
    {
      MergedSlot(w.sites[site], site, w.sent[m], tenant, site);
      assert SlotOf(w.sent[m], tenant, site) == TrueSlot(w, site, tenant);
    }
    NextKeepsInv(w, Deliver(site, m));
    OwnExactLasts(w', after, site);
  }

  /** Recording before recovering loses spend: the slot forgets what came before the restart. */
  lemma UnrecoveredSpendIsLost(site: string, tenant: string, first: u64, second: u64)
    requires first > 0 && first + second <= U64_MAX
    ensures var steps := [Join(site), Record(site, tenant, first), Restart(site), Record(site, tenant, second)];
            var w := After(steps);
            && site in w.sites && SlotOf(w.sites[site], tenant, site) == second
            && SpentBy(w, site, tenant) == first + second
  {
    var a, b, c, d := Join(site), Record(site, tenant, first), Restart(site), Record(site, tenant, second);
    var w0 := World(map[], map[], []);
    assert [a, b, c, d][..3] == [a, b, c];
    assert [a, b, c][..2] == [a, b];
    assert [a, b][..1] == [a];
    assert Run(w0, [a]) == Next(Run(w0, []), a);
    assert Run(w0, [a, b]) == Next(Run(w0, [a]), b);
    assert Run(w0, [a, b, c]) == Next(Run(w0, [a, b]), c);
  }

  lemma {:induction false} NeverRestartedIsExact(steps: seq<Step>, site: string)
    requires site in After(steps).sites && Restart(site) !in steps
    ensures OwnExact(After(steps), site)
  {
    var init, last := steps[..|steps| - 1], steps[|steps| - 1];
    assert Restart(site) !in init && last != Restart(site);
    RunKeepsInv(World(map[], map[], []), init);
    if site in After(init).sites {
      NeverRestartedIsExact(init, site);
      NextKeepsOwnExact(After(init), site, last);
    } else {
      assert forall tenant :: (site, tenant) !in After(init).spent;
    }
  }

  /**
   In every run nobody's view of a site's spend is ahead of it, and the site's own view is exact if it
   never restarted.
   */
  lemma OwnSlotIsExactOthersAreBehind(steps: seq<Step>, viewer: string, site: string, tenant: string)
    requires viewer in After(steps).sites && site in After(steps).sites
    ensures var w := After(steps);
            && SlotOf(w.sites[viewer], tenant, site) <= Min(SpentBy(w, site, tenant), U64_MAX)
            && (Restart(site) !in steps ==>
                  SlotOf(w.sites[site], tenant, site) == Min(SpentBy(w, site, tenant), U64_MAX))
  {
    RunKeepsInv(World(map[], map[], []), steps);
    assert Behind(After(steps), After(steps).sites[viewer]);
    if Restart(site) !in steps {
      NeverRestartedIsExact(steps, site);
    }
  }

  /** The slots a tenant would have if every site had heard from every other. */
  ghost function TrueSlots(w: World, tenant: string): map<string, u64> {
    map site | site in w.sites && (site, tenant) in w.spent :: TrueSlot(w, site, tenant)
  }

  /** Under any partition a site reports at most the grid's true total for a tenant. */
  lemma TotalIsALowerBound(steps: seq<Step>, viewer: string, tenant: string)
    requires viewer in After(steps).sites && tenant in After(steps).sites[viewer]
    ensures Total(After(steps).sites[viewer][tenant].slots) <= Total(TrueSlots(After(steps), tenant))
  {
    RunKeepsInv(World(map[], map[], []), steps);
    var w := After(steps);
    assert Behind(w, w.sites[viewer]);
    SumMonotone(w.sites[viewer][tenant].slots, TrueSlots(w, tenant));
  }
}
