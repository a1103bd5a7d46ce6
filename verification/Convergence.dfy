/**
 Snapshot convergence: combining the same snapshots gives the same view, whatever the order,
 the grouping and the number of times each is merged.
 */
module Convergence {
  import opened Prelude
  import opened GridState
  import opened Providers
  import opened TenantSpend
  import opened SpendIngest
  import GCounters
  import O = OrSets
  import N = OrSetNetwork

  /** One way of combining snapshots: any tree of merges. */
  datatype Plan = Take(snapshot: Snapshot) | Join(into: Plan, from: Plan)

  ghost function Combined(p: Plan): Snapshot {
    match p
    case Take(s) => s
    case Join(a, b) => Merged(Combined(a), Combined(b))
  }

  ghost function Leaves(p: Plan): set<Snapshot> {
    match p
    case Take(s) => {s}
    case Join(a, b) => Leaves(a) + Leaves(b)
  }

  // ---- What snapshots are like ----

  /** No live tag is tombstoned and no bucket is empty. */
  ghost predicate Pruned(c: O.State<Capability>) {
    forall item | item in c.entries :: c.entries[item] != {} && c.entries[item] !! c.tombstones
  }

  ghost predicate WellFormed(s: Snapshot) {
    Pruned(s.capabilities) && WellKeyed(s.providers)
  }

  /** Pruned is exactly what repetition needs: merging a set with itself changes nothing if and only if it is. */
  lemma SelfMergeIffPruned(c: O.State<Capability>)
    ensures O.Merged(c, c).entries == c.entries <==> Pruned(c)
  {
    forall item
      ensures O.MergedTags(c, c, item) == O.Tags(c, item) - c.tombstones
    {
    }
    if O.Merged(c, c).entries == c.entries {
      forall item | item in c.entries
        ensures c.entries[item] != {} && c.entries[item] !! c.tombstones
      {
        assert item in O.MergedEntries(c, c);
        assert c.entries[item] == c.entries[item] - c.tombstones;
      }
    }
    if Pruned(c) {
      assert forall item | item in c.entries :: O.MergedTags(c, c, item) == c.entries[item];
    }
  }

  /** Every set of a network run is pruned. */
  lemma GoodIsPruned(log: seq<N.Op<Capability>>, r: N.Replica<Capability>)
    requires N.TagsUnique(log) && N.Good(log, r)
    ensures Pruned(r.state)
  {
    forall item, t | item in r.state.entries && t in r.state.entries[item]
      ensures t !in r.state.tombstones
    {
      assert t in O.Tags(r.state, item);
      assert N.LiveTag(log, r.seen, item, t);
      assert !N.DeadTag(log, r.seen, t);
    }
  }

  /** A writer never reuses a revision for a different record. */
  ghost predicate OneRecordPerRevision(leaves: set<Snapshot>) {
    forall s, t, k | s in leaves && t in leaves && k in s.providers && k in t.providers ::
      s.providers[k].revision == t.providers[k].revision && s.providers[k].writerId == t.providers[k].writerId
      ==> s.providers[k] == t.providers[k]
  }

  // ---- What a combination holds, from its leaves alone ----

  ghost predicate HoldsTag(leaves: set<Snapshot>, item: Capability, t: O.Tag) {
    exists s :: s in leaves && t in O.Tags(s.capabilities, item)
  }

  ghost predicate HoldsTombstone(leaves: set<Snapshot>, t: O.Tag) {
    exists s :: s in leaves && t in s.capabilities.tombstones
  }

  ghost predicate CapabilitiesOf(leaves: set<Snapshot>, c: O.State<Capability>) {
    && (forall t :: t in c.tombstones <==> HoldsTombstone(leaves, t))
    && (forall item, t :: t in O.Tags(c, item) <==> HoldsTag(leaves, item, t) && !HoldsTombstone(leaves, t))
    && (forall item | item in c.entries :: c.entries[item] != {})
  }

  ghost predicate HoldsRecord(leaves: set<Snapshot>, k: string, p: ProviderState) {
    exists s :: s in leaves && k in s.providers && s.providers[k] == p
  }

  /** Each key holds one of the leaves' records, superseded by none of them. */
  ghost predicate ProvidersOf(leaves: set<Snapshot>, records: Records) {
    && (forall k | k in records :: HoldsRecord(leaves, k, records[k]))
    && (forall k, p | HoldsRecord(leaves, k, p) :: k in records && !Supersedes(p, records[k]))
  }

  ghost predicate HoldsTenant(leaves: set<Snapshot>, tenant: string) {
    exists s :: s in leaves && tenant in s.tenantSpend
  }

  ghost predicate HoldsSlot(leaves: set<Snapshot>, tenant: string, site: string, value: u64) {
    exists s :: s in leaves && site in SlotsOf(s.tenantSpend, tenant) && SlotsOf(s.tenantSpend, tenant)[site] == value
  }

  /** Each slot is the largest a leaf holds. */
  ghost predicate SpendOf(leaves: set<Snapshot>, spend: Spend) {
    && (forall t :: t in spend <==> HoldsTenant(leaves, t))
    && (forall t, o | o in SlotsOf(spend, t) :: HoldsSlot(leaves, t, o, SlotsOf(spend, t)[o]))
    && (forall t, o, v | HoldsSlot(leaves, t, o, v) :: o in SlotsOf(spend, t) && v <= SlotsOf(spend, t)[o])
  }

  // ---- Every combination holds exactly that ----

  lemma MergedCapabilities(p: set<Snapshot>, q: set<Snapshot>, a: O.State<Capability>, b: O.State<Capability>)
    requires CapabilitiesOf(p, a) && CapabilitiesOf(q, b)
    ensures CapabilitiesOf(p + q, O.Merged(a, b))
  {
    var m := O.Merged(a, b);
    assert forall t :: HoldsTombstone(p + q, t) <==> HoldsTombstone(p, t) || HoldsTombstone(q, t);
    assert forall item, t :: HoldsTag(p + q, item, t) <==> HoldsTag(p, item, t) || HoldsTag(q, item, t);
    forall item
      ensures O.Tags(m, item) == O.MergedTags(a, b, item)
    {
    }
  }

  lemma MergedProviders(p: set<Snapshot>, q: set<Snapshot>, a: Records, b: Records)
    requires ProvidersOf(p, a) && ProvidersOf(q, b)
    ensures ProvidersOf(p + q, MergedRecords(a, b))
  {
    var m := MergedRecords(a, b);
    forall k | k in m
      ensures HoldsRecord(p + q, k, m[k])
    {
      if k in a && m[k] == a[k] {
        assert HoldsRecord(p, k, m[k]);
      } else {
        assert HoldsRecord(q, k, m[k]);
      }
    }
    forall k, r | HoldsRecord(p + q, k, r)
      ensures k in m && !Supersedes(r, m[k])
    {
      assert HoldsRecord(p, k, r) || HoldsRecord(q, k, r);
      if k in a && k in b {
        SupersedesIsTransitive(r, a[k], b[k]);
        SupersedesIsTransitive(r, b[k], a[k]);
        LessIsTotal(a[k].writerId, b[k].writerId);
      }
    }
  }

  lemma MergedSlotsOf(site: string, a: Spend, b: Spend, t: string)
    ensures SlotsOf(MergedSpend(a, site, b), t) == GCounters.MergedSlots(SlotsOf(a, t), SlotsOf(b, t))
  {
  }

  lemma JoinedSlots(p: set<Snapshot>, q: set<Snapshot>, t: string, o: string, v: u64)
    ensures HoldsSlot(p + q, t, o, v) <==> HoldsSlot(p, t, o, v) || HoldsSlot(q, t, o, v)
  {
  }

  lemma MergedTenants(p: set<Snapshot>, q: set<Snapshot>, site: string, a: Spend, b: Spend)
    requires SpendOf(p, a) && SpendOf(q, b)
    ensures SpendOf(p + q, MergedSpend(a, site, b))
  {
    var m := MergedSpend(a, site, b);
    assert forall t :: HoldsTenant(p + q, t) <==> HoldsTenant(p, t) || HoldsTenant(q, t);
    forall t, o | o in SlotsOf(m, t)
      ensures HoldsSlot(p + q, t, o, SlotsOf(m, t)[o])
    {
      MergedSlotsOf(site, a, b, t);
      JoinedSlots(p, q, t, o, SlotsOf(m, t)[o]);
      if o in SlotsOf(a, t) && SlotsOf(m, t)[o] == SlotsOf(a, t)[o] {
        assert HoldsSlot(p, t, o, SlotsOf(a, t)[o]);
      } else {
        assert HoldsSlot(q, t, o, SlotsOf(b, t)[o]);
      }
    }
    forall t, o, v | HoldsSlot(p + q, t, o, v)
      ensures o in SlotsOf(m, t) && v <= SlotsOf(m, t)[o]
    {
      MergedSlotsOf(site, a, b, t);
      JoinedSlots(p, q, t, o, v);
    }
  }

  lemma {:induction false} CombinedHoldsItsLeaves(p: Plan)
    requires forall s | s in Leaves(p) :: WellFormed(s)
    ensures CapabilitiesOf(Leaves(p), Combined(p).capabilities)
    ensures ProvidersOf(Leaves(p), Combined(p).providers)
    ensures SpendOf(Leaves(p), Combined(p).tenantSpend)
  {
    match p
    case Take(s) =>
      TakeHoldsItself(s);
    case Join(a, b) =>
      CombinedHoldsItsLeaves(a);
      CombinedHoldsItsLeaves(b);
      MergedCapabilities(Leaves(a), Leaves(b), Combined(a).capabilities, Combined(b).capabilities);
      MergedProviders(Leaves(a), Leaves(b), Combined(a).providers, Combined(b).providers);
      MergedTenants(Leaves(a), Leaves(b), Combined(a).site, Combined(a).tenantSpend, Combined(b).tenantSpend);
  }

  /** Whatever is combined, each key ends at a leaf's record than which no leaf has a newer one. */
  lemma CombinedKeepsTheNewest(p: Plan, s: Snapshot, k: string)
    requires (forall t | t in Leaves(p) :: WellFormed(t)) && s in Leaves(p) && k in s.providers
    ensures var records := Combined(p).providers;
            && k in records
            && HoldsRecord(Leaves(p), k, records[k])
            && s.providers[k].revision <= records[k].revision
            && (s.providers[k].revision == records[k].revision ==>
                  !Earlier(records[k].writerId, s.providers[k].writerId))
  {
    CombinedHoldsItsLeaves(p);
    assert HoldsRecord(Leaves(p), k, s.providers[k]);
    LessIsEarlier(Combined(p).providers[k].writerId, s.providers[k].writerId);
  }

  lemma TakeHoldsItself(s: Snapshot)
    requires WellFormed(s)
    ensures CapabilitiesOf({s}, s.capabilities) && ProvidersOf({s}, s.providers) && SpendOf({s}, s.tenantSpend)
  {
    assert s in {s};
    forall k | k in s.providers
      ensures !Supersedes(s.providers[k], s.providers[k])
    {
      SupersedesIsTransitive(s.providers[k], s.providers[k], s.providers[k]);
    }
    forall item, t
      ensures t in O.Tags(s.capabilities, item) <==> HoldsTag({s}, item, t) && !HoldsTombstone({s}, t)
    {
    }
    assert forall t, o | o in SlotsOf(s.tenantSpend, t) :: HoldsSlot({s}, t, o, SlotsOf(s.tenantSpend, t)[o]);
  }

  // ---- And that determines what a replica shows ----

  /** What two replicas can compare: everything but the replica's own name and tag counter. */
  ghost predicate SameView(a: Snapshot, b: Snapshot) {
    && a.capabilities.entries == b.capabilities.entries
    && a.capabilities.tombstones == b.capabilities.tombstones
    && a.providers == b.providers
    && a.tenantSpend.Keys == b.tenantSpend.Keys
    && forall t :: SlotsOf(a.tenantSpend, t) == SlotsOf(b.tenantSpend, t)
  }

  /** A replica that holds nothing yet. */
  ghost predicate Blank(s: Snapshot) {
    && s.capabilities.entries == map[] && s.capabilities.tombstones == {}
    && s.providers == map[] && s.tenantSpend == map[]
  }

  ghost predicate ShownBy(s: Snapshot, leaves: set<Snapshot>) {
    exists t :: t in leaves && SameView(s, t)
  }

  /** Everything `p` shows, `q` shows. */
  ghost predicate Within(p: set<Snapshot>, q: set<Snapshot>) {
    forall s | s in p :: Blank(s) || ShownBy(s, q)
  }

  /** The same views up to repetition, replica names and blank replicas. */
  ghost predicate Alike(p: set<Snapshot>, q: set<Snapshot>) {
    Within(p, q) && Within(q, p)
  }

  lemma WithinTags(p: set<Snapshot>, q: set<Snapshot>, item: Capability, t: O.Tag)
    requires Within(p, q)
    ensures HoldsTag(p, item, t) ==> HoldsTag(q, item, t)
    ensures HoldsTombstone(p, t) ==> HoldsTombstone(q, t)
  {
    if HoldsTag(p, item, t) {
      var s :| s in p && t in O.Tags(s.capabilities, item);
      var s' :| s' in q && SameView(s, s');
      assert t in O.Tags(s'.capabilities, item);
    }
    if HoldsTombstone(p, t) {
      var s :| s in p && t in s.capabilities.tombstones;
      var s' :| s' in q && SameView(s, s');
    }
  }

  lemma WithinRecords(p: set<Snapshot>, q: set<Snapshot>, k: string, r: ProviderState)
    requires Within(p, q)
    ensures HoldsRecord(p, k, r) ==> HoldsRecord(q, k, r)
  {
    if HoldsRecord(p, k, r) {
      var s :| s in p && k in s.providers && s.providers[k] == r;
      var s' :| s' in q && SameView(s, s');
    }
  }

  lemma WithinSlots(p: set<Snapshot>, q: set<Snapshot>, tenant: string, site: string, value: u64)
    requires Within(p, q)
    ensures HoldsTenant(p, tenant) ==> HoldsTenant(q, tenant)
    ensures HoldsSlot(p, tenant, site, value) ==> HoldsSlot(q, tenant, site, value)
  {
    if HoldsTenant(p, tenant) {
      var s :| s in p && tenant in s.tenantSpend;
      var s' :| s' in q && SameView(s, s');
      assert tenant in s'.tenantSpend.Keys;
    }
    if HoldsSlot(p, tenant, site, value) {
      var s :| s in p && site in SlotsOf(s.tenantSpend, tenant) && SlotsOf(s.tenantSpend, tenant)[site] == value;
      var s' :| s' in q && SameView(s, s');
      assert SlotsOf(s'.tenantSpend, tenant) == SlotsOf(s.tenantSpend, tenant);
    }
  }

  lemma SameTags(
    p: set<Snapshot>, q: set<Snapshot>, a: O.State<Capability>, b: O.State<Capability>, item: Capability, t: O.Tag)
    requires Alike(p, q) && CapabilitiesOf(p, a) && CapabilitiesOf(q, b)
    ensures t in O.Tags(a, item) <==> t in O.Tags(b, item)
    ensures t in a.tombstones <==> t in b.tombstones
  {
    WithinTags(p, q, item, t);
    WithinTags(q, p, item, t);
  }

  lemma SameCapabilities(p: set<Snapshot>, q: set<Snapshot>, a: O.State<Capability>, b: O.State<Capability>)
    requires Alike(p, q) && CapabilitiesOf(p, a) && CapabilitiesOf(q, b)
    ensures a.entries == b.entries && a.tombstones == b.tombstones
  {
    forall item, t
      ensures t in O.Tags(a, item) <==> t in O.Tags(b, item)
    {
      SameTags(p, q, a, b, item, t);
    }
    TagsMakeEntries(a, b);
    forall t
      ensures t in a.tombstones <==> t in b.tombstones
    {
      SameTags(p, q, a, b, Model(""), t);
    }
  }

  lemma TagsMakeEntries(a: O.State<Capability>, b: O.State<Capability>)
    requires forall item, t :: t in O.Tags(a, item) <==> t in O.Tags(b, item)
    requires forall item | item in a.entries :: a.entries[item] != {}
    requires forall item | item in b.entries :: b.entries[item] != {}
    ensures a.entries == b.entries
  {
    forall item
      ensures O.Tags(a, item) == O.Tags(b, item)
    {
    }
    N.SameTagsSameEntries(a, b);
  }

  ghost predicate AgreeAt(a: Records, b: Records, k: string) {
    (k in a <==> k in b) && (k in a && k in b ==> a[k] == b[k])
  }

  lemma AgreeEverywhere(a: Records, b: Records)
    requires forall k :: AgreeAt(a, b, k)
    ensures a == b
  {
    assert forall k | AgreeAt(a, b, k) :: k in a <==> k in b;
  }

  lemma SameProviders(p: set<Snapshot>, q: set<Snapshot>, a: Records, b: Records)
    requires Alike(p, q) && OneRecordPerRevision(p) && ProvidersOf(p, a) && ProvidersOf(q, b)
    ensures a == b
  {
    forall k
      ensures AgreeAt(a, b, k)
    {
      SameRecord(p, q, a, b, k);
    }
    AgreeEverywhere(a, b);
  }

  lemma SameRecord(p: set<Snapshot>, q: set<Snapshot>, a: Records, b: Records, k: string)
    requires Alike(p, q) && OneRecordPerRevision(p) && ProvidersOf(p, a) && ProvidersOf(q, b)
    ensures AgreeAt(a, b, k)
  {
    if k in a {
      WithinRecords(p, q, k, a[k]);
    }
    if k in b {
      WithinRecords(q, p, k, b[k]);
    }
    if k in a && k in b {
      assert HoldsRecord(p, k, a[k]) && HoldsRecord(p, k, b[k]);
      NeitherSupersedes(p, k, a[k], b[k]);
    }
  }

  lemma NeitherSupersedes(p: set<Snapshot>, k: string, r: ProviderState, r': ProviderState)
    requires OneRecordPerRevision(p) && HoldsRecord(p, k, r) && HoldsRecord(p, k, r')
    requires !Supersedes(r, r') && !Supersedes(r', r)
    ensures r == r'
  {
    LessIsTotal(r.writerId, r'.writerId);
  }

  lemma SameTenants(p: set<Snapshot>, q: set<Snapshot>, a: Spend, b: Spend)
    requires Alike(p, q) && SpendOf(p, a) && SpendOf(q, b)
    ensures a.Keys == b.Keys
  {
    forall t
      ensures t in a <==> t in b
    {
      WithinSlots(p, q, t, "", 0);
      WithinSlots(q, p, t, "", 0);
    }
  }

  lemma SameSlots(p: set<Snapshot>, q: set<Snapshot>, a: Spend, b: Spend, t: string)
    requires Alike(p, q) && SpendOf(p, a) && SpendOf(q, b)
    ensures SlotsOf(a, t) == SlotsOf(b, t)
  {
    SlotsAtMost(p, q, a, b, t);
    SlotsAtMost(q, p, b, a, t);
    assert SlotsOf(a, t).Keys == SlotsOf(b, t).Keys;
  }

  lemma SameSpend(p: set<Snapshot>, q: set<Snapshot>, a: Spend, b: Spend)
    requires Alike(p, q) && SpendOf(p, a) && SpendOf(q, b)
    ensures a.Keys == b.Keys
    ensures forall t :: SlotsOf(a, t) == SlotsOf(b, t)
  {
    SameTenants(p, q, a, b);
    forall t
      ensures SlotsOf(a, t) == SlotsOf(b, t)
    {
      SameSlots(p, q, a, b, t);
    }
  }

  lemma SlotsAtMost(p: set<Snapshot>, q: set<Snapshot>, a: Spend, b: Spend, t: string)
    requires Within(p, q) && SpendOf(p, a) && SpendOf(q, b)
    ensures forall o | o in SlotsOf(a, t) :: o in SlotsOf(b, t) && SlotsOf(a, t)[o] <= SlotsOf(b, t)[o]
  {
    forall o | o in SlotsOf(a, t)
      ensures o in SlotsOf(b, t) && SlotsOf(a, t)[o] <= SlotsOf(b, t)[o]
    {
      WithinSlots(p, q, t, o, SlotsOf(a, t)[o]);
    }
  }

  /** Snapshot convergence: two plans over alike snapshots end in the same view. */
  lemma AlikeSnapshotsSameView(p: Plan, q: Plan)
    requires Alike(Leaves(p), Leaves(q)) && OneRecordPerRevision(Leaves(p))
    requires forall s | s in Leaves(p) + Leaves(q) :: WellFormed(s)
    ensures SameView(Combined(p), Combined(q))
  {
    CombinedHoldsItsLeaves(p);
    CombinedHoldsItsLeaves(q);
    var a, b := Combined(p), Combined(q);
    SameCapabilities(Leaves(p), Leaves(q), a.capabilities, b.capabilities);
    SameProviders(Leaves(p), Leaves(q), a.providers, b.providers);
    SameSpend(Leaves(p), Leaves(q), a.tenantSpend, b.tenantSpend);
  }

  /** Reusing a revision for two records breaks convergence: each side keeps its own. */
  lemma ReusedRevisionDiverges(a: Snapshot, b: Snapshot, k: string)
    requires k in a.providers && k in b.providers && a.providers[k] != b.providers[k]
    requires a.providers[k].revision == b.providers[k].revision && a.providers[k].writerId == b.providers[k].writerId
    ensures !SameView(Combined(Join(Take(a), Take(b))), Combined(Join(Take(b), Take(a))))
  {
    SupersedesIsTransitive(a.providers[k], a.providers[k], a.providers[k]);
    assert Merged(a, b).providers[k] == a.providers[k];
    assert Merged(b, a).providers[k] == b.providers[k];
  }
}
