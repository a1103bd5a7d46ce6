/**
 Every run of sites that keep grid state: each changes its own capabilities, providers and
 spend, takes snapshots, and merges or replaces from any snapshot ever taken, in any order and
 any number of times.
 */
module GridNetwork {
  import opened Prelude
  import opened Convergence
  import opened GridState
  import opened Providers
  import opened SpendIngest
  import opened TenantSpend
  import N = OrSetNetwork

  /** What a site keeps beside its capability set. */
  datatype Site = Site(providers: Records, spend: Spend)

  /** `sets` is the network of capability sets, `sent` every snapshot taken. */
  datatype World = World(sets: N.World<Capability>, sites: map<string, Site>, sent: seq<Snapshot>)

  datatype Step =
    | Start(site: string)
    | AddCapability(site: string, capability: Capability)
    | RemoveCapability(site: string, capability: Capability)
    | Upsert(site: string, provider: ProviderState)
    | Record(site: string, tenant: string, amount: u64)
    | Ingest(site: string, claims: seq<Claim>)
    | Retire(site: string, origin: string)
    | Send(site: string)
    | Receive(site: string, message: nat)
    | Replace(site: string, origin: string, revision: u64, networks: Option<set<string>>, message: nat)

  /** The step of the capability sets, if there is one. */
  function OnSets(step: Step): Option<N.Step<Capability>> {
    match step
    case Start(site) => Some(N.Start(site))
    case AddCapability(site, c) => Some(N.Add(site, c))
    case RemoveCapability(site, c) => Some(N.Remove(site, c))
    case Send(site) => Some(N.Snapshot(site))
    case Receive(site, m) => Some(N.Deliver(site, m))
    case _ => None
  }

  ghost function OnSite(s: Site, step: Step, sent: seq<Snapshot>): Site {
    match step
    case Start(_) => Site(map[], map[])
    case Upsert(_, p) => s.(providers := Upserted(s.providers, p))
    case Record(site, tenant, amount) => s.(spend := Recorded(s.spend, site, tenant, amount))
    case Retire(_, origin) => s.(spend := Retired(s.spend, origin))
    case Ingest(site, claims) => s.(spend := IngestedAll(s.spend, site, claims))
    case Receive(site, m) =>
      if m >= |sent| then s
      else Site(MergedRecords(s.providers, sent[m].providers), MergedSpend(s.spend, site, sent[m].tenantSpend))
    case Replace(_, origin, revision, networks, m) =>
      if m >= |sent| then s
      else s.(providers := Replaced(s.providers, origin, revision, networks, sent[m].providers))
    case _ => s
  }

  ghost function SnapshotOf(w: World, site: string): Snapshot
    requires site in w.sites && site in w.sets.replicas
  {
    Snapshot(site, w.sets.replicas[site].state, w.sites[site].providers, w.sites[site].spend)
  }

  ghost function Next(w: World, step: Step): World {
    if !step.Start? && (step.site !in w.sites || step.site !in w.sets.replicas) then w
    else
      var sets := if OnSets(step).Some? then N.Next(w.sets, OnSets(step).value) else w.sets;
      var s := if step.site in w.sites then w.sites[step.site] else Site(map[], map[]);
      World(sets, w.sites[step.site := OnSite(s, step, w.sent)],
            if step.Send? then w.sent + [SnapshotOf(w, step.site)] else w.sent)
  }

  ghost function Run(w: World, steps: seq<Step>): World {
    if steps == [] then w else Next(Run(w, steps[..|steps| - 1]), steps[|steps| - 1])
  }

  ghost function After(steps: seq<Step>): World {
    Run(World(N.World([], map[], []), map[], []), steps)
  }

  /** Sites and snapshots go with the network of sets, and records stand under their own keys. */
  ghost predicate Aligned(w: World) {
    && w.sites.Keys == w.sets.replicas.Keys
    && (forall site | site in w.sites :: WellKeyed(w.sites[site].providers))
    && |w.sent| == |w.sets.sent|
    && (forall m | 0 <= m < |w.sent| ::
          w.sent[m].capabilities == w.sets.sent[m].state && WellKeyed(w.sent[m].providers))
  }

  ghost predicate Inv(w: World) {
    N.Inv(w.sets) && Aligned(w)
  }

  lemma OnSiteKeepsKeys(s: Site, step: Step, sent: seq<Snapshot>)
    requires WellKeyed(s.providers) && forall m | 0 <= m < |sent| :: WellKeyed(sent[m].providers)
    ensures WellKeyed(OnSite(s, step, sent).providers)
  {
  }

  /** Capability sets step as the network of sets does. */
  lemma SetsStep(w: World, step: Step)
    requires N.Inv(w.sets)
    ensures N.Inv(Next(w, step).sets)
  {
    if OnSets(step).Some? {
      N.NextKeepsInv(w.sets, OnSets(step).value);
    }
  }

  lemma SetsShape(sets: N.World<Capability>, step: Step)
    requires OnSets(step).Some? && (step.Start? || step.site in sets.replicas)
    ensures var sets' := N.Next(sets, OnSets(step).value);
            && sets'.replicas.Keys == sets.replicas.Keys + {step.site}
            && sets'.sent == if step.Send? then sets.sent + [sets.replicas[step.site]] else sets.sent
  {
  }

  lemma NextKeepsAligned(w: World, step: Step)
    requires Aligned(w)
    ensures Aligned(Next(w, step))
  {
    if step.Start? || step.site in w.sites {
      if OnSets(step).Some? {
        SetsShape(w.sets, step);
      }
      var s := if step.site in w.sites then w.sites[step.site] else Site(map[], map[]);
      OnSiteKeepsKeys(s, step, w.sent);
    }
  }

  lemma NextKeepsInv(w: World, step: Step)
    requires Inv(w)
    ensures Inv(Next(w, step))
  {
    SetsStep(w, step);
    NextKeepsAligned(w, step);
  }

  lemma {:induction false} RunKeepsInv(w: World, steps: seq<Step>)
    requires Inv(w)
    ensures Inv(Run(w, steps))
  {
    if steps != [] {
      RunKeepsInv(w, steps[..|steps| - 1]);
      NextKeepsInv(Run(w, steps[..|steps| - 1]), steps[|steps| - 1]);
    }
  }

  lemma AfterKeepsInv(steps: seq<Step>)
    ensures Inv(After(steps))
  {
    RunKeepsInv(World(N.World([], map[], []), map[], []), steps);
  }

  /** A snapshot some site took, or a site's state as it is. */
  ghost predicate Present(w: World, s: Snapshot) {
    || s in w.sent
    || exists site :: site in w.sites && site in w.sets.replicas && s == SnapshotOf(w, site)
  }

  lemma PresentIsWellFormed(w: World, s: Snapshot)
    requires Inv(w) && Present(w, s)
    ensures WellFormed(s)
  {
    if s in w.sent {
      var m :| 0 <= m < |w.sent| && w.sent[m] == s;
      GoodIsPruned(w.sets.log, w.sets.sent[m]);
    } else {
      var site :| site in w.sites && site in w.sets.replicas && s == SnapshotOf(w, site);
      GoodIsPruned(w.sets.log, w.sets.replicas[site]);
    }
  }

  /**
   Snapshot convergence in every run: any two ways of combining alike states and snapshots, whatever
   the order, the grouping, the repetition and the replica they are combined on, show the same view,
   as long as a writer never reuses a revision for a different record.
   */
  lemma SnapshotsOfARunConverge(steps: seq<Step>, p: Plan, q: Plan)
    requires Alike(Leaves(p), Leaves(q)) && OneRecordPerRevision(Leaves(p))
    requires forall s | s in Leaves(p) + Leaves(q) :: Present(After(steps), s)
    ensures SameView(Combined(p), Combined(q))
  {
    AfterKeepsInv(steps);
    forall s | s in Leaves(p) + Leaves(q)
      ensures WellFormed(s)
    {
      PresentIsWellFormed(After(steps), s);
    }
    AlikeSnapshotsSameView(p, q);
  }

  // ---- Two sites of one run ----

  /** The site changes nothing of its own: it only receives and sends. */
  predicate OnlyListens(steps: seq<Step>, site: string) {
    forall i | 0 <= i < |steps| && steps[i].site == site :: steps[i].Receive? || steps[i].Send?
  }

  /** The snapshot a step delivers to the site, if it does. */
  ghost function Delivered(w: World, step: Step, site: string): Option<Snapshot> {
    if step.Receive? && step.site == site && step.message < |w.sent| then Some(w.sent[step.message]) else None
  }

  /** The merges a listening site makes over a run, as a plan. */
  ghost function Listened(w: World, steps: seq<Step>, site: string): Plan
    requires site in w.sites && site in w.sets.replicas
  {
    if steps == [] then Take(SnapshotOf(w, site))
    else
      var init := Listened(w, steps[..|steps| - 1], site);
      var got := Delivered(Run(w, steps[..|steps| - 1]), steps[|steps| - 1], site);
      if got.Some? then Join(init, Take(got.value)) else init
  }

  /** Every snapshot delivered to the site over a run. */
  ghost function Got(w: World, steps: seq<Step>, site: string): set<Snapshot> {
    if steps == [] then {}
    else
      var got := Delivered(Run(w, steps[..|steps| - 1]), steps[|steps| - 1], site);
      Got(w, steps[..|steps| - 1], site) + if got.Some? then {got.value} else {}
  }

  lemma {:induction false} LeavesListened(w: World, steps: seq<Step>, site: string)
    requires site in w.sites && site in w.sets.replicas
    ensures Leaves(Listened(w, steps, site)) == {SnapshotOf(w, site)} + Got(w, steps, site)
  {
    if steps != [] {
      LeavesListened(w, steps[..|steps| - 1], site);
    }
  }

  /** Receiving is merging. */
  lemma ReceiveMerges(w: World, site: string, m: nat)
    requires Aligned(w) && site in w.sites && m < |w.sent|
    ensures var v := Next(w, Receive(site, m));
            && site in v.sites && site in v.sets.replicas
            && SnapshotOf(v, site) == Merged(SnapshotOf(w, site), w.sent[m])
  {
    assert w.sets.sent[m].state == w.sent[m].capabilities;
  }

  /** What others do, and sending, leaves a site as it is. */
  lemma OthersLeave(w: World, step: Step, site: string)
    requires Aligned(w) && site in w.sites
    requires step.site != site || step.Send? || (step.Receive? && step.message >= |w.sent|)
    ensures var v := Next(w, step);
            site in v.sites && site in v.sets.replicas && SnapshotOf(v, site) == SnapshotOf(w, site)
  {
  }

  lemma {:induction false} ListeningCombines(w: World, steps: seq<Step>, site: string)
    requires Inv(w) && site in w.sites && OnlyListens(steps, site)
    ensures site in Run(w, steps).sites && site in Run(w, steps).sets.replicas
    ensures SnapshotOf(Run(w, steps), site) == Combined(Listened(w, steps, site))
  {
    if steps != [] {
      var init, last := steps[..|steps| - 1], steps[|steps| - 1];
      assert forall i | 0 <= i < |init| :: init[i] == steps[i];
      ListeningCombines(w, init, site);
      RunKeepsInv(w, init);
      if Delivered(Run(w, init), last, site).Some? {
        ReceiveMerges(Run(w, init), site, last.message);
      } else {
        OthersLeave(Run(w, init), last, site);
      }
    }
  }

  lemma {:induction false} GotIsWellFormed(w: World, steps: seq<Step>, site: string, s: Snapshot)
    requires Inv(w) && s in Got(w, steps, site)
    ensures WellFormed(s)
  {
    var init := steps[..|steps| - 1];
    if s in Got(w, init, site) {
      GotIsWellFormed(w, init, site, s);
    } else {
      RunKeepsInv(w, init);
      assert s in Run(w, init).sent;
      PresentIsWellFormed(Run(w, init), s);
    }
  }

  /**
   Two sites of any run converge: from any reachable state, whatever all other sites do meanwhile, if
   what the one had and got and what the other had and got are alike, in whatever order and number
   it came, they end with the same view. So do sites that started alike and got the same snapshots,
   a blank joiner that got what another holds, and two sites that got each other's snapshots.
   */
  lemma ListeningSitesConverge(before: seq<Step>, steps: seq<Step>, a: string, b: string)
    requires var w := After(before);
             && a in w.sites && b in w.sites && a in w.sets.replicas && b in w.sets.replicas
             && OnlyListens(steps, a) && OnlyListens(steps, b)
             && Alike({SnapshotOf(w, a)} + Got(w, steps, a), {SnapshotOf(w, b)} + Got(w, steps, b))
             && OneRecordPerRevision({SnapshotOf(w, a)} + Got(w, steps, a))
    ensures var v := Run(After(before), steps);
            && a in v.sites && b in v.sites && a in v.sets.replicas && b in v.sets.replicas
            && SameView(SnapshotOf(v, a), SnapshotOf(v, b))
  {
    var w := After(before);
    AfterKeepsInv(before);
    ListeningCombines(w, steps, a);
    ListeningCombines(w, steps, b);
    LeavesListened(w, steps, a);
    LeavesListened(w, steps, b);
    forall s | s in Leaves(Listened(w, steps, a)) + Leaves(Listened(w, steps, b))
      ensures WellFormed(s)
    {
      ListenedIsWellFormed(w, steps, a, s);
      ListenedIsWellFormed(w, steps, b, s);
    }
    AlikeSnapshotsSameView(Listened(w, steps, a), Listened(w, steps, b));
  }

  lemma ListenedIsWellFormed(w: World, steps: seq<Step>, site: string, s: Snapshot)
    requires Inv(w) && site in w.sites && site in w.sets.replicas
    ensures s in {SnapshotOf(w, site)} + Got(w, steps, site) ==> WellFormed(s)
  {
    if s in Got(w, steps, site) {
      GotIsWellFormed(w, steps, site, s);
    } else if s == SnapshotOf(w, site) {
      PresentIsWellFormed(w, s);
    }
  }

  /** Over any run a listening site ends, at each key, no older than anything it had or got. */
  lemma ListeningSiteHoldsTheNewest(before: seq<Step>, steps: seq<Step>, site: string, s: Snapshot, k: string)
    requires var w := After(before);
             && site in w.sites && site in w.sets.replicas && OnlyListens(steps, site)
             && s in {SnapshotOf(w, site)} + Got(w, steps, site) && k in s.providers
    ensures var v := Run(After(before), steps);
            && site in v.sites && k in v.sites[site].providers
            && var held := v.sites[site].providers[k];
               && s.providers[k].revision <= held.revision
               && (s.providers[k].revision == held.revision ==> !Earlier(held.writerId, s.providers[k].writerId))
  {
    var w := After(before);
    AfterKeepsInv(before);
    ListeningCombines(w, steps, site);
    LeavesListened(w, steps, site);
    forall t | t in Leaves(Listened(w, steps, site))
      ensures WellFormed(t)
    {
      ListenedIsWellFormed(w, steps, site, t);
    }
    CombinedKeepsTheNewest(Listened(w, steps, site), s, k);
  }

  /** In particular: sites that show the same and get the same snapshots, in any order and number. */
  lemma SameMessagesSameView(before: seq<Step>, steps: seq<Step>, a: string, b: string)
    requires var w := After(before);
             && a in w.sites && b in w.sites && a in w.sets.replicas && b in w.sets.replicas
             && OnlyListens(steps, a) && OnlyListens(steps, b)
             && SameView(SnapshotOf(w, a), SnapshotOf(w, b)) && Got(w, steps, a) == Got(w, steps, b)
             && OneRecordPerRevision({SnapshotOf(w, a)} + Got(w, steps, a))
    ensures var v := Run(After(before), steps);
            && a in v.sites && b in v.sites && a in v.sets.replicas && b in v.sets.replicas
            && SameView(SnapshotOf(v, a), SnapshotOf(v, b))
  {
    var w := After(before);
    OneLeafAlike(SnapshotOf(w, a), SnapshotOf(w, b), Got(w, steps, a));
    ListeningSitesConverge(before, steps, a, b);
  }

  lemma OneLeafAlike(s: Snapshot, t: Snapshot, rest: set<Snapshot>)
    requires SameView(s, t)
    ensures Alike({s} + rest, {t} + rest)
  {
    assert SameView(t, s);
    assert t in {t} + rest && s in {s} + rest;
    assert forall r | r in rest :: SameView(r, r) && r in {t} + rest && r in {s} + rest;
  }
}
