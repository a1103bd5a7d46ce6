/**
 Every run of a network of observed-remove sets: one writer per site, snapshots taken at
 any time and delivered late, repeatedly, out of order or never, and writers that lose
 their state and come back.

 The specification is the operation history alone. A replica has *observed* some
 operations; an add is visible to it unless it also observed a remove of the same item
 whose author had observed that add.
 */
module OrSetNetwork {
  import opened Prelude
  import opened OrSets

  /** One operation of the global history. `seen` holds what the remover had observed. */
  datatype Op<T> = AddOp(item: T, tag: Tag) | RemoveOp(item: T, seen: set<nat>)

  /** A set together with the operations it has observed; also the content of a snapshot. */
  datatype Replica<T> = Replica(state: State<T>, seen: set<nat>)

  datatype World<T> = World(log: seq<Op<T>>, replicas: map<string, Replica<T>>, sent: seq<Replica<T>>)

  /** `Start` is a first start or a restart that lost everything. */
  datatype Step<T> =
    | Start(site: string)
    | Add(site: string, item: T)
    | Remove(site: string, item: T)
    | Snapshot(site: string)
    | Deliver(site: string, message: nat)

  ghost predicate IsAdd<T>(log: seq<Op<T>>, a: int) {
    0 <= a < |log| && log[a].AddOp?
  }

  ghost predicate IsRemove<T>(log: seq<Op<T>>, r: int) {
    0 <= r < |log| && log[r].RemoveOp?
  }

  /** An observed remove of the same item had itself observed add `a`. */
  ghost predicate Covered<T>(log: seq<Op<T>>, seen: set<nat>, a: int)
    requires IsAdd(log, a)
  {
    exists r :: r in seen && IsRemove(log, r) && log[r].item == log[a].item && a in log[r].seen
  }

  /** Observed and not covered: the adds that keep an item in the set. */
  ghost predicate Live<T>(log: seq<Op<T>>, seen: set<nat>, a: int) {
    a in seen && IsAdd(log, a) && !Covered(log, seen, a)
  }

  /** The add-wins specification of membership. */
  ghost predicate Visible<T>(log: seq<Op<T>>, seen: set<nat>, item: T) {
    exists a :: Live(log, seen, a) && log[a].item == item
  }

  /** The caller contract of a reused site identity: all its prior adds have been merged back. */
  ghost predicate Recovered<T>(w: World<T>, site: string)
    requires site in w.replicas
  {
    forall a | IsAdd(w.log, a) && w.log[a].tag.site == site :: a in w.replicas[site].seen
  }

  ghost predicate Enabled<T>(w: World<T>, step: Step<T>) {
    match step
    case Start(_) => true
    case Add(site, _) => site in w.replicas && Recovered(w, site) && w.replicas[site].state.counter < U64_MAX
    case Remove(site, _) => site in w.replicas
    case Snapshot(site) => site in w.replicas
    case Deliver(site, m) => site in w.replicas && m < |w.sent|
  }

  ghost function Next<T>(w: World<T>, step: Step<T>): World<T> {
    if !Enabled(w, step) then w
    else match step
      case Start(site) =>
        w.(replicas := w.replicas[site := Replica(New(site), {})])
      case Add(site, item) =>
        var r := w.replicas[site];
        w.(log := w.log + [AddOp(item, NextTag(r.state))],
           replicas := w.replicas[site := Replica(Added(r.state, item), r.seen + {|w.log|})])
      case Remove(site, item) =>
        var r := w.replicas[site];
        w.(log := w.log + [RemoveOp(item, r.seen)],
           replicas := w.replicas[site := Replica(Removed(r.state, item), r.seen + {|w.log|})])
      case Snapshot(site) =>
        w.(sent := w.sent + [w.replicas[site]])
      case Deliver(site, m) =>
        var r, s := w.replicas[site], w.sent[m];
        w.(replicas := w.replicas[site := Replica(Merged(r.state, s.state), r.seen + s.seen)])
  }

  /** The world after a run; a step that is not enabled changes nothing. */
  ghost function After<T>(steps: seq<Step<T>>): World<T> {
    if steps == [] then World([], map[], [])
    else Next(After(steps[..|steps| - 1]), steps[|steps| - 1])
  }

  // ---- The invariant ----

  ghost predicate TagsUnique<T>(log: seq<Op<T>>) {
    forall a, b | IsAdd(log, a) && IsAdd(log, b) && log[a].tag == log[b].tag :: a == b
  }

  /** What a replica observed is closed under what its observed removes had observed. */
  ghost predicate Causal<T>(log: seq<Op<T>>, seen: set<nat>) {
    && (forall i | i in seen :: i < |log|)
    && (forall r | r in seen && IsRemove(log, r) :: log[r].seen <= seen)
  }

  ghost predicate LiveTag<T>(log: seq<Op<T>>, seen: set<nat>, item: T, t: Tag) {
    exists a :: Live(log, seen, a) && log[a].item == item && log[a].tag == t
  }

  ghost predicate DeadTag<T>(log: seq<Op<T>>, seen: set<nat>, t: Tag) {
    exists a :: a in seen && IsAdd(log, a) && log[a].tag == t && Covered(log, seen, a)
  }

  /** The state holds exactly what the history says it should. */
  ghost predicate Refines<T(!new)>(log: seq<Op<T>>, r: Replica<T>) {
    && (forall item, t :: t in Tags(r.state, item) <==> LiveTag(log, r.seen, item, t))
    && (forall t :: t in r.state.tombstones <==> DeadTag(log, r.seen, t))
    && (forall item | item in r.state.entries :: r.state.entries[item] != {})
  }

  /** The counter is past every tag of this site the state holds. */
  ghost predicate OwnBounded<T>(s: State<T>) {
    forall t | t in AllTags(s) && t.site == s.site :: t.counter <= s.counter
  }

  ghost predicate Good<T(!new)>(log: seq<Op<T>>, r: Replica<T>) {
    Causal(log, r.seen) && Refines(log, r) && OwnBounded(r.state)
  }

  ghost predicate Inv<T(!new)>(w: World<T>) {
    && TagsUnique(w.log)
    && (forall site | site in w.replicas :: w.replicas[site].state.site == site && Good(w.log, w.replicas[site]))
    && (forall m | 0 <= m < |w.sent| :: Good(w.log, w.sent[m]))
  }

  // ---- Preservation ----

  /** A longer history means the same for what was already observed. */
  lemma LogGrows<T(!new)>(log: seq<Op<T>>, op: Op<T>, r: Replica<T>)
    requires Good(log, r)
    ensures Good(log + [op], r)
  {
    var log' := log + [op];
    assert forall a | IsAdd(log, a) :: IsAdd(log', a) && log'[a] == log[a];
    assert forall i | i in r.seen :: IsAdd(log', i) == IsAdd(log, i) && IsRemove(log', i) == IsRemove(log, i);
    forall a | a in r.seen && IsAdd(log, a)
      ensures Covered(log', r.seen, a) == Covered(log, r.seen, a)
    {
    }
    forall item, t
      ensures LiveTag(log', r.seen, item, t) == LiveTag(log, r.seen, item, t)
    {
    }
    forall t
      ensures DeadTag(log', r.seen, t) == DeadTag(log, r.seen, t)
    {
    }
  }

  /** Every observed add is still mentioned by the state, live or tombstoned. */
  lemma SeenTagsHeld<T(!new)>(log: seq<Op<T>>, r: Replica<T>, a: int)
    requires Good(log, r) && a in r.seen && IsAdd(log, a)
    ensures log[a].tag in AllTags(r.state)
  {
    var t := log[a].tag;
    if Covered(log, r.seen, a) {
      assert DeadTag(log, r.seen, t);
    } else {
      assert Live(log, r.seen, a);
      assert LiveTag(log, r.seen, log[a].item, t);
      assert t in Tags(r.state, log[a].item);
    }
  }

  lemma MergeCoverage<T(!new)>(log: seq<Op<T>>, p: set<nat>, q: set<nat>, a: int)
    requires Causal(log, p) && Causal(log, q) && IsAdd(log, a) && a in p + q
    ensures Covered(log, p + q, a) <==> (a in p && Covered(log, p, a)) || (a in q && Covered(log, q, a))
  {
  }

  lemma MergeRefines<T(!new)>(log: seq<Op<T>>, p: Replica<T>, q: Replica<T>)
    requires TagsUnique(log) && Good(log, p) && Good(log, q)
    ensures Good(log, Replica(Merged(p.state, q.state), p.seen + q.seen))
  {
    var m := Replica(Merged(p.state, q.state), p.seen + q.seen);
    forall t
      ensures t in m.state.tombstones <==> DeadTag(log, m.seen, t)
    {
      MergeDead(log, p, q, t);
    }
    forall item, t
      ensures t in Tags(m.state, item) <==> LiveTag(log, m.seen, item, t)
    {
      MergeLive(log, p, q, item, t);
    }
    MergeBounded(p.state, q.state);
  }

  lemma MergeDead<T(!new)>(log: seq<Op<T>>, p: Replica<T>, q: Replica<T>, t: Tag)
    requires Good(log, p) && Good(log, q)
    ensures DeadTag(log, p.seen + q.seen, t) <==> t in p.state.tombstones || t in q.state.tombstones
  {
    forall a | a in p.seen + q.seen && IsAdd(log, a)
      ensures Covered(log, p.seen + q.seen, a) <==>
              (a in p.seen && Covered(log, p.seen, a)) || (a in q.seen && Covered(log, q.seen, a))
    {
      MergeCoverage(log, p.seen, q.seen, a);
    }
  }

  lemma MergeLive<T(!new)>(log: seq<Op<T>>, p: Replica<T>, q: Replica<T>, item: T, t: Tag)
    requires TagsUnique(log) && Good(log, p) && Good(log, q)
    ensures LiveTag(log, p.seen + q.seen, item, t) <==> t in MergedTags(p.state, q.state, item)
  {
    var both := p.seen + q.seen;
    MergeDead(log, p, q, t);
    if LiveTag(log, both, item, t) {
      var a :| Live(log, both, a) && log[a].item == item && log[a].tag == t;
      assert !DeadTag(log, both, t);
      MergeCoverage(log, p.seen, q.seen, a);
      if a in p.seen {
        assert LiveTag(log, p.seen, item, t);
      } else {
        assert LiveTag(log, q.seen, item, t);
      }
    }
    if t in MergedTags(p.state, q.state, item) {
      assert !DeadTag(log, both, t);
      var seen := if t in Tags(p.state, item) then p.seen else q.seen;
      assert LiveTag(log, seen, item, t);
      var a :| Live(log, seen, a) && log[a].item == item && log[a].tag == t;
      assert Live(log, both, a);
    }
  }

  lemma MergeBounded<T>(p: State<T>, q: State<T>)
    requires OwnBounded(p)
    ensures OwnBounded(Merged(p, q))
  {
    var m := Merged(p, q);
    forall t | t in AllTags(m)
      ensures t in AllTags(p) || t in AllTags(q)
    {
      if t !in m.tombstones {
        var item :| item in m.entries && t in m.entries[item];
        assert t in Tags(p, item) || t in Tags(q, item);
      }
    }
  }

  lemma AddRefines<T(!new)>(log: seq<Op<T>>, r: Replica<T>, item: T)
    requires Good(log, r) && r.state.counter < U64_MAX
    requires forall a | IsAdd(log, a) :: log[a].tag != NextTag(r.state)
    ensures Good(log + [AddOp(item, NextTag(r.state))], Replica(Added(r.state, item), r.seen + {|log|}))
  {
    var tag := NextTag(r.state);
    var log' := log + [AddOp(item, tag)];
    var seen' := r.seen + {|log|};
    LogGrows(log, AddOp(item, tag), r);
    assert IsAdd(log', |log|);
    assert !Covered(log', seen', |log|);
    forall a | a in r.seen && IsAdd(log', a)
      ensures Covered(log', seen', a) == Covered(log', r.seen, a)
    {
    }
    forall x, t
      ensures LiveTag(log', seen', x, t) <==> LiveTag(log', r.seen, x, t) || (x == item && t == tag)
    {
      if x == item && t == tag {
        assert Live(log', seen', |log|);
      }
    }
    forall t
      ensures DeadTag(log', seen', t) <==> DeadTag(log', r.seen, t)
    {
    }
    var s' := Added(r.state, item);
    forall t | t in AllTags(s')
      ensures t in AllTags(r.state) || t == tag
    {
      if t !in s'.tombstones {
        var x :| x in s'.entries && t in s'.entries[x];
        assert t in Tags(r.state, x) || t == tag;
      }
    }
  }

  lemma RemoveRefines<T(!new)>(log: seq<Op<T>>, r: Replica<T>, item: T)
    requires TagsUnique(log) && Good(log, r)
    ensures Good(log + [RemoveOp(item, r.seen)], Replica(Removed(r.state, item), r.seen + {|log|}))
  {
    var op := RemoveOp(item, r.seen);
    var log' := log + [op];
    var seen' := r.seen + {|log|};
    LogGrows(log, op, r);
    assert IsRemove(log', |log|);
    forall a | a in r.seen && IsAdd(log', a)
      ensures Covered(log', seen', a) <==> Covered(log', r.seen, a) || log'[a].item == item
    {
      if log'[a].item == item {
        assert |log| in seen' && a in log'[|log|].seen;
      }
    }
    var s' := Removed(r.state, item);
    forall x, t
      ensures LiveTag(log', seen', x, t) <==> LiveTag(log', r.seen, x, t) && x != item
    {
    }
    forall t
      ensures DeadTag(log', seen', t) <==> DeadTag(log', r.seen, t) || LiveTag(log', r.seen, item, t)
    {
    }
    forall t | t in AllTags(s')
      ensures t in AllTags(r.state)
    {
      if t !in r.state.tombstones && t !in Tags(r.state, item) {
        var x :| x in s'.entries && t in s'.entries[x];
        assert t in Tags(r.state, x);
      }
    }
  }

  /** A recovered writer's next tag has never been used, by this or an earlier incarnation. */
  lemma NextTagFresh<T(!new)>(w: World<T>, site: string)
    requires Inv(w) && site in w.replicas && Recovered(w, site) && w.replicas[site].state.counter < U64_MAX
    ensures forall a | IsAdd(w.log, a) :: w.log[a].tag != NextTag(w.replicas[site].state)
  {
    var r := w.replicas[site];
    forall a | IsAdd(w.log, a)
      ensures w.log[a].tag != NextTag(r.state)
    {
      if w.log[a].tag.site == site {
        SeenTagsHeld(w.log, r, a);
      }
    }
  }

  lemma AddKeepsInv<T(!new)>(w: World<T>, site: string, item: T)
    requires Inv(w) && Enabled(w, Add(site, item))
    ensures Inv(Next(w, Add(site, item)))
  {
    NextTagFresh(w, site);
    AddRefines(w.log, w.replicas[site], item);
    OthersGrow(w, AddOp(item, NextTag(w.replicas[site].state)));
  }

  lemma RemoveKeepsInv<T(!new)>(w: World<T>, site: string, item: T)
    requires Inv(w) && Enabled(w, Remove(site, item))
    ensures Inv(Next(w, Remove(site, item)))
  {
    RemoveRefines(w.log, w.replicas[site], item);
    OthersGrow(w, RemoveOp(item, w.replicas[site].seen));
  }

  lemma DeliverKeepsInv<T(!new)>(w: World<T>, site: string, m: nat)
    requires Inv(w) && Enabled(w, Deliver(site, m))
    ensures Inv(Next(w, Deliver(site, m)))
  {
    MergeRefines(w.log, w.replicas[site], w.sent[m]);
  }

  lemma NextKeepsInv<T(!new)>(w: World<T>, step: Step<T>)
    requires Inv(w)
    ensures Inv(Next(w, step))
  {
    if Enabled(w, step) {
      match step
      case Start(site) =>
      case Add(site, item) => AddKeepsInv(w, site, item);
      case Remove(site, item) => RemoveKeepsInv(w, site, item);
      case Snapshot(site) =>
      case Deliver(site, m) => DeliverKeepsInv(w, site, m);
    }
  }

  lemma OthersGrow<T(!new)>(w: World<T>, op: Op<T>)
    requires Inv(w)
    ensures forall site | site in w.replicas :: Good(w.log + [op], w.replicas[site])
    ensures forall m | 0 <= m < |w.sent| :: Good(w.log + [op], w.sent[m])
  {
    forall site | site in w.replicas
      ensures Good(w.log + [op], w.replicas[site])
    {
      LogGrows(w.log, op, w.replicas[site]);
    }
    forall m | 0 <= m < |w.sent|
      ensures Good(w.log + [op], w.sent[m])
    {
      LogGrows(w.log, op, w.sent[m]);
    }
  }

  lemma {:induction false} RunKeepsInv<T(!new)>(steps: seq<Step<T>>)
    ensures Inv(After(steps))
  {
    if steps != [] {
      RunKeepsInv(steps[..|steps| - 1]);
      NextKeepsInv(After(steps[..|steps| - 1]), steps[|steps| - 1]);
    }
  }

  // ---- Theorems ----

  /** Every replica of every run holds exactly what its observed operations call for. */
  lemma RefinesHistory<T(!new)>(steps: seq<Step<T>>, site: string)
    requires site in After(steps).replicas
    ensures var w := After(steps);
            var r := w.replicas[site];
            && (forall item :: Contains(r.state, item) <==> Visible(w.log, r.seen, item))
            && (forall item, t :: t in Tags(r.state, item) <==> LiveTag(w.log, r.seen, item, t))
            && (forall t :: t in r.state.tombstones <==> DeadTag(w.log, r.seen, t))
            && r.state.entries.Keys == set item | item in r.state.entries && Visible(w.log, r.seen, item)
  {
    RunKeepsInv(steps);
    var w := After(steps);
    var r := w.replicas[site];
    forall item
      ensures Contains(r.state, item) <==> Visible(w.log, r.seen, item)
    {
      if Contains(r.state, item) {
        var t :| t in Tags(r.state, item);
        assert LiveTag(w.log, r.seen, item, t);
      }
      if Visible(w.log, r.seen, item) {
        var a :| Live(w.log, r.seen, a) && w.log[a].item == item;
        assert LiveTag(w.log, r.seen, item, w.log[a].tag);
      }
    }
    assert forall item | item in r.state.entries :: Contains(r.state, item);
  }

  lemma SameSeenSameTags<T(!new)>(log: seq<Op<T>>, r: Replica<T>, r': Replica<T>)
    requires Good(log, r) && Good(log, r') && r.seen == r'.seen
    ensures forall item :: Tags(r.state, item) == Tags(r'.state, item)
    ensures r.state.tombstones == r'.state.tombstones
    ensures forall item | item in r.state.entries :: Tags(r.state, item) != {}
    ensures forall item | item in r'.state.entries :: Tags(r'.state, item) != {}
  {
    forall item
      ensures Tags(r.state, item) == Tags(r'.state, item)
    {
    }
  }

  lemma SameTagsSameEntries<T(!new)>(a: State<T>, b: State<T>)
    requires forall item :: Tags(a, item) == Tags(b, item)
    requires forall item | item in a.entries :: Tags(a, item) != {}
    requires forall item | item in b.entries :: Tags(b, item) != {}
    ensures a.entries == b.entries
  {
    forall item
      ensures item in a.entries <==> item in b.entries
      ensures item in a.entries && item in b.entries ==> a.entries[item] == b.entries[item]
    {
      assert Tags(a, item) == Tags(b, item);
    }
  }

  /** Strong convergence: the same observed operations, the same set, whatever the route. */
  lemma SameOperationsSameSet<T(!new)>(steps: seq<Step<T>>, p: string, q: string)
    requires p in After(steps).replicas && q in After(steps).replicas
    requires After(steps).replicas[p].seen == After(steps).replicas[q].seen
    ensures After(steps).replicas[p].state.entries == After(steps).replicas[q].state.entries
    ensures After(steps).replicas[p].state.tombstones == After(steps).replicas[q].state.tombstones
  {
    RunKeepsInv(steps);
    var w := After(steps);
    SameSeenSameTags(w.log, w.replicas[p], w.replicas[q]);
    SameTagsSameEntries(w.replicas[p].state, w.replicas[q].state);
  }

  /** Add wins: an observed add survives unless some observed remove had observed it. */
  lemma UncoveredAddWins<T(!new)>(steps: seq<Step<T>>, site: string, a: int)
    requires site in After(steps).replicas
    requires a in After(steps).replicas[site].seen && IsAdd(After(steps).log, a)
    requires !Covered(After(steps).log, After(steps).replicas[site].seen, a)
    ensures Contains(After(steps).replicas[site].state, After(steps).log[a].item)
  {
    RefinesHistory(steps, site);
    assert Live(After(steps).log, After(steps).replicas[site].seen, a);
  }

  /** No two adds of a run share a tag, and the writer's counter is past every tag it holds. */
  lemma TagsNeverReused<T(!new)>(steps: seq<Step<T>>)
    ensures TagsUnique(After(steps).log)
    ensures forall site | site in After(steps).replicas :: OwnBounded(After(steps).replicas[site].state)
  {
    RunKeepsInv(steps);
  }

  /**
   The recovery contract is needed: a writer that restarts and adds without merging anything
   back would stamp the very tag its first add used.
   */
  lemma UnrecoveredWriterRepeatsItsFirstTag<T(!new)>(site: string, item: T)
    ensures var w := After([Start(site), Add(site, item), Start(site)]);
            site in w.replicas && IsAdd(w.log, 0) && w.log[0].tag == NextTag(w.replicas[site].state)
  {
    var s0: seq<Step<T>> := [Start(site)];
    var s1 := [Start(site), Add(site, item)];
    var s2 := [Start(site), Add(site, item), Start(site)];
    assert s2[..2] == s1 && s1[..1] == s0 && s0[..0] == [];
    assert After(s0) == Next(After([]), Start(site));
    assert Recovered(After(s0), site);
    assert After(s1) == Next(After(s0), Add(site, item));
  }
}
