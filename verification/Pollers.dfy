/**
 The poll loop (`crates/client/src/poller.rs`, `crates/client/src/mtls.rs`): any number of
 pollers, started held or open, committed, stopped and replaced at any point, all writing one
 store and one reporter. A stopped poller ends only where the loop waits.
 */
module Pollers {
  import opened Prelude
  import opened F = Feedback

  /** Where a poller is. `fetch` numbers a scrape that parsed; a failed one has no number. */
  datatype Phase =
    | Ticking
    | Fetched(fetch: Option<nat>)
    | Cleared(fetch: Option<nat>)
    | Absorbed(fetch: Option<nat>)
    | Reporting(sent: Option<Report>)
    | Ended

  datatype Poller = Poller(committed: bool, stopped: bool, phase: Phase)

  datatype Scrape = Scrape(owner: nat, skewed: u64)

  /**
   `scrapes` are all fetches that parsed; `written` those the store took; `folded` those the
   reporter observed, in order; `received` the reports the operator stored.
   */
  datatype Grid = Grid(
    pollers: map<nat, Poller>,
    scrapes: seq<Scrape>,
    written: set<nat>,
    folded: seq<nat>,
    reporter: F.World,
    received: set<Report>)

  datatype Action =
    | Spawn(id: nat, committed: bool)
    | Commit(id: nat)
    | Stop(id: nat)
    | Fetch(id: nat, skewed: Option<u64>)
    | PassGate(id: nat)
    | Absorb(id: nat)
    | Fold(id: nat)
    | Receive(id: nat)
    | Complete(id: nat)
    | GiveUp(id: nat)
    | Quit(id: nat)

  predicate Enabled(g: Grid, action: Action) {
    if action.Spawn? then action.id !in g.pollers
    else
      action.id in g.pollers &&
      var p := g.pollers[action.id];
      match action
      case Commit(_) => !p.stopped
      case Stop(_) => true
      case Fetch(_, _) => p.phase.Ticking?
      case PassGate(_) => p.phase.Fetched? && p.committed && !p.stopped
      case Absorb(_) => p.phase.Cleared?
      case Fold(_) => p.phase.Absorbed? && (p.phase.fetch.Some? ==> p.phase.fetch.value < |g.scrapes|)
      case Receive(_) => p.phase.Reporting? && p.phase.sent.Some?
      case Complete(_) => p.phase.Reporting? && p.phase.sent.Some? && p.phase.sent.value in g.received
      case GiveUp(_) => p.phase.Reporting?
      case Quit(_) => p.stopped && (p.phase.Ticking? || p.phase.Fetched? || p.phase.Reporting?)
  }

  function At(g: Grid, id: nat, phase: Phase): Grid
    requires id in g.pollers
  {
    g.(pollers := g.pollers[id := g.pollers[id].(phase := phase)])
  }

  function Skew(g: Grid, fetch: Option<nat>): Option<u64>
    requires fetch.Some? ==> fetch.value < |g.scrapes|
  {
    if fetch.Some? then Some(g.scrapes[fetch.value].skewed) else None
  }

  function Apply(g: Grid, action: Action): Grid {
    if !Enabled(g, action) then g
    else
      match action
      case Spawn(id, committed) => g.(pollers := g.pollers[id := Poller(committed, false, Ticking)])
      case Commit(id) => g.(pollers := g.pollers[id := g.pollers[id].(committed := true)])
      case Stop(id) => g.(pollers := g.pollers[id := g.pollers[id].(stopped := true)])
      case Fetch(id, skewed) =>
        if skewed.None? then At(g, id, Fetched(None))
        else At(g, id, Fetched(Some(|g.scrapes|))).(scrapes := g.scrapes + [Scrape(id, skewed.value)])
      case PassGate(id) => At(g, id, Cleared(g.pollers[id].phase.fetch))
      case Absorb(id) =>
        var fetch := g.pollers[id].phase.fetch;
        At(g, id, Absorbed(fetch)).(written := g.written + if fetch.Some? then {fetch.value} else {})
      case Fold(id) =>
        var fetch := g.pollers[id].phase.fetch;
        At(g, id, Reporting(Sent(g.reporter.state, Skew(g, fetch)))).(
        reporter := F.Next(g.reporter, F.Observe(Skew(g, fetch))),
        folded := g.folded + if fetch.Some? then [fetch.value] else [])
      case Receive(id) => g.(received := g.received + {g.pollers[id].phase.sent.value})
      case Complete(id) =>
        At(g, id, Ticking).(reporter := F.Next(g.reporter, F.Acknowledge(g.pollers[id].phase.sent.value)))
      case GiveUp(id) => At(g, id, Ticking)
      case Quit(id) => At(g, id, Ended)
  }

  function Runs(g: Grid, actions: seq<Action>): Grid {
    if actions == [] then g else Apply(Runs(g, actions[..|actions| - 1]), actions[|actions| - 1])
  }

  function Fresh(replica: string, epoch: string): Grid {
    Grid(map[], [], {}, [], F.Start(replica, epoch), {})
  }

  predicate Known(folded: seq<nat>, scrapes: seq<Scrape>) {
    forall i | 0 <= i < |folded| :: folded[i] < |scrapes|
  }

  /** The exact skew of the folded scrapes. */
  function SkewOf(folded: seq<nat>, scrapes: seq<Scrape>): nat
    requires Known(folded, scrapes)
  {
    if folded == [] then 0
    else SkewOf(folded[..|folded| - 1], scrapes) + scrapes[folded[|folded| - 1]].skewed
  }

  // ---- The invariant ----

  /** What a poller's phase says about the scrape it carries. */
  ghost predicate Carries(g: Grid, id: nat, p: Poller) {
    match p.phase
    case Fetched(fetch) => fetch.Some? ==> Owns(g, id, fetch.value) && fetch.value !in g.written
    case Cleared(fetch) => p.committed && (fetch.Some? ==> Owns(g, id, fetch.value) && fetch.value !in g.written)
    case Absorbed(fetch) =>
      && p.committed
      && (fetch.Some? ==> Owns(g, id, fetch.value) && fetch.value in g.written && fetch.value !in g.folded)
    case Reporting(sent) => p.committed && (sent.Some? ==> sent.value in g.reporter.issued)
    case _ => true
  }

  ghost predicate Owns(g: Grid, id: nat, fetch: nat) {
    fetch < |g.scrapes| && g.scrapes[fetch].owner == id
  }

  /** A written scrape came from a committed poller and is folded, or its poller is just about to fold it. */
  ghost predicate Accounted(g: Grid, fetch: nat) {
    && fetch < |g.scrapes|
    && g.scrapes[fetch].owner in g.pollers
    && g.pollers[g.scrapes[fetch].owner].committed
    && (fetch in g.folded || g.pollers[g.scrapes[fetch].owner].phase == Absorbed(Some(fetch)))
  }

  ghost predicate NoRepeat(folded: seq<nat>) {
    forall i, j | 0 <= i < j < |folded| :: folded[i] != folded[j]
  }

  ghost predicate Ledger(g: Grid) {
    && (forall fetch | fetch in g.written :: Accounted(g, fetch))
    && (forall fetch | fetch in g.folded :: fetch in g.written)
    && Known(g.folded, g.scrapes)
    && NoRepeat(g.folded)
    && SkewOf(g.folded, g.scrapes) == g.reporter.ingested
  }

  /** Whatever the reporter takes as acknowledged, the operator holds a rejection that says it. */
  ghost predicate Delivered(g: Grid) {
    && g.received <= g.reporter.issued
    && (g.reporter.state.acknowledged > 0 ==>
          exists r :: r in g.received && r.rejected && r.skew == g.reporter.state.acknowledged)
  }

  ghost predicate GridInv(g: Grid) {
    && (forall id | id in g.pollers :: Carries(g, id, g.pollers[id]))
    && Ledger(g)
    && Delivered(g)
    && F.Inv(g.reporter)
  }

  // ---- Every action keeps it ----

  lemma {:induction false} SkewOfGrows(folded: seq<nat>, scrapes: seq<Scrape>, more: seq<Scrape>)
    requires Known(folded, scrapes)
    ensures SkewOf(folded, scrapes + more) == SkewOf(folded, scrapes)
  {
    if folded != [] {
      SkewOfGrows(folded[..|folded| - 1], scrapes, more);
    }
  }

  lemma CarriesKept(g: Grid, action: Action)
    requires GridInv(g) && Enabled(g, action)
    ensures var g' := Apply(g, action); forall id | id in g'.pollers :: Carries(g', id, g'.pollers[id])
  {
    var g' := Apply(g, action);
    forall id | id in g'.pollers
      ensures Carries(g', id, g'.pollers[id])
    {
      if id != action.id {
        assert Carries(g, id, g.pollers[id]);
        assert g'.pollers[id] == g.pollers[id];
      }
    }
  }

  lemma AccountedKept(g: Grid, action: Action, fetch: nat)
    requires GridInv(g) && Enabled(g, action) && fetch in Apply(g, action).written
    ensures Accounted(Apply(g, action), fetch)
  {
    var g' := Apply(g, action);
    assert fetch in g.written ==> Accounted(g, fetch);
    assert action.id in g.pollers ==> Carries(g, action.id, g.pollers[action.id]);
    assert forall id | id in g.pollers && id != action.id :: id in g'.pollers && g'.pollers[id] == g.pollers[id];
  }

  lemma FoldedKept(g: Grid, action: Action)
    requires GridInv(g) && Enabled(g, action)
    ensures var g' := Apply(g, action); forall fetch | fetch in g'.folded :: fetch in g'.written
  {
    assert action.id in g.pollers ==> Carries(g, action.id, g.pollers[action.id]);
  }

  lemma SumKept(g: Grid, action: Action)
    requires GridInv(g) && Enabled(g, action)
    ensures var g' := Apply(g, action);
            && Known(g'.folded, g'.scrapes) && NoRepeat(g'.folded)
            && SkewOf(g'.folded, g'.scrapes) == g'.reporter.ingested
  {
    match action
    case Fetch(id, skewed) =>
      if skewed.Some? {
        SkewOfGrows(g.folded, g.scrapes, [Scrape(id, skewed.value)]);
      }
    case Fold(id) => FoldKeepsSum(g, id);
    case _ =>
  }

  lemma LedgerKept(g: Grid, action: Action)
    requires GridInv(g) && Enabled(g, action)
    ensures Ledger(Apply(g, action))
  {
    var g' := Apply(g, action);
    forall fetch | fetch in g'.written
      ensures Accounted(g', fetch)
    {
      AccountedKept(g, action, fetch);
    }
    FoldedKept(g, action);
    SumKept(g, action);
  }

  lemma FoldKeepsSum(g: Grid, id: nat)
    requires GridInv(g) && Enabled(g, Fold(id))
    ensures var g' := Apply(g, Fold(id));
            && Known(g'.folded, g'.scrapes)
            && NoRepeat(g'.folded)
            && SkewOf(g'.folded, g'.scrapes) == g'.reporter.ingested
  {
    var g' := Apply(g, Fold(id));
    assert Carries(g, id, g.pollers[id]);
    if g.pollers[id].phase.fetch.Some? {
      assert g'.folded[..|g'.folded| - 1] == g.folded;
    } else {
      assert g'.folded == g.folded;
    }
  }

  lemma DeliveredKept(g: Grid, action: Action)
    requires GridInv(g) && Enabled(g, action)
    ensures Delivered(Apply(g, action))
  {
    var g' := Apply(g, action);
    assert action.id in g.pollers ==> Carries(g, action.id, g.pollers[action.id]);
    if g'.reporter.state.acknowledged > 0 {
      if action.Complete? && g'.reporter.state.acknowledged != g.reporter.state.acknowledged {
        var r := g.pollers[action.id].phase.sent.value;
        assert r in g'.received && r.rejected && r.skew == g'.reporter.state.acknowledged;
      } else {
        var r :| r in g.received && r.rejected && r.skew == g.reporter.state.acknowledged;
        assert r in g'.received;
      }
    }
  }

  lemma ApplyKeepsInv(g: Grid, action: Action)
    requires GridInv(g)
    ensures GridInv(Apply(g, action))
  {
    if Enabled(g, action) {
      CarriesKept(g, action);
      LedgerKept(g, action);
      DeliveredKept(g, action);
      if action.Fold? {
        F.NextKeepsInv(g.reporter, F.Observe(Skew(g, g.pollers[action.id].phase.fetch)));
      }
      if action.Complete? {
        F.NextKeepsInv(g.reporter, F.Acknowledge(g.pollers[action.id].phase.sent.value));
      }
    }
  }

  lemma {:induction false} RunsKeepInv(g: Grid, actions: seq<Action>)
    requires GridInv(g)
    ensures GridInv(Runs(g, actions))
  {
    if actions != [] {
      RunsKeepInv(g, actions[..|actions| - 1]);
      ApplyKeepsInv(Runs(g, actions[..|actions| - 1]), actions[|actions| - 1]);
    }
  }

  // ---- Theorems ----

  /**
   However pollers are held, committed, stopped and replaced: cumulative skew is the capped sum
   over the folded scrapes, no scrape is folded twice, only written ones are, and a written one is
   folded unless its poller stands between the two.
   */
  lemma SkewIsConserved(replica: string, epoch: string, actions: seq<Action>)
    ensures var g := Runs(Fresh(replica, epoch), actions);
            && NoRepeat(g.folded)
            && (forall fetch | fetch in g.folded :: fetch in g.written)
            && Known(g.folded, g.scrapes)
            && g.reporter.state.head.skew == Min(SkewOf(g.folded, g.scrapes), I64_MAX)
            && (forall fetch | fetch in g.written :: Accounted(g, fetch))
  {
    RunsKeepInv(Fresh(replica, epoch), actions);
  }

  /** A poller that was never committed wrote nothing and observed nothing. */
  lemma HeldPollerWritesNothing(replica: string, epoch: string, actions: seq<Action>, id: nat)
    requires id in Runs(Fresh(replica, epoch), actions).pollers
    requires !Runs(Fresh(replica, epoch), actions).pollers[id].committed
    ensures var g := Runs(Fresh(replica, epoch), actions);
            forall fetch | 0 <= fetch < |g.scrapes| && g.scrapes[fetch].owner == id ::
              fetch !in g.written && fetch !in g.folded
  {
    RunsKeepInv(Fresh(replica, epoch), actions);
  }

  /** With nothing owed, the operator holds a rejection carrying all the skew ever folded. */
  lemma NothingOwedMeansDelivered(replica: string, epoch: string, actions: seq<Action>)
    requires var g := Runs(Fresh(replica, epoch), actions); !F.Owed(g.reporter.state) && g.reporter.ingested > 0
    ensures var g := Runs(Fresh(replica, epoch), actions);
            Known(g.folded, g.scrapes) &&
            exists r :: r in g.received && r.rejected && r.skew == SkewOf(g.folded, g.scrapes)
  {
    RunsKeepInv(Fresh(replica, epoch), actions);
  }

  /** How many more scrapes a stopped poller may still write: one if it already passed the gate. */
  function WritesLeft(p: Poller): nat {
    if p.phase.Cleared? then 1 else 0
  }

  /** Scrapes of one poller that the store took. */
  function WrittenBy(g: Grid, id: nat): set<nat> {
    set fetch | fetch in g.written && fetch < |g.scrapes| && g.scrapes[fetch].owner == id
  }

  /** After a stop a poller writes at most the scrape that had passed the gate, and none if it had not. */
  lemma {:induction false} StoppedPollerWritesNothingLate(g: Grid, actions: seq<Action>, id: nat)
    requires GridInv(g) && id in g.pollers && g.pollers[id].stopped
    ensures id in Runs(g, actions).pollers && Runs(g, actions).pollers[id].stopped
    ensures |WrittenBy(Runs(g, actions), id)| + WritesLeft(Runs(g, actions).pollers[id])
         <= |WrittenBy(g, id)| + WritesLeft(g.pollers[id])
  {
    if actions != [] {
      var init := actions[..|actions| - 1];
      StoppedPollerWritesNothingLate(g, init, id);
      RunsKeepInv(g, init);
      StoppedStep(Runs(g, init), actions[|actions| - 1], id);
    }
  }

  lemma StoppedStep(g: Grid, action: Action, id: nat)
    requires GridInv(g) && id in g.pollers && g.pollers[id].stopped
    ensures var g' := Apply(g, action);
            && id in g'.pollers && g'.pollers[id].stopped
            && |WrittenBy(g', id)| + WritesLeft(g'.pollers[id]) <= |WrittenBy(g, id)| + WritesLeft(g.pollers[id])
  {
    StoppedPhase(g, action, id);
    if Enabled(g, action) && action == Absorb(id) && g.pollers[id].phase.fetch.Some? {
      WrittenBySelf(g, id);
    } else {
      WrittenByOthers(g, action, id);
    }
  }

  lemma StoppedPhase(g: Grid, action: Action, id: nat)
    requires id in g.pollers && g.pollers[id].stopped
    ensures var g' := Apply(g, action);
            && id in g'.pollers && g'.pollers[id].stopped
            && WritesLeft(g'.pollers[id]) <= WritesLeft(g.pollers[id])
            && (Enabled(g, action) && action == Absorb(id) ==>
                  WritesLeft(g'.pollers[id]) == 0 && WritesLeft(g.pollers[id]) == 1)
  {
  }

  lemma WrittenBySelf(g: Grid, id: nat)
    requires GridInv(g) && Enabled(g, Absorb(id)) && g.pollers[id].phase.fetch.Some?
    ensures |WrittenBy(Apply(g, Absorb(id)), id)| == |WrittenBy(g, id)| + 1
  {
    assert Carries(g, id, g.pollers[id]);
    var fetch := g.pollers[id].phase.fetch.value;
    assert fetch !in WrittenBy(g, id);
    assert WrittenBy(Apply(g, Absorb(id)), id) == WrittenBy(g, id) + {fetch};
  }

  lemma WrittenByOthers(g: Grid, action: Action, id: nat)
    requires GridInv(g)
    requires !(Enabled(g, action) && action == Absorb(id) && g.pollers[id].phase.fetch.Some?)
    ensures WrittenBy(Apply(g, action), id) == WrittenBy(g, id)
  {
    var g' := Apply(g, action);
    assert forall fetch | fetch in g.written :: Accounted(g, fetch);
    assert action.id in g.pollers ==> Carries(g, action.id, g.pollers[action.id]);
    if Enabled(g, action) && action.Absorb? {
      assert g'.scrapes == g.scrapes;
    } else {
      assert g'.written == g.written && g.scrapes <= g'.scrapes;
    }
  }

  // ---- What goes out ----

  /**
   What a poller goes on to send: after a failed fetch exactly the pending rejection, if anything is
   owed, and else nothing; after an ingest always the pending report, rejected exactly if anything is owed.
   */
  lemma FoldHandsOut(replica: string, epoch: string, actions: seq<Action>, id: nat)
    requires Enabled(Runs(Fresh(replica, epoch), actions), Fold(id))
    ensures var g := Runs(Fresh(replica, epoch), actions);
            var g' := Apply(g, Fold(id));
            var before, after := g.reporter.state, g'.reporter.state;
            && g'.pollers[id].phase.Reporting?
            && var sent := g'.pollers[id].phase.sent;
               if g.pollers[id].phase.fetch.None? then
                 && after == before
                 && sent == (if before.head.skew > before.acknowledged || before.exhausted then before.pending
                             else None)
                 && (sent.Some? ==> sent.value.rejected)
               else
                 && sent.Some? && sent == after.pending
                 && (sent.value.rejected <==> after.head.skew > after.acknowledged || after.exhausted)
  {
    RunsKeepInv(Fresh(replica, epoch), actions);
    ApplyKeepsInv(Runs(Fresh(replica, epoch), actions), Fold(id));
  }

  /** A poll whose fetch fails and whose report gets through. */
  function Cycle(id: nat): seq<Action> {
    [Fetch(id, None), PassGate(id), Absorb(id), Fold(id), Receive(id), Complete(id)]
  }

  /** The poller is between polls and free to run. */
  predicate Polls(g: Grid, id: nat) {
    id in g.pollers && g.pollers[id] == Poller(true, false, Ticking)
  }

  lemma {:induction false} RunsJoin(g: Grid, a: seq<Action>, b: seq<Action>)
    ensures Runs(g, a + b) == Runs(Runs(g, a), b)
  {
    if b == [] {
      assert a + b == a;
    } else {
      assert (a + b)[..|a + b| - 1] == a + b[..|b| - 1];
      RunsJoin(g, a, b[..|b| - 1]);
    }
  }

  lemma RunsOne(g: Grid, action: Action)
    ensures Runs(g, [action]) == Apply(g, action)
  {
    assert [action][..0] == [];
  }

  /** The three quiet steps of such a poll. */
  lemma CycleUpToFold(g: Grid, id: nat)
    requires Polls(g, id)
    ensures Runs(g, [Fetch(id, None), PassGate(id), Absorb(id)]) == At(g, id, Absorbed(None))
  {
    var a, b, c := Fetch(id, None), PassGate(id), Absorb(id);
    RunsJoin(g, [a, b], [c]);
    RunsJoin(g, [a], [b]);
    RunsOne(g, a);
    RunsOne(Runs(g, [a]), b);
    RunsOne(Runs(g, [a, b]), c);
    assert [a] + [b] == [a, b] && [a, b] + [c] == [a, b, c];
    var g1 := At(g, id, Fetched(None));
    var g2 := At(g1, id, Cleared(None));
    assert Apply(g, a) == g1 && Apply(g1, b) == g2;
    assert Apply(g2, c) == At(g, id, Absorbed(None));
  }

  /** Such a poll, while something is owed, acknowledges the pending report and changes nothing else of the reporter. */
  lemma CycleAcknowledges(g: Grid, id: nat)
    requires GridInv(g) && Polls(g, id) && F.Owed(g.reporter.state)
    ensures var v := Runs(g, Cycle(id));
            Polls(v, id) && v.reporter.state == F.PendingAcknowledged(g.reporter.state)
  {
    var g3 := At(g, id, Absorbed(None));
    CycleUpToFold(g, id);
    var head := [Fetch(id, None), PassGate(id), Absorb(id)];
    var fold, receive, complete := Fold(id), Receive(id), Complete(id);
    assert Cycle(id) == head + ([fold] + ([receive] + [complete]));
    RunsJoin(g, head, [fold] + ([receive] + [complete]));
    RunsJoin(g3, [fold], [receive] + [complete]);
    RunsOne(g3, fold);
    var g4 := Apply(g3, fold);
    RunsJoin(g4, [receive], [complete]);
    RunsOne(g4, receive);
    RunsOne(Apply(g4, receive), complete);
    LastThreeSteps(g3, id);
  }

  lemma LastThreeSteps(g: Grid, id: nat)
    requires F.Inv(g.reporter) && F.Owed(g.reporter.state)
    requires id in g.pollers && g.pollers[id] == Poller(true, false, Absorbed(None))
    ensures var v := Apply(Apply(Apply(g, Fold(id)), Receive(id)), Complete(id));
            Polls(v, id) && v.reporter.state == F.PendingAcknowledged(g.reporter.state)
  {
    var pending := g.reporter.state.pending;
    var g4 := Apply(g, Fold(id));
    assert g4.pollers[id].phase == Reporting(pending) && g4.reporter.state == g.reporter.state;
    var g5 := Apply(g4, Receive(id));
    assert g5.pollers[id].phase == Reporting(pending) && pending.value in g5.received;
  }

  /**
   From any reachable state in which something is owed and arithmetic has not run out, at most two polls
   of one committed poller whose reports get through, even if every fetch fails, end with nothing owed.
   */
  lemma TwoPollsDrain(replica: string, epoch: string, actions: seq<Action>, id: nat)
    requires var g := Runs(Fresh(replica, epoch), actions);
             Polls(g, id) && F.Owed(g.reporter.state) && !g.reporter.state.exhausted
    ensures var g := Runs(Fresh(replica, epoch), actions);
            var once := Runs(g, Cycle(id));
            || !F.Owed(once.reporter.state)
            || !F.Owed(Runs(once, Cycle(id)).reporter.state)
  {
    var g := Runs(Fresh(replica, epoch), actions);
    RunsKeepInv(Fresh(replica, epoch), actions);
    CycleAcknowledges(g, id);
    var once := Runs(g, Cycle(id));
    RunsKeepInv(g, Cycle(id));
    if F.Owed(once.reporter.state) {
      CycleAcknowledges(once, id);
      RunsKeepInv(once, Cycle(id));
      DrainedOwesNothing(g.reporter.state);
    }
  }

  lemma DrainedOwesNothing(s: F.State)
    requires F.StateInv(s) && !s.exhausted
    ensures !F.Owed(F.PendingAcknowledged(F.PendingAcknowledged(s)))
  {
  }
}
