/**
 The gateway's feedback reporter (`crates/client/src/feedback.rs`): cumulative evidence of
 skewed samples, kept in saturating signed 64-bit arithmetic until the operator acknowledges it.
 */
module Feedback {
  import opened Prelude

  datatype Report = Report(replica: string, epoch: string, sequence: i64nat, skew: i64nat, rejected: bool)

  datatype State = State(head: Report, acknowledged: i64nat, pending: Option<Report>, exhausted: bool)

  function Initial(replica: string, epoch: string): State {
    State(Report(replica, epoch, 0, 0, false), 0, None, false)
  }

  // ---- The operations ----

  function Allocated(s: State, rejected: bool): State {
    var exhausted := s.exhausted || s.head.sequence + 1 >= I64_MAX;
    var head := s.head.(sequence := Min(s.head.sequence + 1, I64_MAX), rejected := rejected || exhausted);
    s.(head := head, pending := Some(head), exhausted := exhausted)
  }

  /** Cumulative skew after one ingest, and whether arithmetic ran out. */
  function Folded(s: State, skewed: u64): State {
    var total := s.head.skew + skewed;
    s.(exhausted := s.exhausted || total >= I64_MAX, head := s.head.(skew := Min(total, I64_MAX)))
  }

  function Observed(s: State, ingested: Option<u64>): State {
    match ingested
    case None => s
    case Some(skewed) =>
      var f := Folded(s, skewed);
      var rejected := f.exhausted || f.head.skew > f.acknowledged;
      if f.pending.Some? && (f.pending.value.rejected || !rejected) then f else Allocated(f, rejected)
  }

  /** What `observe` hands to the sender. */
  function Sent(s: State, ingested: Option<u64>): Option<Report> {
    var pending := Observed(s, ingested).pending;
    if ingested.None? && pending.Some? && !pending.value.rejected then None else pending
  }

  function Acknowledged(s: State, report: Report): State {
    if s.pending != Some(report) then s
    else if s.head.skew > report.skew || s.exhausted then
      var head := s.head.(sequence := Min(s.head.sequence + 1, I64_MAX), rejected := true);
      State(head, report.skew, Some(head), s.exhausted)
    else s.(acknowledged := report.skew, pending := None)
  }

  class Reporter {
    var head: Report
    var acknowledged: i64nat
    var pending: Option<Report>
    var exhausted: bool

    function Value(): State
      reads this
    {
      State(head, acknowledged, pending, exhausted)
    }

    constructor (replica: string, epoch: string)
      ensures Value() == Initial(replica, epoch)
    {
      head := Report(replica, epoch, 0, 0, false);
      acknowledged := 0;
      pending := None;
      exhausted := false;
    }

    method Observe(ingested: Option<u64>) returns (sent: Option<Report>)
      modifies this
      ensures Value() == Observed(old(Value()), ingested)
      ensures sent == Sent(old(Value()), ingested)
    {
      if ingested.None? {
        return if pending.Some? && pending.value.rejected then pending else None;
      }
      var skewed := ingested.value;
      var total: Option<i64nat> :=
        if skewed > I64_MAX || head.skew + skewed > I64_MAX then None else Some(head.skew + skewed);
      exhausted := exhausted || total.None? || total == Some(I64_MAX);
      head := head.(skew := if total.Some? then total.value else I64_MAX);
      var rejected := exhausted || head.skew > acknowledged;
      if pending.Some? && (pending.value.rejected || !rejected) {
        return pending;
      }
      sent := Allocate(rejected);
    }

    method Acknowledge(report: Report)
      modifies this
      ensures Value() == Acknowledged(old(Value()), report)
    {
      if pending == Some(report) {
        acknowledged := report.skew;
        pending := None;
        if head.skew > report.skew || exhausted {
          head := head.(sequence := Min(head.sequence + 1, I64_MAX), rejected := true);
          pending := Some(head);
        }
      }
    }

    method Allocate(rejected: bool) returns (sent: Option<Report>)
      modifies this
      ensures Value() == Allocated(old(Value()), rejected) && sent == pending
    {
      var sequence: Option<i64nat> := if head.sequence + 1 > I64_MAX then None else Some(head.sequence + 1);
      exhausted := exhausted || sequence.None? || sequence == Some(I64_MAX);
      head := head.(sequence := if sequence.Some? then sequence.value else I64_MAX, rejected := rejected || exhausted);
      pending := Some(head);
      sent := pending;
    }
  }

  // ---- Runs ----

  /** Acknowledgments name any report: late, repeated or made up. */
  datatype Step = Observe(ingested: Option<u64>) | Acknowledge(report: Report)

  /** `ingested` is the exact sum of all skew observed, `issued` every report that was ever pending. */
  datatype World = World(state: State, ingested: nat, issued: set<Report>)

  function Issued(w: World, state: State, skewed: nat): World {
    World(state, w.ingested + skewed, w.issued + if state.pending.Some? then {state.pending.value} else {})
  }

  function Next(w: World, step: Step): World {
    match step
    case Observe(ingested) => Issued(w, Observed(w.state, ingested), if ingested.Some? then ingested.value else 0)
    case Acknowledge(report) => Issued(w, Acknowledged(w.state, report), 0)
  }

  function Run(w: World, steps: seq<Step>): World {
    if steps == [] then w else Next(Run(w, steps[..|steps| - 1]), steps[|steps| - 1])
  }

  function Start(replica: string, epoch: string): World {
    World(Initial(replica, epoch), 0, {})
  }

  // ---- The invariant ----

  predicate RejectedPending(s: State) {
    s.pending.Some? && s.pending.value.rejected
  }

  /** Skew nobody acknowledged, or arithmetic that ran out. */
  predicate Owed(s: State) {
    s.head.skew > s.acknowledged || s.exhausted
  }

  ghost predicate StateInv(s: State) {
    && (RejectedPending(s) <==> Owed(s))
    && (s.head.skew == I64_MAX ==> s.exhausted)
    && s.acknowledged <= s.head.skew
    && (s.pending.Some? ==>
          && s.pending.value.sequence == s.head.sequence
          && s.acknowledged <= s.pending.value.skew <= s.head.skew)
  }

  ghost predicate Numbered(w: World) {
    && (w.state.pending.Some? ==> w.state.pending.value in w.issued)
    && (forall r | r in w.issued ::
          && 0 < r.sequence <= w.state.head.sequence
          && (r.sequence == I64_MAX ==> r.rejected))
    && (forall r, r' | r in w.issued && r' in w.issued && r.sequence == r'.sequence < I64_MAX :: r == r')
  }

  ghost predicate Inv(w: World) {
    && StateInv(w.state)
    && w.state.head.skew == Min(w.ingested, I64_MAX)
    && Numbered(w)
  }

  lemma StateKept(s: State, step: Step)
    requires StateInv(s)
    ensures step.Observe? ==> StateInv(Observed(s, step.ingested))
    ensures step.Acknowledge? ==> StateInv(Acknowledged(s, step.report))
  {
  }

  lemma NextKeepsInv(w: World, step: Step)
    requires Inv(w)
    ensures Inv(Next(w, step))
  {
    StateKept(w.state, step);
  }

  lemma {:induction false} RunKeepsInv(w: World, steps: seq<Step>)
    requires Inv(w)
    ensures Inv(Run(w, steps))
  {
    if steps != [] {
      RunKeepsInv(w, steps[..|steps| - 1]);
      NextKeepsInv(Run(w, steps[..|steps| - 1]), steps[|steps| - 1]);
    }
  }

  // ---- Theorems ----

  /** In every run a rejected report is pending exactly when skew is unacknowledged or arithmetic ran out. */
  lemma {:induction false} RejectedExactlyWhenOwed(replica: string, epoch: string, steps: seq<Step>)
    ensures var s := Run(Start(replica, epoch), steps).state;
            s.pending.Some? && s.pending.value.rejected <==> s.head.skew > s.acknowledged || s.exhausted
  {
    RunKeepsInv(Start(replica, epoch), steps);
  }

  /** A pending clean report means that every ingest so far is acknowledged, exactly. */
  lemma {:induction false} CleanMeansAllAcknowledged(replica: string, epoch: string, steps: seq<Step>)
    requires var s := Run(Start(replica, epoch), steps).state; s.pending.Some? && !s.pending.value.rejected
    ensures var w := Run(Start(replica, epoch), steps);
            && w.state.acknowledged == w.ingested == w.state.pending.value.skew
            && !w.state.exhausted
  {
    RunKeepsInv(Start(replica, epoch), steps);
  }

  /** A rejected pending report leaves only by being acknowledged itself, whatever else is observed or acknowledged. */
  lemma {:induction false} RejectedStaysPending(w: World, steps: seq<Step>, report: Report)
    requires Inv(w) && w.state.pending == Some(report) && report.rejected
    requires Acknowledge(report) !in steps
    ensures Run(w, steps).state.pending == Some(report)
    ensures Run(w, steps).state.acknowledged == w.state.acknowledged
  {
    if steps != [] {
      RejectedStaysPending(w, steps[..|steps| - 1], report);
      assert steps[|steps| - 1] in steps;
    }
  }

  /** Once arithmetic ran out it stays so, and every report issued from then on is rejected. */
  lemma {:induction false} ExhaustedIssuesNoCleanReport(w: World, steps: seq<Step>)
    requires Inv(w) && w.state.exhausted
    ensures Run(w, steps).state.exhausted && RejectedPending(Run(w, steps).state)
    ensures forall r | r in Run(w, steps).issued && r !in w.issued :: r.rejected
  {
    if steps != [] {
      ExhaustedIssuesNoCleanReport(w, steps[..|steps| - 1]);
      RunKeepsInv(w, steps);
    }
  }

  /** Cumulative skew is the exact sum of all ingests, capped, and reports are numbered one to one below the cap. */
  lemma {:induction false} SkewAndNumbering(replica: string, epoch: string, steps: seq<Step>)
    ensures var w := Run(Start(replica, epoch), steps);
            && w.state.head.skew == Min(w.ingested, I64_MAX)
            && (forall r, r' | r in w.issued && r' in w.issued && r.sequence == r'.sequence < I64_MAX :: r == r')
            && (forall r | r in w.issued && r.sequence == I64_MAX :: r.rejected)
  {
    RunKeepsInv(Start(replica, epoch), steps);
  }

  /** The receiver acknowledges whatever is pending. */
  function PendingAcknowledged(s: State): State {
    if s.pending.None? then s else Acknowledged(s, s.pending.value)
  }

  /** Two acknowledgments of the pending report with no new skew drain it exactly when arithmetic has not run out. */
  lemma {:induction false} TwoAcknowledgmentsDrain(replica: string, epoch: string, steps: seq<Step>)
    ensures var s := Run(Start(replica, epoch), steps).state;
            var drained := PendingAcknowledged(PendingAcknowledged(s));
            && (drained.pending.None? <==> !s.exhausted)
            && (!s.exhausted ==> drained.acknowledged == s.head.skew)
  {
    RunKeepsInv(Start(replica, epoch), steps);
  }

  /** After a failed fetch exactly bad evidence is sent again; after an ingest always the pending report. */
  lemma {:induction false} WhatIsSent(replica: string, epoch: string, steps: seq<Step>, skewed: u64)
    ensures var s := Run(Start(replica, epoch), steps).state;
            var owed := s.head.skew > s.acknowledged || s.exhausted;
            && (owed ==> s.pending.Some? && s.pending.value.rejected && Sent(s, None) == s.pending)
            && (!owed ==> Sent(s, None) == None)
            && Observed(s, None) == s
            && var s' := Observed(s, Some(skewed));
               && s'.pending.Some? && Sent(s, Some(skewed)) == s'.pending
               && (s'.pending.value.rejected <==> s'.head.skew > s'.acknowledged || s'.exhausted)
  {
    RunKeepsInv(Start(replica, epoch), steps);
  }

  /** Every report of a run bears the reporter's own name and process. */
  lemma {:induction false} ReportsBearTheReporter(replica: string, epoch: string, steps: seq<Step>)
    ensures var w := Run(Start(replica, epoch), steps);
            && w.state.head.replica == replica && w.state.head.epoch == epoch
            && forall r | r in w.issued :: r.replica == replica && r.epoch == epoch
  {
    if steps != [] {
      ReportsBearTheReporter(replica, epoch, steps[..|steps| - 1]);
      RunKeepsInv(Start(replica, epoch), steps[..|steps| - 1]);
    }
  }
}
