/**
 The signing CA of `crates/enrollment/src/ca.rs`: replicas that reload their CA while sharing
 one recorded fingerprint. Every store access is its own step, so any number of reloads
 interleave, the store may fail any access, even one that took effect, and the record may be lost.
 */
module CaAnchor {
  import opened Prelude

  type Fingerprint = string

  /** A CA by its certificate and the key it certifies. */
  datatype Ca = Ca(cert: Fingerprint, key: Fingerprint)

  datatype Anchored = Recorded | Matched | Replaced(previous: Fingerprint)

  /** A different key is recorded, the record was removed under the call, or the store failed. */
  datatype AnchorError =
    | Mismatch(recorded: Fingerprint, loaded: Fingerprint)
    | RecordRemoved
    | StoreFailed

  type Anchoring = Result<Anchored, AnchorError>

  /** After the first read: done, or a swap expecting what was read. */
  datatype Decision = Done(result: Anchoring) | Swap(anchored: Anchored)

  function Decided(recorded: Option<Fingerprint>, loaded: Fingerprint, confirm: Option<Fingerprint>): Decision {
    match recorded
    case Some(r) =>
      if r == loaded then Done(Ok(Matched))
      else if confirm == Some(r) then Swap(Replaced(r))
      else Done(Err(Mismatch(r, loaded)))
    case None => Swap(Recorded)
  }

  /** After a lost swap: accept only what the winner recorded. */
  function Resettled(recorded: Option<Fingerprint>, loaded: Fingerprint): Anchoring {
    match recorded
    case Some(now) => if now == loaded then Ok(Matched) else Err(Mismatch(now, loaded))
    case None => Err(RecordRemoved)
  }

  // ---- A replica ----

  /** What a mount offers: no certificate, one whose key does not load, or a CA. */
  datatype Material = Unreadable | Unloadable(cert: Fingerprint) | Loadable(ca: Ca)

  datatype Phase =
    | Reading
    | Swapping(expected: Option<Fingerprint>, anchored: Anchored)
    | Rereading
    | Finished(result: Anchoring, at: nat)

  /** Why an anchor runs: to start with a CA, to admit a new one, or to check the held one. */
  datatype Purpose = Boot | Admit(ca: Ca) | Check

  datatype Activity =
    | Idle
    | Stopped
    | Busy(phase: Phase, loaded: Fingerprint, confirm: Option<Fingerprint>, purpose: Purpose, started: nat)

  /** A finished start or reload: the step it began at, its last access to the record, and the step it ended at. */
  datatype Span = Span(started: nat, at: nat, ended: nat)

  datatype Replica = Replica(held: Ca, anchored: bool, activity: Activity, checked: Option<Span>)

  function Signer(r: Replica): Option<Ca> {
    if r.anchored then Some(r.held) else None
  }

  /** A process anchors its CA before it serves. */
  function Started(ca: Ca, confirm: Option<Fingerprint>, now: nat): Replica {
    Replica(ca, false, Busy(Reading, ca.key, confirm, Boot, now), None)
  }

  function CheckHeld(r: Replica, started: nat): Replica {
    r.(activity := Busy(Reading, r.held.key, None, Check, started))
  }

  function Begun(r: Replica, material: Material, confirm: Option<Fingerprint>, now: nat): Replica {
    match material
    case Unreadable => CheckHeld(r, now)
    case Unloadable(_) => CheckHeld(r, now)
    case Loadable(ca) =>
      if ca.cert == r.held.cert then CheckHeld(r, now)
      else r.(activity := Busy(Reading, ca.key, confirm, Admit(ca), now))
  }

  /** The next step, numbered `now`, of a replica that is anchoring, and the record it leaves. */
  function Advanced(record: Option<Fingerprint>, r: Replica, now: nat): (Option<Fingerprint>, Replica)
    requires r.activity.Busy?
  {
    var a := r.activity;
    match a.phase
    case Reading =>
      var phase := match Decided(record, a.loaded, a.confirm)
        case Done(result) => Finished(result, now)
        case Swap(anchored) => Swapping(record, anchored);
      (record, r.(activity := a.(phase := phase)))
    case Swapping(expected, anchored) =>
      if record == expected then (Some(a.loaded), r.(activity := a.(phase := Finished(Ok(anchored), now))))
      else (record, r.(activity := a.(phase := Rereading)))
    case Rereading =>
      (record, r.(activity := a.(phase := Finished(Resettled(record, a.loaded), now))))
    case Finished(result, at) =>
      match a.purpose
      case Boot =>
        if result.Ok? then (record, Replica(r.held, true, Idle, Some(Span(a.started, at, now))))
        else (record, r.(activity := Stopped))
      case Admit(ca) =>
        if result.Ok? then (record, Replica(ca, true, Idle, Some(Span(a.started, at, now))))
        else (record, CheckHeld(r, a.started))
      case Check =>
        (record, Replica(r.held, result.Ok?, Idle, Some(Span(a.started, at, now))))
  }

  // ---- The world ----

  /** `log` is the record after each step; its last element is the record now. */
  datatype World = World(record: Option<Fingerprint>, log: seq<Option<Fingerprint>>, replicas: map<nat, Replica>)

  datatype Step =
    | Start(id: nat, ca: Ca, confirm: Option<Fingerprint>)
    | Begin(id: nat, material: Material, confirm: Option<Fingerprint>)
    | Advance(id: nat)
    | StoreFails(id: nat, applied: bool)
    | LoseRecord

  predicate Enabled(w: World, step: Step) {
    match step
    case Start(id, _, _) => id !in w.replicas
    case Begin(id, _, _) => id in w.replicas && w.replicas[id].activity.Idle?
    case Advance(id) => id in w.replicas && w.replicas[id].activity.Busy?
    case StoreFails(id, _) =>
      id in w.replicas && w.replicas[id].activity.Busy? && !w.replicas[id].activity.phase.Finished?
    case LoseRecord => true
  }

  function Next(w: World, step: Step): World {
    if !Enabled(w, step) then w
    else
      var (record, replicas) := match step
        case Start(id, ca, confirm) => (w.record, w.replicas[id := Started(ca, confirm, |w.log|)])
        case Begin(id, material, confirm) =>
          (w.record, w.replicas[id := Begun(w.replicas[id], material, confirm, |w.log|)])
        case Advance(id) =>
          var (record, r) := Advanced(w.record, w.replicas[id], |w.log|);
          (record, w.replicas[id := r])
        case StoreFails(id, applied) =>
          var r := w.replicas[id];
          (if applied then Advanced(w.record, r, |w.log|).0 else w.record,
           w.replicas[id := r.(activity := r.activity.(phase := Finished(Err(StoreFailed), |w.log|)))])
        case LoseRecord => (None, w.replicas);
      World(record, w.log + [record], replicas)
  }

  function Run(w: World, steps: seq<Step>): World {
    if steps == [] then w else Next(Run(w, steps[..|steps| - 1]), steps[|steps| - 1])
  }

  const INIT := World(None, [None], map[])

  // ---- The invariant ----

  /** The answer of a finished anchor is what the record was at its last access, and just before. */
  ghost predicate Answers(log: seq<Option<Fingerprint>>, a: Activity)
    requires a.Busy? && a.phase.Finished? && 0 < a.phase.at < |log|
  {
    var before, after := log[a.phase.at - 1], log[a.phase.at];
    match a.phase.result
    case Ok(Matched) => before == after == Some(a.loaded)
    case Ok(Recorded) => before == None && after == Some(a.loaded)
    case Ok(Replaced(previous)) =>
      before == Some(previous) && previous != a.loaded && a.confirm == Some(previous) && after == Some(a.loaded)
    case Err(Mismatch(recorded, loaded)) => after == Some(recorded) && recorded != a.loaded && loaded == a.loaded
    case Err(RecordRemoved) => after == None
    case Err(StoreFailed) => true
  }

  ghost predicate Settled(log: seq<Option<Fingerprint>>, a: Activity)
    requires a.Busy? && a.phase.Finished?
  {
    a.started < a.phase.at < |log| && Answers(log, a)
  }

  /** The last start or reload saw the held key recorded if it left the replica signing. */
  ghost predicate Checked(log: seq<Option<Fingerprint>>, r: Replica, span: Span) {
    && span.started < span.at < span.ended < |log|
    && (r.anchored ==> log[span.at] == Some(r.held.key))
  }

  /** A swap expects nothing, or another key that the caller confirmed replacing. */
  ghost predicate SwapSound(a: Activity, phase: Phase)
    requires a.Busy? && phase.Swapping?
  {
    match phase.expected
    case None => phase.anchored == Recorded
    case Some(r) => r != a.loaded && a.confirm == Some(r) && phase.anchored == Replaced(r)
  }

  ghost predicate Sound(log: seq<Option<Fingerprint>>, r: Replica) {
    && (r.activity.Busy? ==>
          && r.activity.started < |log|
          && (r.activity.purpose.Boot? ==> r.activity.loaded == r.held.key)
          && (r.activity.purpose.Check? ==> r.activity.loaded == r.held.key && r.activity.confirm.None?)
          && (r.activity.purpose.Admit? ==> r.activity.loaded == r.activity.purpose.ca.key)
          && (r.activity.phase.Swapping? ==> SwapSound(r.activity, r.activity.phase))
          && (r.activity.phase.Finished? ==> Settled(log, r.activity)))
    && (r.checked.Some? ==> Checked(log, r, r.checked.value))
    && (r.anchored ==> r.checked.Some?)
  }

  ghost predicate Inv(w: World) {
    && |w.log| > 0 && w.log[|w.log| - 1] == w.record
    && forall id | id in w.replicas :: Sound(w.log, w.replicas[id])
  }

  lemma SoundGrows(log: seq<Option<Fingerprint>>, entry: Option<Fingerprint>, r: Replica)
    requires Sound(log, r)
    ensures Sound(log + [entry], r)
  {
  }

  /** An access to the record leaves the replica sound. */
  lemma AccessIsSound(log: seq<Option<Fingerprint>>, record: Option<Fingerprint>, r: Replica)
    requires Sound(log, r) && r.activity.Busy? && !r.activity.phase.Finished?
    requires |log| > 0 && log[|log| - 1] == record
    ensures var (record', r') := Advanced(record, r, |log|); Sound(log + [record'], r')
  {
    var (record', r') := Advanced(record, r, |log|);
    SoundGrows(log, record', r);
    assert (log + [record'])[|log|] == record' && (log + [record'])[|log| - 1] == record;
    assert r'.held == r.held && r'.anchored == r.anchored && r'.checked == r.checked;
  }

  /** So does acting on the anchor's answer. */
  lemma ConclusionIsSound(log: seq<Option<Fingerprint>>, record: Option<Fingerprint>, r: Replica)
    requires Sound(log, r) && r.activity.Busy? && r.activity.phase.Finished?
    ensures var (record', r') := Advanced(record, r, |log|); Sound(log + [record'], r')
  {
    var (record', _) := Advanced(record, r, |log|);
    SoundGrows(log, record', r);
  }

  lemma NextKeepsInv(w: World, step: Step)
    requires Inv(w)
    ensures Inv(Next(w, step))
  {
    if Enabled(w, step) {
      var w' := Next(w, step);
      forall id | id in w'.replicas
        ensures Sound(w'.log, w'.replicas[id])
      {
        if step == Advance(id) {
          if w.replicas[id].activity.phase.Finished? {
            ConclusionIsSound(w.log, w.record, w.replicas[id]);
          } else {
            AccessIsSound(w.log, w.record, w.replicas[id]);
          }
        } else if id in w.replicas {
          SoundGrows(w.log, w'.record, w.replicas[id]);
        }
      }
    }
  }

  lemma {:induction false} RunKeepsInv(w: World, steps: seq<Step>)
    requires Inv(w)
    ensures Inv(Run(w, steps))
  {
    if steps != [] {
      RunKeepsInv(w, steps[..|steps| - 1]);
      NextKeepsInv(Run(w, steps[..|steps| - 1]), steps[|steps| - 1]);
    }
  }

  // ---- Theorems ----

  /** A recorded key is replaced only by a call whose confirmation is exactly that key. */
  lemma ReplacedOnlyByConfirmation(steps: seq<Step>, step: Step, r: Fingerprint)
    requires var w := Run(INIT, steps); w.record == Some(r) && Next(w, step).record != Some(r)
    ensures var w := Run(INIT, steps);
            || step.LoseRecord?
            || ((step.Advance? || step.StoreFails?) && step.id in w.replicas && w.replicas[step.id].activity.Busy?
                && w.replicas[step.id].activity.confirm == Some(r)
                && Next(w, step).record == Some(w.replicas[step.id].activity.loaded))
  {
    RunKeepsInv(INIT, steps);
  }

  /** No call in flight has confirmed replacing `r`. */
  ghost predicate Unconfirmed(w: World, r: Fingerprint) {
    forall id | id in w.replicas && w.replicas[id].activity.Busy? :: w.replicas[id].activity.confirm != Some(r)
  }

  /** A record nobody confirms replacing is permanent, whatever else runs. */
  lemma {:induction false} UnconfirmedRecordIsPermanent(w: World, steps: seq<Step>, r: Fingerprint)
    requires Inv(w) && w.record == Some(r) && Unconfirmed(w, r)
    requires forall i | 0 <= i < |steps| ::
               !steps[i].LoseRecord? && (steps[i].Begin? || steps[i].Start? ==> steps[i].confirm != Some(r))
    ensures Run(w, steps).record == Some(r) && Unconfirmed(Run(w, steps), r)
  {
    if steps != [] {
      var init := steps[..|steps| - 1];
      assert forall i | 0 <= i < |init| :: init[i] == steps[i];
      UnconfirmedRecordIsPermanent(w, init, r);
      RunKeepsInv(w, init);
    }
  }

  /** Every successful anchor has an instant within the call at which its key was the recorded one. */
  lemma AnchorSawItsKey(steps: seq<Step>, id: nat)
    requires var w := Run(INIT, steps);
             && id in w.replicas && w.replicas[id].activity.Busy?
             && w.replicas[id].activity.phase.Finished? && w.replicas[id].activity.phase.result.Ok?
    ensures var w := Run(INIT, steps);
            var a := w.replicas[id].activity;
            a.started < a.phase.at < |w.log| && w.log[a.phase.at] == Some(a.loaded)
  {
    RunKeepsInv(INIT, steps);
  }

  /** An answer told from the record just before and at the last access. */
  ghost predicate ToldBy(a: Activity, result: Anchoring, before: Option<Fingerprint>, after: Option<Fingerprint>)
    requires a.Busy?
  {
    && (result.Ok? <==> after == Some(a.loaded))
    && (result.Err? && result.error.Mismatch? <==> after.Some? && after != Some(a.loaded))
    && (result.Err? && result.error.Mismatch? ==> result.error == Mismatch(after.value, a.loaded))
    && (result == Ok(Matched) <==> before == after == Some(a.loaded))
    && (result == Ok(Recorded) <==> before == None && after == Some(a.loaded))
    && (result.Ok? && result.value.Replaced? ==> before == a.confirm == Some(result.value.previous))
  }

  lemma AnswerIsToldByTheRecord(log: seq<Option<Fingerprint>>, a: Activity)
    requires a.Busy? && a.phase.Finished? && 0 < a.phase.at < |log| && Answers(log, a)
    requires a.phase.result != Err(StoreFailed)
    ensures ToldBy(a, a.phase.result, log[a.phase.at - 1], log[a.phase.at])
  {
  }

  /**
   Every anchor that finishes without a store failure answers by the record at its last access: it
   succeeds exactly when that is its key, names what it found exactly when that is another, and says
   which of matching, recording and a confirmed replacement it was.
   */
  lemma AnchorAnswersExactly(steps: seq<Step>, id: nat)
    requires var w := Run(INIT, steps);
             && id in w.replicas && w.replicas[id].activity.Busy? && w.replicas[id].activity.phase.Finished?
             && w.replicas[id].activity.phase.result != Err(StoreFailed)
    ensures var w := Run(INIT, steps);
            var a := w.replicas[id].activity;
            && a.started < a.phase.at < |w.log|
            && ToldBy(a, a.phase.result, w.log[a.phase.at - 1], w.log[a.phase.at])
  {
    RunKeepsInv(INIT, steps);
    var w := Run(INIT, steps);
    assert Sound(w.log, w.replicas[id]);
    AnswerIsToldByTheRecord(w.log, w.replicas[id].activity);
  }

  /** Only the store makes an anchor fail as the store. */
  lemma StoreFailedOnlyByTheStore(w: World, step: Step, id: nat)
    requires id in w.replicas && w.replicas[id].activity.Busy? && !w.replicas[id].activity.phase.Finished?
    requires id in Next(w, step).replicas && Next(w, step).replicas[id].activity.Busy?
    requires Next(w, step).replicas[id].activity.phase.Finished?
    requires Next(w, step).replicas[id].activity.phase.result == Err(StoreFailed)
    ensures step.StoreFails? && step.id == id
  {
  }

  /** A replica that signs holds a key that was the recorded one during its start or its last reload. */
  lemma SignerWasRecorded(steps: seq<Step>, id: nat)
    requires var w := Run(INIT, steps); id in w.replicas && Signer(w.replicas[id]).Some?
    ensures var w := Run(INIT, steps);
            && w.replicas[id].checked.Some?
            && var span := w.replicas[id].checked.value;
               && span.started < span.at < span.ended < |w.log|
               && w.log[span.at] == Some(Signer(w.replicas[id]).value.key)
  {
    RunKeepsInv(INIT, steps);
  }

  /** The held CA changes only to one that this very reload anchored; a refused reload keeps it. */
  lemma HeldMovesOnlyWhenAnchored(steps: seq<Step>, step: Step, id: nat)
    requires var w := Run(INIT, steps);
             id in w.replicas && Next(w, step).replicas[id].held != w.replicas[id].held
    ensures var w := Run(INIT, steps);
            var held := Next(w, step).replicas[id].held;
            var a := w.replicas[id].activity;
            && step == Advance(id) && a.Busy? && a.purpose == Admit(held)
            && a.phase.Finished? && a.phase.result.Ok?
            && a.started < a.phase.at < |w.log| && w.log[a.phase.at] == Some(held.key)
            && Signer(Next(w, step).replicas[id]) == Some(held)
  {
    RunKeepsInv(INIT, steps);
  }

  /**
   Replicas whose last look at the record came no earlier than its last change never sign with
   different keys: the one that made the change and all that looked since.
   */
  lemma SignersAgree(steps: seq<Step>, p: nat, q: nat, since: nat)
    requires var w := Run(INIT, steps);
             && p in w.replicas && q in w.replicas
             && Signer(w.replicas[p]).Some? && Signer(w.replicas[q]).Some?
             && (w.replicas[p].checked.Some? ==> since <= w.replicas[p].checked.value.at)
             && (w.replicas[q].checked.Some? ==> since <= w.replicas[q].checked.value.at)
             && (forall i | since <= i < |w.log| :: w.log[i] == w.record)
    ensures var w := Run(INIT, steps);
            Signer(w.replicas[p]).value.key == Signer(w.replicas[q]).value.key
  {
    RunKeepsInv(INIT, steps);
  }

  // ---- Replicas of one key ----

  /** The step brings no other key, and neither the store nor the record fails. */
  predicate OneKeyStep(step: Step, key: Fingerprint) {
    match step
    case Start(_, ca, _) => ca.key == key
    case Begin(_, material, _) => material.Loadable? ==> material.ca.key == key
    case Advance(_) => true
    case _ => false
  }

  predicate Serving(r: Replica, record: Option<Fingerprint>, key: Fingerprint) {
    && r.held.key == key
    && match r.activity
       case Idle => r.anchored && record == Some(key)
       case Stopped => false
       case Busy(phase, loaded, _, purpose, _) =>
         && loaded == key && (purpose.Admit? ==> purpose.ca.key == key)
         && match phase
            case Reading => true
            case Swapping(expected, _) => expected.None?
            case Rereading => record == Some(key)
            case Finished(result, _) => result.Ok? && record == Some(key)
  }

  ghost predicate AllServing(w: World, key: Fingerprint) {
    && (w.record.None? || w.record == Some(key))
    && forall id | id in w.replicas :: Serving(w.replicas[id], w.record, key)
  }

  lemma NextKeepsServing(w: World, step: Step, key: Fingerprint)
    requires AllServing(w, key) && OneKeyStep(step, key)
    ensures AllServing(Next(w, step), key)
  {
  }

  lemma {:induction false} RunKeepsServing(w: World, steps: seq<Step>, key: Fingerprint)
    requires AllServing(w, key) && forall i | 0 <= i < |steps| :: OneKeyStep(steps[i], key)
    ensures AllServing(Run(w, steps), key)
  {
    if steps != [] {
      var init := steps[..|steps| - 1];
      assert forall i | 0 <= i < |init| :: init[i] == steps[i];
      RunKeepsServing(w, init, key);
      NextKeepsServing(Run(w, init), steps[|steps| - 1], key);
    }
  }

  /** The replica's own steps left until its call in flight is over. */
  function StepsLeft(r: Replica): nat {
    if !r.activity.Busy? then 0
    else
      match r.activity.phase
      case Reading => 4
      case Swapping(_, _) => 3
      case Rereading => 2
      case Finished(_, _) => 1
  }

  function OwnSteps(steps: seq<Step>, id: nat): nat {
    if steps == [] then 0
    else OwnSteps(steps[..|steps| - 1], id) + if steps[|steps| - 1] == Advance(id) then 1 else 0
  }

  lemma StepsLeftFall(w: World, step: Step, key: Fingerprint, id: nat)
    requires AllServing(w, key) && OneKeyStep(step, key) && id in w.replicas && !(step.Begin? && step.id == id)
    ensures id in Next(w, step).replicas
    ensures StepsLeft(Next(w, step).replicas[id]) + (if step == Advance(id) then 1 else 0)
         <= if StepsLeft(w.replicas[id]) == 0 && step == Advance(id) then 1 else StepsLeft(w.replicas[id])
  {
  }

  lemma {:induction false} CallsEnd(w: World, steps: seq<Step>, key: Fingerprint, id: nat)
    requires AllServing(w, key) && id in w.replicas
    requires forall i | 0 <= i < |steps| :: OneKeyStep(steps[i], key) && !(steps[i].Begin? && steps[i].id == id)
    ensures id in Run(w, steps).replicas
    ensures StepsLeft(Run(w, steps).replicas[id]) == 0
            || StepsLeft(Run(w, steps).replicas[id]) + OwnSteps(steps, id) <= StepsLeft(w.replicas[id])
  {
    if steps != [] {
      var init := steps[..|steps| - 1];
      assert forall i | 0 <= i < |init| :: init[i] == steps[i];
      CallsEnd(w, init, key, id);
      RunKeepsServing(w, init, key);
      StepsLeftFall(Run(w, init), steps[|steps| - 1], key, id);
    }
  }

  /**
   Replicas of one key on one record, under every interleaving without failures: whoever wins the race
   to record it, none ever stops, every idle one signs with that key, and a call that has made four
   steps of its own is over.
   */
  lemma ReplicasOfOneKeyAllServe(before: seq<Step>, steps: seq<Step>, key: Fingerprint, id: nat)
    requires forall i | 0 <= i < |before| :: OneKeyStep(before[i], key)
    requires forall i | 0 <= i < |steps| :: OneKeyStep(steps[i], key) && !(steps[i].Begin? && steps[i].id == id)
    requires id in Run(INIT, before).replicas
    ensures var v := Run(Run(INIT, before), steps);
            && id in v.replicas && !v.replicas[id].activity.Stopped?
            && (v.replicas[id].activity.Idle? ==>
                  Signer(v.replicas[id]).Some? && Signer(v.replicas[id]).value.key == key && v.record == Some(key))
            && (OwnSteps(steps, id) >= 4 ==> v.replicas[id].activity.Idle?)
  {
    var w := Run(INIT, before);
    RunKeepsServing(INIT, before, key);
    RunKeepsServing(w, steps, key);
    CallsEnd(w, steps, key, id);
  }

  // ---- Alone with a reliable store ----

  /** Up to `n` uninterrupted steps of one replica, numbered from `now`. */
  function Alone(record: Option<Fingerprint>, r: Replica, now: nat, n: nat): (Option<Fingerprint>, Replica)
    decreases n
  {
    if n == 0 || !r.activity.Busy? then (record, r)
    else
      var (record', r') := Advanced(record, r, now);
      Alone(record', r', now + 1, n - 1)
  }

  /** Checking the held CA alone ends with the signer available exactly when its key is recorded. */
  lemma CheckAlone(record: Option<Fingerprint>, r: Replica, started: nat, now: nat, n: nat)
    requires n >= 3
    ensures var (record', r') := Alone(record, CheckHeld(r, started), now, n);
            && r'.activity.Idle? && r'.held == r.held
            && (r'.anchored <==> record' == Some(r'.held.key))
            && record' == if record.None? then Some(r.held.key) else record
  {
    var r0 := CheckHeld(r, started);
    var (c1, r1) := Advanced(record, r0, now);
    assert Alone(record, r0, now, n) == Alone(c1, r1, now + 1, n - 1);
    var (c2, r2) := Advanced(c1, r1, now + 1);
    assert Alone(c1, r1, now + 1, n - 1) == Alone(c2, r2, now + 2, n - 2);
    if r2.activity.Busy? {
      var (c3, r3) := Advanced(c2, r2, now + 2);
      assert Alone(c2, r2, now + 2, n - 2) == Alone(c3, r3, now + 3, n - 3);
    }
  }

  /** A start alone with a reliable store: it serves exactly when its key is the recorded one, else it stops. */
  lemma StartAlone(record: Option<Fingerprint>, ca: Ca, confirm: Option<Fingerprint>, now: nat)
    ensures var (record', r') := Alone(record, Started(ca, confirm, now), now + 1, 3);
            && (r'.activity.Idle? <==> record' == Some(ca.key))
            && (r'.activity.Stopped? <==> record.Some? && record != Some(ca.key) && confirm != record)
            && Signer(r') == (if r'.activity.Idle? then Some(ca) else None)
            && record' == if r'.activity.Stopped? then record else Some(ca.key)
  {
    var r0 := Started(ca, confirm, now);
    var (c1, r1) := Advanced(record, r0, now + 1);
    assert Alone(record, r0, now + 1, 3) == Alone(c1, r1, now + 2, 2);
    var (c2, r2) := Advanced(c1, r1, now + 2);
    assert Alone(c1, r1, now + 2, 2) == Alone(c2, r2, now + 3, 1);
  }

  /** A reload alone with a reliable store: the signer is available exactly when the record is the held key. */
  lemma ReloadAlone(record: Option<Fingerprint>, r: Replica, material: Material, confirm: Option<Fingerprint>, now: nat)
    ensures var (record', r') := Alone(record, Begun(r, material, confirm, now), now + 1, 5);
            && r'.activity.Idle?
            && Signer(r') == (if record' == Some(r'.held.key) then Some(r'.held) else None)
            && (r'.held == r.held || (material.Loadable? && r'.held == material.ca && Signer(r') == Some(material.ca)))
            && (!material.Loadable? || material.ca.cert == r.held.cert ==>
                  r'.held == r.held && record' == if record.None? then Some(r.held.key) else record)
            && (material.Loadable? && material.ca.cert != r.held.cert ==>
                  (r'.held == material.ca <==> record.None? || record == Some(material.ca.key) || record == confirm))
  {
    var r0 := Begun(r, material, confirm, now);
    if r0 == CheckHeld(r, now) {
      CheckAlone(record, r, now, now + 1, 5);
    } else {
      var (c1, r1) := Advanced(record, r0, now + 1);
      assert Alone(record, r0, now + 1, 5) == Alone(c1, r1, now + 2, 4);
      var (c2, r2) := Advanced(c1, r1, now + 2);
      assert Alone(c1, r1, now + 2, 4) == Alone(c2, r2, now + 3, 3);
      if r2.activity.Busy? && r2.activity.phase.Reading? {
        CheckAlone(c2, r, now, now + 3, 3);
      } else if r2.activity.Busy? {
        var (c3, r3) := Advanced(c2, r2, now + 3);
        assert Alone(c2, r2, now + 3, 3) == Alone(c3, r3, now + 4, 2);
      }
    }
  }
}

/** What bootstrap does about the grid CA (`crates/enrollment/src/ca.rs`, `ca_action`). */
module CaActions {
  import opened Prelude

  type Fingerprint = string

  /** A distributed copy: the CAs it holds, or why it does not parse. */
  datatype Copy = Holds(fingerprints: set<Fingerprint>) | Unreadable(why: string)

  datatype Refusal = CopyUnreadable(why: string) | KeyMissing | OtherCa(key: Fingerprint)

  datatype Action = Load | Mint | Refuse(refusal: Refusal)

  predicate AllHold(copies: seq<Copy>, key: Fingerprint) {
    forall copy | copy in copies :: copy.Holds? && key in copy.fingerprints
  }

  function FirstUnreadable(copies: seq<Copy>): Option<string> {
    if copies == [] then None
    else if copies[0].Unreadable? then Some(copies[0].why)
    else FirstUnreadable(copies[1..])
  }

  function Decided(key: Option<Fingerprint>, forced: bool, copies: seq<Copy>): Action {
    if forced then Mint
    else
      match FirstUnreadable(copies)
      case Some(why) => Refuse(CopyUnreadable(why))
      case None =>
        match key
        case None => if copies == [] then Mint else Refuse(KeyMissing)
        case Some(k) => if AllHold(copies, k) then Load else Refuse(OtherCa(k))
  }

  lemma {:induction false} NoneUnreadable(copies: seq<Copy>)
    ensures FirstUnreadable(copies).None? <==> forall copy | copy in copies :: copy.Holds?
  {
    if copies != [] {
      NoneUnreadable(copies[1..]);
      assert copies == [copies[0]] + copies[1..];
      assert copies[0] in copies;
    }
  }

  /**
   Forced, it mints. Unforced: load exactly when every copy is readable and holds the key, mint exactly
   with no key and no copy, and refuse for the first unreadable copy, a lost key or another CA.
   */
  lemma UnforcedDecision(key: Option<Fingerprint>, copies: seq<Copy>)
    ensures Decided(key, true, copies) == Mint
    ensures Decided(key, false, copies).Load? <==> key.Some? && AllHold(copies, key.value)
    ensures Decided(key, false, copies).Mint? <==> key.None? && copies == []
    ensures (exists copy :: copy in copies && copy.Unreadable?) <==>
            (Decided(key, false, copies).Refuse? && Decided(key, false, copies).refusal.CopyUnreadable?)
    ensures Decided(key, false, copies) == Refuse(KeyMissing) <==>
            key.None? && copies != [] && forall copy | copy in copies :: copy.Holds?
  {
    NoneUnreadable(copies);
    assert copies != [] ==> copies[0] in copies;
  }

  lemma {:induction false} FirstUnreadableAfter(copies: seq<Copy>, i: nat)
    requires i <= |copies| && forall k | 0 <= k < i :: copies[k].Holds?
    ensures FirstUnreadable(copies) == FirstUnreadable(copies[i..])
  {
    if i > 0 {
      FirstUnreadableAfter(copies[1..], i - 1);
      assert copies[1..][i - 1..] == copies[i..];
    }
  }

  method Decide(key: Option<Fingerprint>, forced: bool, copies: seq<Copy>) returns (action: Action)
    ensures action == Decided(key, forced, copies)
  {
    if forced {
      return Mint;
    }
    var held: seq<set<Fingerprint>> := [];
    for i := 0 to |copies|
      invariant |held| == i
      invariant forall k | 0 <= k < i :: copies[k] == Holds(held[k])
    {
      match copies[i]
      case Unreadable(why) =>
        FirstUnreadableAfter(copies, i);
        return Refuse(CopyUnreadable(why));
      case Holds(fingerprints) =>
        held := held + [fingerprints];
    }
    FirstUnreadableAfter(copies, |copies|);
    match key
    case None => action := if held == [] then Mint else Refuse(KeyMissing);
    case Some(k) =>
      assert forall copy | copy in copies :: exists i :: 0 <= i < |held| && copy == Holds(held[i]);
      assert forall i | 0 <= i < |held| :: copies[i] in copies;
      action := if forall out | out in held :: k in out then Load else Refuse(OtherCa(k));
  }
}
