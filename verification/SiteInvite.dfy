/**
 The SiteInvite reconciler of `crates/enrollment/src/site_invite.rs`: one controller that keeps
 a token Secret, the invite's status and the token table in step. Every read and write is its
 own step, the controller may crash between any two, and meanwhile anybody may delete the
 Secret, use the store, or ask for the invite to be deleted.
 */
module SiteInvites {
  import opened Prelude
  import opened EnrollmentStore
  import R = StoreRuns

  datatype Spec = Spec(uid: string, siteName: string, publicKey: Option<string>, allowDeletedName: bool)

  datatype Secret = Secret(id: Uuid, digest: string, expires: Time)

  /** The Ready condition's reason. A refused mint also reads Pending. */
  datatype Condition = Pending | Ready | Expired | Redeemed | Revoked

  datatype Status = Status(id: Uuid, expires: Time, condition: Condition)

  /** What a reconcile knows of the token; the digest is missing once the Secret is. */
  datatype Checkpoint = Checkpoint(id: Uuid, digest: Option<string>, expires: Time)

  datatype TokenPhase = Outstanding | Spent | Absent

  /** The next thing the controller does. */
  datatype Phase =
    | Idle
    | ReadSecret
    | CreateSecret
    | LookUp(c: Checkpoint)
    | Judge(c: Checkpoint, token: TokenPhase)
    | ExpireSecret(c: Checkpoint)
    | ExpireToken(c: Checkpoint)
    | RevokeToken(c: Checkpoint)
    | RevokeSecret(c: Checkpoint)
    | RedeemSecret(c: Checkpoint)
    | MarkPending(c: Checkpoint)
    | MintToken(c: Checkpoint)
    | Patch(c: Checkpoint, condition: Condition)
    | CleanRead
    | CleanRevoke(id: Option<Uuid>, present: bool)
    | CleanSecret(present: bool)

  /** `draws` are the Secrets this invite ever generated, by token id; `minted` the ids it minted. */
  datatype World = World(
    spec: Spec,
    secret: Option<Secret>,
    status: Option<Status>,
    deleting: bool,
    gone: bool,
    phase: Phase,
    store: R.World,
    draws: map<Uuid, Secret>,
    minted: set<Uuid>)

  datatype Step =
    | Reconcile
    | Advance(draw: Secret)
    | Crash
    | LoseSecret
    | Delete
    | Others(step: R.Step)

  predicate Terminal(condition: Condition) {
    condition.Expired? || condition.Redeemed? || condition.Revoked?
  }

  function TokenOf(spec: Spec, c: Checkpoint): NewSiteToken
    requires c.digest.Some?
  {
    NewSiteToken(Some(c.id), c.digest.value, spec.publicKey, spec.siteName, "site-invite",
                 "siteinvite/" + spec.uid, c.expires, spec.allowDeletedName)
  }

  function Checked(s: Secret): Checkpoint {
    Checkpoint(s.id, Some(s.digest), s.expires)
  }

  /** How the token table stands against the invite. */
  function Looked(w: World, id: Uuid): TokenPhase {
    match RedeemedEnrollment(w.store.inner, id)
    case Ok(Some(_)) => Spent
    case Ok(None) => Outstanding
    case Err(_) => if w.status.None? || w.status.value.condition.Pending? then Outstanding else Absent
  }

  function Judged(c: Checkpoint, token: TokenPhase, now: Time): Phase {
    match token
    case Outstanding =>
      if c.expires <= now then ExpireSecret(c)
      else if c.digest.None? then RevokeToken(c)
      else MarkPending(c)
    case Spent => RedeemSecret(c)
    case Absent => if c.expires <= now then ExpireSecret(c) else RevokeSecret(c)
  }

  function Revoking(w: World, id: Uuid, phase: Phase): World {
    w.(store := w.store.(inner := EnrollmentStore.Revoked(w.store.inner, id).inner), phase := phase)
  }

  function Minting(w: World, c: Checkpoint): World
    requires c.digest.Some?
  {
    var outcome := Minted(w.store.inner, TokenOf(w.spec, c), c.id, w.store.now);
    var phase :=
      match outcome.result
      case Ok(_) => Patch(c, Ready)
      case Err(e) => if e.NameTaken? || e.TokenOutstanding? || e.NameDeleted? then Patch(c, Pending) else Idle;
    w.(store := w.store.(inner := outcome.inner), phase := phase,
    minted := w.minted + if outcome.result.Ok? then {c.id} else {})
  }

  /** One step of the controller; `draw` is the Secret it generates if it comes to that. */
  function Advanced(w: World, draw: Secret): World {
    match w.phase
    case Idle => w
    case ReadSecret =>
      w.(phase :=
           if w.secret.Some? then LookUp(Checked(w.secret.value))
           else if w.status.None? then CreateSecret
           else LookUp(Checkpoint(w.status.value.id, None, w.status.value.expires)))
    case CreateSecret =>
      if w.secret.Some? then w.(phase := LookUp(Checked(w.secret.value)))
      else if draw.id in w.store.used then w
      else w.(secret := Some(draw), draws := w.draws[draw.id := draw], phase := LookUp(Checked(draw)),
              store := w.store.(used := w.store.used + {draw.id}))
    case LookUp(c) => w.(phase := Judge(c, Looked(w, c.id)))
    case Judge(c, token) => w.(phase := Judged(c, token, w.store.now))
    case ExpireSecret(c) => w.(secret := None, phase := ExpireToken(c))
    case ExpireToken(c) => Revoking(w, c.id, Patch(c, Expired))
    case RevokeToken(c) => Revoking(w, c.id, RevokeSecret(c))
    case RevokeSecret(c) => w.(secret := None, phase := Patch(c, Revoked))
    case RedeemSecret(c) => w.(secret := None, phase := Patch(c, Redeemed))
    case MarkPending(c) =>
      var holds := w.status.Some? && (w.status.value.condition.Pending? || w.status.value.condition.Ready?);
      w.(status := if holds then w.status else Some(Status(c.id, c.expires, Pending)), phase := MintToken(c))
    case MintToken(c) => if c.digest.None? then w.(phase := Idle) else Minting(w, c)
    case Patch(c, condition) => w.(status := Some(Status(c.id, c.expires, condition)), phase := Idle)
    case CleanRead =>
      var id :=
        if w.secret.Some? then Some(w.secret.value.id)
        else if w.status.Some? then Some(w.status.value.id)
        else None;
      w.(phase := CleanRevoke(id, w.secret.Some?))
    case CleanRevoke(id, present) =>
      if id.Some? then Revoking(w, id.value, CleanSecret(present)) else w.(phase := CleanSecret(present))
    case CleanSecret(present) => w.(secret := if present then None else w.secret, gone := true, phase := Idle)
  }

  function Next(w: World, step: Step): World {
    match step
    case Reconcile =>
      if w.gone || !w.phase.Idle? then w
      else if w.deleting then w.(phase := CleanRead)
      else if w.status.Some? && Terminal(w.status.value.condition) then w
      else w.(phase := ReadSecret)
    case Advance(draw) => Advanced(w, draw)
    case Crash => w.(phase := Idle)
    case LoseSecret => w.(secret := None)
    case Delete => w.(deleting := true)
    case Others(s) => if R.Chosen(s) !! w.draws.Keys then w.(store := R.Next(w.store, s)) else w
  }

  function Run(w: World, steps: seq<Step>): World {
    if steps == [] then w else Next(Run(w, steps[..|steps| - 1]), steps[|steps| - 1])
  }

  /** A new invite beside any store. */
  function Created(spec: Spec, store: R.World): World {
    World(spec, None, None, false, false, Idle, store, map[], {})
  }

  // ---- The invariant ----

  /** No live row under this id, now or after any passing of time. */
  predicate Dead(s: Inner, id: Uuid) {
    id in s.tokens ==> s.tokens[id].redeemedBy.Some?
  }

  ghost predicate AllDead(w: World) {
    forall id | id in w.draws :: Dead(w.store.inner, id)
  }

  /** The Secret and the status, when both are there, name one token. */
  ghost predicate Agree(w: World) {
    && (w.secret.Some? ==> w.secret.value.id in w.draws)
    && (w.status.Some? ==> w.status.value.id in w.draws)
    && (w.secret.Some? && w.status.Some? ==> w.secret.value.id == w.status.value.id)
  }

  /** A reconcile works on the token the Secret and the status name. */
  ghost predicate Follows(w: World, c: Checkpoint) {
    && c.id in w.draws
    && (w.secret.Some? ==> w.secret.value.id == c.id)
    && (w.status.Some? ==> w.status.value.id == c.id)
  }

  /** Only ids of this invite that it minted are in the token table, and all of them are the status's. */
  ghost predicate Traced(w: World) {
    && w.draws.Keys <= w.store.used
    && w.store.inner.tokens.Keys <= w.store.used
    && (forall id | id in w.draws && id in w.store.inner.tokens :: id in w.minted)
    && (forall id | id in w.minted :: id in w.draws && w.status.Some? && w.status.value.id == id)
  }

  predicate Applying(phase: Phase) {
    !phase.Idle? && !phase.CleanRead? && !phase.CleanRevoke? && !phase.CleanSecret?
  }

  ghost predicate PhaseInv(w: World) {
    && (Applying(w.phase) ==> !w.gone && (w.status.Some? ==> !Terminal(w.status.value.condition)))
    && match w.phase
       case Idle => true
       case ReadSecret => true
       case CreateSecret => w.status.None?
       case LookUp(c) => Follows(w, c)
       case Judge(c, token) => Follows(w, c) && (token.Outstanding? || Dead(w.store.inner, c.id))
       case ExpireSecret(c) => Follows(w, c)
       case ExpireToken(c) => Follows(w, c)
       case RevokeToken(c) => Follows(w, c)
       case RevokeSecret(c) => Follows(w, c) && Dead(w.store.inner, c.id)
       case RedeemSecret(c) => Follows(w, c) && Dead(w.store.inner, c.id)
       case MarkPending(c) => Follows(w, c) && c.digest.Some?
       case MintToken(c) => Follows(w, c) && c.digest.Some? && w.status.Some?
       case Patch(c, condition) => Follows(w, c) && (Terminal(condition) ==> Dead(w.store.inner, c.id))
       case CleanRead => w.deleting && !w.gone
       case CleanRevoke(id, _) => w.deleting && !w.gone && (w.status.Some? ==> id == Some(w.status.value.id))
       case CleanSecret(_) => w.deleting && !w.gone && AllDead(w)
  }

  ghost predicate Inv(w: World) {
    && Agree(w)
    && Traced(w)
    && PhaseInv(w)
    && (w.status.Some? && Terminal(w.status.value.condition) ==> AllDead(w))
    && (w.gone ==> AllDead(w) && w.phase.Idle?)
  }

  // ---- Every step keeps it ----

  /** An operation adds only a row it names, and never revives a spent one. */
  lemma RowsOf(s: Inner, step: R.Step, now: Time, id: Uuid)
    requires id !in R.Chosen(step) && id !in R.Drawn(step)
    ensures id in R.Applied(s, step, now).tokens ==> id in s.tokens
    ensures Dead(s, id) ==> Dead(R.Applied(s, step, now), id)
  {
  }

  lemma RowsOfNext(s: R.World, step: R.Step, id: Uuid)
    requires id in s.used && id !in R.Chosen(step)
    ensures id in R.Next(s, step).inner.tokens ==> id in s.inner.tokens
    ensures Dead(s.inner, id) ==> Dead(R.Next(s, step).inner, id)
  {
    if R.Drawn(step) !! s.used {
      RowsOf(s.inner, step, s.now, id);
    }
  }

  lemma RowsStayUsed(s: R.World, step: R.Step)
    requires s.inner.tokens.Keys <= s.used
    ensures R.Next(s, step).inner.tokens.Keys <= R.Next(s, step).used && s.used <= R.Next(s, step).used
  {
    forall id | id in R.Applied(s.inner, step, s.now).tokens
      ensures id in s.used || id in R.Drawn(step) || id in R.Chosen(step)
    {
      if id !in R.Chosen(step) && id !in R.Drawn(step) {
        RowsOf(s.inner, step, s.now, id);
      }
    }
  }

  lemma OthersKeepInv(w: World, step: R.Step)
    requires Inv(w)
    ensures Inv(Next(w, Others(step)))
  {
    if R.Chosen(step) !! w.draws.Keys {
      RowsStayUsed(w.store, step);
      forall id | id in w.draws
        ensures id in R.Next(w.store, step).inner.tokens ==> id in w.store.inner.tokens
        ensures Dead(w.store.inner, id) ==> Dead(R.Next(w.store, step).inner, id)
      {
        RowsOfNext(w.store, step, id);
      }
      StoreChangeKeepsInv(w, R.Next(w.store, step));
    }
  }

  /** A store in which the invite's ids gain no row and no life keeps the invariant. */
  lemma StoreChangeKeepsInv(w: World, store: R.World)
    requires Inv(w) && w.store.used <= store.used && store.inner.tokens.Keys <= store.used
    requires forall id | id in w.draws && id in store.inner.tokens :: id in w.store.inner.tokens
    requires forall id | id in w.draws && Dead(w.store.inner, id) :: Dead(store.inner, id)
    ensures Inv(w.(store := store))
  {
  }

  /** Revoking the token that the status names leaves no live row of the invite. */
  lemma RevokingLeavesDead(w: World, id: Uuid, phase: Phase)
    requires Inv(w) && !w.gone && (w.status.Some? ==> w.status.value.id == id)
    ensures var v := Revoking(w, id, phase); Agree(v) && Traced(v) && AllDead(v)
  {
    var s, s' := w.store.inner, EnrollmentStore.Revoked(w.store.inner, id).inner;
    assert forall other | other in s'.tokens :: other in s.tokens && s'.tokens[other] == s.tokens[other];
    assert Dead(s', id);
  }

  lemma MintingKeepsInv(w: World, c: Checkpoint)
    requires Inv(w) && w.phase == MintToken(c)
    ensures Inv(Minting(w, c))
  {
    var s := w.store.inner;
    var outcome := Minted(s, TokenOf(w.spec, c), c.id, w.store.now);
    assert outcome.inner.tokens.Keys <= s.tokens.Keys + {c.id};
    assert c.id in outcome.inner.tokens && c.id !in s.tokens ==> outcome.result.Ok?;
    assert outcome.result.Err? ==> outcome.inner == s;
  }

  lemma CreateKeepsInv(w: World, draw: Secret)
    requires Inv(w) && w.phase.CreateSecret?
    ensures Inv(Advanced(w, draw))
  {
  }

  lemma QuietKeepsInv(w: World, draw: Secret)
    requires Inv(w)
    requires w.phase.Idle? || w.phase.ReadSecret? || w.phase.LookUp? || w.phase.Judge? || w.phase.CleanRead?
    ensures Inv(Advanced(w, draw))
  {
    var v := Advanced(w, draw);
    assert v.store == w.store && v.secret == w.secret && v.status == w.status;
  }

  lemma WriteKeepsInv(w: World, draw: Secret)
    requires Inv(w)
    requires w.phase.ExpireSecret? || w.phase.RevokeSecret? || w.phase.RedeemSecret? || w.phase.MarkPending?
             || w.phase.Patch? || w.phase.CleanSecret?
    ensures Inv(Advanced(w, draw))
  {
    var v := Advanced(w, draw);
    assert v.store == w.store && v.draws == w.draws && v.minted == w.minted;
    if w.phase.Patch? && Terminal(w.phase.condition) {
      assert AllDead(v);
    }
  }

  lemma AdvanceKeepsInv(w: World, draw: Secret)
    requires Inv(w)
    ensures Inv(Advanced(w, draw))
  {
    match w.phase
    case CreateSecret => CreateKeepsInv(w, draw);
    case MintToken(c) => MintingKeepsInv(w, c);
    case ExpireToken(c) => RevokingLeavesDead(w, c.id, Patch(c, Expired));
    case RevokeToken(c) => RevokingLeavesDead(w, c.id, RevokeSecret(c));
    case CleanRevoke(id, present) =>
      if id.Some? {
        RevokingLeavesDead(w, id.value, CleanSecret(present));
      }
    case ExpireSecret(_) => WriteKeepsInv(w, draw);
    case RevokeSecret(_) => WriteKeepsInv(w, draw);
    case RedeemSecret(_) => WriteKeepsInv(w, draw);
    case MarkPending(_) => WriteKeepsInv(w, draw);
    case Patch(_, _) => WriteKeepsInv(w, draw);
    case CleanSecret(_) => WriteKeepsInv(w, draw);
    case _ => QuietKeepsInv(w, draw);
  }

  lemma NextKeepsInv(w: World, step: Step)
    requires Inv(w)
    ensures Inv(Next(w, step))
  {
    match step
    case Others(s) => OthersKeepInv(w, s);
    case Advance(draw) => AdvanceKeepsInv(w, draw);
    case _ =>
  }

  lemma {:induction false} RunKeepsInv(w: World, steps: seq<Step>)
    requires Inv(w)
    ensures Inv(Run(w, steps))
  {
    if steps != [] {
      RunKeepsInv(w, steps[..|steps| - 1]);
      NextKeepsInv(Run(w, steps[..|steps| - 1]), steps[|steps| - 1]);
    }
  }

  // ---- Theorems ----

  lemma {:induction false} RowsAreUsed(steps: seq<R.Step>)
    ensures var w := R.Run(R.INIT, steps); w.inner.tokens.Keys <= w.used
  {
    if steps != [] {
      RowsAreUsed(steps[..|steps| - 1]);
      RowsStayUsed(R.Run(R.INIT, steps[..|steps| - 1]), steps[|steps| - 1]);
    }
  }

  /** The states an invite created beside any reachable store can come to. */
  ghost predicate Reached(w: World) {
    exists spec, before, steps :: w == Run(Created(spec, R.Run(R.INIT, before)), steps)
  }

  lemma ReachedInv(w: World)
    requires Reached(w)
    ensures Inv(w)
  {
    var spec, before, steps :| w == Run(Created(spec, R.Run(R.INIT, before)), steps);
    RowsAreUsed(before);
    RunKeepsInv(Created(spec, R.Run(R.INIT, before)), steps);
  }

  /** A row of this invite enters the token table only when the status already names it. */
  lemma MintedOnlyOnceInStatus(w: World, step: Step, id: Uuid)
    requires Reached(w) && id in w.draws
    requires id !in w.store.inner.tokens && id in Next(w, step).store.inner.tokens
    ensures w.status.Some? && w.status.value.id == id && w.phase.MintToken? && step.Advance?
  {
    ReachedInv(w);
    OnlyMintsAddRows(w, step, id);
  }

  lemma OnlyMintsAddRows(w: World, step: Step, id: Uuid)
    requires Inv(w) && id in w.draws
    requires id !in w.store.inner.tokens && id in Next(w, step).store.inner.tokens
    ensures step.Advance? && w.phase.MintToken? && w.phase.c.id == id
  {
    match step
    case Others(s) =>
      if R.Chosen(s) !! w.draws.Keys {
        RowsOfNext(w.store, s, id);
      }
    case Advance(draw) => RowsOfAdvance(w, draw, id);
    case _ =>
  }

  lemma RowsOfMint(s: Inner, t: NewSiteToken, newId: Uuid, now: Time, id: Uuid)
    requires t.tokenId.Some? && id in Minted(s, t, newId, now).inner.tokens
    ensures id in s.tokens || id == t.tokenId.value
  {
  }

  lemma RowsOfAdvance(w: World, draw: Secret, id: Uuid)
    requires id !in w.store.inner.tokens && id in Advanced(w, draw).store.inner.tokens
    ensures w.phase.MintToken? && w.phase.c.id == id
  {
    if w.phase.MintToken? && w.phase.c.digest.Some? {
      RowsOfMint(w.store.inner, TokenOf(w.spec, w.phase.c), w.phase.c.id, w.store.now, id);
    }
  }

  /** At most one token id is ever minted, over the whole life of the invite. */
  lemma AtMostOneTokenMinted(w: World, steps: seq<Step>, a: Uuid, b: Uuid)
    requires Reached(w)
    requires a in w.minted || (a in w.draws && a in w.store.inner.tokens)
    requires b in Run(w, steps).minted || (b in Run(w, steps).draws && b in Run(w, steps).store.inner.tokens)
    ensures a == b
  {
    ReachedInv(w);
    RunKeepsInv(w, steps);
    MintedGrows(w, steps);
  }

  lemma {:induction false} MintedGrows(w: World, steps: seq<Step>)
    ensures w.minted <= Run(w, steps).minted && w.draws.Keys <= Run(w, steps).draws.Keys
  {
    if steps != [] {
      MintedGrows(w, steps[..|steps| - 1]);
      MintedKept(Run(w, steps[..|steps| - 1]), steps[|steps| - 1]);
    }
  }

  lemma MintedKept(w: World, step: Step)
    ensures w.minted <= Next(w, step).minted && w.draws.Keys <= Next(w, step).draws.Keys
  {
  }

  /** A terminal status never changes again, and no token of the invite can be redeemed from then on. */
  lemma {:induction false} TerminalIsFinal(w: World, steps: seq<Step>)
    requires Reached(w) && w.status.Some? && Terminal(w.status.value.condition)
    ensures var v := Run(w, steps); v.status == w.status && AllDead(v)
  {
    ReachedInv(w);
    if steps != [] {
      TerminalIsFinal(w, steps[..|steps| - 1]);
      RunKeepsInv(w, steps[..|steps| - 1]);
      TerminalKept(Run(w, steps[..|steps| - 1]), steps[|steps| - 1]);
      RunKeepsInv(w, steps);
    }
  }

  lemma TerminalKept(w: World, step: Step)
    requires Inv(w) && w.status.Some? && Terminal(w.status.value.condition)
    ensures Next(w, step).status == w.status
  {
  }

  /** Once cleanup completed, no digest redeems a token of the invite, whatever happens after. */
  lemma {:induction false} CleanupLeavesNoToken(w: World, steps: seq<Step>, digest: string, now: Time)
    requires Reached(w) && w.gone
    ensures var s := Run(w, steps).store.inner;
            TokenValid(s, digest, now) ==> s.byDigest[digest] !in Run(w, steps).draws
  {
    ReachedInv(w);
    RunKeepsInv(w, steps);
    StaysGone(w, steps);
  }

  lemma {:induction false} StaysGone(w: World, steps: seq<Step>)
    requires Inv(w) && w.gone
    ensures Run(w, steps).gone
  {
    if steps != [] {
      StaysGone(w, steps[..|steps| - 1]);
      GoneKept(Run(w, steps[..|steps| - 1]), steps[|steps| - 1]);
    }
  }

  lemma GoneKept(w: World, step: Step)
    requires w.gone
    ensures Next(w, step).gone
  {
  }

  /** Undisturbed, a cleanup completes in four steps from any state between reconciles. */
  lemma CleanupCompletes(w: World, draw: Secret)
    requires Reached(w) && w.phase.Idle? && w.deleting && !w.gone
    ensures var v := Run(w, [Reconcile, Advance(draw), Advance(draw), Advance(draw)]);
            v.gone && v.secret.None? && AllDead(v)
  {
    var a := Advance(draw);
    ReachedInv(w);
    RunKeepsInv(w, [Reconcile, a, a, a]);
    RunOf4(w, Reconcile, a, a, a);
    CleanupSteps(w, draw);
  }

  lemma CleanupSteps(w: World, draw: Secret)
    requires w.phase.Idle? && w.deleting && !w.gone
    ensures var v := Advanced(Advanced(Advanced(Next(w, Reconcile), draw), draw), draw);
            v.gone && v.secret.None?
  {
    var w1 := Next(w, Reconcile);
    var w2 := Advanced(w1, draw);
    assert w2.phase.CleanRevoke? && w2.phase.present == w.secret.Some? && w2.secret == w.secret;
    var w3 := Advanced(w2, draw);
    assert w3.phase == CleanSecret(w.secret.Some?) && w3.secret == w.secret;
  }

  lemma RunOf4(w: World, a: Step, b: Step, c: Step, d: Step)
    ensures Run(w, [a, b, c, d]) == Next(Next(Next(Next(w, a), b), c), d)
  {
    assert [a, b, c, d][..3] == [a, b, c];
    assert [a, b, c][..2] == [a, b];
    assert [a, b][..1] == [a];
    assert Run(w, [a]) == Next(Run(w, []), a);
    assert Run(w, [a, b]) == Next(Run(w, [a]), b);
    assert Run(w, [a, b, c]) == Next(Run(w, [a, b]), c);
  }
}
