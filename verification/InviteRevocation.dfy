/**
 When a revoked invite token comes back: the reconciler mints under the id its Secret and its
 status name, so a revocation it has not recorded yet can be undone. This module gives the exact
 condition, over every continuation of every reachable state.
 */
module InviteRevocation {
  import opened Prelude
  import opened EnrollmentStore
  import opened SiteInvites
  import R = StoreRuns
  import T = StoreTheorems

  // ---- What the reconciler carries is what was drawn ----

  predicate Carries(phase: Phase) {
    Applying(phase) && !phase.ReadSecret? && !phase.CreateSecret?
  }

  /** The Secret, the status and the checkpoint in flight repeat one draw. */
  ghost predicate FieldsRepeat(w: World) {
    && (forall id | id in w.draws :: w.draws[id].id == id)
    && (w.secret.Some? ==> w.secret.value.id in w.draws && w.secret.value == w.draws[w.secret.value.id])
    && (w.status.Some? ==>
          w.status.value.id in w.draws && w.status.value.expires == w.draws[w.status.value.id].expires)
    && (Carries(w.phase) ==> Repeats(w, w.phase.c))
  }

  /** So does every row of the invite. */
  ghost predicate RowsRepeat(w: World) {
    forall id | id in w.draws && id in w.store.inner.tokens :: RowOfDraw(w, w.store.inner, id)
  }

  ghost predicate Faithful(w: World) {
    FieldsRepeat(w) && RowsRepeat(w)
  }

  ghost predicate Repeats(w: World, c: Checkpoint) {
    && c.id in w.draws && c.expires == w.draws[c.id].expires
    && (c.digest.Some? ==> c.digest.value == w.draws[c.id].digest)
  }

  ghost predicate RowOfDraw(w: World, s: Inner, id: Uuid)
    requires id in w.draws && id in s.tokens
  {
    SameToken(s.tokens[id], TokenOf(w.spec, Checked(w.draws[id])))
  }

  lemma RowsKeepTheirToken(s: Inner, step: R.Step, now: Time, id: Uuid)
    requires id !in R.Chosen(step) && id !in R.Drawn(step) && id in R.Applied(s, step, now).tokens
    ensures id in s.tokens
    ensures R.Applied(s, step, now).tokens[id].(redeemedBy := None) == s.tokens[id].(redeemedBy := None)
  {
  }

  lemma OthersKeepFaithful(w: World, step: R.Step)
    requires Inv(w) && Faithful(w)
    ensures Faithful(Next(w, Others(step)))
  {
    if R.Chosen(step) !! w.draws.Keys && R.Drawn(step) !! w.store.used {
      var v := Next(w, Others(step));
      forall id | id in w.draws && id in v.store.inner.tokens
        ensures RowOfDraw(v, v.store.inner, id)
      {
        RowsKeepTheirToken(w.store.inner, step, w.store.now, id);
        assert RowOfDraw(w, w.store.inner, id);
      }
    }
  }

  lemma MintKeepsFaithful(w: World, c: Checkpoint)
    requires Inv(w) && Faithful(w) && w.phase == MintToken(c)
    ensures Faithful(Minting(w, c))
  {
    var v := Minting(w, c);
    assert TokenOf(w.spec, c) == TokenOf(w.spec, Checked(w.draws[c.id]));
    forall id | id in w.draws && id in v.store.inner.tokens
      ensures RowOfDraw(v, v.store.inner, id)
    {
      assert id in w.store.inner.tokens ==> RowOfDraw(w, w.store.inner, id);
    }
  }

  lemma CreateKeepsFields(w: World, draw: Secret)
    requires Inv(w) && FieldsRepeat(w) && w.phase.CreateSecret?
    ensures FieldsRepeat(Advanced(w, draw))
  {
  }

  /** A step that keeps the draws and goes on with the checkpoint it has, or none. */
  lemma SameCheckpointKeepsFields(w: World, v: World)
    requires FieldsRepeat(w) && v.draws == w.draws
    requires v.secret.Some? ==> v.secret == w.secret
    requires v.status == w.status
             || (Carries(w.phase) && v.status.Some? && v.status.value.id == w.phase.c.id
                 && v.status.value.expires == w.phase.c.expires)
    requires Carries(v.phase) ==> (Carries(w.phase) && v.phase.c == w.phase.c) || Repeats(w, v.phase.c)
    ensures FieldsRepeat(v)
  {
  }

  lemma AdvanceKeepsDraws(w: World, draw: Secret)
    requires Inv(w) && !w.phase.CreateSecret?
    ensures var v := Advanced(w, draw);
            && v.draws == w.draws
            && (v.secret.Some? ==> v.secret == w.secret)
            && (v.status == w.status
                || (Carries(w.phase) && v.status.Some? && v.status.value.id == w.phase.c.id
                    && v.status.value.expires == w.phase.c.expires))
  {
  }

  lemma AdvanceKeepsCheckpoint(w: World, draw: Secret)
    requires Inv(w) && FieldsRepeat(w) && !w.phase.CreateSecret? && Carries(Advanced(w, draw).phase)
    ensures var c := Advanced(w, draw).phase.c; (Carries(w.phase) && c == w.phase.c) || Repeats(w, c)
  {
  }

  /** Every other step is such a step. */
  lemma AdvanceCarriesOn(w: World, draw: Secret)
    requires Inv(w) && FieldsRepeat(w) && !w.phase.CreateSecret?
    ensures var v := Advanced(w, draw);
            && v.draws == w.draws
            && (v.secret.Some? ==> v.secret == w.secret)
            && (v.status == w.status
                || (Carries(w.phase) && v.status.Some? && v.status.value.id == w.phase.c.id
                    && v.status.value.expires == w.phase.c.expires))
            && (Carries(v.phase) ==> (Carries(w.phase) && v.phase.c == w.phase.c) || Repeats(w, v.phase.c))
  {
    AdvanceKeepsDraws(w, draw);
    if Carries(Advanced(w, draw).phase) {
      AdvanceKeepsCheckpoint(w, draw);
    }
  }

  lemma AdvanceKeepsFields(w: World, draw: Secret)
    requires Inv(w) && FieldsRepeat(w)
    ensures FieldsRepeat(Advanced(w, draw))
  {
    if w.phase.CreateSecret? {
      CreateKeepsFields(w, draw);
    } else {
      AdvanceCarriesOn(w, draw);
      SameCheckpointKeepsFields(w, Advanced(w, draw));
    }
  }

  lemma AdvanceKeepsFaithful(w: World, draw: Secret)
    requires Inv(w) && Faithful(w)
    ensures Faithful(Advanced(w, draw))
  {
    AdvanceKeepsFields(w, draw);
    var v := Advanced(w, draw);
    if w.phase.MintToken? {
      MintKeepsFaithful(w, w.phase.c);
    } else {
      SpecKept(w, draw);
      forall id | id in v.draws && id in v.store.inner.tokens
        ensures RowOfDraw(v, v.store.inner, id)
      {
        RowsFallOnly(w, draw, id);
        DrawsOfAdvance(w, draw, id);
        assert RowOfDraw(w, w.store.inner, id);
      }
    }
  }

  lemma SpecKept(w: World, draw: Secret)
    ensures Advanced(w, draw).spec == w.spec
  {
  }

  /** Besides a mint, the controller's steps only remove rows. */
  lemma RowsFallOnly(w: World, draw: Secret, id: Uuid)
    requires !w.phase.MintToken? && id in Advanced(w, draw).store.inner.tokens
    ensures id in w.store.inner.tokens && Advanced(w, draw).store.inner.tokens[id] == w.store.inner.tokens[id]
  {
    StoreOfAdvance(w, draw);
  }

  /** They keep every draw, and draw only unused ids. */
  lemma DrawsOfAdvance(w: World, draw: Secret, id: Uuid)
    requires id in Advanced(w, draw).draws
    ensures id !in w.store.used || (id in w.draws && Advanced(w, draw).draws[id] == w.draws[id])
  {
  }

  // ---- The store stays sound ----

  lemma StoreKept(w: World, step: Step)
    requires R.Inv(w.store)
    ensures R.Inv(Next(w, step).store)
  {
    match step
    case Others(s) => R.NextKeepsInv(w.store, s);
    case Advance(draw) => StoreKeptByAdvance(w, draw);
    case _ =>
  }

  /** The id the next step revokes, if it is a revocation. */
  function Revokes(phase: Phase): Option<Uuid> {
    match phase
    case ExpireToken(c) => Some(c.id)
    case RevokeToken(c) => Some(c.id)
    case CleanRevoke(id, _) => id
    case _ => None
  }

  /** The controller's steps reach the store only through a mint, a revocation or a new id. */
  lemma StoreOfAdvance(w: World, draw: Secret)
    ensures var store, revokes := Advanced(w, draw).store, Revokes(w.phase);
            if revokes.Some? then
              store == w.store.(inner := EnrollmentStore.Revoked(w.store.inner, revokes.value).inner)
            else if w.phase.MintToken? then
              store == if w.phase.c.digest.Some? then Minting(w, w.phase.c).store else w.store
            else store == w.store || store == w.store.(used := w.store.used + {draw.id})
  {
  }

  lemma StoreKeptByAdvance(w: World, draw: Secret)
    requires R.Inv(w.store)
    ensures R.Inv(Advanced(w, draw).store)
  {
    StoreOfAdvance(w, draw);
    if Revokes(w.phase).Some? {
      R.RevokedKeepsInv(w.store, Revokes(w.phase).value);
    } else if w.phase.MintToken? {
      if w.phase.c.digest.Some? {
        MintedStoreKept(w, w.phase.c);
      }
    } else {
      R.DrawKeepsInv(w.store, draw.id);
    }
  }

  lemma MintedStoreKept(w: World, c: Checkpoint)
    requires R.Inv(w.store) && c.digest.Some?
    ensures R.Inv(Minting(w, c).store)
  {
    R.MintedKeepsInv(w.store, TokenOf(w.spec, c), c.id, Minting(w, c).store);
  }

  ghost predicate All(w: World) {
    Inv(w) && Faithful(w) && R.Inv(w.store)
  }

  lemma AllKept(w: World, step: Step)
    requires All(w)
    ensures All(Next(w, step))
  {
    NextKeepsInv(w, step);
    StoreKept(w, step);
    match step
    case Others(s) => OthersKeepFaithful(w, s);
    case Advance(draw) => AdvanceKeepsFaithful(w, draw);
    case _ =>
  }

  lemma {:induction false} RunKeepsAll(w: World, steps: seq<Step>)
    requires All(w)
    ensures All(Run(w, steps))
  {
    if steps != [] {
      RunKeepsAll(w, steps[..|steps| - 1]);
      AllKept(Run(w, steps[..|steps| - 1]), steps[|steps| - 1]);
    }
  }

  lemma ReachedAll(w: World)
    requires Reached(w)
    ensures All(w)
  {
    var spec, before, steps :| w == Run(Created(spec, R.Run(R.INIT, before)), steps);
    RowsAreUsed(before);
    R.RunKeepsInv(R.INIT, before);
    RunKeepsAll(Created(spec, R.Run(R.INIT, before)), steps);
  }

  // ---- The exact condition ----

  /** The status names a token that has no row. */
  predicate Missing(w: World) {
    w.status.Some? && w.status.value.id in w.draws && w.status.value.id !in w.store.inner.tokens
  }

  predicate Unexpired(w: World)
    requires Missing(w)
  {
    w.store.now < w.draws[w.status.value.id].expires
  }

  predicate ReadsPending(w: World) {
    w.status.Some? && w.status.value.condition.Pending?
  }

  /** Nothing for good stands against the mint: neither the name nor a spent row under the digest. */
  predicate Open(w: World)
    requires Missing(w)
  {
    var s, digest := w.store.inner, w.draws[w.status.value.id].digest;
    && (w.spec.allowDeletedName || (w.spec.siteName !in s.issuedNames && w.spec.siteName !in s.deletedNames))
    && (digest in s.byDigest ==>
          s.byDigest[digest] in s.tokens && s.tokens[s.byDigest[digest]].redeemedBy.None?)
  }

  /** The reconcile in flight is already bound to mint. */
  predicate BoundToMint(w: World)
    requires Missing(w)
  {
    match w.phase
    case MintToken(_) => true
    case MarkPending(_) => true
    case Judge(c, token) => token.Outstanding? && c.digest.Some? && Unexpired(w)
    case LookUp(c) => ReadsPending(w) && c.digest.Some? && Unexpired(w)
    case ReadSecret => ReadsPending(w) && w.secret.Some? && Unexpired(w)
    case _ => false
  }

  /** A later reconcile would mint: the Secret is there and the status reads Pending, or is about to. */
  predicate MintsNext(w: World)
    requires Missing(w)
  {
    && !w.deleting && w.secret.Some? && Unexpired(w)
    && (ReadsPending(w) || (w.phase.Patch? && w.phase.condition.Pending?))
  }

  predicate Revivable(w: World)
    requires Missing(w)
  {
    !w.gone && Open(w) && (BoundToMint(w) || MintsNext(w))
  }

  // ---- Where it fails, the token never comes back ----

  lemma ShutStays(s: R.World, step: R.Step, name: string, digest: string)
    requires R.Inv(s)
    ensures name in s.inner.issuedNames || name in s.inner.deletedNames ==>
              name in R.Next(s, step).inner.issuedNames || name in R.Next(s, step).inner.deletedNames
    ensures digest in s.inner.byDigest && s.inner.tokens[s.inner.byDigest[digest]].redeemedBy.Some? ==>
              && digest in R.Next(s, step).inner.byDigest
              && R.Next(s, step).inner.byDigest[digest] in R.Next(s, step).inner.tokens
              && R.Next(s, step).inner.tokens[R.Next(s, step).inner.byDigest[digest]].redeemedBy.Some?
  {
    if name in s.inner.issuedNames || name in s.inner.deletedNames {
      NameShutStays(s.inner, step, s.now, name);
    }
    if digest in s.inner.byDigest && s.inner.tokens[s.inner.byDigest[digest]].redeemedBy.Some? {
      T.SpentRowKept(s.inner, step, s.now, s.inner.byDigest[digest]);
      R.NextKeepsInv(s, step);
    }
  }

  lemma NameShutStays(s: Inner, step: R.Step, now: Time, name: string)
    requires name in s.issuedNames || name in s.deletedNames
    ensures name in R.Applied(s, step, now).issuedNames || name in R.Applied(s, step, now).deletedNames
  {
  }

  /** A mint that something stands against leaves the row missing. */
  lemma ShutMintFails(w: World, c: Checkpoint)
    requires All(w) && Missing(w) && w.phase == MintToken(c) && !Open(w)
    ensures Missing(Minting(w, c)) && Minting(w, c).store == w.store
  {
    var outcome := Minted(w.store.inner, TokenOf(w.spec, c), c.id, w.store.now);
    assert outcome.result.Err? && outcome.inner == w.store.inner;
  }

  /** The same token is still missing. */
  predicate StillMissing(w: World, v: World)
    requires Missing(w)
  {
    && Missing(v) && v.status.value.id == w.status.value.id && v.spec == w.spec
    && v.draws[v.status.value.id] == w.draws[w.status.value.id]
    && (w.gone ==> v.gone)
  }

  lemma AdvanceLeavesStore(w: World, draw: Secret)
    requires All(w) && Missing(w) && (w.phase.MintToken? ==> !Open(w))
    ensures StillMissing(w, Advanced(w, draw)) && Advanced(w, draw).store == w.store
  {
    AdvanceCarriesOn(w, draw);
    SpecKept(w, draw);
    if w.phase.MintToken? {
      ShutMintFails(w, w.phase.c);
    }
  }

  lemma PathStaysClosed(w: World, draw: Secret)
    requires All(w) && Missing(w) && !BoundToMint(w) && !MintsNext(w)
    requires StillMissing(w, Advanced(w, draw)) && Advanced(w, draw).store == w.store
    ensures !BoundToMint(Advanced(w, draw)) && !MintsNext(Advanced(w, draw))
  {
  }

  lemma AdvanceKeepsUnrevivable(w: World, draw: Secret)
    requires All(w) && Missing(w) && !Revivable(w)
    ensures StillMissing(w, Advanced(w, draw)) && !Revivable(Advanced(w, draw))
  {
    AdvanceLeavesStore(w, draw);
    if !w.gone && Open(w) {
      PathStaysClosed(w, draw);
    }
  }

  /** A store that moves on without the row, and keeps shut what is shut, changes nothing. */
  lemma StoreMovesOn(w: World, store: R.World)
    requires Missing(w) && !Revivable(w) && w.store.now <= store.now
    requires w.status.value.id !in store.inner.tokens
    requires !Open(w) ==> !Open(w.(store := store))
    ensures StillMissing(w, w.(store := store)) && !Revivable(w.(store := store))
  {
  }

  lemma OthersKeepShut(w: World, step: R.Step)
    requires All(w) && Missing(w) && !Open(w) && w.status.value.id !in R.Next(w.store, step).inner.tokens
    ensures !Open(w.(store := R.Next(w.store, step)))
  {
    ShutStays(w.store, step, w.spec.siteName, w.draws[w.status.value.id].digest);
  }

  lemma OthersKeepUnrevivable(w: World, step: R.Step)
    requires All(w) && Missing(w) && !Revivable(w)
    ensures StillMissing(w, Next(w, Others(step))) && !Revivable(Next(w, Others(step)))
  {
    if R.Chosen(step) !! w.draws.Keys {
      RowsOfNext(w.store, step, w.status.value.id);
      if !Open(w) {
        OthersKeepShut(w, step);
      }
      StoreMovesOn(w, R.Next(w.store, step));
    }
  }

  lemma NextKeepsUnrevivable(w: World, step: Step)
    requires All(w) && Missing(w) && !Revivable(w)
    ensures StillMissing(w, Next(w, step)) && !Revivable(Next(w, step))
  {
    match step
    case Others(s) => OthersKeepUnrevivable(w, s);
    case Advance(draw) => AdvanceKeepsUnrevivable(w, draw);
    case _ =>
  }

  lemma {:induction false} UnrevivableStaysMissing(w: World, steps: seq<Step>)
    requires All(w) && Missing(w) && !Revivable(w)
    ensures StillMissing(w, Run(w, steps)) && !Revivable(Run(w, steps))
  {
    if steps != [] {
      var init := steps[..|steps| - 1];
      UnrevivableStaysMissing(w, init);
      RunKeepsAll(w, init);
      NextKeepsUnrevivable(Run(w, init), steps[|steps| - 1]);
    }
  }

  // ---- Where it holds, some continuation brings the token back ----

  /** `n` undisturbed steps of the controller. */
  function Alone(w: World, draw: Secret, n: nat): World
    decreases n
  {
    if n == 0 then w else Alone(Advanced(w, draw), draw, n - 1)
  }

  /** Nothing stands against the mint now. */
  predicate Clear(w: World)
    requires Missing(w)
  {
    var s := w.store.inner;
    && w.spec.siteName !in s.issuedNames && (w.spec.allowDeletedName || w.spec.siteName !in s.deletedNames)
    && !NamePinned(s, w.spec.siteName, w.store.now)
    && w.draws[w.status.value.id].digest !in s.byDigest
  }

  /** The row of `w`'s token is back, as it was drawn. */
  ghost predicate Restored(w: World, v: World)
    requires Missing(w)
  {
    var id := w.status.value.id;
    id in v.store.inner.tokens && v.store.inner.tokens[id] == RowOf(TokenOf(w.spec, Checked(w.draws[id])))
  }

  lemma MintRestores(w: World, draw: Secret)
    requires All(w) && Missing(w) && Clear(w) && w.phase.MintToken?
    ensures Restored(w, Alone(w, draw, 1))
  {
    var c := w.phase.c;
    assert TokenOf(w.spec, c) == TokenOf(w.spec, Checked(w.draws[c.id]));
    assert Alone(Advanced(w, draw), draw, 0) == Advanced(w, draw);
  }

  /** One step on the way leaves everything the mint needs. */
  lemma OnTheWay(w: World, draw: Secret, n: nat)
    requires All(w) && Missing(w) && Clear(w) && !w.phase.MintToken?
    ensures var v := Advanced(w, draw);
            && All(v) && StillMissing(w, v) && Clear(v) && v.store == w.store
            && (Restored(v, Alone(v, draw, n)) ==> Restored(w, Alone(w, draw, n + 1)))
  {
    AllKept(w, Advance(draw));
    AdvanceLeavesStore(w, draw);
  }

  lemma MarkRestores(w: World, draw: Secret)
    requires All(w) && Missing(w) && Clear(w) && w.phase.MarkPending?
    ensures Restored(w, Alone(w, draw, 2))
  {
    OnTheWay(w, draw, 1);
    MintRestores(Advanced(w, draw), draw);
  }

  lemma JudgeRestores(w: World, draw: Secret)
    requires All(w) && Missing(w) && Clear(w) && w.phase.Judge? && BoundToMint(w)
    ensures Restored(w, Alone(w, draw, 3))
  {
    OnTheWay(w, draw, 2);
    assert Advanced(w, draw).phase == MarkPending(w.phase.c);
    MarkRestores(Advanced(w, draw), draw);
  }

  lemma LookUpRestores(w: World, draw: Secret)
    requires All(w) && Missing(w) && Clear(w) && w.phase.LookUp? && BoundToMint(w)
    ensures Restored(w, Alone(w, draw, 4))
  {
    OnTheWay(w, draw, 3);
    assert Advanced(w, draw).phase == Judge(w.phase.c, Outstanding);
    JudgeRestores(Advanced(w, draw), draw);
  }

  lemma ReadRestores(w: World, draw: Secret)
    requires All(w) && Missing(w) && Clear(w) && w.phase.ReadSecret? && BoundToMint(w)
    ensures Restored(w, Alone(w, draw, 5))
  {
    OnTheWay(w, draw, 4);
    assert Advanced(w, draw).phase == LookUp(Checked(w.secret.value));
    LookUpRestores(Advanced(w, draw), draw);
  }

  /**
   While the status reads Pending, as it does after a crash between the mint and its record, no race
   is needed: with the Secret there, time left and the name and digest free, the next undisturbed
   reconcile puts a revoked row back.
   */
  lemma PendingRevocationIsUndone(w: World, draw: Secret)
    requires Reached(w) && w.phase.Idle? && !w.gone && !w.deleting
    requires Missing(w) && Clear(w) && Unexpired(w) && ReadsPending(w) && w.secret.Some?
    ensures Restored(w, Alone(Next(w, Reconcile), draw, 5))
  {
    ReachedAll(w);
    AllKept(w, Reconcile);
    ReadRestores(Next(w, Reconcile), draw);
  }

  /** Some continuation of `w` has an unspent row of the token. */
  ghost predicate CanReturn(w: World, id: Uuid) {
    exists steps :: !Dead(Run(w, steps).store.inner, id)
  }

  /** And before any time passes. */
  ghost predicate CanReturnNow(w: World, id: Uuid) {
    exists steps :: !Dead(Run(w, steps).store.inner, id) && Run(w, steps).store.now == w.store.now
  }

  /** Some continuation of `w` has a row of the token that can be redeemed. */
  ghost predicate CanReturnLive(w: World, id: Uuid) {
    exists steps :: LiveIn(Run(w, steps), id)
  }

  ghost predicate LiveIn(w: World, id: Uuid) {
    id in w.store.inner.tokens && Live(w.store.inner.tokens[id], w.store.now)
  }

  lemma {:induction false} RunContinues(w: World, step: Step, rest: seq<Step>)
    ensures Run(w, [step] + rest) == Run(Next(w, step), rest)
  {
    var steps := [step] + rest;
    if rest == [] {
      assert steps[..0] == [];
    } else {
      assert steps[..|steps| - 1] == [step] + rest[..|rest| - 1];
      RunContinues(w, step, rest[..|rest| - 1]);
    }
  }

  lemma ReturnsAfter(w: World, step: Step, id: Uuid)
    requires CanReturnNow(Next(w, step), id) && Next(w, step).store.now == w.store.now
    ensures CanReturnNow(w, id)
  {
    var rest :| !Dead(Run(Next(w, step), rest).store.inner, id)
                && Run(Next(w, step), rest).store.now == w.store.now;
    RunContinues(w, step, rest);
  }

  lemma {:induction false} ReturnsAlone(w: World, draw: Secret, n: nat, id: Uuid)
    requires !Dead(Alone(w, draw, n).store.inner, id)
    ensures CanReturnNow(w, id)
    decreases n
  {
    if n == 0 {
      assert !Dead(Run(w, []).store.inner, id) && Run(w, []).store.now == w.store.now;
    } else {
      AdvanceTakesNoTime(w, draw);
      ReturnsAlone(Advanced(w, draw), draw, n - 1, id);
      ReturnsAfter(w, Advance(draw), id);
    }
  }

  lemma AdvanceTakesNoTime(w: World, draw: Secret)
    ensures Advanced(w, draw).store.now == w.store.now
  {
  }

  /** With nothing in the way, a reconcile bound to mint mints. */
  lemma BoundReturns(w: World, draw: Secret)
    requires All(w) && Missing(w) && Clear(w) && BoundToMint(w)
    ensures CanReturnNow(w, w.status.value.id)
  {
    var id := w.status.value.id;
    match w.phase
    case MintToken(_) => MintRestores(w, draw); ReturnsAlone(w, draw, 1, id);
    case MarkPending(_) => MarkRestores(w, draw); ReturnsAlone(w, draw, 2, id);
    case Judge(_, _) => JudgeRestores(w, draw); ReturnsAlone(w, draw, 3, id);
    case LookUp(_) => LookUpRestores(w, draw); ReturnsAlone(w, draw, 4, id);
    case ReadSecret => ReadRestores(w, draw); ReturnsAlone(w, draw, 5, id);
  }

  lemma PendingReturns(w: World, draw: Secret)
    requires All(w) && Missing(w) && Clear(w) && w.phase.Idle? && !w.gone && MintsNext(w)
    ensures CanReturnNow(w, w.status.value.id)
  {
    AllKept(w, Reconcile);
    BoundReturns(Next(w, Reconcile), draw);
    ReturnsAfter(w, Reconcile, w.status.value.id);
  }

  lemma ClearReturns(w: World, draw: Secret)
    requires All(w) && Missing(w) && Clear(w) && Revivable(w)
    ensures CanReturnNow(w, w.status.value.id)
  {
    if BoundToMint(w) {
      BoundReturns(w, draw);
    } else {
      var step := if ReadsPending(w) then Crash else Advance(draw);
      AllKept(w, step);
      PendingReturns(Next(w, step), draw);
      ReturnsAfter(w, step, w.status.value.id);
    }
  }

  /** `v` is `w` after something in the store that hurts no chance of the mint. */
  predicate Better(w: World, v: World)
    requires Missing(w)
  {
    v == w.(store := v.store) && v.store.now == w.store.now && Missing(v) && Open(v)
  }

  lemma BetterStillRevivable(w: World, v: World)
    requires Missing(w) && Revivable(w) && Better(w, v)
    ensures Revivable(v)
  {
  }

  /** Another live token pins the name. */
  ghost predicate PinnedByAnother(s: Inner, name: string, id: Uuid, now: Time) {
    exists t :: t in s.tokens && t != id && s.tokens[t].siteName == name && Live(s.tokens[t], now)
  }

  lemma PinnedAfterForgetting(s: Inner, id: Uuid, name: string, now: Time)
    requires id in s.tokens
    ensures NamePinned(Forgotten(s, id), name, now) <==> PinnedByAnother(s, name, id, now)
  {
    var s' := Forgotten(s, id);
    if t :| t in s'.tokens && s'.tokens[t].siteName == name && Live(s'.tokens[t], now) {
      assert t in s.tokens && t != id && s.tokens[t] == s'.tokens[t];
    }
    if t :| t in s.tokens && t != id && s.tokens[t].siteName == name && Live(s.tokens[t], now) {
      assert t in s'.tokens && s'.tokens[t] == s.tokens[t];
    }
  }

  lemma OthersRevoke(w: World, t: Uuid)
    requires t in w.store.inner.tokens && w.store.inner.tokens[t].redeemedBy.None?
    ensures var v := Next(w, Others(R.Revoke(t)));
            v == w.(store := v.store) && v.store.inner == Forgotten(w.store.inner, t) && v.store.now == w.store.now
  {
  }

  lemma OthersDelete(w: World, name: string)
    ensures var v := Next(w, Others(R.Delete(name)));
            && v == w.(store := v.store) && v.store.inner == Deleted(w.store.inner, name).inner
            && v.store.now == w.store.now
  {
  }

  lemma OthersWait(w: World)
    ensures var v := Next(w, Others(R.Tick(0)));
            v == w.(store := v.store) && v.store.inner == w.store.inner && v.store.now == w.store.now
  {
  }

  /** An unredeemed row under the digest can be revoked. */
  lemma DigestCanClear(w: World) returns (step: Step)
    requires All(w) && Missing(w) && Revivable(w)
    ensures var v := Next(w, step);
            Better(w, v) && w.draws[w.status.value.id].digest !in v.store.inner.byDigest
  {
    var s, digest := w.store.inner, w.draws[w.status.value.id].digest;
    if digest in s.byDigest {
      step := Others(R.Revoke(s.byDigest[digest]));
      OthersRevoke(w, s.byDigest[digest]);
    } else {
      step := Others(R.Tick(0));
      OthersWait(w);
    }
  }

  /** So can the one live token of the name. */
  lemma PinCanClear(w: World) returns (step: Step)
    requires All(w) && Missing(w) && Revivable(w) && w.draws[w.status.value.id].digest !in w.store.inner.byDigest
    ensures var v := Next(w, step);
            && Better(w, v) && w.draws[w.status.value.id].digest !in v.store.inner.byDigest
            && !NamePinned(v.store.inner, w.spec.siteName, w.store.now)
  {
    var s := w.store.inner;
    if NamePinned(s, w.spec.siteName, w.store.now) {
      var t :| t in s.tokens && s.tokens[t].siteName == w.spec.siteName && Live(s.tokens[t], w.store.now);
      step := Others(R.Revoke(t));
      OthersRevoke(w, t);
      PinnedAfterForgetting(s, t, w.spec.siteName, w.store.now);
    } else {
      step := Others(R.Tick(0));
      OthersWait(w);
    }
  }

  /** And an enrollment under the name deleted, if the invite may reuse a deleted name. */
  lemma NameCanClear(w: World) returns (step: Step)
    requires All(w) && Missing(w) && Revivable(w) && w.draws[w.status.value.id].digest !in w.store.inner.byDigest
    requires !NamePinned(w.store.inner, w.spec.siteName, w.store.now)
    ensures var v := Next(w, step); Better(w, v) && Clear(v)
  {
    var name := w.spec.siteName;
    if name in w.store.inner.issuedNames {
      step := Others(R.Delete(name));
      OthersDelete(w, name);
    } else {
      step := Others(R.Tick(0));
      OthersWait(w);
    }
  }

  lemma RevivableReturns(w: World, draw: Secret)
    requires All(w) && Missing(w) && Revivable(w)
    ensures CanReturnNow(w, w.status.value.id)
  {
    var id := w.status.value.id;
    var a := DigestCanClear(w);
    var w1 := Next(w, a);
    AllKept(w, a);
    BetterStillRevivable(w, w1);
    var b := PinCanClear(w1);
    var w2 := Next(w1, b);
    AllKept(w1, b);
    BetterStillRevivable(w1, w2);
    var c := NameCanClear(w2);
    var w3 := Next(w2, c);
    AllKept(w2, c);
    BetterStillRevivable(w2, w3);
    ClearReturns(w3, draw);
    ReturnsAfter(w2, c, id);
    ReturnsAfter(w1, b, id);
    ReturnsAfter(w, a, id);
  }

  /**
   In every reachable state with the token missing from the store: some continuation brings it back
   unspent if and only if it is revivable; otherwise the revocation lasts over every continuation.
   */
  lemma RevocationLastsIff(w: World)
    requires Reached(w) && Missing(w)
    ensures !CanReturn(w, w.status.value.id) <==> !Revivable(w)
  {
    ReachedAll(w);
    if Revivable(w) {
      RevivableReturns(w, Secret(0, "", 0));
      var steps :| !Dead(Run(w, steps).store.inner, w.status.value.id);
    } else {
      forall steps
        ensures Dead(Run(w, steps).store.inner, w.status.value.id)
      {
        UnrevivableStaysMissing(w, steps);
      }
    }
  }

  /** Time does not run back, and a draw is never changed. */
  lemma {:induction false} RunKeepsDraw(w: World, steps: seq<Step>, id: Uuid)
    requires All(w) && id in w.draws
    ensures var v := Run(w, steps); w.store.now <= v.store.now && id in v.draws && v.draws[id] == w.draws[id]
  {
    if steps != [] {
      var v := Run(w, steps[..|steps| - 1]);
      RunKeepsDraw(w, steps[..|steps| - 1], id);
      RunKeepsAll(w, steps[..|steps| - 1]);
      DrawKept(v, steps[|steps| - 1], id);
    }
  }

  lemma DrawKept(w: World, step: Step, id: Uuid)
    requires id in w.draws && id in w.store.used
    ensures var v := Next(w, step); w.store.now <= v.store.now && id in v.draws && v.draws[id] == w.draws[id]
  {
    if step.Advance? {
      AdvanceTakesNoTime(w, step.draw);
      MintedKept(w, step);
      DrawsOfAdvance(w, step.draw, id);
    }
  }

  /** An unspent row of the invite is live exactly while the draw's time is not up. */
  lemma LiveWhileUnexpired(w: World, id: Uuid)
    requires All(w) && id in w.draws
    ensures LiveIn(w, id) <==> !Dead(w.store.inner, id) && w.store.now < w.draws[id].expires
  {
    if id in w.store.inner.tokens {
      assert RowOfDraw(w, w.store.inner, id);
    }
  }

  /** So a token that can be redeemed comes back if and only if it is revivable and its time is not up. */
  lemma LiveReturnsIff(w: World)
    requires Reached(w) && Missing(w)
    ensures CanReturnLive(w, w.status.value.id) <==> Revivable(w) && Unexpired(w)
  {
    ReachedAll(w);
    var id := w.status.value.id;
    if Revivable(w) && Unexpired(w) {
      RevivableReturns(w, Secret(0, "", 0));
      var steps :| !Dead(Run(w, steps).store.inner, id) && Run(w, steps).store.now == w.store.now;
      LiveAfter(w, steps, id);
      assert LiveIn(Run(w, steps), id);
    }
    if CanReturnLive(w, id) {
      var steps :| LiveIn(Run(w, steps), id);
      LiveAfter(w, steps, id);
      assert !Dead(Run(w, steps).store.inner, id);
      RevocationLastsIff(w);
    }
  }

  lemma LiveAfter(w: World, steps: seq<Step>, id: Uuid)
    requires All(w) && id in w.draws
    ensures var v := Run(w, steps);
            && w.store.now <= v.store.now
            && (LiveIn(v, id) <==> !Dead(v.store.inner, id) && v.store.now < w.draws[id].expires)
  {
    RunKeepsAll(w, steps);
    RunKeepsDraw(w, steps, id);
    LiveWhileUnexpired(Run(w, steps), id);
  }

  // ---- Both ways it happens ----

  /** A revocation just before the mint is undone by it if and only if nothing else holds the name. */
  lemma RevocationDuringMintUndoneIff(w: World, draw: Secret)
    requires Reached(w) && w.phase.MintToken?
    requires var id := w.phase.c.id; id in w.store.inner.tokens && w.store.inner.tokens[id].redeemedBy.None?
    ensures var id, s := w.phase.c.id, w.store.inner;
            var revoked := Next(w, Others(R.Revoke(id)));
            var v := Next(revoked, Advance(draw));
            && id !in revoked.store.inner.tokens
            && (id in v.store.inner.tokens <==>
                  && w.spec.siteName !in s.issuedNames
                  && (w.spec.allowDeletedName || w.spec.siteName !in s.deletedNames)
                  && !PinnedByAnother(s, w.spec.siteName, id, w.store.now))
            && (id in v.store.inner.tokens ==> v.store.inner.tokens[id] == s.tokens[id])
  {
    ReachedAll(w);
    var id, s := w.phase.c.id, w.store.inner;
    var revoked := Next(w, Others(R.Revoke(id)));
    var s' := revoked.store.inner;
    OthersRevoke(w, id);
    assert RowOfDraw(w, s, id);
    assert w.phase.c.digest.value == s.tokens[id].digest && s.tokens[id].digest !in s'.byDigest;
    PinnedAfterForgetting(s, id, w.spec.siteName, w.store.now);
    MintAfterRevocation(revoked, w.phase.c);
  }

  lemma MintAfterRevocation(w: World, c: Checkpoint)
    requires w.phase == MintToken(c) && c.digest.Some?
    requires c.id !in w.store.inner.tokens && c.digest.value !in w.store.inner.byDigest
    ensures var s, s' := w.store.inner, Minting(w, c).store.inner;
            && (c.id in s'.tokens <==>
                  && w.spec.siteName !in s.issuedNames
                  && (w.spec.allowDeletedName || w.spec.siteName !in s.deletedNames)
                  && !NamePinned(s, w.spec.siteName, w.store.now))
            && (c.id in s'.tokens ==> s'.tokens[c.id] == RowOf(TokenOf(w.spec, c)))
  {
  }

  lemma ReachedNext(w: World, step: Step)
    requires Reached(w)
    ensures Reached(Next(w, step))
  {
    var spec, before, steps :| w == Run(Created(spec, R.Run(R.INIT, before)), steps);
    assert (steps + [step])[..|steps|] == steps;
    assert Next(w, step) == Run(Created(spec, R.Run(R.INIT, before)), steps + [step]);
  }

  lemma {:induction false} ReachedAlone(w: World, draw: Secret, n: nat)
    requires Reached(w)
    ensures Reached(Alone(w, draw, n))
    decreases n
  {
    if n > 0 {
      ReachedNext(w, Advance(draw));
      ReachedAlone(Advanced(w, draw), draw, n - 1);
    }
  }

  /** A store in which a first mint for the invite would succeed. */
  ghost predicate Welcomes(store: R.World, spec: Spec, draw: Secret) {
    && draw.id !in store.used && draw.id !in store.inner.tokens && store.now < draw.expires
    && spec.siteName !in store.inner.issuedNames
    && (spec.allowDeletedName || spec.siteName !in store.inner.deletedNames)
    && !NamePinned(store.inner, spec.siteName, store.now) && draw.digest !in store.inner.byDigest
  }

  /** The first undisturbed reconcile up to the mint: the row is there and the status still reads Pending. */
  lemma FirstMint(spec: Spec, store: R.World, draw: Secret)
    requires Welcomes(store, spec, draw)
    ensures var w := Alone(Next(Created(spec, store), Reconcile), draw, 6);
            && w.status == Some(Status(draw.id, draw.expires, Pending)) && w.secret == Some(draw)
            && w.phase == Patch(Checked(draw), Ready) && !w.gone && !w.deleting && w.spec == spec
            && w.draws == map[draw.id := draw]
            && w.store == store.(used := store.used + {draw.id},
                                 inner := WithRow(store.inner, draw.id, RowOf(TokenOf(spec, Checked(draw)))))
  {
    var w1 := Next(Created(spec, store), Reconcile);
    var w2 := Advanced(w1, draw);
    var w3 := Advanced(w2, draw);
    assert w3.phase == LookUp(Checked(draw)) && w3.secret == Some(draw);
    var w4 := Advanced(w3, draw);
    assert w4.phase == Judge(Checked(draw), Outstanding);
    var w5 := Advanced(w4, draw);
    var w6 := Advanced(w5, draw);
    assert w6.phase == MintToken(Checked(draw)) && w6.store.inner == store.inner;
    var w7 := Advanced(w6, draw);
    assert Alone(w1, draw, 6) == Alone(w2, draw, 5) == Alone(w3, draw, 4) == Alone(w4, draw, 3);
    assert Alone(w4, draw, 3) == Alone(w5, draw, 2) == Alone(w6, draw, 1) == Alone(w7, draw, 0) == w7;
  }

  /**
   A run from a new invite beside any reachable store: mint, crash before the mint is recorded,
   revocation, and the next reconcile puts the row back. Nothing races.
   */
  lemma RevocationAfterCrashIsUndone(spec: Spec, before: seq<R.Step>, draw: Secret)
    requires Welcomes(R.Run(R.INIT, before), spec, draw)
    ensures var minted := Alone(Next(Created(spec, R.Run(R.INIT, before)), Reconcile), draw, 6);
            var revoked := Next(Next(minted, Crash), Others(R.Revoke(draw.id)));
            && draw.id in minted.store.inner.tokens && draw.id !in revoked.store.inner.tokens
            && Missing(revoked) && Restored(revoked, Alone(Next(revoked, Reconcile), draw, 5))
  {
    var store := R.Run(R.INIT, before);
    var w0 := Created(spec, store);
    assert w0 == Run(Created(spec, R.Run(R.INIT, before)), []);
    assert Reached(w0);
    var minted := Alone(Next(w0, Reconcile), draw, 6);
    ReachedNext(w0, Reconcile);
    ReachedAlone(Next(w0, Reconcile), draw, 6);
    ReachedNext(minted, Crash);
    ReachedNext(Next(minted, Crash), Others(R.Revoke(draw.id)));
    FirstMint(spec, store, draw);
    RevokedRowIsGone(Next(minted, Crash), store, draw);
    PendingRevocationIsUndone(Next(Next(minted, Crash), Others(R.Revoke(draw.id))), draw);
  }

  lemma RevokedRowIsGone(w: World, store: R.World, draw: Secret)
    requires Welcomes(store, w.spec, draw) && w.draws == map[draw.id := draw]
    requires w.status == Some(Status(draw.id, draw.expires, Pending))
    requires w.store == store.(used := store.used + {draw.id},
                               inner := WithRow(store.inner, draw.id, RowOf(TokenOf(w.spec, Checked(draw)))))
    ensures var v := Next(w, Others(R.Revoke(draw.id)));
            && v == w.(store := v.store) && Missing(v) && Clear(v) && Unexpired(v)
  {
    var v := Next(w, Others(R.Revoke(draw.id)));
    assert v.store.inner == Forgotten(w.store.inner, draw.id) && v.store.now == store.now;
    assert forall t | t in v.store.inner.tokens ::
        t in store.inner.tokens && v.store.inner.tokens[t] == store.inner.tokens[t];
  }

  /** After the same crash, the next reconcile comes to its mint with the row in the store: the race is real. */
  lemma MintStandsOverALiveRow(spec: Spec, before: seq<R.Step>, draw: Secret)
    requires Welcomes(R.Run(R.INIT, before), spec, draw)
    ensures var minted := Alone(Next(Created(spec, R.Run(R.INIT, before)), Reconcile), draw, 6);
            var again := Alone(Next(Next(minted, Crash), Reconcile), draw, 4);
            && Reached(again) && again.phase == MintToken(Checked(draw))
            && draw.id in again.store.inner.tokens && Live(again.store.inner.tokens[draw.id], again.store.now)
  {
    var store := R.Run(R.INIT, before);
    var w0 := Created(spec, store);
    assert w0 == Run(Created(spec, R.Run(R.INIT, before)), []);
    var minted := Alone(Next(w0, Reconcile), draw, 6);
    FirstMint(spec, store, draw);
    ReachedNext(w0, Reconcile);
    ReachedAlone(Next(w0, Reconcile), draw, 6);
    ReachedNext(minted, Crash);
    ReachedNext(Next(minted, Crash), Reconcile);
    ReachedAlone(Next(Next(minted, Crash), Reconcile), draw, 4);
    AgainToTheMint(Next(minted, Crash), draw);
  }

  lemma AgainToTheMint(w: World, draw: Secret)
    requires w.phase.Idle? && !w.gone && !w.deleting && w.secret == Some(draw) && w.store.now < draw.expires
    requires w.status == Some(Status(draw.id, draw.expires, Pending))
    requires draw.id in w.store.inner.tokens && w.store.inner.tokens[draw.id].redeemedBy.None?
    ensures Alone(Next(w, Reconcile), draw, 4) == w.(phase := MintToken(Checked(draw)))
  {
    var w1 := Next(w, Reconcile);
    var w2 := Advanced(w1, draw);
    var w3 := Advanced(w2, draw);
    assert w3.phase == Judge(Checked(draw), Outstanding);
    var w4 := Advanced(w3, draw);
    var w5 := Advanced(w4, draw);
    assert Alone(w1, draw, 4) == Alone(w2, draw, 3) == Alone(w3, draw, 2) == Alone(w4, draw, 1) == Alone(w5, draw, 0);
  }
}
