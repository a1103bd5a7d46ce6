/**
 What an undisturbed reconcile of an invite comes to, in every reachable state between reconciles,
 stated over the Secret, the status, the token row and the time.
 */
module InviteOutcomes {
  import opened Prelude
  import opened EnrollmentStore
  import opened SiteInvites
  import opened InviteRevocation
  import R = StoreRuns

  /** Between reconciles, with a status that names a token and is not final. */
  ghost predicate Resting(w: World) {
    && Reached(w) && w.phase.Idle? && !w.gone && !w.deleting
    && w.status.Some? && w.status.value.id in w.draws && !Terminal(w.status.value.condition)
  }

  /** One undisturbed reconcile of `n` steps. */
  function Reconciled(w: World, draw: Secret, n: nat): World {
    Alone(Next(w, Reconcile), draw, n)
  }

  /** The reconcile is over: nothing in flight, and this Secret, condition and store. */
  predicate EndsAs(w: World, v: World, secret: Option<Secret>, condition: Condition, inner: Inner) {
    && w.status.Some? && v.phase.Idle? && !v.gone
    && v.status == Some(Status(w.status.value.id, w.status.value.expires, condition))
    && v.secret == secret && v.store == w.store.(inner := inner)
  }

  /** Every row of the invite is the token its spec and its Secret describe. */
  lemma RowsCarryTheSpec(w: World, id: Uuid)
    requires Reached(w) && id in w.draws && id in w.store.inner.tokens
    ensures var row, spec, draw := w.store.inner.tokens[id], w.spec, w.draws[id];
            && row.digest == draw.digest && row.expiresAt == draw.expires
            && row.publicKey == spec.publicKey && row.siteName == spec.siteName
            && row.allowDeletedName == spec.allowDeletedName
            && row.gridNetworkRef == "site-invite" && row.issuedBy == "siteinvite/" + spec.uid
  {
    ReachedAll(w);
    assert RowOfDraw(w, w.store.inner, id);
  }

  lemma {:induction false} AloneMore(w: World, draw: Secret, n: nat, m: nat)
    ensures Alone(w, draw, n + m) == Alone(Alone(w, draw, n), draw, m)
    decreases n
  {
    if n > 0 {
      AloneMore(Advanced(w, draw), draw, n - 1, m);
    }
  }

  /** The checkpoint a reconcile reads: from the Secret, or without a digest from the status. */
  function Known(w: World): Checkpoint
    requires w.status.Some?
  {
    if w.secret.Some? then Checked(w.secret.value) else Checkpoint(w.status.value.id, None, w.status.value.expires)
  }

  /** Its first three steps read, look up and judge, and change nothing else. */
  lemma UpToJudgement(w: World, draw: Secret)
    requires Resting(w)
    ensures Reconciled(w, draw, 3) == w.(phase := Judged(Known(w), Looked(w, w.status.value.id), w.store.now))
    ensures Known(w).id == w.status.value.id && Known(w).expires == w.status.value.expires
  {
    ReachedAll(w);
    var w1 := Next(w, Reconcile);
    var w2 := Advanced(w1, draw);
    assert w2 == w.(phase := LookUp(Known(w)));
    var w3 := Advanced(w2, draw);
    var w4 := Advanced(w3, draw);
    assert Alone(w1, draw, 3) == Alone(w2, draw, 2) == Alone(w3, draw, 1) == Alone(w4, draw, 0);
  }

  lemma TwoMore(w: World, draw: Secret)
    ensures Alone(w, draw, 2) == Advanced(Advanced(w, draw), draw)
  {
    assert Alone(Advanced(w, draw), draw, 1) == Alone(Advanced(Advanced(w, draw), draw), draw, 0);
  }

  lemma ThreeMore(w: World, draw: Secret)
    ensures Alone(w, draw, 3) == Advanced(Advanced(Advanced(w, draw), draw), draw)
  {
    assert Alone(w, draw, 3) == Alone(Advanced(w, draw), draw, 2);
    TwoMore(Advanced(w, draw), draw);
  }

  /** The last three steps of an expiry. */
  lemma ExpiryPath(w: World, c: Checkpoint, draw: Secret)
    requires w.phase == ExpireSecret(c)
    ensures Alone(w, draw, 3) == w.(secret := None, phase := Idle, status := Some(Status(c.id, c.expires, Expired)),
                                    store := w.store.(inner := EnrollmentStore.Revoked(w.store.inner, c.id).inner))
  {
    ThreeMore(w, draw);
    var w1 := Advanced(w, draw);
    assert w1 == w.(secret := None, phase := ExpireToken(c));
    var w2 := Advanced(w1, draw);
    assert w2.phase == Patch(c, Expired);
  }

  /** The last three steps of a mint that the store grants or refuses for the name. */
  lemma MintPath(w: World, c: Checkpoint, draw: Secret, outcome: Outcome<Uuid>)
    requires w.phase == MarkPending(c) && c.digest.Some? && w.status.Some?
    requires w.status.value.condition.Pending? || w.status.value.condition.Ready?
    requires outcome == Minted(w.store.inner, TokenOf(w.spec, c), c.id, w.store.now)
    requires outcome.result.Ok? || outcome.result.error.NameTaken? || outcome.result.error.NameDeleted?
             || outcome.result.error.TokenOutstanding?
    ensures var v := Alone(w, draw, 3);
            && v.phase.Idle? && v.gone == w.gone && v.secret == w.secret
            && v.store == w.store.(inner := outcome.inner)
            && v.status == Some(Status(c.id, c.expires, if outcome.result.Ok? then Ready else Pending))
  {
    ThreeMore(w, draw);
    var w1 := Advanced(w, draw);
    assert w1 == w.(phase := MintToken(c));
    var w2 := Advanced(w1, draw);
    assert w2.phase == Patch(c, if outcome.result.Ok? then Ready else Pending);
  }

  /** What a reconcile that reaches the mint with its digest mints. */
  function MintOf(w: World): Outcome<Uuid>
    requires w.secret.Some?
  {
    Minted(w.store.inner, TokenOf(w.spec, Checked(w.secret.value)), w.secret.value.id, w.store.now)
  }

  /** A reconcile with its Secret, in time, that finds the token outstanding goes on to the mint. */
  lemma MintDecides(w: World, draw: Secret)
    requires Resting(w) && w.store.now < w.status.value.expires && w.secret.Some?
    requires Looked(w, w.status.value.id).Outstanding?
    requires var r := MintOf(w).result;
             r.Ok? || r.error.NameTaken? || r.error.NameDeleted? || r.error.TokenOutstanding?
    ensures EndsAs(w, Reconciled(w, draw, 6), w.secret,
                   if MintOf(w).result.Ok? then Ready else Pending, MintOf(w).inner)
  {
    UpToJudgement(w, draw);
    AloneMore(Next(w, Reconcile), draw, 3, 3);
    MintPath(Reconciled(w, draw, 3), Known(w), draw, MintOf(w));
  }

  /** A spent token: the Secret goes and the status reads Redeemed. */
  lemma SpentEndsRedeemed(w: World, draw: Secret)
    requires Resting(w)
    requires var id := w.status.value.id; id in w.store.inner.tokens && w.store.inner.tokens[id].redeemedBy.Some?
    ensures EndsAs(w, Reconciled(w, draw, 5), None, Redeemed, w.store.inner)
  {
    UpToJudgement(w, draw);
    AloneMore(Next(w, Reconcile), draw, 3, 2);
    TwoMore(Reconciled(w, draw, 3), draw);
  }

  /** Time up with the token unspent: Secret and row go and the status reads Expired. */
  lemma TimeUpEndsExpired(w: World, draw: Secret)
    requires Resting(w) && w.status.value.expires <= w.store.now
    requires var id := w.status.value.id; id in w.store.inner.tokens ==> w.store.inner.tokens[id].redeemedBy.None?
    ensures EndsAs(w, Reconciled(w, draw, 6), None, Expired, Forgotten(w.store.inner, w.status.value.id))
  {
    UpToJudgement(w, draw);
    AloneMore(Next(w, Reconcile), draw, 3, 3);
    ExpiryPath(Reconciled(w, draw, 3), Known(w), draw);
  }

  /** A row revoked elsewhere after its mint was recorded: the Secret goes and the status reads Revoked. */
  lemma RevokedElsewhereEndsRevoked(w: World, draw: Secret)
    requires Resting(w) && w.store.now < w.status.value.expires && w.status.value.condition.Ready?
    requires w.status.value.id !in w.store.inner.tokens
    ensures EndsAs(w, Reconciled(w, draw, 5), None, Revoked, w.store.inner)
  {
    UpToJudgement(w, draw);
    AloneMore(Next(w, Reconcile), draw, 3, 2);
    TwoMore(Reconciled(w, draw, 3), draw);
  }

  /** A lost Secret with the token unspent: the row goes, if there is one, and the status reads Revoked. */
  lemma LostSecretEndsRevoked(w: World, draw: Secret)
    requires Resting(w) && w.store.now < w.status.value.expires && w.secret.None?
    requires var id := w.status.value.id;
             if id in w.store.inner.tokens then w.store.inner.tokens[id].redeemedBy.None?
             else w.status.value.condition.Pending?
    ensures EndsAs(w, Reconciled(w, draw, 6), None, Revoked, Forgotten(w.store.inner, w.status.value.id))
  {
    UpToJudgement(w, draw);
    AloneMore(Next(w, Reconcile), draw, 3, 3);
    ThreeMore(Reconciled(w, draw, 3), draw);
  }

  /** A token in the store, unspent and in time, with its Secret: nothing changes but that the status reads Ready. */
  lemma LiveTokenEndsReady(w: World, draw: Secret)
    requires Resting(w) && w.store.now < w.status.value.expires && w.secret.Some?
    requires var id := w.status.value.id; id in w.store.inner.tokens && w.store.inner.tokens[id].redeemedBy.None?
    ensures EndsAs(w, Reconciled(w, draw, 6), w.secret, Ready, w.store.inner)
  {
    ReachedAll(w);
    assert RowOfDraw(w, w.store.inner, w.status.value.id);
    RowIsMintedAgain(w.store.inner, TokenOf(w.spec, Checked(w.secret.value)), w.secret.value.id, w.store.now);
    MintDecides(w, draw);
  }

  lemma RowIsMintedAgain(s: Inner, t: NewSiteToken, id: Uuid, now: Time)
    requires t.tokenId == Some(id) && id in s.tokens && SameToken(s.tokens[id], t)
    ensures Minted(s, t, id, now) == Outcome(s, Ok(id))
  {
  }

  /** A pending mint: with the name and digest free the row is there and the status reads Ready. */
  lemma FreeNameEndsReady(w: World, draw: Secret)
    requires Resting(w) && w.store.now < w.status.value.expires && w.secret.Some? && ReadsPending(w)
    requires Missing(w) && Clear(w)
    ensures var id := w.status.value.id;
            EndsAs(w, Reconciled(w, draw, 6), w.secret, Ready,
                   WithRow(w.store.inner, id, RowOf(TokenOf(w.spec, Checked(w.draws[id])))))
  {
    ReachedAll(w);
    assert w.secret.value == w.draws[w.status.value.id];
    MintDecides(w, draw);
  }

  /** A pending mint the store refuses, for the name or a live token of it: the status goes on reading Pending. */
  lemma HeldNameStaysPending(w: World, draw: Secret)
    requires Resting(w) && w.store.now < w.status.value.expires && w.secret.Some? && ReadsPending(w) && Missing(w)
    requires var s := w.store.inner;
             || w.spec.siteName in s.issuedNames
             || (!w.spec.allowDeletedName && w.spec.siteName in s.deletedNames)
             || NamePinned(s, w.spec.siteName, w.store.now)
    ensures EndsAs(w, Reconciled(w, draw, 6), w.secret, Pending, w.store.inner)
  {
    ReachedAll(w);
    assert w.secret.value == w.draws[w.status.value.id];
    HeldNameRefuses(w.store.inner, TokenOf(w.spec, Checked(w.secret.value)), w.secret.value.id, w.store.now);
    MintDecides(w, draw);
  }

  lemma HeldNameRefuses(s: Inner, t: NewSiteToken, id: Uuid, now: Time)
    requires t.tokenId == Some(id) && id !in s.tokens
    requires t.siteName in s.issuedNames || (!t.allowDeletedName && t.siteName in s.deletedNames)
             || NamePinned(s, t.siteName, now)
    ensures var outcome := Minted(s, t, id, now);
            && outcome.inner == s && outcome.result.Err?
            && (outcome.result.error.NameTaken? || outcome.result.error.NameDeleted?
                || outcome.result.error.TokenOutstanding?)
  {
  }

  /** A new invite beside a store that welcomes it: one reconcile ends with the row, the Secret and Ready. */
  lemma NewInviteEndsReady(spec: Spec, store: R.World, draw: Secret)
    requires Welcomes(store, spec, draw)
    ensures var v := Reconciled(Created(spec, store), draw, 7);
            && v.phase.Idle? && v.status == Some(Status(draw.id, draw.expires, Ready)) && v.secret == Some(draw)
            && v.store.inner == WithRow(store.inner, draw.id, RowOf(TokenOf(spec, Checked(draw))))
  {
    FirstMint(spec, store, draw);
    AloneMore(Next(Created(spec, store), Reconcile), draw, 6, 1);
    var w := Reconciled(Created(spec, store), draw, 6);
    assert Alone(w, draw, 1) == Alone(Advanced(w, draw), draw, 0);
  }
}
