/**
 What each operation of the enrollment store answers and does, case by case, stated over the
 stored rows and records: which refusal, which record, which key.
 */
module StoreAnswers {
  import opened Prelude
  import opened EnrollmentStore
  import opened StoreRuns
  import T = StoreTheorems

  // ---- Mint ----

  /** The row says of the token what the request said. */
  predicate Repeats(row: TokenRow, t: NewSiteToken) {
    && row.digest == t.digest && row.publicKey == t.publicKey && row.siteName == t.siteName
    && row.gridNetworkRef == t.gridNetworkRef && row.issuedBy == t.issuedBy
    && row.expiresAt == t.expiresAt && row.allowDeletedName == t.allowDeletedName
  }

  function MintId(t: NewSiteToken, newId: Uuid): Uuid {
    if t.tokenId.Some? then t.tokenId.value else newId
  }

  /** A token of the name that can still be presented. */
  ghost predicate Outstanding(s: Inner, name: string, now: Time) {
    exists id :: id in s.tokens && s.tokens[id].siteName == name && s.tokens[id].redeemedBy.None?
                 && now < s.tokens[id].expiresAt
  }

  ghost predicate DigestKnown(s: Inner, digest: string) {
    exists id :: id in s.tokens && s.tokens[id].digest == digest
  }

  lemma OutstandingIsPinned(s: Inner, name: string, now: Time)
    ensures Outstanding(s, name, now) <==> NamePinned(s, name, now)
  {
    if NamePinned(s, name, now) {
      var id :| id in s.tokens && s.tokens[id].siteName == name && Live(s.tokens[id], now);
      assert id in s.tokens && s.tokens[id].siteName == name && s.tokens[id].redeemedBy.None?;
    }
    if Outstanding(s, name, now) {
      var id :| id in s.tokens && s.tokens[id].siteName == name && s.tokens[id].redeemedBy.None?
                && now < s.tokens[id].expiresAt;
      assert Live(s.tokens[id], now);
    }
  }

  /** A mint that succeeds leaves, under its id, an unspent row that repeats the request, and changes nothing else. */
  lemma MintStoresTheRequest(s: Inner, t: NewSiteToken, newId: Uuid, now: Time)
    requires Minted(s, t, newId, now).result.Ok?
    ensures var outcome := Minted(s, t, newId, now);
            var id := MintId(t, newId);
            && outcome.result == Ok(id)
            && id in outcome.inner.tokens && Repeats(outcome.inner.tokens[id], t)
            && (id in s.tokens ==> outcome.inner == s)
            && (id !in s.tokens ==>
                  && outcome.inner.tokens[id].redeemedBy.None?
                  && outcome.inner == s.(tokens := s.tokens[id := outcome.inner.tokens[id]],
                                         byDigest := s.byDigest[t.digest := id]))
  {
  }

  /** Exactly when a mint succeeds, and which refusal each other case gives, in every run. */
  lemma MintAnswers(steps: seq<Step>, t: NewSiteToken, newId: Uuid)
    ensures var w := Run(INIT, steps);
            var s := w.inner;
            var r := Minted(s, t, newId, w.now).result;
            var taken, deleted := t.siteName in s.issuedNames, !t.allowDeletedName && t.siteName in s.deletedNames;
            if MintId(t, newId) in s.tokens then r.Ok? <==> Repeats(s.tokens[MintId(t, newId)], t)
            else
              && (r.Ok? <==> !taken && !deleted && !Outstanding(s, t.siteName, w.now) && !DigestKnown(s, t.digest))
              && (r == Err(NameTaken) <==> taken)
              && (r == Err(NameDeleted) <==> !taken && deleted)
              && (r == Err(TokenOutstanding) <==> !taken && !deleted && Outstanding(s, t.siteName, w.now))
  {
    RunKeepsInv(INIT, steps);
    var w := Run(INIT, steps);
    MintAnswersAt(w.inner, t, newId, w.now);
  }

  lemma MintAnswersAt(s: Inner, t: NewSiteToken, newId: Uuid, now: Time)
    requires Indexed(s)
    ensures var r := Minted(s, t, newId, now).result;
            var taken, deleted := t.siteName in s.issuedNames, !t.allowDeletedName && t.siteName in s.deletedNames;
            if MintId(t, newId) in s.tokens then r.Ok? <==> Repeats(s.tokens[MintId(t, newId)], t)
            else
              && (r.Ok? <==> !taken && !deleted && !Outstanding(s, t.siteName, now) && !DigestKnown(s, t.digest))
              && (r == Err(NameTaken) <==> taken)
              && (r == Err(NameDeleted) <==> !taken && deleted)
              && (r == Err(TokenOutstanding) <==> !taken && !deleted && Outstanding(s, t.siteName, now))
  {
    OutstandingIsPinned(s, t.siteName, now);
    assert DigestKnown(s, t.digest) <==> t.digest in s.byDigest;
  }

  /** A mint in the run asked for this row. */
  ghost predicate AskedFor(steps: seq<Step>, row: TokenRow) {
    exists i :: 0 <= i < |steps| && steps[i].Mint? && Repeats(row, steps[i].token)
  }

  lemma RowsComeFromMints(s: Inner, step: Step, now: Time, id: Uuid)
    requires id in Applied(s, step, now).tokens
    ensures var row := Applied(s, step, now).tokens[id];
            || (id in s.tokens && row.(redeemedBy := None) == s.tokens[id].(redeemedBy := None))
            || (step.Mint? && Repeats(row, step.token))
  {
  }

  /** Every row of every run says what some mint of the run asked for. */
  lemma {:induction false} EveryRowWasAskedFor(steps: seq<Step>, id: Uuid)
    requires id in Run(INIT, steps).inner.tokens
    ensures AskedFor(steps, Run(INIT, steps).inner.tokens[id])
  {
    var init, last := steps[..|steps| - 1], steps[|steps| - 1];
    var w := Run(INIT, init);
    var row := Run(INIT, steps).inner.tokens[id];
    if Drawn(last) !! w.used {
      RowsComeFromMints(w.inner, last, w.now, id);
    }
    if last.Mint? && Repeats(row, last.token) {
      assert steps[|steps| - 1].Mint?;
    } else {
      EveryRowWasAskedFor(init, id);
      var i :| 0 <= i < |init| && init[i].Mint? && Repeats(w.inner.tokens[id], init[i].token);
      assert steps[i] == init[i] && Repeats(row, steps[i].token);
    }
  }

  /** So a bought record of a name ever deleted was asked for with the opt-in. */
  lemma DeletedNameWasAskedForWithOptIn(steps: seq<Step>, name: string)
    requires var s := Run(INIT, steps).inner;
             name in s.issuedNames && !s.issuedNames[name].reserved && name in s.deletedNames
    ensures exists i :: && 0 <= i < |steps| && steps[i].Mint?
                        && steps[i].token.siteName == name && steps[i].token.allowDeletedName
  {
    var s := Run(INIT, steps).inner;
    T.EveryEnrollmentHasOneToken(steps, name);
    var t :| RedeemedFor(s, t, s.issuedNames[name].held.id);
    T.DeletedNameNeedsOptIn(steps, name, t);
    EveryRowWasAskedFor(steps, t);
  }

  // ---- Redeem ----

  /** Exactly when a redemption succeeds, under the row's own name and key pin, and which refusal else. */
  lemma RedemptionAnswers(
    s: Inner, digest: string, sign: Pin -> Result<Issued, StoreError>, newId: Uuid, now: Time, id: Uuid)
    requires Indexed(s) && id in s.tokens && s.tokens[id].digest == digest
    ensures var row, r := s.tokens[id], Redeemed(s, digest, sign, newId, now).result;
            var answer := sign(Pin(row.siteName, row.publicKey));
            if row.redeemedBy.Some? || row.expiresAt <= now then r == Err(TokenInvalid)
            else if row.siteName in s.issuedNames then r == Err(NameTaken)
            else if row.siteName in s.deletedNames && !row.allowDeletedName then r == Err(NameDeleted)
            else if answer.Err? then r == Err(answer.error)
            else if answer.value.key in s.enrolledKeys then r == Err(KeyReused)
            else r == Ok((newId, answer.value))
  {
  }

  /** What a redemption records: a new enrollment of the signed key under the row's name, from now on. */
  lemma RedemptionRecords(s: Inner, digest: string, sign: Pin -> Result<Issued, StoreError>, newId: Uuid, now: Time)
    requires Redeemed(s, digest, sign, newId, now).result.Ok?
    ensures var outcome := Redeemed(s, digest, sign, newId, now);
            var id, issued, s' := s.byDigest[digest], outcome.result.value.1, outcome.inner;
            var name := s.tokens[id].siteName;
            && name in s'.issuedNames
            && s'.issuedNames[name] == Record(Held(newId, issued.key, None, now, now, false, None), false)
            && s'.issuedNames == s.issuedNames[name := s'.issuedNames[name]]
            && s'.tokens == s.tokens[id := s.tokens[id].(redeemedBy := Some(newId))]
            && s'.enrolledKeys == s.enrolledKeys + {issued.key}
            && (issued.notAfter.Some? ==> s'.notAfter == s.notAfter[name := issued.notAfter.value])
            && (issued.notAfter.None? ==> s'.notAfter == s.notAfter)
            && s'.byDigest == s.byDigest && s'.deletedNames == s.deletedNames && s'.caFingerprint == s.caFingerprint
  {
  }

  /** The signer is asked under the row's pin alone: signers that agree there give the same outcome. */
  lemma SignerIsAskedUnderThePin(
    s: Inner, digest: string, sign: Pin -> Result<Issued, StoreError>, other: Pin -> Result<Issued, StoreError>,
    newId: Uuid, now: Time)
    requires digest in s.byDigest && s.byDigest[digest] in s.tokens
    requires var row := s.tokens[s.byDigest[digest]];
             sign(Pin(row.siteName, row.publicKey)) == other(Pin(row.siteName, row.publicKey))
    ensures Redeemed(s, digest, sign, newId, now) == Redeemed(s, digest, other, newId, now)
  {
  }

  /** The signer certifies only a key its pin allows. */
  ghost predicate Heeds(sign: Pin -> Result<Issued, StoreError>) {
    forall pin :: sign(pin).Ok? && pin.publicKey.Some? ==> sign(pin).value.key == pin.publicKey.value
  }

  ghost predicate SignersHeed(steps: seq<Step>) {
    forall i | 0 <= i < |steps| && steps[i].Redeem? :: Heeds(steps[i].sign)
  }

  /** A row pinned to a key that was spent bought an enrollment whose current key was, at first, that key. */
  ghost predicate PinsHeld(w: World) {
    forall t | t in w.inner.tokens && w.inner.tokens[t].redeemedBy.Some? && w.inner.tokens[t].publicKey.Some? ::
      (w.inner.tokens[t].redeemedBy.value, w.inner.tokens[t].publicKey.value) in w.history
  }

  /** The step that spends a row enrolls, under its name, the key its pin allows. */
  lemma SpendingEnrollsThePinnedKey(w: World, step: Step, t: Uuid)
    requires t in w.inner.tokens && w.inner.tokens[t].redeemedBy.None?
    requires t in Next(w, step).inner.tokens && Next(w, step).inner.tokens[t].redeemedBy.Some?
    requires step.Redeem? ==> Heeds(step.sign)
    ensures var row, s' := w.inner.tokens[t], Next(w, step).inner;
            && step.Redeem? && row.siteName in s'.issuedNames
            && s'.issuedNames[row.siteName].held.id == s'.tokens[t].redeemedBy.value == step.newId
            && step.newId !in w.used
            && (row.publicKey.Some? ==> s'.issuedNames[row.siteName].held.currentKey == row.publicKey.value)
  {
  }

  lemma NextKeepsPins(w: World, step: Step)
    requires PinsHeld(w) && (step.Redeem? ==> Heeds(step.sign))
    ensures PinsHeld(Next(w, step))
  {
    var w' := Next(w, step);
    forall t | t in w'.inner.tokens && w'.inner.tokens[t].redeemedBy.Some? && w'.inner.tokens[t].publicKey.Some?
      ensures (w'.inner.tokens[t].redeemedBy.value, w'.inner.tokens[t].publicKey.value) in w'.history
    {
      if Drawn(step) !! w.used {
        SpentRowsAreOldOrSpentNow(w.inner, step, w.now, t);
        if w.inner.tokens[t].redeemedBy.None? {
          SpendingEnrollsThePinnedKey(w, step, t);
          assert (w'.inner.tokens[t].redeemedBy.value, w'.inner.tokens[t].publicKey.value) in Pairs(w'.inner);
        }
      }
    }
  }

  lemma SpentRowsAreOldOrSpentNow(s: Inner, step: Step, now: Time, t: Uuid)
    requires t in Applied(s, step, now).tokens && Applied(s, step, now).tokens[t].redeemedBy.Some?
    ensures t in s.tokens && Applied(s, step, now).tokens[t].publicKey == s.tokens[t].publicKey
    ensures s.tokens[t].redeemedBy.Some? ==> Applied(s, step, now).tokens[t] == s.tokens[t]
  {
  }

  /** In every run whose signers heed their pins, a token pinned to a key buys an enrollment of that key. */
  lemma {:induction false} PinnedTokenBuysItsKey(steps: seq<Step>)
    requires SignersHeed(steps)
    ensures PinsHeld(Run(INIT, steps))
  {
    if steps != [] {
      var init := steps[..|steps| - 1];
      assert forall i | 0 <= i < |init| :: init[i] == steps[i];
      PinnedTokenBuysItsKey(init);
      NextKeepsPins(Run(INIT, init), steps[|steps| - 1]);
    }
  }

  // ---- Renew ----

  /** A second holder: a key that is neither current nor being retried, from a leaf of this incarnation. */
  predicate SecondHolder(h: Held, r: Renewal) {
    && r.requestedKey != r.presentedKey
    && r.presentedKey != h.currentKey
    && !(h.previousKey == Some(r.presentedKey) && r.requestedKey == h.currentKey)
    && h.epochAt - RECORD_SKEW <= r.presentedNotBefore <= h.recordedAt + RECORD_SKEW
  }

  /** A renewal freezes a record, and only then changes anything it refuses, exactly for a second holder. */
  lemma ForkFreezesIff(s: Inner, r: Renewal, signed: Result<Issued, StoreError>, now: Time)
    ensures var outcome := RenewedBy(s, r, signed, now);
            var forked := r.siteName in s.issuedNames && !s.issuedNames[r.siteName].held.frozen
                          && SecondHolder(s.issuedNames[r.siteName].held, r);
            && (outcome.result.Err? && outcome.inner != s <==> forked)
            && (signed != Err(Refused(Forked)) ==> (outcome.result == Err(Refused(Forked)) <==> forked))
            && (forked ==>
                  var record := s.issuedNames[r.siteName];
                  && outcome.result == Err(Refused(Forked))
                  && outcome.inner == s.(issuedNames := s.issuedNames[r.siteName :=
                                           record.(held := record.held.(frozen := true))]))
  {
    if r.siteName in s.issuedNames && !s.issuedNames[r.siteName].held.frozen
       && SecondHolder(s.issuedNames[r.siteName].held, r) {
      assert RenewedBy(s, r, signed, now).inner.issuedNames[r.siteName] != s.issuedNames[r.siteName];
    }
  }

  /** A renewal rotates exactly from the current key to a key never enrolled, and what it then records. */
  lemma RotatesIff(s: Inner, r: Renewal, signed: Result<Issued, StoreError>, now: Time)
    ensures var outcome := RenewedBy(s, r, signed, now);
            var rotates := outcome.result.Ok? && outcome.result.value.action.Rotate?;
            && (rotates <==>
                  && signed.Ok? && r.siteName in s.issuedNames
                  && var h := s.issuedNames[r.siteName].held;
                     && !h.frozen && r.presentedKey == h.currentKey && r.requestedKey != h.currentKey
                     && h.previousKey != Some(r.requestedKey) && r.requestedKey !in s.enrolledKeys)
            && (rotates ==>
                  var before, after := s.issuedNames[r.siteName], outcome.inner.issuedNames[r.siteName];
                  && after == before.(held := before.held.(currentKey := r.requestedKey,
                                                           previousKey := Some(before.held.currentKey),
                                                           recordedAt := now))
                  && outcome.inner.issuedNames == s.issuedNames[r.siteName := after]
                  && outcome.inner.enrolledKeys == s.enrolledKeys + {r.requestedKey}
                  && outcome.result.value == Renewed(before.held.id, Rotate, before.held.currentKey, signed.value))
  {
  }

  /** It re-signs exactly for the previous key asking for the current one, and then records only the expiry. */
  lemma ResignsIff(s: Inner, r: Renewal, signed: Result<Issued, StoreError>, now: Time)
    ensures var outcome := RenewedBy(s, r, signed, now);
            var resigns := outcome.result.Ok? && outcome.result.value.action.Resign?;
            && (resigns <==>
                  && signed.Ok? && r.siteName in s.issuedNames
                  && var h := s.issuedNames[r.siteName].held;
                     && !h.frozen && h.previousKey == Some(r.presentedKey) && r.requestedKey == h.currentKey
                     && r.presentedKey != h.currentKey)
            && (resigns ==> outcome.inner == s.(notAfter := outcome.inner.notAfter))
            && (outcome.result.Ok? && signed.value.notAfter.Some? ==>
                  outcome.inner.notAfter == s.notAfter[r.siteName := signed.value.notAfter.value])
            && (outcome.result.Ok? && signed.value.notAfter.None? ==> outcome.inner.notAfter == s.notAfter)
  {
    if RenewedBy(s, r, signed, now).result.Ok? && RenewedBy(s, r, signed, now).result.value.action.Resign? {
      assert RenewedBy(s, r, signed, now).inner.issuedNames == s.issuedNames;
    }
  }

  /** Every other renewal is refused, and for which reason; the signer's own refusal is passed on. */
  lemma RenewalRefusals(s: Inner, r: Renewal, signed: Result<Issued, StoreError>, now: Time)
    ensures var result := RenewedBy(s, r, signed, now).result;
            if r.siteName !in s.issuedNames then result == Err(Refused(UnknownSite))
            else
              var h := s.issuedNames[r.siteName].held;
              var retry := h.previousKey == Some(r.presentedKey) && r.requestedKey == h.currentKey;
              var reuse := r.requestedKey == r.presentedKey
                           || (r.presentedKey == h.currentKey
                               && (h.previousKey == Some(r.requestedKey) || r.requestedKey in s.enrolledKeys));
              if h.frozen then result == Err(Refused(Frozen))
              else if reuse then result == Err(Refused(KeyReusedByRenewal))
              else if r.presentedKey == h.currentKey || retry then
                (if signed.Err? then result == Err(signed.error) else result.Ok?)
              else if r.presentedNotBefore < h.epochAt - RECORD_SKEW then result == Err(Refused(Superseded))
              else if r.presentedNotBefore > h.recordedAt + RECORD_SKEW then result == Err(Refused(RecordBehind))
              else result == Err(Refused(Forked))
  {
  }

  // ---- Seed ----

  /** What each seed does: only a newer one changes a reserved record, and only with a key it does not hold. */
  lemma SeedAnswers(s: Inner, seed: SeedRecord, newId: Uuid, now: Time)
    ensures var outcome := SeededBy(s, seed, newId, now);
            var known := seed.siteName in s.issuedNames;
            && outcome.result.Ok?
            && (outcome.result.value.Registered? <==> !known)
            && (outcome.result.value.NotReserved? <==> known && !s.issuedNames[seed.siteName].reserved)
            && (known && s.issuedNames[seed.siteName].reserved ==>
                  var h := s.issuedNames[seed.siteName].held;
                  var newer := h.seedGeneration.None? || h.seedGeneration.value < seed.generation;
                  var holds := h.currentKey == seed.key || h.previousKey == Some(seed.key);
                  && (outcome.result.value.Older? <==>
                        h.seedGeneration.Some? && seed.generation < h.seedGeneration.value)
                  && (outcome.result.value.Unchanged? <==> h.seedGeneration == Some(seed.generation))
                  && (outcome.result.value.Acknowledged? <==> newer && holds)
                  && (outcome.result.value.Reset? <==> newer && !holds)
                  && (outcome.result.value.Reset? ==> outcome.result.value.replacedKey == h.currentKey))
  {
  }

  /** What a seed records. */
  lemma SeedRecords(s: Inner, seed: SeedRecord, newId: Uuid, now: Time)
    ensures var outcome := SeededBy(s, seed, newId, now);
            var d, s' := outcome.result.value, outcome.inner;
            && (d.NotReserved? || d.Older? || d.Unchanged? ==> s' == s)
            && (d.Acknowledged? ==>
                  && seed.siteName in s.issuedNames
                  && var before := s.issuedNames[seed.siteName];
                     s' == s.(issuedNames := s.issuedNames[seed.siteName :=
                                before.(held := before.held.(seedGeneration := Some(seed.generation)))]))
            && (d.Registered? || d.Reset? ==>
                  && seed.siteName in s'.issuedNames && s'.issuedNames[seed.siteName].reserved
                  && s'.issuedNames[seed.siteName].held ==
                     Held(if d.Reset? && seed.siteName in s.issuedNames then s.issuedNames[seed.siteName].held.id
                          else newId,
                          seed.key, None, now, seed.issuedAt, false, Some(seed.generation))
                  && seed.siteName !in s'.notAfter && s'.notAfter == s.notAfter - {seed.siteName}
                  && s'.enrolledKeys == s.enrolledKeys + {seed.key}
                  && s'.issuedNames == s.issuedNames[seed.siteName := s'.issuedNames[seed.siteName]])
            && s'.tokens == s.tokens && s'.byDigest == s.byDigest && s'.deletedNames == s.deletedNames
            && s'.caFingerprint == s.caFingerprint
  {
  }

  // ---- Delete ----

  lemma DeletedNameKept(s: Inner, step: Step, now: Time, name: string)
    ensures name in s.deletedNames ==> name in Applied(s, step, now).deletedNames
    ensures step == Delete(name) && name in s.issuedNames ==>
              name in Applied(s, step, now).deletedNames && name !in Applied(s, step, now).issuedNames
  {
  }

  /** A deleted enrollment is gone at once, and its name is remembered for good. */
  lemma {:induction false} DeletedNameIsRemembered(w: World, name: string, steps: seq<Step>)
    requires name in w.inner.issuedNames
    ensures name !in Next(w, Delete(name)).inner.issuedNames && name !in Next(w, Delete(name)).inner.notAfter
    ensures name in Run(Next(w, Delete(name)), steps).inner.deletedNames
  {
    DeletedNameKept(w.inner, Delete(name), w.now, name);
    if steps != [] {
      var init := steps[..|steps| - 1];
      DeletedNameIsRemembered(w, name, init);
      var v := Run(Next(w, Delete(name)), init);
      DeletedNameKept(v.inner, steps[|steps| - 1], v.now, name);
    }
  }

  // ---- The recorded CA ----

  /** The recorded CA moves exactly on a swap that expects it, to what the swap brings; nothing else moves it. */
  lemma RecordedCaMovesOnlyOnItsSwap(w: World, step: Step)
    ensures Next(w, step).inner.caFingerprint ==
            if step.SwapCa? && w.inner.caFingerprint == step.expected then Some(step.fingerprint)
            else w.inner.caFingerprint
    ensures step.SwapCa? ==> Next(w, step).inner.(caFingerprint := w.inner.caFingerprint) == w.inner
  {
    if step.Delete? {
      assert Applied(w.inner, step, w.now).caFingerprint == w.inner.caFingerprint;
    }
  }
}
