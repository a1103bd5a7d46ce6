/** What every run of the enrollment store guarantees. */
module StoreTheorems {
  import opened Prelude
  import opened EnrollmentStore
  import opened StoreRuns

  // ---- Tokens ----

  /** The indexed lookup answers as a scan of the whole token table would. */
  lemma TokenValidIsAFullScan(steps: seq<Step>, digest: string)
    ensures var w := Run(INIT, steps);
            TokenValid(w.inner, digest, w.now) <==>
            exists id :: id in w.inner.tokens && w.inner.tokens[id].digest == digest
                         && w.inner.tokens[id].redeemedBy.None? && w.now < w.inner.tokens[id].expiresAt
  {
    RunKeepsInv(INIT, steps);
    var w := Run(INIT, steps);
    if TokenValid(w.inner, digest, w.now) {
      assert w.inner.byDigest[digest] in w.inner.tokens;
    }
  }

  /** At most one live token pins a name. */
  lemma OneLiveTokenPerName(steps: seq<Step>, a: Uuid, b: Uuid)
    requires var w := Run(INIT, steps);
             && a in w.inner.tokens && b in w.inner.tokens
             && Live(w.inner.tokens[a], w.now) && Live(w.inner.tokens[b], w.now)
             && w.inner.tokens[a].siteName == w.inner.tokens[b].siteName
    ensures a == b
  {
    RunKeepsInv(INIT, steps);
  }

  lemma SpentRowKept(s: Inner, step: Step, now: Time, id: Uuid)
    requires id in s.tokens && s.tokens[id].redeemedBy.Some?
    ensures id in Applied(s, step, now).tokens && Applied(s, step, now).tokens[id] == s.tokens[id]
  {
  }

  /** A spent token's row is never changed or removed. */
  lemma {:induction false} SpentRowsPersist(w: World, steps: seq<Step>, id: Uuid)
    requires id in w.inner.tokens && w.inner.tokens[id].redeemedBy.Some?
    ensures id in Run(w, steps).inner.tokens && Run(w, steps).inner.tokens[id] == w.inner.tokens[id]
  {
    if steps != [] {
      var init := steps[..|steps| - 1];
      SpentRowsPersist(w, init, id);
      SpentRowKept(Run(w, init).inner, steps[|steps| - 1], Run(w, init).now, id);
    }
  }

  /** A spent digest is never valid again. */
  lemma SpentDigestNeverValid(before: seq<Step>, after: seq<Step>, id: Uuid)
    requires var w := Run(INIT, before); id in w.inner.tokens && w.inner.tokens[id].redeemedBy.Some?
    ensures var w := Run(INIT, before);
            var w' := Run(w, after);
            !TokenValid(w'.inner, w.inner.tokens[id].digest, w'.now)
  {
    RunKeepsInv(INIT, before);
    RunKeepsInv(Run(INIT, before), after);
    SpentRowsPersist(Run(INIT, before), after, id);
  }

  /** Some opted-in token bought the enrollment under this name. */
  ghost predicate OptedIn(s: Inner, name: string)
    requires name in s.issuedNames
  {
    exists t :: RedeemedFor(s, t, s.issuedNames[name].held.id) && s.tokens[t].siteName == name
                && s.tokens[t].allowDeletedName
  }

  ghost predicate ReturnsOptedIn(s: Inner) {
    forall name | name in s.issuedNames && !s.issuedNames[name].reserved && name in s.deletedNames :: OptedIn(s, name)
  }

  /** A bought record of a deleted name was there before under the same id, or this redemption opted in. */
  lemma ReturnedRecord(s: Inner, step: Step, now: Time, name: string)
    requires var s' := Applied(s, step, now);
             name in s'.issuedNames && !s'.issuedNames[name].reserved && name in s'.deletedNames
    ensures var s' := Applied(s, step, now);
            || (name in s.issuedNames && !s.issuedNames[name].reserved && name in s.deletedNames
                && s'.issuedNames[name].held.id == s.issuedNames[name].held.id)
            || OptedIn(s', name)
  {
    if step.Redeem? {
      ReturnedByRedemption(s, step, now, name);
    }
  }

  lemma ReturnedByRedemption(s: Inner, step: Step, now: Time, name: string)
    requires step.Redeem? && name in Applied(s, step, now).issuedNames && name in s.deletedNames
    ensures var s' := Applied(s, step, now);
            (name in s.issuedNames && s'.issuedNames[name] == s.issuedNames[name]) || OptedIn(s', name)
  {
    if name !in s.issuedNames {
      var s' := Applied(s, step, now);
      assert RedeemedFor(s', s.byDigest[step.digest], s'.issuedNames[name].held.id);
    }
  }

  lemma ReturnsStayOptedIn(s: Inner, step: Step, now: Time)
    requires ReturnsOptedIn(s)
    ensures ReturnsOptedIn(Applied(s, step, now))
  {
    var s' := Applied(s, step, now);
    forall name | name in s'.issuedNames && !s'.issuedNames[name].reserved && name in s'.deletedNames
      ensures OptedIn(s', name)
    {
      ReturnedRecord(s, step, now, name);
      if !OptedIn(s', name) {
        var t :| RedeemedFor(s, t, s.issuedNames[name].held.id) && s.tokens[t].siteName == name
                 && s.tokens[t].allowDeletedName;
        SpentRowKept(s, step, now, t);
        assert RedeemedFor(s', t, s'.issuedNames[name].held.id);
      }
    }
  }

  lemma {:induction false} RunsReturnOptedIn(w: World, steps: seq<Step>)
    requires ReturnsOptedIn(w.inner)
    ensures ReturnsOptedIn(Run(w, steps).inner)
  {
    if steps != [] {
      var before := Run(w, steps[..|steps| - 1]);
      RunsReturnOptedIn(w, steps[..|steps| - 1]);
      ReturnsStayOptedIn(before.inner, steps[|steps| - 1], before.now);
    }
  }

  /** In every run, a bought record of a name that was ever deleted was bought by a token that opted in. */
  lemma DeletedNameNeedsOptIn(steps: seq<Step>, name: string, t: Uuid)
    requires var s := Run(INIT, steps).inner;
             && name in s.issuedNames && !s.issuedNames[name].reserved && name in s.deletedNames
             && RedeemedFor(s, t, s.issuedNames[name].held.id)
    ensures var row := Run(INIT, steps).inner.tokens[t]; row.allowDeletedName && row.siteName == name
  {
    RunKeepsInv(INIT, steps);
    RunsReturnOptedIn(INIT, steps);
    var s := Run(INIT, steps).inner;
    assert OptedIn(s, name);
  }

  /** The two traces a refusal may leave. */
  ghost predicate RefusalTrace(s: Inner, s': Inner, step: Step) {
    || s' == s
    || (step.Renew? && step.renewal.siteName in s.issuedNames
        && s' == s.(issuedNames := s.issuedNames[step.renewal.siteName :=
                     s.issuedNames[step.renewal.siteName].(held :=
                       s.issuedNames[step.renewal.siteName].held.(frozen := true))]))
    || (step.Redeem? && step.digest in s.byDigest && s' == Forgotten(s, s.byDigest[step.digest]))
  }

  /** A refused operation changes nothing, but for freezing a fork and forgetting a token of a deleted name. */
  lemma RefusalsLeaveNoTrace(steps: seq<Step>, step: Step)
    requires var w := Run(INIT, steps); RefusedWith(w.inner, step, w.now).Some?
    ensures var w := Run(INIT, steps);
            var s' := Applied(w.inner, step, w.now);
            var why := RefusedWith(w.inner, step, w.now).value;
            && RefusalTrace(w.inner, s', step)
            && (s' != w.inner ==> why == Refused(Forked) || why == NameDeleted)
  {
    RunKeepsInv(INIT, steps);
    RefusedAlone(Run(INIT, steps).inner, step, Run(INIT, steps).now);
  }

  lemma RefusedAlone(s: Inner, step: Step, now: Time)
    requires s.notAfter.Keys <= s.issuedNames.Keys && RefusedWith(s, step, now).Some?
    ensures var s' := Applied(s, step, now);
            var why := RefusedWith(s, step, now).value;
            && RefusalTrace(s, s', step)
            && (s' != s ==> why == Refused(Forked) || why == NameDeleted)
  {
    if step.Delete? && step.name !in s.issuedNames {
      assert s.issuedNames - {step.name} == s.issuedNames && s.notAfter - {step.name} == s.notAfter;
    }
  }

  // ---- Enrollments ----

  /** Every token-bought record names exactly one spent token row, and that row pins its name. */
  lemma EveryEnrollmentHasOneToken(steps: seq<Step>, name: string)
    requires var w := Run(INIT, steps); name in w.inner.issuedNames && !w.inner.issuedNames[name].reserved
    ensures var s := Run(INIT, steps).inner;
            exists t :: && RedeemedFor(s, t, s.issuedNames[name].held.id) && s.tokens[t].siteName == name
                        && forall u :: RedeemedFor(s, u, s.issuedNames[name].held.id) ==> u == t
  {
    RunKeepsInv(INIT, steps);
    var s := Run(INIT, steps).inner;
    var t :| RedeemedFor(s, t, s.issuedNames[name].held.id) && s.tokens[t].siteName == name;
  }

  /** Every key a record holds, and every key ever enrolled, stays enrolled. */
  lemma {:induction false} KeysStayEnrolled(w: World, steps: seq<Step>)
    requires Inv(w)
    ensures w.inner.enrolledKeys <= Run(w, steps).inner.enrolledKeys
    ensures KeysEnrolled(Run(w, steps))
  {
    RunKeepsInv(w, steps);
    if steps != [] {
      var before := Run(w, steps[..|steps| - 1]);
      KeysStayEnrolled(w, steps[..|steps| - 1]);
      KeysKept(before.inner, steps[|steps| - 1], before.now);
    }
  }

  lemma KeysKept(s: Inner, step: Step, now: Time)
    ensures s.enrolledKeys <= Applied(s, step, now).enrolledKeys
  {
  }

  // ---- Key uniqueness ----

  ghost predicate Holds(s: Inner, name: string, key: string) {
    name in s.issuedNames && HoldsKey(s.issuedNames[name].held, key)
  }

  /** No key was ever current in two enrollments. */
  ghost predicate OneOwner(history: set<(Uuid, string)>) {
    forall p, q | p in history && q in history && p.1 == q.1 :: p.0 == q.0
  }

  /** The enrollment a seed would write to. */
  function SeedTarget(s: Inner, seed: SeedRecord, newId: Uuid): Uuid {
    if seed.siteName in s.issuedNames then s.issuedNames[seed.siteName].held.id else newId
  }

  /** No other enrollment ever held the seed's key, if the seed writes it at all. */
  ghost predicate SeedKeyOwn(w: World, seed: SeedRecord, newId: Uuid) {
    SeedWrites(w.inner, seed) ==>
      forall p | p in w.history && p.1 == seed.key :: p.0 == SeedTarget(w.inner, seed, newId)
  }

  /** The name whose record a step may write. */
  function Subject(s: Inner, step: Step): string {
    match step
    case Redeem(digest, _, _) =>
      if digest in s.byDigest && s.byDigest[digest] in s.tokens then s.tokens[s.byDigest[digest]].siteName else ""
    case Renew(r, _) => r.siteName
    case Seed(seed, _) => seed.siteName
    case _ => ""
  }

  lemma OthersUntouched(s: Inner, step: Step, now: Time, name: string)
    requires name in Applied(s, step, now).issuedNames && name != Subject(s, step)
    ensures name in s.issuedNames && Applied(s, step, now).issuedNames[name] == s.issuedNames[name]
  {
  }

  /** The current key a step gives its subject was not enrolled before, unless a seed wrote it. */
  lemma SubjectKey(s: Inner, step: Step, now: Time)
    requires Subject(s, step) in Applied(s, step, now).issuedNames
    ensures var h' := Applied(s, step, now).issuedNames[Subject(s, step)].held;
            || (Subject(s, step) in s.issuedNames
                && h'.id == s.issuedNames[Subject(s, step)].held.id
                && h'.currentKey == s.issuedNames[Subject(s, step)].held.currentKey)
            || h'.currentKey !in s.enrolledKeys
            || (step.Seed? && SeedWrites(s, step.seed)
                && h'.id == SeedTarget(s, step.seed, step.newId) && h'.currentKey == step.seed.key)
  {
  }

  lemma NewPairs(w: World, step: Step, p: (Uuid, string))
    requires Inv(w) && p in Next(w, step).history && p !in w.history
    ensures || p.1 !in w.inner.enrolledKeys
            || (step.Seed? && SeedWrites(w.inner, step.seed)
                && p == (SeedTarget(w.inner, step.seed, step.newId), step.seed.key))
    ensures var s' := Next(w, step).inner;
            var name := Subject(w.inner, step);
            name in s'.issuedNames && p == (s'.issuedNames[name].held.id, s'.issuedNames[name].held.currentKey)
  {
    var s, s' := w.inner, Next(w, step).inner;
    var name := Subject(s, step);
    var n :| n in s'.issuedNames && p == (s'.issuedNames[n].held.id, s'.issuedNames[n].held.currentKey);
    assert forall m | m in s.issuedNames :: (s.issuedNames[m].held.id, s.issuedNames[m].held.currentKey) in Pairs(s);
    if n != name {
      OthersUntouched(s, step, w.now, n);
    } else {
      SubjectKey(s, step, w.now);
    }
  }

  /** A step keeps keys uniquely owned exactly when it is not a seed that writes another enrollment's key. */
  lemma OneOwnerIffSeedKeyOwn(w: World, step: Step)
    requires Inv(w) && OneOwner(w.history) && Drawn(step) !! w.used
    ensures OneOwner(Next(w, step).history) <==> (step.Seed? ==> SeedKeyOwn(w, step.seed, step.newId))
  {
    var h, h' := w.history, Next(w, step).history;
    forall p | p in h' && p !in h
      ensures p.1 in w.inner.enrolledKeys ==>
                && step.Seed? && SeedWrites(w.inner, step.seed)
                && p == (SeedTarget(w.inner, step.seed, step.newId), step.seed.key)
      ensures forall q | q in h' && q !in h :: q == p
    {
      NewPairs(w, step, p);
      forall q | q in h' && q !in h
        ensures q == p
      {
        NewPairs(w, step, q);
      }
    }
    if step.Seed? && SeedWrites(w.inner, step.seed) {
      var s' := Next(w, step).inner;
      var p := (SeedTarget(w.inner, step.seed, step.newId), step.seed.key);
      assert step.seed.siteName in s'.issuedNames;
      assert p in Pairs(s');
      if !SeedKeyOwn(w, step.seed, step.newId) {
        var q :| q in h && q.1 == step.seed.key && q.0 != p.0;
        assert q in h' && p in h';
      }
    }
  }

  /** Seeds along a run write only keys that were never enrolled. */
  ghost predicate SeedsAreNew(w: World, steps: seq<Step>) {
    steps != [] ==>
      && SeedsAreNew(w, steps[..|steps| - 1])
      && var v := Run(w, steps[..|steps| - 1]);
         var last := steps[|steps| - 1];
         last.Seed? && SeedWrites(v.inner, last.seed) ==> last.seed.key !in v.inner.enrolledKeys
  }

  lemma {:induction false} OneOwnerLasts(w: World, steps: seq<Step>)
    requires Inv(w) && OneOwner(w.history) && SeedsAreNew(w, steps)
    ensures OneOwner(Run(w, steps).history)
  {
    if steps != [] {
      var init, last := steps[..|steps| - 1], steps[|steps| - 1];
      OneOwnerLasts(w, init);
      RunKeepsInv(w, init);
      if Drawn(last) !! Run(w, init).used {
        OneOwnerIffSeedKeyOwn(Run(w, init), last);
      }
    }
  }

  /** Names have different enrollments, and a previous key was current in the same enrollment before. */
  ghost predicate Lineage(w: World) {
    && (forall a, b | a in w.inner.issuedNames && b in w.inner.issuedNames
                      && w.inner.issuedNames[a].held.id == w.inner.issuedNames[b].held.id :: a == b)
    && (forall name | name in w.inner.issuedNames && w.inner.issuedNames[name].held.previousKey.Some? ::
          (w.inner.issuedNames[name].held.id, w.inner.issuedNames[name].held.previousKey.value) in w.history)
  }

  /** A step leaves its subject its enrollment or draws a new one, and demotes only the subject's own key. */
  lemma SubjectLineage(s: Inner, step: Step, now: Time)
    requires Subject(s, step) in Applied(s, step, now).issuedNames
    ensures var name := Subject(s, step);
            var h' := Applied(s, step, now).issuedNames[name].held;
            || (h'.id in Drawn(step) && name !in s.issuedNames && h'.previousKey.None?)
            || (name in s.issuedNames && h'.id == s.issuedNames[name].held.id
                && (h'.previousKey.None? || h'.previousKey == s.issuedNames[name].held.previousKey
                    || h'.previousKey == Some(s.issuedNames[name].held.currentKey)))
  {
  }

  lemma LineageAt(w: World, step: Step, name: string)
    requires Inv(w) && Lineage(w) && Drawn(step) !! w.used && name in Applied(w.inner, step, w.now).issuedNames
    ensures var s, h' := w.inner, Applied(w.inner, step, w.now).issuedNames[name].held;
            && (h'.previousKey.Some? ==> (h'.id, h'.previousKey.value) in w.history)
            && (if name in s.issuedNames then h'.id == s.issuedNames[name].held.id
                else name == Subject(s, step) && h'.id in Drawn(step))
  {
    var s := w.inner;
    if name != Subject(s, step) {
      OthersUntouched(s, step, w.now, name);
    } else {
      SubjectLineage(s, step, w.now);
      assert name in s.issuedNames ==> (s.issuedNames[name].held.id, s.issuedNames[name].held.currentKey) in Pairs(s);
    }
  }

  lemma LineageKept(w: World, step: Step)
    requires Inv(w) && Lineage(w)
    ensures Lineage(Next(w, step))
  {
    if Drawn(step) !! w.used {
      var s' := Applied(w.inner, step, w.now);
      forall a | a in s'.issuedNames
        ensures s'.issuedNames[a].held.previousKey.Some? ==>
                  (s'.issuedNames[a].held.id, s'.issuedNames[a].held.previousKey.value) in w.history
        ensures if a in w.inner.issuedNames then s'.issuedNames[a].held.id == w.inner.issuedNames[a].held.id
                else a == Subject(w.inner, step) && s'.issuedNames[a].held.id in Drawn(step)
      {
        LineageAt(w, step, a);
      }
    }
  }

  lemma {:induction false} LineageLasts(w: World, steps: seq<Step>)
    requires Inv(w) && Lineage(w)
    ensures Lineage(Run(w, steps))
  {
    if steps != [] {
      LineageLasts(w, steps[..|steps| - 1]);
      RunKeepsInv(w, steps[..|steps| - 1]);
      LineageKept(Run(w, steps[..|steps| - 1]), steps[|steps| - 1]);
    }
  }

  /**
   With seeds of new keys only: in every run no key was ever current in two enrollments, even across
   deletions, and no two names hold a key that either can still renew with, current or previous.
   */
  lemma NoKeyInTwoEnrollments(steps: seq<Step>, a: string, b: string, key: string)
    requires SeedsAreNew(INIT, steps)
    ensures OneOwner(Run(INIT, steps).history)
    ensures Holds(Run(INIT, steps).inner, a, key) && Holds(Run(INIT, steps).inner, b, key) ==> a == b
  {
    RunKeepsInv(INIT, steps);
    LineageLasts(INIT, steps);
    OneOwnerLasts(INIT, steps);
    HeldKeyIsInHistory(Run(INIT, steps), a, key);
    HeldKeyIsInHistory(Run(INIT, steps), b, key);
  }

  lemma HeldKeyIsInHistory(w: World, name: string, key: string)
    requires Inv(w) && Lineage(w)
    ensures Holds(w.inner, name, key) ==> (w.inner.issuedNames[name].held.id, key) in w.history
  {
    if name in w.inner.issuedNames {
      var held := w.inner.issuedNames[name].held;
      assert (held.id, held.currentKey) in Pairs(w.inner);
    }
  }

  /** Without them it can happen: a seed may register a key another enrollment holds. */
  lemma SeedCanShareAKey(w: World, name: string, hub: string, newId: Uuid, generation: u64)
    requires Inv(w) && name in w.inner.issuedNames && hub !in w.inner.issuedNames && newId !in w.used
    ensures var key := w.inner.issuedNames[name].held.currentKey;
            var w' := Next(w, Seed(SeedRecord(hub, key, generation, 0), newId));
            !OneOwner(w'.history) && Holds(w'.inner, name, key) && Holds(w'.inner, hub, key)
  {
    var held := w.inner.issuedNames[name].held;
    var seed := SeedRecord(hub, held.currentKey, generation, 0);
    var w' := Next(w, Seed(seed, newId));
    assert (held.id, held.currentKey) in Pairs(w.inner);
    assert hub in w'.inner.issuedNames && (newId, held.currentKey) in Pairs(w'.inner);
    assert (held.id, held.currentKey) in w'.history && (newId, held.currentKey) in w'.history;
  }

  lemma RunOf3(w: World, a: Step, b: Step, c: Step)
    ensures Run(w, [a, b]) == Next(Next(w, a), b)
    ensures Run(w, [a, b, c]) == Next(Next(Next(w, a), b), c)
  {
    assert [a, b, c][..2] == [a, b];
    assert [a, b][..1] == [a];
    assert Run(w, [a]) == Next(Run(w, []), a);
    assert Run(w, [a, b]) == Next(Run(w, [a]), b);
  }

  /** A signer that certifies one key, whatever it is asked. */
  function SignsAs(key: string): Pin -> Result<Issued, StoreError> {
    _ => Ok(Issued(key, None))
  }

  lemma FirstMint(token: NewSiteToken)
    requires token.tokenId.None?
    ensures var w := Next(INIT, Mint(token, 0)); w.inner == WithRow(EMPTY, 0, RowOf(token)) && w.used == {0}
  {
  }

  lemma FirstRedemption(w: World, token: NewSiteToken, key: string)
    requires w.inner == WithRow(EMPTY, 0, RowOf(token)) && w.used == {0} && w.now < token.expiresAt
    ensures var v := Next(w, Redeem(token.digest, SignsAs(key), 1));
            && v.inner.issuedNames == map[token.siteName := Record(NewHeld(1, key, w.now), false)]
            && v.used == {0, 1}
  {
    assert TokenValid(w.inner, token.digest, w.now);
    assert Redeemed(w.inner, token.digest, SignsAs(key), 1, w.now).result.Ok?;
  }

  lemma InvAfter2(w: World, a: Step, b: Step)
    requires Inv(w)
    ensures Inv(Next(Next(w, a), b))
  {
    NextKeepsInv(w, a);
    NextKeepsInv(Next(w, a), b);
  }

  lemma FirstEnrollment(token: NewSiteToken, key: string)
    requires token.tokenId.None? && token.expiresAt > 0
    ensures var w := Next(Next(INIT, Mint(token, 0)), Redeem(token.digest, SignsAs(key), 1));
            w.inner.issuedNames == map[token.siteName := Record(NewHeld(1, key, 0), false)] && w.used == {0, 1}
  {
    FirstMint(token);
    FirstRedemption(Next(INIT, Mint(token, 0)), token, key);
  }

  /** A run of the empty store that comes to it: a site enrolls with a key and a seed registers the key again. */
  lemma SeedSharesAKeyInThreeSteps(token: NewSiteToken, hub: string, key: string, generation: u64)
    requires token.tokenId.None? && token.expiresAt > 0 && hub != token.siteName
    ensures var w := Run(INIT, [Mint(token, 0), Redeem(token.digest, SignsAs(key), 1),
                                Seed(SeedRecord(hub, key, generation, 0), 2)]);
            Holds(w.inner, token.siteName, key) && Holds(w.inner, hub, key) && !OneOwner(w.history)
  {
    var seed := Seed(SeedRecord(hub, key, generation, 0), 2);
    var mint, redeem := Mint(token, 0), Redeem(token.digest, SignsAs(key), 1);
    FirstEnrollment(token, key);
    InvAfter2(INIT, mint, redeem);
    SeedCanShareAKey(Next(Next(INIT, mint), redeem), token.siteName, hub, 2, generation);
    RunOf3(INIT, mint, redeem, seed);
  }

  // ---- Recovery ----

  lemma NextKeepsDropped(w: World, step: Step, name: string, key: string)
    requires key in w.inner.enrolledKeys && !Holds(w.inner, name, key)
    requires step.Seed? && SeedWrites(w.inner, step.seed) ==> step.seed.key !in w.inner.enrolledKeys
    ensures !Holds(Next(w, step).inner, name, key)
  {
  }

  /** An enrolled key a name no longer holds is never held by it again. */
  lemma {:induction false} DroppedKeyNeverReturns(w: World, steps: seq<Step>, name: string, key: string)
    requires Inv(w) && SeedsAreNew(w, steps)
    requires key in w.inner.enrolledKeys && !Holds(w.inner, name, key)
    ensures !Holds(Run(w, steps).inner, name, key)
  {
    if steps != [] {
      var init := steps[..|steps| - 1];
      DroppedKeyNeverReturns(w, init, name, key);
      KeysStayEnrolled(w, init);
      NextKeepsDropped(Run(w, init), steps[|steps| - 1], name, key);
    }
  }

  /** Steps that neither delete nor seed a name. */
  ghost predicate Undisturbed(steps: seq<Step>, name: string) {
    forall i | 0 <= i < |steps| ::
      && (steps[i].Delete? ==> steps[i].name != name)
      && (steps[i].Seed? ==> steps[i].seed.siteName != name)
  }

  /** The same incarnation of a record, untouched if it was frozen. */
  ghost predicate SameIncarnation(s: Inner, s': Inner, name: string)
    requires name in s.issuedNames
  {
    && name in s'.issuedNames
    && s'.issuedNames[name].held.id == s.issuedNames[name].held.id
    && s'.issuedNames[name].held.epochAt == s.issuedNames[name].held.epochAt
    && (s.issuedNames[name].held.frozen ==> s'.issuedNames[name] == s.issuedNames[name])
  }

  lemma IncarnationKept(s: Inner, step: Step, now: Time, name: string)
    requires name in s.issuedNames
    requires step.Delete? ==> step.name != name
    requires step.Seed? ==> step.seed.siteName != name
    ensures SameIncarnation(s, Applied(s, step, now), name)
  {
  }

  /** While a name is left alone its record's incarnation goes on, and a freeze on it holds. */
  lemma {:induction false} IncarnationGoesOn(w: World, steps: seq<Step>, name: string)
    requires Inv(w) && name in w.inner.issuedNames && Undisturbed(steps, name)
    ensures SameIncarnation(w.inner, Run(w, steps).inner, name)
  {
    if steps != [] {
      var init := steps[..|steps| - 1];
      assert forall i | 0 <= i < |init| :: init[i] == steps[i];
      IncarnationGoesOn(w, init, name);
      IncarnationKept(Run(w, init).inner, steps[|steps| - 1], Run(w, init).now, name);
    }
  }

  /**
   After a recovery, a leaf from well before it neither renews nor freezes the record: in any
   later state of that incarnation the renewal is refused and the store is unchanged.
   */
  lemma LeafFromBeforeRecoveryIsInert(w: World, steps: seq<Step>, r: Renewal, signed: Result<Issued, StoreError>)
    requires Inv(w) && SeedsAreNew(w, steps) && Undisturbed(steps, r.siteName)
    requires r.siteName in w.inner.issuedNames && !Holds(w.inner, r.siteName, r.presentedKey)
    requires r.presentedKey in w.inner.enrolledKeys
    requires r.presentedNotBefore + RECORD_SKEW < w.inner.issuedNames[r.siteName].held.epochAt
    ensures var v := Run(w, steps);
            var outcome := RenewedBy(v.inner, r, signed, v.now);
            outcome.result.Err? && outcome.inner == v.inner
  {
    IncarnationGoesOn(w, steps, r.siteName);
    DroppedKeyNeverReturns(w, steps, r.siteName, r.presentedKey);
  }

  /** A renewal whose response was lost can be retried: the same key is signed again, nothing else changes. */
  lemma LostResponseCanBeRetried(w: World, r: Renewal, first: Issued, second: Issued, later: Time)
    requires Inv(w)
    requires var outcome := RenewedBy(w.inner, r, Ok(first), w.now);
             outcome.result.Ok? && outcome.result.value.action.Rotate?
    ensures var s' := RenewedBy(w.inner, r, Ok(first), w.now).inner;
            var retried := RenewedBy(s', r, Ok(second), later);
            && retried.result == Ok(Renewed(s'.issuedNames[r.siteName].held.id, Resign, r.requestedKey, second))
            && retried.inner == s'.(notAfter := Expiring(s'.notAfter, r.siteName, second))
  {
    var s' := RenewedBy(w.inner, r, Ok(first), w.now).inner;
    var retried := RenewedBy(s', r, Ok(second), later);
    assert Decide(HeldOf(s', r.siteName), r) == Ok(Resign);
    assert retried.inner.issuedNames == s'.issuedNames;
  }

  /** A reserved record that has applied at least this seed generation. */
  ghost predicate SeededTo(s: Inner, name: string, generation: u64) {
    && name in s.issuedNames && s.issuedNames[name].reserved
    && s.issuedNames[name].held.seedGeneration.Some?
    && generation <= s.issuedNames[name].held.seedGeneration.value
  }

  lemma SeededKept(s: Inner, step: Step, now: Time, name: string, generation: u64)
    requires SeededTo(s, name, generation) && (step.Delete? ==> step.name != name)
    ensures SeededTo(Applied(s, step, now), name, generation)
  {
  }

  /** While a reserved name is not deleted, its seed generation never moves backwards. */
  lemma {:induction false} SeedGenerationOnlyGrows(w: World, steps: seq<Step>, name: string, generation: u64)
    requires SeededTo(w.inner, name, generation)
    requires forall i | 0 <= i < |steps| :: steps[i].Delete? ==> steps[i].name != name
    ensures SeededTo(Run(w, steps).inner, name, generation)
  {
    if steps != [] {
      var init := steps[..|steps| - 1];
      assert forall i | 0 <= i < |init| :: init[i] == steps[i];
      SeedGenerationOnlyGrows(w, init, name, generation);
      SeededKept(Run(w, init).inner, steps[|steps| - 1], Run(w, init).now, name, generation);
    }
  }
}
