/**
 Every run of the enrollment store: any interleaving of mints, revocations, redemptions,
 renewals, seeds, deletions, CA swaps and clock advances.
 */
module StoreRuns {
  import opened Prelude
  import opened EnrollmentStore

  /**
   The store, its clock, every identifier drawn so far, and every (enrollment, key) pair that
   was ever current.
   */
  datatype World = World(inner: Inner, now: Time, used: set<Uuid>, history: set<(Uuid, string)>)

  datatype Step =
    | Tick(passed: nat)
    | Mint(token: NewSiteToken, newId: Uuid)
    | Revoke(id: Uuid)
    | Redeem(digest: string, sign: Pin -> Result<Issued, StoreError>, newId: Uuid)
    | Renew(renewal: Renewal, signed: Result<Issued, StoreError>)
    | Seed(seed: SeedRecord, newId: Uuid)
    | Delete(name: string)
    | SwapCa(expected: Option<string>, fingerprint: string)

  const INIT := World(EMPTY, 0, {}, {})

  function Applied(s: Inner, step: Step, now: Time): Inner {
    match step
    case Tick(_) => s
    case Mint(t, newId) => Minted(s, t, newId, now).inner
    case Revoke(id) => Revoked(s, id).inner
    case Redeem(digest, sign, newId) => Redeemed(s, digest, sign, newId, now).inner
    case Renew(r, signed) => RenewedBy(s, r, signed, now).inner
    case Seed(seed, newId) => SeededBy(s, seed, newId, now).inner
    case Delete(name) => Deleted(s, name).inner
    case SwapCa(expected, fingerprint) => CaSwapped(s, expected, fingerprint)
  }

  /** What an operation refused with, if it was refused. */
  function RefusedWith(s: Inner, step: Step, now: Time): Option<StoreError> {
    match step
    case Tick(_) => None
    case Mint(t, newId) => ErrorOf(Minted(s, t, newId, now).result)
    case Revoke(id) => ErrorOf(Revoked(s, id).result)
    case Redeem(digest, sign, newId) => ErrorOf(Redeemed(s, digest, sign, newId, now).result)
    case Renew(r, signed) => ErrorOf(RenewedBy(s, r, signed, now).result)
    case Seed(seed, newId) => ErrorOf(SeededBy(s, seed, newId, now).result)
    case Delete(name) => ErrorOf(Deleted(s, name).result)
    case SwapCa(_, _) => None
  }

  function ErrorOf<T>(r: Result<T, StoreError>): Option<StoreError> {
    if r.Err? then Some(r.error) else None
  }

  function Drawn(step: Step): set<Uuid> {
    match step
    case Mint(_, newId) => {newId}
    case Redeem(_, _, newId) => {newId}
    case Seed(_, newId) => {newId}
    case _ => {}
  }

  function Chosen(step: Step): set<Uuid> {
    if step.Mint? && step.token.tokenId.Some? then {step.token.tokenId.value} else {}
  }

  function Pairs(s: Inner): set<(Uuid, string)> {
    set name | name in s.issuedNames :: (s.issuedNames[name].held.id, s.issuedNames[name].held.currentKey)
  }

  /** A generated identifier is new; anything else a caller may choose. */
  function Next(w: World, step: Step): World {
    if Drawn(step) !! w.used then
      var inner := Applied(w.inner, step, w.now);
      World(inner, w.now + (if step.Tick? then step.passed else 0), w.used + Drawn(step) + Chosen(step),
            w.history + Pairs(inner))
    else w
  }

  function Run(w: World, steps: seq<Step>): World {
    if steps == [] then w else Next(Run(w, steps[..|steps| - 1]), steps[|steps| - 1])
  }

  // ---- The invariant ----

  /** The digest index is the exact inverse of the token table. */
  ghost predicate Indexed(s: Inner) {
    && (forall id | id in s.tokens :: s.tokens[id].digest in s.byDigest && s.byDigest[s.tokens[id].digest] == id)
    && (forall d | d in s.byDigest :: s.byDigest[d] in s.tokens && s.tokens[s.byDigest[d]].digest == d)
  }

  ghost predicate OneLivePerName(s: Inner, now: Time) {
    forall a, b | a in s.tokens && b in s.tokens && Live(s.tokens[a], now) && Live(s.tokens[b], now)
                  && s.tokens[a].siteName == s.tokens[b].siteName :: a == b
  }

  ghost predicate RedeemedFor(s: Inner, token: Uuid, enrollment: Uuid) {
    token in s.tokens && s.tokens[token].redeemedBy == Some(enrollment)
  }

  /** Every enrollment a token bought is the spender of exactly one row, which pins its name. */
  ghost predicate Provenance(s: Inner) {
    && (forall a, b, e | RedeemedFor(s, a, e) && RedeemedFor(s, b, e) :: a == b)
    && (forall name | name in s.issuedNames && !s.issuedNames[name].reserved ::
          exists t :: RedeemedFor(s, t, s.issuedNames[name].held.id) && s.tokens[t].siteName == name)
  }

  ghost predicate HoldsKey(h: Held, key: string) {
    h.currentKey == key || h.previousKey == Some(key)
  }

  /** Every key held, now or ever, stays enrolled. */
  ghost predicate KeysEnrolled(w: World) {
    && (forall name, key | name in w.inner.issuedNames && HoldsKey(w.inner.issuedNames[name].held, key) ::
          key in w.inner.enrolledKeys)
    && (forall p | p in w.history :: p.1 in w.inner.enrolledKeys)
  }

  ghost predicate IdsUsed(w: World) {
    && (forall t, e | RedeemedFor(w.inner, t, e) :: e in w.used)
    && (forall name | name in w.inner.issuedNames :: w.inner.issuedNames[name].held.id in w.used)
    && (forall p | p in w.history :: p.0 in w.used)
  }

  ghost predicate Inv(w: World) {
    && Indexed(w.inner)
    && OneLivePerName(w.inner, w.now)
    && Provenance(w.inner)
    && KeysEnrolled(w)
    && IdsUsed(w)
    && w.inner.notAfter.Keys <= w.inner.issuedNames.Keys
    && Pairs(w.inner) <= w.history
  }

  lemma NewRowKeepsTokens(s: Inner, id: Uuid, row: TokenRow, now: Time)
    requires Indexed(s) && OneLivePerName(s, now) && Provenance(s)
    requires id !in s.tokens && row.digest !in s.byDigest && row.redeemedBy.None? && !NamePinned(s, row.siteName, now)
    ensures var s' := WithRow(s, id, row);
            && Indexed(s') && OneLivePerName(s', now) && Provenance(s')
            && forall a, e :: RedeemedFor(s', a, e) <==> RedeemedFor(s, a, e)
  {
    var s' := WithRow(s, id, row);
    assert forall a | a in s.tokens :: a in s'.tokens && s'.tokens[a] == s.tokens[a];
    assert forall a | a in s.tokens && Live(s.tokens[a], now) :: s.tokens[a].siteName != row.siteName;
    assert forall a, e :: RedeemedFor(s', a, e) <==> RedeemedFor(s, a, e);
  }

  lemma MintedKeepsInv(w: World, t: NewSiteToken, newId: Uuid, w': World)
    requires Inv(w) && w'.inner == Minted(w.inner, t, newId, w.now).inner
    requires w'.now == w.now && w.used <= w'.used && w'.history == w.history
    ensures Inv(w')
  {
    var id := if t.tokenId.Some? then t.tokenId.value else newId;
    if w'.inner != w.inner {
      assert w'.inner == WithRow(w.inner, id, RowOf(t));
      NewRowKeepsTokens(w.inner, id, RowOf(t), w.now);
    }
    assert Pairs(w'.inner) == Pairs(w.inner);
  }

  lemma MintKeepsInv(w: World, t: NewSiteToken, newId: Uuid)
    requires Inv(w)
    ensures Inv(Next(w, Mint(t, newId)))
  {
    var w' := Next(w, Mint(t, newId));
    assert Pairs(w'.inner) == Pairs(w.inner);
    assert w'.history == w.history;
    if w' != w {
      MintedKeepsInv(w, t, newId, w');
    }
  }

  lemma ForgetKeepsInv(w: World, id: Uuid, w': World)
    requires Inv(w) && id in w.inner.tokens && w.inner.tokens[id].redeemedBy.None?
    requires w'.inner == Forgotten(w.inner, id) && w'.now == w.now && w.used <= w'.used && w'.history == w.history
    ensures Inv(w')
  {
    assert forall a | a in w'.inner.tokens :: a in w.inner.tokens && w'.inner.tokens[a] == w.inner.tokens[a];
    assert forall a, e :: RedeemedFor(w'.inner, a, e) <==> RedeemedFor(w.inner, a, e);
    assert Pairs(w'.inner) == Pairs(w.inner);
  }

  lemma RevokedKeepsInv(w: World, id: Uuid)
    requires Inv(w)
    ensures Inv(w.(inner := Revoked(w.inner, id).inner))
  {
    if Revoked(w.inner, id).result.Ok? {
      ForgetKeepsInv(w, id, w.(inner := Forgotten(w.inner, id)));
    } else {
      assert w.(inner := Revoked(w.inner, id).inner) == w;
    }
  }

  lemma DrawKeepsInv(w: World, id: Uuid)
    requires Inv(w)
    ensures Inv(w.(used := w.used + {id}))
  {
  }

  lemma SpendKeepsTokens(s: Inner, id: Uuid, issued: Issued, newId: Uuid, now: Time)
    requires Indexed(s) && OneLivePerName(s, now) && id in s.tokens
    ensures Indexed(Spent(s, id, issued, newId, now)) && OneLivePerName(Spent(s, id, issued, newId, now), now)
  {
  }

  lemma SpendKeepsProvenance(s: Inner, id: Uuid, issued: Issued, newId: Uuid, now: Time)
    requires Provenance(s) && id in s.tokens && s.tokens[id].redeemedBy.None?
    requires forall a :: !RedeemedFor(s, a, newId)
    ensures var s' := Spent(s, id, issued, newId, now);
            && Provenance(s')
            && forall a, e :: RedeemedFor(s', a, e) <==> RedeemedFor(s, a, e) || (a == id && e == newId)
  {
    var s' := Spent(s, id, issued, newId, now);
    assert forall a, e :: RedeemedFor(s', a, e) <==> RedeemedFor(s, a, e) || (a == id && e == newId);
    assert RedeemedFor(s', id, newId);
    forall name | name in s'.issuedNames && !s'.issuedNames[name].reserved
      ensures exists t :: RedeemedFor(s', t, s'.issuedNames[name].held.id) && s'.tokens[t].siteName == name
    {
      if name != s.tokens[id].siteName {
        var t :| RedeemedFor(s, t, s.issuedNames[name].held.id) && s.tokens[t].siteName == name;
        assert RedeemedFor(s', t, s'.issuedNames[name].held.id);
      }
    }
  }

  lemma SpendKeepsKeys(w: World, id: Uuid, issued: Issued, newId: Uuid)
    requires KeysEnrolled(w) && id in w.inner.tokens
    requires forall n | n in w.inner.issuedNames :: w.inner.issuedNames[n].held.id in w.used
    ensures var s' := Spent(w.inner, id, issued, newId, w.now);
            && (forall n, key | n in s'.issuedNames && HoldsKey(s'.issuedNames[n].held, key) :: key in s'.enrolledKeys)
            && (forall p | p in Pairs(s') :: p.1 in s'.enrolledKeys && p.0 in w.used + {newId})
  {
    var s' := Spent(w.inner, id, issued, newId, w.now);
    forall p | p in Pairs(s')
      ensures p.1 in s'.enrolledKeys && p.0 in w.used + {newId}
    {
      var n :| n in s'.issuedNames && p == (s'.issuedNames[n].held.id, s'.issuedNames[n].held.currentKey);
      assert HoldsKey(s'.issuedNames[n].held, p.1);
    }
  }

  lemma RedeemKeepsInv(w: World, digest: string, sign: Pin -> Result<Issued, StoreError>, newId: Uuid)
    requires Inv(w)
    ensures Inv(Next(w, Redeem(digest, sign, newId)))
  {
    var w' := Next(w, Redeem(digest, sign, newId));
    var outcome := Redeemed(w.inner, digest, sign, newId, w.now);
    if {newId} !! w.used && TokenValid(w.inner, digest, w.now) {
      var id := w.inner.byDigest[digest];
      if outcome.result.Ok? {
        var issued := outcome.result.value.1;
        assert w'.inner == Spent(w.inner, id, issued, newId, w.now);
        assert newId !in w.used;
        SpendKeepsTokens(w.inner, id, issued, newId, w.now);
        SpendKeepsProvenance(w.inner, id, issued, newId, w.now);
        SpendKeepsKeys(w, id, issued, newId);
      } else if w'.inner != w.inner {
        assert Pairs(w'.inner) == Pairs(w.inner);
        ForgetKeepsInv(w, id, w');
      }
    }
  }

  /** A record under the same name, with its provenance and its keys accounted for, keeps the invariant. */
  lemma RecordChangeKeepsInv(w: World, name: string, record: Record, w': World)
    requires Inv(w)
    requires RecordChanged(w.inner, w'.inner, name) && w'.inner.issuedNames[name] == record
    requires forall key | HoldsKey(record.held, key) :: key in w'.inner.enrolledKeys
    requires w'.now == w.now && w.used <= w'.used && record.held.id in w'.used
    requires !record.reserved ==> name in w.inner.issuedNames && !w.inner.issuedNames[name].reserved
                                  && w.inner.issuedNames[name].held.id == record.held.id
    requires w'.history == w.history + Pairs(w'.inner)
    ensures Inv(w')
  {
    var s, s' := w.inner, w'.inner;
    assert s'.tokens == s.tokens && s'.byDigest == s.byDigest;
    assert forall a, e :: RedeemedFor(s', a, e) <==> RedeemedFor(s, a, e);
    forall p | p in Pairs(s')
      ensures p.0 in w'.used && p.1 in s'.enrolledKeys
    {
      var n :| n in s'.issuedNames && p == (s'.issuedNames[n].held.id, s'.issuedNames[n].held.currentKey);
      assert HoldsKey(s'.issuedNames[n].held, p.1);
    }
    forall n | n in s'.issuedNames && !s'.issuedNames[n].reserved
      ensures exists t :: RedeemedFor(s', t, s'.issuedNames[n].held.id) && s'.tokens[t].siteName == n
    {
      var t :| RedeemedFor(s, t, s.issuedNames[n].held.id) && s.tokens[t].siteName == n;
      assert RedeemedFor(s', t, s'.issuedNames[n].held.id);
    }
  }

  /** `s'` is `s` with one record changed, and expiries and keys that go with it. */
  ghost predicate RecordChanged(s: Inner, s': Inner, name: string) {
    && name in s'.issuedNames
    && s'.(issuedNames := s.issuedNames, notAfter := s.notAfter, enrolledKeys := s.enrolledKeys) == s
    && s'.issuedNames == s.issuedNames[name := s'.issuedNames[name]]
    && s'.notAfter.Keys <= s.notAfter.Keys + {name}
    && s.enrolledKeys <= s'.enrolledKeys
  }

  lemma RenewalShape(s: Inner, r: Renewal, signed: Result<Issued, StoreError>, now: Time)
    ensures var s' := RenewedBy(s, r, signed, now).inner;
            || s' == s
            || (&& RecordChanged(s, s', r.siteName) && r.siteName in s.issuedNames
                && var before, after := s.issuedNames[r.siteName], s'.issuedNames[r.siteName];
                   && after.reserved == before.reserved && after.held.id == before.held.id
                   && forall key | HoldsKey(after.held, key) :: HoldsKey(before.held, key) || key in s'.enrolledKeys)
  {
  }

  lemma RenewKeepsInv(w: World, r: Renewal, signed: Result<Issued, StoreError>)
    requires Inv(w)
    ensures Inv(Next(w, Renew(r, signed)))
  {
    var w' := Next(w, Renew(r, signed));
    RenewalShape(w.inner, r, signed, w.now);
    if w'.inner == w.inner {
      assert w'.history == w.history;
    } else {
      RecordChangeKeepsInv(w, r.siteName, w'.inner.issuedNames[r.siteName], w');
    }
  }

  lemma SeedShape(s: Inner, seed: SeedRecord, newId: Uuid, now: Time)
    ensures var s' := SeededBy(s, seed, newId, now).inner;
            || s' == s
            || (&& RecordChanged(s, s', seed.siteName)
                && var after := s'.issuedNames[seed.siteName];
                   && after.reserved
                   && (if seed.siteName in s.issuedNames then after.held.id == s.issuedNames[seed.siteName].held.id
                       else after.held.id == newId)
                   && forall key | HoldsKey(after.held, key) ::
                        || key in s'.enrolledKeys
                        || (seed.siteName in s.issuedNames && HoldsKey(s.issuedNames[seed.siteName].held, key)))
  {
  }

  lemma SeedKeepsInv(w: World, seed: SeedRecord, newId: Uuid)
    requires Inv(w)
    ensures Inv(Next(w, Seed(seed, newId)))
  {
    var w' := Next(w, Seed(seed, newId));
    SeedShape(w.inner, seed, newId, w.now);
    if w'.inner == w.inner {
      assert w'.history == w.history;
    } else {
      RecordChangeKeepsInv(w, seed.siteName, w'.inner.issuedNames[seed.siteName], w');
    }
  }

  lemma DeleteKeepsInv(w: World, name: string)
    requires Inv(w)
    ensures Inv(Next(w, Delete(name)))
  {
    var s, s' := w.inner, Next(w, Delete(name)).inner;
    assert s'.tokens == s.tokens;
    assert forall a, e :: RedeemedFor(s', a, e) <==> RedeemedFor(s, a, e);
    forall n | n in s'.issuedNames && !s'.issuedNames[n].reserved
      ensures exists t :: RedeemedFor(s', t, s'.issuedNames[n].held.id) && s'.tokens[t].siteName == n
    {
      var t :| RedeemedFor(s, t, s.issuedNames[n].held.id) && s.tokens[t].siteName == n;
      assert RedeemedFor(s', t, s'.issuedNames[n].held.id);
    }
    forall p | p in Pairs(s')
      ensures p in w.history
    {
      var n :| n in s'.issuedNames && p == (s'.issuedNames[n].held.id, s'.issuedNames[n].held.currentKey);
      assert p in Pairs(s);
    }
  }

  lemma NextKeepsInv(w: World, step: Step)
    requires Inv(w)
    ensures Inv(Next(w, step))
  {
    match step
    case Tick(_) =>
    case Mint(t, newId) => MintKeepsInv(w, t, newId);
    case Revoke(id) =>
      if id in w.inner.tokens && w.inner.tokens[id].redeemedBy.None? {
        assert Pairs(Forgotten(w.inner, id)) == Pairs(w.inner);
        ForgetKeepsInv(w, id, Next(w, step));
      }
    case Redeem(digest, sign, newId) => RedeemKeepsInv(w, digest, sign, newId);
    case Renew(r, signed) => RenewKeepsInv(w, r, signed);
    case Seed(seed, newId) => SeedKeepsInv(w, seed, newId);
    case Delete(name) => DeleteKeepsInv(w, name);
    case SwapCa(expected, fingerprint) =>
      var s' := Next(w, step).inner;
      assert forall a, e :: RedeemedFor(s', a, e) <==> RedeemedFor(w.inner, a, e);
      assert Pairs(s') == Pairs(w.inner);
  }

  lemma {:induction false} RunKeepsInv(w: World, steps: seq<Step>)
    requires Inv(w)
    ensures Inv(Run(w, steps))
  {
    if steps != [] {
      RunKeepsInv(w, steps[..|steps| - 1]);
      NextKeepsInv(Run(w, steps[..|steps| - 1]), steps[|steps| - 1]);
    }
  }
}
