/**
 The in-memory enrollment store of `crates/enrollment/src/store.rs` and the renewal
 decisions of `crates/enrollment/src/store/renewal.rs`.

 Each operation runs under one lock, so it is one atomic change of `Inner`. The clock, the
 fresh identifier and the signer's answer are parameters.
 */
module EnrollmentStore {
  import opened Prelude

  type Uuid = nat

  /** Nanoseconds. */
  type Time = int

  datatype Refusal = UnknownSite | KeyReusedByRenewal | Forked | Frozen | Superseded | RecordBehind

  datatype StoreError =
    | NotFound
    | NameTaken
    | TokenOutstanding
    | NameDeleted
    | KeyReused
    | KeyMismatch
    | TokenInvalid
    | Refused(refusal: Refusal)
    | Backend(message: string)

  datatype NewSiteToken = NewSiteToken(
    tokenId: Option<Uuid>,
    digest: string,
    publicKey: Option<string>,
    siteName: string,
    gridNetworkRef: string,
    issuedBy: string,
    expiresAt: Time,
    allowDeletedName: bool)

  datatype TokenRow = TokenRow(
    digest: string,
    publicKey: Option<string>,
    siteName: string,
    gridNetworkRef: string,
    issuedBy: string,
    expiresAt: Time,
    allowDeletedName: bool,
    redeemedBy: Option<Uuid>)

  datatype Pin = Pin(siteName: string, publicKey: Option<string>)

  /** A signed identity: the key it certifies and, when readable, its expiry. */
  datatype Issued = Issued(key: string, notAfter: Option<Time>)

  datatype Held = Held(
    id: Uuid,
    currentKey: string,
    previousKey: Option<string>,
    recordedAt: Time,
    epochAt: Time,
    frozen: bool,
    seedGeneration: Option<u64>)

  datatype Record = Record(held: Held, reserved: bool)

  datatype Renewal = Renewal(siteName: string, presentedKey: string, requestedKey: string, presentedNotBefore: Time)

  datatype RenewAction = Rotate | Resign

  datatype Renewed = Renewed(id: Uuid, action: RenewAction, replacedKey: string, issued: Issued)

  datatype SeedRecord = SeedRecord(siteName: string, key: string, generation: u64, issuedAt: Time)

  datatype Seeded = Registered | Reset(replacedKey: string) | Acknowledged | Unchanged | Older | NotReserved

  datatype Inner = Inner(
    tokens: map<Uuid, TokenRow>,
    byDigest: map<string, Uuid>,
    issuedNames: map<string, Record>,
    notAfter: map<string, Time>,
    enrolledKeys: set<string>,
    deletedNames: set<string>,
    caFingerprint: Option<string>)

  /** The state an operation leaves and what it answers. */
  datatype Outcome<T> = Outcome(inner: Inner, result: Result<T, StoreError>)

  const EMPTY := Inner(map[], map[], map[], map[], {}, {}, None)

  const RECORD_SKEW: Time := 600_000_000_000

  function NewHeld(id: Uuid, key: string, now: Time): Held {
    Held(id, key, None, now, now, false, None)
  }

  // ---- Renewal decisions ----

  function Decide(held: Option<Held>, r: Renewal): Result<RenewAction, Refusal> {
    if held.None? then Err(UnknownSite)
    else
      var h := held.value;
      if h.frozen then Err(Frozen)
      else if r.requestedKey == r.presentedKey
           || (r.presentedKey == h.currentKey && h.previousKey == Some(r.requestedKey)) then Err(KeyReusedByRenewal)
      else if r.presentedKey == h.currentKey then Ok(Rotate)
      else if h.previousKey == Some(r.presentedKey) && r.requestedKey == h.currentKey then Ok(Resign)
      else if r.presentedNotBefore + RECORD_SKEW < h.epochAt then Err(Superseded)
      else if r.presentedNotBefore > h.recordedAt + RECORD_SKEW then Err(RecordBehind)
      else Err(Forked)
  }

  function SeedDecision(record: Option<Record>, seed: SeedRecord): Seeded {
    if record.None? then Registered
    else if !record.value.reserved then NotReserved
    else
      var h := record.value.held;
      if h.seedGeneration.Some? && h.seedGeneration.value > seed.generation then Older
      else if h.seedGeneration == Some(seed.generation) then Unchanged
      else if h.currentKey == seed.key || h.previousKey == Some(seed.key) then Acknowledged
      else Reset(h.currentKey)
  }

  // ---- Operations on values ----

  function Live(row: TokenRow, now: Time): bool {
    row.redeemedBy.None? && row.expiresAt > now
  }

  function RowOf(t: NewSiteToken): TokenRow {
    TokenRow(t.digest, t.publicKey, t.siteName, t.gridNetworkRef, t.issuedBy, t.expiresAt, t.allowDeletedName, None)
  }

  predicate SameToken(row: TokenRow, t: NewSiteToken) {
    row.(redeemedBy := None) == RowOf(t)
  }

  predicate NamePinned(s: Inner, name: string, now: Time) {
    exists id :: id in s.tokens && s.tokens[id].siteName == name && Live(s.tokens[id], now)
  }

  /** The store with one more unredeemed row. */
  function WithRow(s: Inner, id: Uuid, row: TokenRow): Inner {
    s.(byDigest := s.byDigest[row.digest := id], tokens := s.tokens[id := row])
  }

  function Minted(s: Inner, t: NewSiteToken, newId: Uuid, now: Time): Outcome<Uuid> {
    var id := if t.tokenId.Some? then t.tokenId.value else newId;
    if id in s.tokens then
      Outcome(s, if SameToken(s.tokens[id], t) then Ok(id) else Err(Backend("site token id is already in use")))
    else if t.siteName in s.issuedNames then Outcome(s, Err(NameTaken))
    else if !t.allowDeletedName && t.siteName in s.deletedNames then Outcome(s, Err(NameDeleted))
    else if NamePinned(s, t.siteName, now) then Outcome(s, Err(TokenOutstanding))
    else if t.digest in s.byDigest then Outcome(s, Err(Backend("site token digest is already in use")))
    else Outcome(WithRow(s, id, RowOf(t)), Ok(id))
  }

  function Forgotten(s: Inner, id: Uuid): Inner {
    if id in s.tokens then s.(tokens := s.tokens - {id}, byDigest := s.byDigest - {s.tokens[id].digest}) else s
  }

  function Revoked(s: Inner, id: Uuid): Outcome<()> {
    if id in s.tokens && s.tokens[id].redeemedBy.None? then Outcome(Forgotten(s, id), Ok(()))
    else Outcome(s, Err(NotFound))
  }

  predicate TokenValid(s: Inner, digest: string, now: Time) {
    digest in s.byDigest && s.byDigest[digest] in s.tokens && Live(s.tokens[s.byDigest[digest]], now)
  }

  function RedeemedEnrollment(s: Inner, id: Uuid): Result<Option<Uuid>, StoreError> {
    if id in s.tokens then Ok(s.tokens[id].redeemedBy) else Err(NotFound)
  }

  function Expiring(notAfter: map<string, Time>, name: string, issued: Issued): map<string, Time> {
    if issued.notAfter.Some? then notAfter[name := issued.notAfter.value] else notAfter
  }

  /** The store after token `id` is spent on a new enrollment. */
  function Spent(s: Inner, id: Uuid, issued: Issued, newId: Uuid, now: Time): Inner
    requires id in s.tokens
  {
    var row := s.tokens[id];
    s.(enrolledKeys := s.enrolledKeys + {issued.key},
       tokens := s.tokens[id := row.(redeemedBy := Some(newId))],
       notAfter := Expiring(s.notAfter, row.siteName, issued),
       issuedNames := s.issuedNames[row.siteName := Record(NewHeld(newId, issued.key, now), false)])
  }

  function Redeemed(
    s: Inner, digest: string, sign: Pin -> Result<Issued, StoreError>, newId: Uuid, now: Time): Outcome<(Uuid, Issued)>
  {
    if !TokenValid(s, digest, now) then Outcome(s, Err(TokenInvalid))
    else
      var id := s.byDigest[digest];
      var row := s.tokens[id];
      var signed :=
        if row.siteName in s.issuedNames then Err(NameTaken)
        else if !row.allowDeletedName && row.siteName in s.deletedNames then Err(NameDeleted)
        else sign(Pin(row.siteName, row.publicKey));
      if signed.Err? then Outcome(if signed.error.NameDeleted? then Forgotten(s, id) else s, Err(signed.error))
      else if signed.value.key in s.enrolledKeys then Outcome(s, Err(KeyReused))
      else Outcome(Spent(s, id, signed.value, newId, now), Ok((newId, signed.value)))
  }

  function HeldOf(s: Inner, name: string): Option<Held> {
    if name in s.issuedNames then Some(s.issuedNames[name].held) else None
  }

  function Rotated(h: Held, key: string, now: Time): Held {
    h.(previousKey := Some(h.currentKey), currentKey := key, recordedAt := now)
  }

  function RenewedBy(s: Inner, r: Renewal, signed: Result<Issued, StoreError>, now: Time): Outcome<Renewed> {
    var decided := Decide(HeldOf(s, r.siteName), r);
    if r.siteName !in s.issuedNames then Outcome(s, Err(Refused(UnknownSite)))
    else
      var record := s.issuedNames[r.siteName];
      if decided == Err(Forked) then
        Outcome(s.(issuedNames := s.issuedNames[r.siteName := record.(held := record.held.(frozen := true))]),
                Err(Refused(Forked)))
      else if decided.Err? then Outcome(s, Err(Refused(decided.error)))
      else if decided.value.Rotate? && r.requestedKey in s.enrolledKeys then
        Outcome(s, Err(Refused(KeyReusedByRenewal)))
      else if signed.Err? then Outcome(s, Err(signed.error))
      else
        var rotate := decided.value.Rotate?;
        var held := if rotate then Rotated(record.held, r.requestedKey, now) else record.held;
        Outcome(
          s.(enrolledKeys := if rotate then s.enrolledKeys + {r.requestedKey} else s.enrolledKeys,
             issuedNames := s.issuedNames[r.siteName := record.(held := held)],
             notAfter := Expiring(s.notAfter, r.siteName, signed.value)),
          Ok(Renewed(held.id, decided.value, record.held.currentKey, signed.value)))
  }

  function RecordOf(s: Inner, name: string): Option<Record> {
    if name in s.issuedNames then Some(s.issuedNames[name]) else None
  }

  /** Whether a seed writes its key into the record. */
  predicate SeedWrites(s: Inner, seed: SeedRecord) {
    var d := SeedDecision(RecordOf(s, seed.siteName), seed);
    d.Registered? || d.Reset?
  }

  function SeededBy(s: Inner, seed: SeedRecord, newId: Uuid, now: Time): Outcome<Seeded> {
    var record := RecordOf(s, seed.siteName);
    var decided := SeedDecision(record, seed);
    var id := if record.Some? then record.value.held.id else newId;
    if decided.Acknowledged? && record.Some? then
      var acked := record.value.(held := record.value.held.(seedGeneration := Some(seed.generation)));
      Outcome(s.(issuedNames := s.issuedNames[seed.siteName := acked]), Ok(decided))
    else if SeedWrites(s, seed) then
      var held := NewHeld(id, seed.key, now).(seedGeneration := Some(seed.generation), epochAt := seed.issuedAt);
      Outcome(
        s.(issuedNames := s.issuedNames[seed.siteName := Record(held, true)],
           notAfter := s.notAfter - {seed.siteName},
           enrolledKeys := s.enrolledKeys + {seed.key}),
        Ok(decided))
    else Outcome(s, Ok(decided))
  }

  function Deleted(s: Inner, name: string): Outcome<()> {
    var rest := s.(issuedNames := s.issuedNames - {name}, notAfter := s.notAfter - {name});
    if name in s.issuedNames then Outcome(rest.(deletedNames := s.deletedNames + {name}), Ok(()))
    else Outcome(rest, Err(NotFound))
  }

  function CaSwapped(s: Inner, expected: Option<string>, fingerprint: string): Inner {
    if s.caFingerprint == expected then s.(caFingerprint := Some(fingerprint)) else s
  }

  // ---- The store itself ----

  class MemoryStore {
    var tokens: map<Uuid, TokenRow>
    var byDigest: map<string, Uuid>
    var issuedNames: map<string, Record>
    var notAfter: map<string, Time>
    var enrolledKeys: set<string>
    var deletedNames: set<string>
    var caFingerprint: Option<string>

    ghost function Value(): Inner
      reads this
    {
      Inner(tokens, byDigest, issuedNames, notAfter, enrolledKeys, deletedNames, caFingerprint)
    }

    constructor ()
      ensures Value() == EMPTY
    {
      tokens, byDigest, issuedNames, notAfter := map[], map[], map[], map[];
      enrolledKeys, deletedNames, caFingerprint := {}, {}, None;
    }

    method MintSiteToken(t: NewSiteToken, newId: Uuid, now: Time) returns (r: Result<Uuid, StoreError>)
      modifies this
      ensures Outcome(Value(), r) == Minted(old(Value()), t, newId, now)
    {
      var id := if t.tokenId.Some? then t.tokenId.value else newId;
      if id in tokens {
        var same := tokens[id].(redeemedBy := None) == RowOf(t);
        return if same then Ok(id) else Err(Backend("site token id is already in use"));
      }
      if t.siteName in issuedNames {
        return Err(NameTaken);
      }
      if !t.allowDeletedName && t.siteName in deletedNames {
        return Err(NameDeleted);
      }
      var pinned := AnyLiveToken(t.siteName, now);
      if pinned {
        return Err(TokenOutstanding);
      }
      if t.digest in byDigest {
        return Err(Backend("site token digest is already in use"));
      }
      byDigest := byDigest[t.digest := id];
      tokens := tokens[id := RowOf(t)];
      r := Ok(id);
    }

    /** A scan of the token table for a live token that pins `name`. */
    method AnyLiveToken(name: string, now: Time) returns (pinned: bool)
      ensures pinned <==> NamePinned(Value(), name, now)
    {
      pinned := false;
      var ids := tokens.Keys;
      while ids != {}
        invariant ids <= tokens.Keys
        invariant forall id | id in tokens && id !in ids :: !(tokens[id].siteName == name && Live(tokens[id], now))
        decreases ids
      {
        var id :| id in ids;
        if tokens[id].siteName == name && Live(tokens[id], now) {
          assert id in Value().tokens;
          return true;
        }
        ids := ids - {id};
      }
    }

    method Forget(id: Uuid)
      modifies this`tokens, this`byDigest
      ensures Value() == Forgotten(old(Value()), id)
    {
      if id in tokens {
        var row := tokens[id];
        tokens := tokens - {id};
        byDigest := byDigest - {row.digest};
      }
    }

    method RevokeSiteToken(id: Uuid) returns (r: Result<(), StoreError>)
      modifies this
      ensures Outcome(Value(), r) == Revoked(old(Value()), id)
    {
      var outstanding := id in tokens && tokens[id].redeemedBy.None?;
      if outstanding {
        Forget(id);
      }
      r := if outstanding then Ok(()) else Err(NotFound);
    }

    method RedeemAndIssue(digest: string, sign: Pin -> Result<Issued, StoreError>, newId: Uuid, now: Time)
      returns (r: Result<(Uuid, Issued), StoreError>)
      modifies this
      ensures Outcome(Value(), r) == Redeemed(old(Value()), digest, sign, newId, now)
    {
      if digest !in byDigest {
        return Err(TokenInvalid);
      }
      var id := byDigest[digest];
      if id !in tokens || !Live(tokens[id], now) {
        return Err(TokenInvalid);
      }
      var row := tokens[id];
      var signed;
      if row.siteName in issuedNames {
        signed := Err(NameTaken);
      } else if !row.allowDeletedName && row.siteName in deletedNames {
        signed := Err(NameDeleted);
      } else {
        signed := sign(Pin(row.siteName, row.publicKey));
      }
      if signed.Err? {
        if signed.error.NameDeleted? {
          Forget(id);
        }
        return Err(signed.error);
      }
      if signed.value.key in enrolledKeys {
        return Err(KeyReused);
      }
      enrolledKeys := enrolledKeys + {signed.value.key};
      tokens := tokens[id := row.(redeemedBy := Some(newId))];
      if signed.value.notAfter.Some? {
        notAfter := notAfter[row.siteName := signed.value.notAfter.value];
      }
      issuedNames := issuedNames[row.siteName := Record(NewHeld(newId, signed.value.key, now), false)];
      r := Ok((newId, signed.value));
    }

    method RenewAndIssue(renewal: Renewal, signed: Result<Issued, StoreError>, now: Time)
      returns (r: Result<Renewed, StoreError>)
      modifies this
      ensures Outcome(Value(), r) == RenewedBy(old(Value()), renewal, signed, now)
    {
      if renewal.siteName !in issuedNames {
        return Err(Refused(UnknownSite));
      }
      var record := issuedNames[renewal.siteName];
      var decided := Decide(Some(record.held), renewal);
      if decided.Err? {
        if decided.error.Forked? {
          issuedNames := issuedNames[renewal.siteName := record.(held := record.held.(frozen := true))];
        }
        return Err(Refused(decided.error));
      }
      if decided.value.Rotate? && renewal.requestedKey in enrolledKeys {
        return Err(Refused(KeyReusedByRenewal));
      }
      if signed.Err? {
        return Err(signed.error);
      }
      var held := record.held;
      if decided.value.Rotate? {
        enrolledKeys := enrolledKeys + {renewal.requestedKey};
        held := Rotated(held, renewal.requestedKey, now);
      }
      issuedNames := issuedNames[renewal.siteName := record.(held := held)];
      if signed.value.notAfter.Some? {
        notAfter := notAfter[renewal.siteName := signed.value.notAfter.value];
      }
      r := Ok(Renewed(held.id, decided.value, record.held.currentKey, signed.value));
    }

    method SeedReserved(seed: SeedRecord, newId: Uuid, now: Time) returns (r: Result<Seeded, StoreError>)
      modifies this
      ensures Outcome(Value(), r) == SeededBy(old(Value()), seed, newId, now)
    {
      var entry := if seed.siteName in issuedNames then Some(issuedNames[seed.siteName]) else None;
      var seeded := SeedDecision(entry, seed);
      var id := if entry.Some? then entry.value.held.id else newId;
      if seeded.Acknowledged? && entry.Some? {
        var held := entry.value.held.(seedGeneration := Some(seed.generation));
        issuedNames := issuedNames[seed.siteName := entry.value.(held := held)];
      }
      if seeded.Registered? || seeded.Reset? {
        var held := NewHeld(id, seed.key, now).(seedGeneration := Some(seed.generation), epochAt := seed.issuedAt);
        issuedNames := issuedNames[seed.siteName := Record(held, true)];
        notAfter := notAfter - {seed.siteName};
        enrolledKeys := enrolledKeys + {seed.key};
      }
      r := Ok(seeded);
    }

    method DeleteEnrollment(name: string) returns (r: Result<(), StoreError>)
      modifies this
      ensures Outcome(Value(), r) == Deleted(old(Value()), name)
    {
      var removed := name in issuedNames;
      issuedNames := issuedNames - {name};
      notAfter := notAfter - {name};
      if removed {
        deletedNames := deletedNames + {name};
      }
      r := if removed then Ok(()) else Err(NotFound);
    }

    method SwapRecordedCa(expected: Option<string>, fingerprint: string) returns (swapped: bool)
      modifies this`caFingerprint
      ensures swapped <==> old(caFingerprint) == expected
      ensures Value() == CaSwapped(old(Value()), expected, fingerprint)
    {
      swapped := caFingerprint == expected;
      if swapped {
        caFingerprint := Some(fingerprint);
      }
    }
  }
}
