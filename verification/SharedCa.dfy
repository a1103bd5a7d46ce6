/**
 One replica's reload as the code runs it (`crates/enrollment/src/ca.rs`): the held CA and the
 anchored flag change in place, while before every access to the shared record anything may have
 happened to it, and every access may fail with or without taking effect.
 */
module SharedCas {
  import opened Prelude
  import opened CaAnchor

  /** A swap this replica made: the record it replaced, and by what. */
  datatype Swapped = Swapped(replaced: Option<Fingerprint>, recorded: Fingerprint)

  /** The shared record. `log` is every value it had at an access, `swaps` this replica's own writes. */
  class RecordStore {
    var record: Option<Fingerprint>
    ghost var log: seq<Option<Fingerprint>>
    ghost var swaps: seq<Swapped>

    constructor ()
      ensures log == [] && swaps == []
    {
      record, log, swaps := None, [], [];
    }

    method RecordedCa() returns (r: Result<Option<Fingerprint>, AnchorError>)
      modifies this
      ensures old(log) < log && swaps == old(swaps)
      ensures r.Ok? ==> r.value == log[|log| - 1]
      ensures r.Err? ==> r.error == StoreFailed
    {
      record := *;
      log := log + [record];
      var up: bool := *;
      r := if up then Ok(record) else Err(StoreFailed);
    }

    method SwapRecordedCa(expected: Option<Fingerprint>, fingerprint: Fingerprint)
      returns (r: Result<bool, AnchorError>)
      modifies this
      ensures old(log) < log
      ensures r == Ok(true) ==> log[|log| - 1] == Some(fingerprint)
      ensures r.Err? ==> r.error == StoreFailed
      ensures swaps == old(swaps) || swaps == old(swaps) + [Swapped(expected, fingerprint)]
    {
      record := *;
      log := log + [record];
      var reached, answered: bool := *, *;
      if !reached {
        return Err(StoreFailed);
      }
      var swapped := record == expected;
      if swapped {
        record := Some(fingerprint);
        log, swaps := log + [record], swaps + [Swapped(expected, fingerprint)];
      }
      r := if answered then Ok(swapped) else Err(StoreFailed);
    }
  }

  /** The record was `f` at some access after the first `from`. */
  ghost predicate RecordedSince(log: seq<Option<Fingerprint>>, from: nat, f: Fingerprint) {
    exists i :: from <= i < |log| && log[i] == Some(f)
  }

  /** Every own write since `from` replaced nothing or exactly what was confirmed. */
  ghost predicate WroteOnlyConfirmed(swaps: seq<Swapped>, from: nat, confirm: Option<Fingerprint>) {
    forall i | from <= i < |swaps| :: swaps[i].replaced.None? || swaps[i].replaced == confirm
  }

  method Anchor(store: RecordStore, loaded: Fingerprint, confirm: Option<Fingerprint>) returns (r: Anchoring)
    modifies store
    ensures old(store.log) < store.log && old(store.swaps) <= store.swaps
    ensures r.Ok? ==> RecordedSince(store.log, |old(store.log)|, loaded)
    ensures WroteOnlyConfirmed(store.swaps, |old(store.swaps)|, confirm)
    ensures r.Ok? && r.value.Replaced? ==> confirm == Some(r.value.previous)
    ensures r.Err? && r.error.Mismatch? ==>
              && r.error.loaded == loaded && r.error.recorded != loaded
              && RecordedSince(store.log, |old(store.log)|, r.error.recorded)
  {
    var recorded := store.RecordedCa();
    if recorded.Err? {
      return Err(recorded.error);
    }
    match Decided(recorded.value, loaded, confirm)
    case Done(result) =>
      return result;
    case Swap(anchored) =>
      var swapped := store.SwapRecordedCa(recorded.value, loaded);
      if swapped.Err? {
        return Err(swapped.error);
      }
      if swapped.value {
        return Ok(anchored);
      }
      var now := store.RecordedCa();
      if now.Err? {
        return Err(now.error);
      }
      r := Resettled(now.value, loaded);
  }

  datatype ReloadError = UnreadableMaterial | LoadFailed | AnchorRefused(error: AnchorError)

  class SharedCa {
    var held: Ca
    var anchored: bool

    constructor (ca: Ca)
      ensures held == ca && anchored
    {
      held, anchored := ca, true;
    }

    method CheckRecord(store: RecordStore) returns (r: Result<(), ReloadError>)
      modifies this`anchored, store
      ensures old(store.log) < store.log && old(store.swaps) <= store.swaps
      ensures anchored <==> r.Ok?
      ensures anchored ==> RecordedSince(store.log, |old(store.log)|, held.key)
      ensures WroteOnlyConfirmed(store.swaps, |old(store.swaps)|, None)
    {
      var checked := Anchor(store, held.key, None);
      anchored := checked.Ok?;
      r := if checked.Ok? then Ok(()) else Err(AnchorRefused(checked.error));
    }

    /** Answers whether the CA was swapped. */
    method Reload(store: RecordStore, material: Material, confirm: Option<Fingerprint>)
      returns (r: Result<bool, ReloadError>)
      modifies this, store
      ensures old(store.log) < store.log && old(store.swaps) <= store.swaps
      ensures anchored ==> RecordedSince(store.log, |old(store.log)|, held.key)
      ensures r == Ok(true) <==> held != old(held)
      ensures r == Ok(true) ==> material == Loadable(held) && anchored
      ensures r == Ok(false) ==> anchored && material != Unreadable && Cert(material) == Some(held.cert)
      ensures WroteOnlyConfirmed(store.swaps, |old(store.swaps)|, confirm)
    {
      if material.Unreadable? {
        var _ := CheckRecord(store);
        return Err(UnreadableMaterial);
      }
      if Cert(material) == Some(held.cert) {
        var checked := CheckRecord(store);
        return if checked.Ok? then Ok(false) else Err(checked.error);
      }
      var refused := LoadFailed;
      if material.Loadable? {
        var admitted := Anchor(store, material.ca.key, confirm);
        if admitted.Ok? {
          held := material.ca;
          anchored := true;
          return Ok(true);
        }
        refused := AnchorRefused(admitted.error);
      }
      var _ := CheckRecord(store);
      r := Err(refused);
    }
  }

  /** A process starts: it anchors its CA, and serves only if that succeeds. */
  method Launch(store: RecordStore, ca: Ca, confirm: Option<Fingerprint>) returns (r: Result<SharedCa, AnchorError>)
    modifies store
    ensures old(store.log) < store.log && old(store.swaps) <= store.swaps
    ensures r.Ok? ==> fresh(r.value) && r.value.held == ca && r.value.anchored
    ensures r.Ok? ==> RecordedSince(store.log, |old(store.log)|, ca.key)
    ensures WroteOnlyConfirmed(store.swaps, |old(store.swaps)|, confirm)
  {
    var anchored := Anchor(store, ca.key, confirm);
    if anchored.Err? {
      return Err(anchored.error);
    }
    var shared := new SharedCa(ca);
    r := Ok(shared);
  }

  function Cert(material: Material): Option<Fingerprint> {
    match material
    case Unreadable => None
    case Unloadable(cert) => Some(cert)
    case Loadable(ca) => Some(ca.cert)
  }
}
