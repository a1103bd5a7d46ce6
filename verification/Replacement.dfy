/**
 Runs of origin-authoritative replacement: network by network, and behind the caller's
 stale-revision gate, whatever the order origins' deliveries arrive in.
 */
module Replacement {
  import opened Prelude
  import opened Providers

  ghost predicate Clean(records: Records) {
    WellKeyed(records) && SlashFree(records)
  }

  lemma ReplacedIsExact(before: Records, origin: string, revision: u64, networks: Option<set<string>>, auth: Records)
    requires Clean(before) && Clean(auth)
    ensures var after := Replaced(before, origin, revision, networks, auth);
            Clean(after) && ReplacedExactly(before, after, origin, revision, networks, auth)
  {
    SlashFreeNamesDoNotCollide(before, origin, networks, auth);
    ReplacementExactIffNoCollision(before, origin, revision, networks, auth);
  }

  // ---- Network by network ----

  function ReplacedEach(records: Records, origin: string, revision: u64, networks: seq<string>, auth: Records): Records
  {
    if networks == [] then records
    else
      var before := ReplacedEach(records, origin, revision, networks[..|networks| - 1], auth);
      Replaced(before, origin, revision, Some({networks[|networks| - 1]}), auth)
  }

  lemma ReplacingTwice(before: Records, origin: string, revision: u64, n: set<string>, m: set<string>, auth: Records)
    requires Clean(before) && Clean(auth)
    ensures Replaced(Replaced(before, origin, revision, Some(n), auth), origin, revision, Some(m), auth)
         == Replaced(before, origin, revision, Some(n + m), auth)
  {
    var mid := Replaced(before, origin, revision, Some(n), auth);
    ReplacedIsExact(before, origin, revision, Some(n), auth);
    ReplacedIsExact(mid, origin, revision, Some(m), auth);
    ReplacedIsExact(before, origin, revision, Some(n + m), auth);
    ExactTwice(before, mid, Replaced(mid, origin, revision, Some(m), auth),
               Replaced(before, origin, revision, Some(n + m), auth), origin, revision, n, m, auth);
  }

  lemma ExactTwice(
    before: Records, mid: Records, twice: Records, once: Records, origin: string, revision: u64,
    n: set<string>, m: set<string>, auth: Records)
    requires ReplacedExactly(before, mid, origin, revision, Some(n), auth)
    requires ReplacedExactly(mid, twice, origin, revision, Some(m), auth)
    requires ReplacedExactly(before, once, origin, revision, Some(n + m), auth)
    ensures twice == once
  {
    forall k
      ensures k in twice <==> k in once
      ensures k in twice && k in once ==> twice[k] == once[k]
    {
      ExactTwiceAt(before, mid, twice, once, origin, revision, n, m, auth, k);
    }
  }

  lemma ExactTwiceAt(
    before: Records, mid: Records, twice: Records, once: Records, origin: string, revision: u64,
    n: set<string>, m: set<string>, auth: Records, k: string)
    requires ReplacedExactly(before, mid, origin, revision, Some(n), auth)
    requires ReplacedExactly(mid, twice, origin, revision, Some(m), auth)
    requires ReplacedExactly(before, once, origin, revision, Some(n + m), auth)
    ensures k in twice <==> k in once
    ensures k in twice && k in once ==> twice[k] == once[k]
  {
  }

  /** Replacing an origin one network at a time, in any order, equals replacing them together. */
  lemma {:induction false} NetworkByNetworkIsTheUnion(
    records: Records, origin: string, revision: u64, networks: seq<string>, auth: Records)
    requires Clean(records) && Clean(auth)
    ensures ReplacedEach(records, origin, revision, networks, auth)
         == Replaced(records, origin, revision, Some(set n | n in networks), auth)
  {
    if networks == [] {
      assert Outside(records, origin, Some({})) == records;
      assert Stamped(auth, origin, revision, Some({})) == map[];
      assert MergedRecords(records, map[]) == records;
      assert (set n | n in networks) == {};
    } else {
      var init, last := networks[..|networks| - 1], networks[|networks| - 1];
      NetworkByNetworkIsTheUnion(records, origin, revision, init, auth);
      ReplacingTwice(records, origin, revision, set n | n in init, {last}, auth);
      assert networks == init + [last];
      assert (set n | n in networks) == (set n | n in init) + {last};
    }
  }

  /** An unscoped replacement is the scoped one over every network either side mentions. */
  lemma UnscopedIsEveryNetwork(records: Records, origin: string, revision: u64, networks: set<string>, auth: Records)
    requires forall k | k in records :: records[k].networkId in networks
    requires forall k | k in auth :: auth[k].networkId in networks
    ensures Replaced(records, origin, revision, Some(networks), auth)
         == Replaced(records, origin, revision, None, auth)
  {
    assert Outside(records, origin, Some(networks)) == Outside(records, origin, None);
    assert Stamped(auth, origin, revision, Some(networks)) == Stamped(auth, origin, revision, None);
  }

  // ---- The revision gate ----

  /** One envelope, with the highest revision the receiver accepts when it arrives. */
  datatype Delivery = Delivery(origin: string, revision: u64, cap: u64, authoritative: Records)

  /** The receiver's records and the last revision it applied from each origin. */
  datatype Receiver = Receiver(records: Records, latest: map<string, u64>)

  /** A held revision past the cap yields to any within it. */
  predicate Outranks(held: u64, incoming: u64, cap: u64) {
    held > incoming && (held <= cap || incoming > cap)
  }

  predicate Stale(r: Receiver, d: Delivery) {
    && d.origin in r.latest
    && (Outranks(r.latest[d.origin], d.revision, d.cap) || r.latest[d.origin] == d.revision)
  }

  /**
   The gate refuses a delivery exactly when the held revision is the same, or higher and not an
   outlier: one past the cap yields to any delivery within it.
   */
  lemma GateExactly(r: Receiver, d: Delivery)
    ensures Stale(r, d) <==>
            && d.origin in r.latest
            && r.latest[d.origin] >= d.revision
            && !(r.latest[d.origin] > d.cap && d.revision <= d.cap)
  {
  }

  function Received(r: Receiver, d: Delivery): Receiver {
    if Stale(r, d) then r
    else Receiver(Replaced(r.records, d.origin, d.revision, None, d.authoritative), r.latest[d.origin := d.revision])
  }

  function AfterDeliveries(base: Records, ds: seq<Delivery>): Receiver {
    if ds == [] then Receiver(base, map[]) else Received(AfterDeliveries(base, ds[..|ds| - 1]), ds[|ds| - 1])
  }

  function OfOrigin(records: Records, origin: string): Records {
    map k | k in records && records[k].siteId == origin :: records[k]
  }

  ghost predicate CleanDeliveries(base: Records, ds: seq<Delivery>) {
    && Clean(base)
    && (forall i | 0 <= i < |ds| :: Clean(ds[i].authoritative))
    && (forall i, j | 0 <= i <= j < |ds| :: ds[i].revision <= ds[j].cap)
  }

  ghost predicate From(ds: seq<Delivery>, i: int, origin: string) {
    0 <= i < |ds| && ds[i].origin == origin
  }

  /** Delivery `i` is the first of its origin to carry that origin's highest revision. */
  ghost predicate Highest(ds: seq<Delivery>, i: int, origin: string) {
    && From(ds, i, origin)
    && (forall j | From(ds, j, origin) :: ds[j].revision <= ds[i].revision)
    && (forall j | From(ds, j, origin) && j < i :: ds[j].revision < ds[i].revision)
  }

  /** The receiver holds delivery `i` of the origin, its highest. */
  ghost predicate Holds(ds: seq<Delivery>, r: Receiver, i: int, origin: string) {
    && Highest(ds, i, origin)
    && origin in r.latest && r.latest[origin] == ds[i].revision
    && OfOrigin(r.records, origin) == Stamped(ds[i].authoritative, origin, ds[i].revision, None)
  }

  /** The origin's records are those of its highest delivery, or untouched if none came. */
  ghost predicate Settled(base: Records, ds: seq<Delivery>, r: Receiver, origin: string) {
    if origin in r.latest then exists i :: Holds(ds, r, i, origin)
    else (forall i :: !From(ds, i, origin)) && OfOrigin(r.records, origin) == OfOrigin(base, origin)
  }

  /** A replacement leaves the origin its stamped records and every other origin as it was. */
  lemma ReplacementByOrigin(before: Records, origin: string, revision: u64, auth: Records, other: string)
    requires Clean(before) && Clean(auth)
    ensures var after := Replaced(before, origin, revision, None, auth);
            OfOrigin(after, other) == if other == origin then Stamped(auth, origin, revision, None)
                                      else OfOrigin(before, other)
  {
    ReplacedIsExact(before, origin, revision, None, auth);
    var after := Replaced(before, origin, revision, None, auth);
    if other == origin {
      ExactSame(before, after, origin, revision, auth);
    } else {
      ExactOthers(before, after, origin, revision, auth, other);
    }
  }

  lemma ExactSame(before: Records, after: Records, origin: string, revision: u64, auth: Records)
    requires ReplacedExactly(before, after, origin, revision, None, auth)
    ensures OfOrigin(after, origin) == Stamped(auth, origin, revision, None)
  {
    assert forall k :: k in OfOrigin(after, origin) <==> k in Stamped(auth, origin, revision, None);
  }

  lemma ExactOthers(before: Records, after: Records, origin: string, revision: u64, auth: Records, other: string)
    requires ReplacedExactly(before, after, origin, revision, None, auth) && other != origin
    ensures OfOrigin(after, other) == OfOrigin(before, other)
  {
    assert forall k :: k in OfOrigin(after, other) <==> k in OfOrigin(before, other);
  }

  lemma HighestKept(ds: seq<Delivery>, d: Delivery, i: int, origin: string)
    requires Highest(ds, i, origin)
    requires d.origin == origin ==> d.revision <= ds[i].revision
    ensures Highest(ds + [d], i, origin)
  {
    assert forall j | From(ds + [d], j, origin) && j < |ds| :: From(ds, j, origin) && (ds + [d])[j] == ds[j];
  }

  lemma HighestNew(ds: seq<Delivery>, d: Delivery)
    requires forall j | From(ds, j, d.origin) :: ds[j].revision < d.revision
    ensures Highest(ds + [d], |ds|, d.origin)
  {
    assert forall j | From(ds + [d], j, d.origin) && j < |ds| :: From(ds, j, d.origin) && (ds + [d])[j] == ds[j];
  }

  /** With revisions within the cap, a delivery is refused exactly when it is not newer. */
  lemma StaleMeansNotNewer(base: Records, ds: seq<Delivery>, d: Delivery, r: Receiver)
    requires CleanDeliveries(base, ds + [d]) && Settled(base, ds, r, d.origin)
    ensures Stale(r, d) <==> d.origin in r.latest && d.revision <= r.latest[d.origin]
  {
    if d.origin in r.latest {
      var i :| Holds(ds, r, i, d.origin);
      var ds' := ds + [d];
      assert ds'[i].revision <= ds'[|ds|].cap;
    }
  }

  lemma ReceivedSettles(base: Records, ds: seq<Delivery>, d: Delivery, r: Receiver, origin: string)
    requires CleanDeliveries(base, ds + [d]) && Clean(r.records)
    requires Settled(base, ds, r, origin) && Settled(base, ds, r, d.origin)
    ensures Settled(base, ds + [d], Received(r, d), origin)
  {
    var ds' := ds + [d];
    assert ds'[|ds|] == d;
    StaleMeansNotNewer(base, ds, d, r);
    if !Stale(r, d) {
      ReplacementByOrigin(r.records, d.origin, d.revision, d.authoritative, origin);
    }
    if origin == d.origin && !Stale(r, d) {
      HighestNew(ds, d);
      assert Holds(ds', Received(r, d), |ds|, origin);
    } else if origin in r.latest {
      var i :| Holds(ds, r, i, origin);
      HighestKept(ds, d, i, origin);
      assert Holds(ds', Received(r, d), i, origin);
    } else {
      assert forall i :: From(ds', i, origin) ==> From(ds, i, origin);
    }
  }

  /** Any interleaving ends with each origin's highest delivered revision. */
  lemma {:induction false} EachOriginEndsAtItsHighest(base: Records, ds: seq<Delivery>)
    requires CleanDeliveries(base, ds)
    ensures Clean(AfterDeliveries(base, ds).records)
    ensures forall origin :: Settled(base, ds, AfterDeliveries(base, ds), origin)
  {
    if ds != [] {
      var init, d := ds[..|ds| - 1], ds[|ds| - 1];
      assert ds == init + [d];
      assert CleanDeliveries(base, init);
      EachOriginEndsAtItsHighest(base, init);
      forall origin
        ensures Settled(base, ds, AfterDeliveries(base, ds), origin)
      {
        ReceivedSettles(base, init, d, AfterDeliveries(base, init), origin);
      }
      ReplacedIsExact(AfterDeliveries(base, init).records, d.origin, d.revision, None, d.authoritative);
    }
  }

  /** A revision of an origin names one payload. */
  ghost predicate OnePayload(ds: seq<Delivery>, es: seq<Delivery>) {
    forall i, j | 0 <= i < |ds| && 0 <= j < |es| ::
      ds[i].origin == es[j].origin && ds[i].revision == es[j].revision ==> ds[i].authoritative == es[j].authoritative
  }

  /** Some delivery of `es` came from the same origin with the same revision. */
  ghost predicate Echoed(d: Delivery, es: seq<Delivery>) {
    exists j :: From(es, j, d.origin) && es[j].revision == d.revision
  }

  ghost predicate SameEnvelopes(ds: seq<Delivery>, es: seq<Delivery>) {
    && (forall i | 0 <= i < |ds| :: Echoed(ds[i], es))
    && (forall j | 0 <= j < |es| :: Echoed(es[j], ds))
  }

  lemma HighestAgree(ds: seq<Delivery>, es: seq<Delivery>, i: int, j: int, origin: string)
    requires SameEnvelopes(ds, es) && Highest(ds, i, origin) && Highest(es, j, origin)
    ensures ds[i].revision == es[j].revision
  {
    assert Echoed(ds[i], es) && Echoed(es[j], ds);
  }

  lemma SameOriginRecords(
    base: Records, ds: seq<Delivery>, es: seq<Delivery>, p: Receiver, q: Receiver, origin: string)
    requires SameEnvelopes(ds, es) && OnePayload(ds, es)
    requires Settled(base, ds, p, origin) && Settled(base, es, q, origin)
    ensures OfOrigin(p.records, origin) == OfOrigin(q.records, origin)
  {
    forall j | From(es, j, origin)
      ensures exists i :: From(ds, i, origin)
    {
      assert Echoed(es[j], ds);
    }
    if origin in p.latest {
      var i :| Holds(ds, p, i, origin);
      assert Echoed(ds[i], es);
      var j :| Holds(es, q, j, origin);
      HighestAgree(ds, es, i, j, origin);
    }
  }

  lemma RecordsAreTheirOrigins(p: Records, q: Records)
    requires forall origin :: OfOrigin(p, origin) == OfOrigin(q, origin)
    ensures p == q
  {
    assert forall k | k in p :: k in OfOrigin(p, p[k].siteId) && OfOrigin(p, p[k].siteId)[k] == p[k];
    assert forall k | k in q :: k in OfOrigin(q, q[k].siteId);
  }

  /** Two receivers that got the same envelopes, in whatever order and number, hold the same records. */
  lemma ReplacementConverges(base: Records, ds: seq<Delivery>, es: seq<Delivery>)
    requires CleanDeliveries(base, ds) && CleanDeliveries(base, es)
    requires SameEnvelopes(ds, es) && OnePayload(ds, es)
    ensures AfterDeliveries(base, ds).records == AfterDeliveries(base, es).records
  {
    var p, q := AfterDeliveries(base, ds), AfterDeliveries(base, es);
    EachOriginEndsAtItsHighest(base, ds);
    EachOriginEndsAtItsHighest(base, es);
    forall origin
      ensures OfOrigin(p.records, origin) == OfOrigin(q.records, origin)
    {
      SameOriginRecords(base, ds, es, p, q, origin);
    }
    RecordsAreTheirOrigins(p.records, q.records);
  }
}
