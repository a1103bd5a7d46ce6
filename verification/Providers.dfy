/** Provider records of `crates/crdt/src/grid_state.rs`: keys, last-writer-wins, replacement. */
module Providers {
  import opened Prelude

  datatype Phase = Available | Pending | Degraded | Unavailable

  datatype Metrics = Metrics(
    queueDepth: Option<real>,
    kvCacheUtilization: Option<real>,
    latencyP99Ms: Option<real>,
    prefixCacheHitRatio: Option<real>,
    errorRate: Option<real>,
    healthy: Option<bool>)

  /** What a record says about a provider, apart from whose it is and how new it is. */
  datatype Payload = Payload(
    routingCluster: string,
    models: seq<string>,
    tools: seq<string>,
    backendKind: string,
    capacityWeight: nat,
    phase: Phase,
    metrics: Metrics,
    accessPolicy: map<string, string>)

  datatype ProviderState = ProviderState(
    networkId: string,
    siteId: string,
    providerId: string,
    payload: Payload,
    revision: u64,
    writerId: string)

  type Records = map<string, ProviderState>

  // ---- The order of revisions ----

  /** String order, character by character. */
  predicate Less(a: string, b: string) {
    if a == [] then b != []
    else if b == [] then false
    else if a[0] != b[0] then a[0] < b[0]
    else Less(a[1..], b[1..])
  }

  /** `p` replaces `q` on merge: a greater (revision, writer) pair. */
  predicate Supersedes(p: ProviderState, q: ProviderState) {
    p.revision > q.revision || (p.revision == q.revision && Less(q.writerId, p.writerId))
  }

  lemma {:induction false} LessIsTotal(a: string, b: string)
    ensures Less(a, b) || Less(b, a) || a == b
    ensures !(Less(a, b) && Less(b, a))
    ensures !Less(a, a)
  {
    if a != [] {
      LessIsTotal(a[1..], a[1..]);
    }
    if a != [] && b != [] && a[0] == b[0] {
      LessIsTotal(a[1..], b[1..]);
      assert a == [a[0]] + a[1..] && b == [b[0]] + b[1..];
    }
  }

  lemma {:induction false} LessIsTransitive(a: string, b: string, c: string)
    requires Less(a, b) && Less(b, c)
    ensures Less(a, c)
  {
    if a != [] && a[0] == b[0] && b[0] == c[0] {
      LessIsTransitive(a[1..], b[1..], c[1..]);
    }
  }

  /** `a` comes first: at the first index where they differ, or as a proper prefix. */
  ghost predicate Earlier(a: string, b: string) {
    exists i :: DiffersAt(a, b, i)
  }

  ghost predicate DiffersAt(a: string, b: string, i: int) {
    0 <= i <= |a| && i < |b| && a[..i] == b[..i] && (i < |a| ==> a[i] < b[i])
  }

  lemma {:induction false} LessIsEarlier(a: string, b: string)
    ensures Less(a, b) <==> Earlier(a, b)
  {
    if a == [] {
      assert b != [] ==> DiffersAt(a, b, 0);
    } else if b != [] && a[0] == b[0] {
      LessIsEarlier(a[1..], b[1..]);
      if Earlier(a[1..], b[1..]) {
        var i :| DiffersAt(a[1..], b[1..], i);
        assert a[..i + 1] == [a[0]] + a[1..][..i] && b[..i + 1] == [b[0]] + b[1..][..i];
        assert DiffersAt(a, b, i + 1);
      }
      if Earlier(a, b) {
        var i :| DiffersAt(a, b, i);
        assert a[1..][..i - 1] == a[..i][1..] && b[1..][..i - 1] == b[..i][1..];
        assert DiffersAt(a[1..], b[1..], i - 1);
      }
    } else if b != [] {
      assert a[0] < b[0] ==> DiffersAt(a, b, 0);
      assert forall i | DiffersAt(a, b, i) && i > 0 :: a[..i][0] == b[..i][0];
    }
  }

  /** `r` is the newer of two records: the higher revision, on a tie the later writer, else the first. */
  ghost predicate IsNewer(r: ProviderState, first: ProviderState, second: ProviderState) {
    && (second.revision > first.revision ==> r == second)
    && (second.revision < first.revision ==> r == first)
    && (second.revision == first.revision && Earlier(first.writerId, second.writerId) ==> r == second)
    && (second.revision == first.revision && !Earlier(first.writerId, second.writerId) ==> r == first)
  }

  lemma SupersedesIsTransitive(p: ProviderState, q: ProviderState, r: ProviderState)
    ensures Supersedes(p, q) && Supersedes(q, r) ==> Supersedes(p, r)
    ensures Supersedes(p, q) && !Supersedes(r, q) ==> Supersedes(p, r)
    ensures !Supersedes(p, p)
  {
    LessIsTotal(p.writerId, p.writerId);
    LessIsTotal(q.writerId, r.writerId);
    if Less(r.writerId, q.writerId) && Less(q.writerId, p.writerId) {
      LessIsTransitive(r.writerId, q.writerId, p.writerId);
    }
  }

  // ---- Keys ----

  function ProviderKey(networkId: string, siteId: string, providerId: string): string {
    networkId + "/" + siteId + "/" + providerId
  }

  function KeyOf(p: ProviderState): string {
    ProviderKey(p.networkId, p.siteId, p.providerId)
  }

  /** Every record sits under its own key, as every operation leaves it. */
  ghost predicate WellKeyed(records: Records) {
    forall k | k in records :: KeyOf(records[k]) == k
  }

  /** The text before a first '/' that `a` and `b` end at is the same. */
  lemma {:induction false} SlashSplits(a: string, rest: string, b: string, rest': string)
    requires '/' !in a && '/' !in b
    requires a + "/" + rest == b + "/" + rest'
    ensures a == b && rest == rest'
  {
    var s := a + "/" + rest;
    assert s[|a|] == '/' && s[|b|] == '/';
    assert forall i | 0 <= i < |a| :: s[i] == a[i];
    assert forall i | 0 <= i < |b| :: s[i] == b[i];
    assert |a| == |b|;
    assert s[..|a|] == a && s[..|b|] == b;
    assert s[|a| + 1..] == rest && s[|b| + 1..] == rest';
  }

  /** Keys identify records as soon as network and site names hold no '/'. */
  lemma KeyIsInjective(p: ProviderState, q: ProviderState)
    requires '/' !in p.networkId && '/' !in q.networkId && '/' !in p.siteId && '/' !in q.siteId
    requires KeyOf(p) == KeyOf(q)
    ensures p.networkId == q.networkId && p.siteId == q.siteId && p.providerId == q.providerId
  {
    var rest, rest' := p.siteId + "/" + p.providerId, q.siteId + "/" + q.providerId;
    assert KeyOf(p) == p.networkId + "/" + rest;
    assert KeyOf(q) == q.networkId + "/" + rest';
    SlashSplits(p.networkId, rest, q.networkId, rest');
    SlashSplits(p.siteId, p.providerId, q.siteId, q.providerId);
  }

  // ---- Upsert and merge ----

  function Upserted(records: Records, p: ProviderState): Records {
    var k := KeyOf(p);
    if k in records && !Supersedes(p, records[k]) then records else records[k := p]
  }

  function Winner(held: ProviderState, incoming: ProviderState): ProviderState {
    if Supersedes(incoming, held) then incoming else held
  }

  /** An upsert leaves the newer record under the key, the higher revision, and touches no other key. */
  lemma UpsertKeepsTheNewer(records: Records, p: ProviderState)
    ensures var after := Upserted(records, p);
            && KeyOf(p) in after
            && after.Keys == records.Keys + {KeyOf(p)}
            && (forall k | k in records && k != KeyOf(p) :: after[k] == records[k])
            && (KeyOf(p) !in records ==> after[KeyOf(p)] == p)
            && (KeyOf(p) in records ==>
                  && IsNewer(after[KeyOf(p)], records[KeyOf(p)], p)
                  && after[KeyOf(p)].revision == Max(records[KeyOf(p)].revision, p.revision))
  {
    if KeyOf(p) in records {
      LessIsEarlier(records[KeyOf(p)].writerId, p.writerId);
    }
  }

  function MergedRecords(a: Records, b: Records): Records {
    map k | k in a.Keys + b.Keys ::
      if k !in b then a[k] else if k !in a then b[k] else Winner(a[k], b[k])
  }

  /** A merge leaves the newer record under every key of either side. */
  lemma MergeKeepsTheNewer(a: Records, b: Records, k: string)
    ensures var merged := MergedRecords(a, b);
            && (k in merged <==> k in a || k in b)
            && (k in a && k !in b ==> merged[k] == a[k])
            && (k in b && k !in a ==> merged[k] == b[k])
            && (k in a && k in b ==>
                  && IsNewer(merged[k], a[k], b[k])
                  && merged[k].revision == Max(a[k].revision, b[k].revision))
  {
    if k in a && k in b {
      LessIsEarlier(a[k].writerId, b[k].writerId);
    }
  }

  /** Upserting one more record of a well-keyed map extends the merge by that record. */
  lemma UpsertExtendsMerge(a: Records, incoming: Records, pending: set<string>, k: string)
    requires WellKeyed(incoming) && k in pending && k in incoming
    ensures Upserted(MergedRecords(a, incoming - pending), incoming[k])
         == MergedRecords(a, incoming - (pending - {k}))
  {
    var m, m' := MergedRecords(a, incoming - pending), MergedRecords(a, incoming - (pending - {k}));
    assert KeyOf(incoming[k]) == k;
    assert m'.Keys == m.Keys + {k};
    assert forall x | x in m && x != k :: m'[x] == m[x];
  }

  /** Upserting the records under `order`'s keys, one after another. */
  function UpsertedAll(records: Records, incoming: Records, order: seq<string>): Records
    requires forall i | 0 <= i < |order| :: order[i] in incoming
  {
    if order == [] then records
    else Upserted(UpsertedAll(records, incoming, order[..|order| - 1]), incoming[order[|order| - 1]])
  }

  lemma {:induction false} UpsertedSoFar(records: Records, incoming: Records, order: seq<string>, pending: set<string>)
    requires WellKeyed(incoming) && (forall i | 0 <= i < |order| :: order[i] in incoming)
    requires pending <= incoming.Keys && Lists(order, incoming.Keys - pending)
    ensures UpsertedAll(records, incoming, order) == MergedRecords(records, incoming - pending)
  {
    if order == [] {
      assert forall k :: k in incoming.Keys - pending ==> k in order;
      assert incoming - pending == map[];
      assert MergedRecords(records, map[]) == records;
    } else {
      var init, last := order[..|order| - 1], order[|order| - 1];
      assert forall k :: k in order <==> k in init || k == last;
      assert last in order;
      UpsertedSoFar(records, incoming, init, pending + {last});
      UpsertExtendsMerge(records, incoming, pending + {last}, last);
      assert pending + {last} - {last} == pending;
    }
  }

  /** When records stand under their own keys, the order does not matter: upserting them all is the merge. */
  lemma UpsertingAllIsMerging(records: Records, incoming: Records, order: seq<string>)
    requires WellKeyed(incoming) && Lists(order, incoming.Keys)
    ensures (forall i | 0 <= i < |order| :: order[i] in incoming)
    ensures UpsertedAll(records, incoming, order) == MergedRecords(records, incoming)
  {
    assert forall i | 0 <= i < |order| :: order[i] in order;
    assert incoming.Keys - {} == incoming.Keys && incoming - {} == incoming;
    UpsertedSoFar(records, incoming, order, {});
  }

  // ---- Origin-authoritative replacement ----

  function Restamped(p: ProviderState, origin: string, revision: u64): ProviderState {
    p.(revision := revision, writerId := origin)
  }

  /** The records an origin speaks for within some networks; `None` means all of them. */
  predicate InScope(p: ProviderState, origin: string, networks: Option<set<string>>) {
    p.siteId == origin && (networks.None? || p.networkId in networks.value)
  }

  function Outside(records: Records, origin: string, networks: Option<set<string>>): Records {
    map k | k in records && !InScope(records[k], origin, networks) :: records[k]
  }

  function Stamped(records: Records, origin: string, revision: u64, networks: Option<set<string>>): Records {
    map k | k in records && InScope(records[k], origin, networks) :: Restamped(records[k], origin, revision)
  }

  /**
   What a replacement computes: out-of-scope records are retained, then each in-scope
   authoritative record is upserted over them under its new stamp.
   */
  function Replaced(
    records: Records, origin: string, revision: u64, networks: Option<set<string>>, authoritative: Records): Records
  {
    MergedRecords(Outside(records, origin, networks), Stamped(authoritative, origin, revision, networks))
  }

  /** What a replacement should leave: the authoritative records, and every other record untouched. */
  ghost predicate ReplacedExactly(
    before: Records, after: Records, origin: string, revision: u64, networks: Option<set<string>>,
    authoritative: Records)
  {
    && (forall k | k in authoritative && InScope(authoritative[k], origin, networks) ::
          k in after && after[k] == Restamped(authoritative[k], origin, revision))
    && (forall k | k in before && !InScope(before[k], origin, networks) :: k in after && after[k] == before[k])
    && (forall k | k in after ::
          || (k in before && !InScope(before[k], origin, networks))
          || (k in authoritative && InScope(authoritative[k], origin, networks)))
  }

  /** No record kept shares a key with a record brought in. */
  ghost predicate NoCollision(
    before: Records, origin: string, networks: Option<set<string>>, authoritative: Records)
  {
    forall k | k in before && k in authoritative ::
      InScope(authoritative[k], origin, networks) ==> InScope(before[k], origin, networks)
  }

  /** A replacement does what it should exactly when keys do not collide. */
  lemma ReplacementExactIffNoCollision(
    before: Records, origin: string, revision: u64, networks: Option<set<string>>, authoritative: Records)
    requires WellKeyed(before) && WellKeyed(authoritative)
    ensures ReplacedExactly(before, Replaced(before, origin, revision, networks, authoritative),
                            origin, revision, networks, authoritative)
       <==> NoCollision(before, origin, networks, authoritative)
  {
    var after := Replaced(before, origin, revision, networks, authoritative);
    forall k | k in before && k in authoritative && InScope(authoritative[k], origin, networks)
      ensures InScope(before[k], origin, networks) || before[k] != Restamped(authoritative[k], origin, revision)
    {
    }
  }

  ghost predicate SlashFree(records: Records) {
    forall k | k in records :: '/' !in records[k].networkId && '/' !in records[k].siteId
  }

  /** Names without '/' never collide. */
  lemma SlashFreeNamesDoNotCollide(
    before: Records, origin: string, networks: Option<set<string>>, authoritative: Records)
    requires WellKeyed(before) && WellKeyed(authoritative) && SlashFree(before) && SlashFree(authoritative)
    ensures NoCollision(before, origin, networks, authoritative)
  {
    forall k | k in before && k in authoritative
      ensures InScope(authoritative[k], origin, networks) ==> InScope(before[k], origin, networks)
    {
      KeyIsInjective(before[k], authoritative[k]);
    }
  }

  /** With '/' in names, two different sites' records can share a key. */
  lemma SlashedNamesCanCollide(payload: Payload)
    ensures var p := ProviderState("a", "b/c", "d", payload, 1, "w");
            var q := ProviderState("a/b", "c", "d", payload, 1, "w");
            && KeyOf(p) == KeyOf(q)
            && !NoCollision(map[KeyOf(p) := p], "c", None, map[KeyOf(q) := q])
  {
    var p := ProviderState("a", "b/c", "d", payload, 1, "w");
    var q := ProviderState("a/b", "c", "d", payload, 1, "w");
    assert KeyOf(p) == "a/b/c/d" == KeyOf(q);
    var k := KeyOf(p);
    assert k in map[k := p] && k in map[k := q];
  }

  /** The record is the origin's and, if networks are named, in one of them. */
  ghost predicate OriginsOwn(p: ProviderState, origin: string, networks: Option<set<string>>) {
    p.siteId == origin && (networks.Some? ==> p.networkId in networks.value)
  }

  /** The same provider and payload, stamped with the delivery's revision and the origin as writer. */
  ghost predicate Restates(p: ProviderState, q: ProviderState, origin: string, revision: u64) {
    && q.networkId == p.networkId && q.siteId == p.siteId && q.providerId == p.providerId && q.payload == p.payload
    && q.revision == revision && q.writerId == origin
  }

  /**
   What a replacement leaves under slash-free names, field by field: every record that is not the
   origin's, or is in another network, as it was; the origin's delivered records there, restated; no more.
   */
  lemma ReplacementFieldByField(
    before: Records, origin: string, revision: u64, networks: Option<set<string>>, authoritative: Records, k: string)
    requires WellKeyed(before) && WellKeyed(authoritative) && SlashFree(before) && SlashFree(authoritative)
    ensures var after := Replaced(before, origin, revision, networks, authoritative);
            && (k in before && !OriginsOwn(before[k], origin, networks) ==> k in after && after[k] == before[k])
            && (k in authoritative && OriginsOwn(authoritative[k], origin, networks) ==>
                  k in after && Restates(authoritative[k], after[k], origin, revision))
            && (k in after ==>
                  || (k in before && !OriginsOwn(before[k], origin, networks))
                  || (k in authoritative && OriginsOwn(authoritative[k], origin, networks)))
  {
    SlashFreeNamesDoNotCollide(before, origin, networks, authoritative);
    ReplacementExactIffNoCollision(before, origin, revision, networks, authoritative);
  }
}
