/**
 The observed-remove set of `crates/crdt/src/orset.rs`: the mutable set as a class,
 and the values its methods are proved against.
 */
module OrSets {
  import opened Prelude

  /** One add operation's identity. */
  datatype Tag = Tag(counter: u64, site: string)

  /** The serialized form of a set: what a clone, a snapshot and a merge argument hold. */
  datatype State<T> = State(
    site: string,
    counter: u64,
    entries: map<T, set<Tag>>,
    tombstones: set<Tag>)

  function New<T>(site: string): State<T> {
    State(site, 0, map[], {})
  }

  function Bucket<T>(entries: map<T, set<Tag>>, item: T): set<Tag> {
    if item in entries then entries[item] else {}
  }

  function Tags<T>(s: State<T>, item: T): set<Tag> {
    Bucket(s.entries, item)
  }

  /** Every tag a state mentions, live or removed. */
  function AllTags<T>(s: State<T>): set<Tag> {
    (set item, t | item in s.entries && t in s.entries[item] :: t) + s.tombstones
  }

  function NextTag<T>(s: State<T>): Tag
    requires s.counter < U64_MAX
  {
    Tag(s.counter + 1, s.site)
  }

  function Added<T>(s: State<T>, item: T): State<T> {
    if s.counter == U64_MAX then s
    else s.(counter := s.counter + 1, entries := s.entries[item := Tags(s, item) + {NextTag(s)}])
  }

  function Removed<T>(s: State<T>, item: T): State<T> {
    s.(entries := s.entries - {item}, tombstones := s.tombstones + Tags(s, item))
  }

  /** The largest counter among `tags` of one site, 0 when there is none. */
  ghost function OwnMax(site: string, tags: set<Tag>): (m: u64)
    ensures forall t | t in tags && t.site == site :: t.counter <= m
    ensures m == 0 || exists t :: t in tags && t.site == site && t.counter == m
  {
    if tags == {} then 0
    else
      var t :| t in tags;
      var rest := OwnMax(site, tags - {t});
      if t.site == site && rest < t.counter then t.counter else rest
  }

  /** The tag counter after a merge: past every tag of this site the other state knows. */
  ghost function CaughtUp<T>(a: State<T>, b: State<T>): u64 {
    Max(Max(a.counter, if a.site == b.site then b.counter else 0), OwnMax(a.site, AllTags(b)))
  }

  /** Live tags after a merge: held by either side, removed by neither. */
  function MergedTags<T>(a: State<T>, b: State<T>, item: T): set<Tag> {
    (Tags(a, item) + Tags(b, item)) - (a.tombstones + b.tombstones)
  }

  function MergedEntries<T>(a: State<T>, b: State<T>): map<T, set<Tag>> {
    map item | item in a.entries.Keys + b.entries.Keys && MergedTags(a, b, item) != {} :: MergedTags(a, b, item)
  }

  ghost function Merged<T>(a: State<T>, b: State<T>): State<T> {
    State(a.site, CaughtUp(a, b), MergedEntries(a, b), a.tombstones + b.tombstones)
  }

  function Contains<T>(s: State<T>, item: T): bool {
    Tags(s, item) != {}
  }

  /** Absorbing first and dropping tombstoned tags afterwards computes the merged entries. */
  lemma MergeInPlace<T>(a: State<T>, b: State<T>, absorbed: map<T, set<Tag>>, kept: map<T, set<Tag>>)
    requires absorbed.Keys == a.entries.Keys + b.entries.Keys
    requires forall item | item in b.entries ::
               absorbed[item] == Tags(a, item) + (b.entries[item] - a.tombstones)
    requires forall item | item in absorbed && item !in b.entries :: absorbed[item] == a.entries[item]
    requires forall item :: item in kept <==>
               item in absorbed && absorbed[item] - (a.tombstones + b.tombstones) != {}
    requires forall item | item in kept :: kept[item] == absorbed[item] - (a.tombstones + b.tombstones)
    ensures kept == MergedEntries(a, b)
  {
    forall item | item in absorbed
      ensures absorbed[item] - (a.tombstones + b.tombstones) == MergedTags(a, b, item)
    {
    }
  }

  class OrSet<T(==)> {
    const siteId: string
    var counter: u64
    var entries: map<T, set<Tag>>
    var tombstones: set<Tag>

    function Value(): State<T>
      reads this
    {
      State(siteId, counter, entries, tombstones)
    }

    constructor (siteId: string)
      ensures Value() == New(siteId)
    {
      this.siteId := siteId;
      counter := 0;
      entries := map[];
      tombstones := {};
    }

    /** Refuses, changing nothing, once the tag counter cannot grow. */
    method Add(item: T) returns (added: bool)
      modifies this
      ensures added <==> old(counter) < U64_MAX
      ensures !added ==> Value() == old(Value())
      ensures added ==> NextTag(old(Value())) in Tags(Value(), item) && counter == old(counter) + 1
      ensures Value() == Added(old(Value()), item)
    {
      if counter == U64_MAX {
        return false;
      }
      counter := counter + 1;
      var bucket := if item in entries then entries[item] else {};
      entries := entries[item := bucket + {Tag(counter, siteId)}];
      added := true;
    }

    method Remove(item: T)
      modifies this
      ensures Value() == Removed(old(Value()), item)
      ensures !Contains(Value(), item)
    {
      if item in entries {
        tombstones := tombstones + entries[item];
        entries := entries - {item};
      }
    }

    method Merge(other: OrSet<T>)
      requires other != this
      modifies this
      ensures Value() == Merged(old(Value()), other.Value())
    {
      ghost var before := Value();
      CatchUp(other);
      AbsorbEntries(other.entries);
      ghost var absorbed := entries;
      tombstones := tombstones + other.tombstones;
      RemoveTombstonedTags();
      MergeInPlace(before, other.Value(), absorbed, entries);
    }

    /** Take every tag of `incoming` that is not tombstoned here. */
    method AbsorbEntries(incoming: map<T, set<Tag>>)
      modifies this`entries
      ensures entries.Keys == old(entries).Keys + incoming.Keys
      ensures forall item | item in incoming ::
                entries[item] == Bucket(old(entries), item) + (incoming[item] - tombstones)
      ensures forall item | item in entries && item !in incoming :: entries[item] == old(entries)[item]
    {
      var items := incoming.Keys;
      while items != {}
        invariant items <= incoming.Keys
        invariant entries.Keys == old(entries).Keys + (incoming.Keys - items)
        invariant forall item | item in incoming && item !in items ::
                    entries[item] == Bucket(old(entries), item) + (incoming[item] - tombstones)
        invariant forall item | item in items || item !in incoming ::
                    Bucket(entries, item) == Bucket(old(entries), item)
        decreases items
      {
        var item :| item in items;
        var local := AbsorbTags(Bucket(entries, item), incoming[item]);
        entries := entries[item := local];
        items := items - {item};
      }
      forall item | item in entries && item !in incoming
        ensures entries[item] == old(entries)[item]
      {
        assert Bucket(entries, item) == Bucket(old(entries), item);
      }
    }

    method AbsorbTags(held: set<Tag>, incoming: set<Tag>) returns (local: set<Tag>)
      ensures local == held + (incoming - tombstones)
    {
      local := held;
      var tags := incoming;
      while tags != {}
        invariant tags <= incoming
        invariant local == held + ((incoming - tags) - tombstones)
        decreases tags
      {
        var tag :| tag in tags;
        if tag !in tombstones {
          local := local + {tag};
        }
        tags := tags - {tag};
      }
    }

    /** Move the counter past every tag of this site the other set mentions. */
    method CatchUp(other: OrSet<T>)
      requires other != this
      modifies this`counter
      ensures counter == CaughtUp(old(Value()), other.Value())
    {
      if siteId == other.siteId && counter < other.counter {
        counter := other.counter;
      }
      ghost var start := counter;
      var all := AllTags(other.Value());
      var pending := all;
      while pending != {}
        invariant pending <= all
        invariant counter >= start
        invariant forall t | t in all - pending && t.site == siteId :: t.counter <= counter
        invariant counter == start || exists t :: t in all && t.site == siteId && t.counter == counter
        decreases pending
      {
        var tag :| tag in pending;
        if tag.site == siteId && counter < tag.counter {
          counter := tag.counter;
        }
        pending := pending - {tag};
      }
    }

    /** Drop tombstoned tags and the buckets they empty. */
    method RemoveTombstonedTags()
      modifies this`entries
      ensures forall item :: item in entries <==>
                item in old(entries) && old(entries)[item] - tombstones != {}
      ensures forall item | item in entries :: entries[item] == old(entries)[item] - tombstones
    {
      entries := map item | item in entries && entries[item] - tombstones != {} :: entries[item] - tombstones;
    }
  }
}
