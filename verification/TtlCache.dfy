/**
 The bounded time-to-live cache that the symbol index and the file-path list both use: a dictionary
 whose entries carry a monotonic creation time.
 */
module TtlCache {
  import opened Basics

  const TTL_SECONDS := 30.0

  datatype Stamped<+V> = Stamped(value: V, createdAt: real)

  predicate IsFresh<V>(entry: Stamped<V>, now: real) {
    (if now > entry.createdAt then now - entry.createdAt else 0.0) <= TTL_SECONDS
  }

  function FreshOnly<K, V>(entries: map<K, Stamped<V>>, now: real): map<K, Stamped<V>> {
    map key | key in entries && IsFresh(entries[key], now) :: entries[key]
  }

  /** Every entry is good for its key. */
  ghost predicate AllGood<K, V>(entries: map<K, Stamped<V>>, good: (K, V) -> bool) {
    forall key :: key in entries ==> good(key, entries[key].value)
  }

  /** Storing a good entry keeps the others good, whichever are dropped. */
  lemma StoredKeepsGood<K, V>(before: map<K, Stamped<V>>, after: map<K, Stamped<V>>, key: K, entry: Stamped<V>,
                              good: (K, V) -> bool)
    requires AllGood(before, good) && good(key, entry.value)
    requires forall other :: other in after ==>
      if other == key then after[other] == entry else other in before && after[other] == before[other]
    ensures AllGood(after, good)
  {
  }

  ghost predicate IsOldest<K, V>(entries: map<K, Stamped<V>>, key: K) {
    key in entries && forall other :: other in entries ==> entries[key].createdAt <= entries[other].createdAt
  }

  lemma {:induction false} OldestExists<K, V>(entries: map<K, Stamped<V>>) returns (oldest: K)
    requires |entries| > 0
    ensures IsOldest(entries, oldest)
    decreases |entries|
  {
    assert entries.Keys != {};
    var key :| key in entries;
    var rest := entries - {key};
    assert rest.Keys == entries.Keys - {key};
    if |rest| == 0 {
      assert forall other :: other in entries ==> other in rest || other == key;
      oldest := key;
    } else {
      var candidate := OldestExists(rest);
      assert forall other :: other in entries ==> other in rest || other == key;
      oldest := if entries[key].createdAt <= entries[candidate].createdAt then key else candidate;
    }
  }

  class Cache<K(==,!new), V> {
    const maxEntries: nat
    var entries: map<K, Stamped<V>>

    constructor (maxEntries: nat)
      requires maxEntries > 0
      ensures entries == map[] && this.maxEntries == maxEntries && Valid()
    {
      this.maxEntries, entries := maxEntries, map[];
    }

    ghost predicate Valid() reads this {
      0 < maxEntries && |entries| <= maxEntries
    }

    /** Expired entries go first; what is returned was stored under this key at most the lifetime ago. */
    method Get(key: K, now: real) returns (found: Option<V>)
      requires Valid()
      modifies this
      ensures Valid() && entries == FreshOnly(old(entries), now)
      ensures found
           == if key in old(entries) && IsFresh(old(entries)[key], now) then Some(old(entries)[key].value) else None
    {
      FreshIsSmaller(entries, now);
      entries := FreshOnly(entries, now);
      found := if key in entries then Some(entries[key].value) else None;
    }

    /** Store an entry, after dropping expired ones and, if the cache is still full, one that is oldest. */
    method Store(key: K, entry: Stamped<V>, now: real)
      requires Valid()
      modifies this
      ensures Valid()
      ensures
        var kept := FreshOnly(old(entries), now);
        if |kept| < maxEntries then entries == kept[key := entry]
        else exists oldest :: IsOldest(kept, oldest) && entries == (kept - {oldest})[key := entry]
    {
      FreshIsSmaller(entries, now);
      entries := FreshOnly(entries, now);
      if |entries| >= maxEntries {
        ghost var someOldest := OldestExists(entries);
        var oldest :| oldest in entries && forall other :: other in entries ==>
          entries[oldest].createdAt <= entries[other].createdAt;
        ghost var kept := entries;
        assert (entries - {oldest}).Keys == entries.Keys - {oldest};
        entries := entries - {oldest};
        assert IsOldest(kept, oldest);
      }
      entries := entries[key := entry];
      assert entries.Keys == old(entries).Keys * entries.Keys + {key};
    }
  }

  lemma FreshIsSmaller<K, V>(entries: map<K, Stamped<V>>, now: real)
    ensures |FreshOnly(entries, now)| <= |entries|
  {
    SubsetSize(FreshOnly(entries, now).Keys, entries.Keys);
  }
}
