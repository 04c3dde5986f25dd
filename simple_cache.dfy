/**
  The in-memory cache of the services (`SimpleCache`): an ordered map from keys to
  entries, least recently used first, with a per-entry expiry time that `get`
  checks lazily, eviction of the least recently used entry when a new key is
  inserted at capacity, and hit/miss/set/eviction counters.

  The clock is explicit: every operation that reads `time.time()` in the source
  takes the current time `now` as a parameter.  Operations are atomic (the source
  serialises them with a lock).
 */
module SimpleCacheModel {
  import opened Base

  /** A stored value and the time after which it has expired. */
  datatype Entry<V> = Entry(value: V, expiresAt: real)

  /** The ordered contents: position 0 is the least recently used entry. */
  type Items<V> = seq<(string, Entry<V>)>

  /** What `get_stats` reports.  The hit rate is exact (the source rounds it to two decimals). */
  datatype CacheStats = CacheStats(
    backend: string, size: nat, maxSize: int,
    hits: nat, misses: nat, sets: nat, evictions: nat,
    hitRate: real, totalRequests: nat)

  // ---------------------------------------------------------------- the ordered map

  ghost predicate DistinctKeys<V>(items: Items<V>)
  {
    forall i, j :: 0 <= i < j < |items| ==> items[i].0 != items[j].0
  }

  /** Where `key` is stored, if it is. */
  function Position<V>(items: Items<V>, key: string): (r: Option<nat>)
    ensures r.Some? ==> r.value < |items| && items[r.value].0 == key
    ensures r.None? <==> forall i :: 0 <= i < |items| ==> items[i].0 != key
  {
    if |items| == 0 then None
    else if items[0].0 == key then Some(0)
    else match Position(items[1..], key)
      case None => None
      case Some(i) => Some(i + 1)
  }

  /** What `get` returns for `key` at time `now`: the stored value, unless absent or expired. */
  function Lookup<V>(items: Items<V>, key: string, now: real): (r: Option<V>)
    ensures r.Some? <==> Position(items, key).Some? && now <= items[Position(items, key).value].1.expiresAt
    ensures r.Some? ==> r.value == items[Position(items, key).value].1.value
  {
    match Position(items, key)
    case None => None
    case Some(i) => if now > items[i].1.expiresAt then None else Some(items[i].1.value)
  }

  /** The contents after `get(key)` at `now`: an expired entry is dropped, a live one becomes the most recent. */
  function AfterGet<V>(items: Items<V>, key: string, now: real): Items<V>
  {
    match Position(items, key)
    case None => items
    case Some(i) =>
      if now > items[i].1.expiresAt then Without(items, key) else Without(items, key) + [items[i]]
  }

  /**
    The contents after `set(key, ...)` stores `e`, for a cache of capacity
    `maxSize`; an insertion that would have to evict from an empty cache raises
    and leaves them as they are.
   */
  function AfterSet<V>(items: Items<V>, key: string, e: Entry<V>, maxSize: int): Items<V>
  {
    match Position(items, key)
    case Some(_) => Without(items, key) + [(key, e)]
    case None =>
      if |items| >= maxSize then
        if items == [] then items else items[1..] + [(key, e)]
      else items + [(key, e)]
  }

  /** The contents after `stored`, when there is one, is set under `key` to expire at `expiresAt`. */
  function AfterStore<V>(items: Items<V>, key: string, stored: Option<V>, expiresAt: real, maxSize: int): Items<V>
  {
    if stored.Some? then AfterSet(items, key, Entry(stored.value, expiresAt), maxSize) else items
  }

  /** The contents with `key`'s entry taken out (`del cache[key]`). */
  function Without<V>(items: Items<V>, key: string): Items<V>
  {
    if |items| == 0 then []
    else if items[0].0 == key then Without(items[1..], key)
    else [items[0]] + Without(items[1..], key)
  }

  /** The entries still live at time `now`, in their order. */
  function Survivors<V>(items: Items<V>, now: real): Items<V>
  {
    if |items| == 0 then []
    else if now > items[0].1.expiresAt then Survivors(items[1..], now)
    else [items[0]] + Survivors(items[1..], now)
  }

  /** The keys of the entries expired at time `now`, in their order. */
  function ExpiredKeys<V>(items: Items<V>, now: real): seq<string>
  {
    if |items| == 0 then []
    else if now > items[0].1.expiresAt then [items[0].0] + ExpiredKeys(items[1..], now)
    else ExpiredKeys(items[1..], now)
  }

  /** The keys listed in `ks`. */
  function Elems(ks: seq<string>): set<string>
  {
    set k | k in ks
  }

  /** The entries whose key is not in `gone`, in their order. */
  function Excluding<V>(items: Items<V>, gone: set<string>): Items<V>
  {
    if |items| == 0 then []
    else if items[0].0 in gone then Excluding(items[1..], gone)
    else [items[0]] + Excluding(items[1..], gone)
  }

  /** `hits / (hits + misses) * 100`, or 0 before any request. */
  function HitRate(hits: nat, misses: nat): (r: real)
    ensures 0.0 <= r <= 100.0
    ensures hits + misses == 0 ==> r == 0.0
    ensures misses == 0 && hits > 0 ==> r == 100.0
    ensures hits == 0 ==> r == 0.0
  {
    var total := hits + misses;
    if total == 0 then 0.0
    else
      HitRateBounded(hits, total);
      (hits as real) / (total as real) * 100.0
  }

  lemma {:induction false} HitRateBounded(hits: nat, total: nat)
    requires 0 < total && hits <= total
    ensures 0.0 <= (hits as real) / (total as real) * 100.0 <= 100.0
    ensures hits == total ==> (hits as real) / (total as real) * 100.0 == 100.0
  {
    assert (hits as real) / (total as real) <= 1.0;
    if hits == total {
      assert (hits as real) / (total as real) == 1.0;
    }
  }

  // ---------------------------------------------------------------- facts about the ordered map

  /** Deleting the key stored at position `i` removes that entry and keeps the others in order. */
  lemma {:induction false} WithoutAt<V>(items: Items<V>, i: nat)
    requires DistinctKeys(items) && i < |items|
    ensures Without(items, items[i].0) == items[..i] + items[i + 1..]
  {
    if i == 0 {
      WithoutAbsent(items[1..], items[0].0);
      assert items[..0] + items[1..] == items[1..];
    } else {
      WithoutAt(items[1..], i - 1);
      assert items[1..][i - 1].0 == items[i].0;
      assert items[..i] + items[i + 1..] == [items[0]] + (items[1..][..i - 1] + items[1..][i..]);
    }
  }

  /** Deleting an absent key changes nothing. */
  lemma {:induction false} WithoutAbsent<V>(items: Items<V>, key: string)
    requires forall i :: 0 <= i < |items| ==> items[i].0 != key
    ensures Without(items, key) == items
  {
    if |items| > 0 {
      WithoutAbsent(items[1..], key);
      assert items == [items[0]] + items[1..];
    }
  }

  /** Taking entries out of a list of distinct keys keeps the keys distinct. */
  lemma {:induction false} SubsequenceDistinct<V>(a: Items<V>, b: Items<V>)
    requires DistinctKeys(a)
    requires forall j :: 0 <= j < |b| ==> exists i :: 0 <= i < |a| && a[i] == b[j]
    requires forall j, l :: 0 <= j < l < |b| ==> Before(a, b[j], b[l])
    ensures DistinctKeys(b)
  {
    forall j, l | 0 <= j < l < |b| ensures b[j].0 != b[l].0 {
      assert Before(a, b[j], b[l]);
      var x, y :| 0 <= x < y < |a| && a[x] == b[j] && a[y] == b[l];
    }
  }

  /** `p` is stored strictly before `q` in `a`. */
  ghost predicate Before<V>(a: Items<V>, p: (string, Entry<V>), q: (string, Entry<V>))
  {
    exists x, y :: 0 <= x < y < |a| && a[x] == p && a[y] == q
  }

  /** Removing one position from a list of distinct keys keeps them distinct. */
  lemma {:induction false} RemoveAtDistinct<V>(items: Items<V>, i: nat)
    requires DistinctKeys(items) && i < |items|
    ensures DistinctKeys(items[..i] + items[i + 1..])
    ensures forall e :: e in items[..i] + items[i + 1..] ==> e.0 != items[i].0
  {
    var r := items[..i] + items[i + 1..];
    forall j | 0 <= j < |r| ensures r[j] == items[if j < i then j else j + 1] { }
  }

  /** Appending an entry under a new key keeps the keys distinct. */
  lemma {:induction false} AppendDistinct<V>(items: Items<V>, x: (string, Entry<V>))
    requires DistinctKeys(items)
    requires forall e :: e in items ==> e.0 != x.0
    ensures DistinctKeys(items + [x])
  {
    var r := items + [x];
    forall i, j | 0 <= i < j < |r| ensures r[i].0 != r[j].0 {
      if j == |items| {
        assert r[i] in items;
      }
    }
  }

  /**
    An entry just stored as the most recent one, under a key stored nowhere
    else, is what `get` finds until it expires.
   */
  lemma {:induction false} LookupLatest<V>(rest: Items<V>, key: string, e: Entry<V>, now: real)
    requires forall x :: x in rest ==> x.0 != key
    ensures Lookup(rest + [(key, e)], key, now) == if now > e.expiresAt then None else Some(e.value)
  {
    var items := rest + [(key, e)];
    var pos := Position(items, key);
    assert items[|rest|].0 == key;
    assert pos.Some?;
    assert forall j :: 0 <= j < |rest| ==> items[j] == rest[j];
    assert forall j :: 0 <= j < |rest| ==> items[j].0 != key;
  }

  /** Taking a key out keeps only entries that were there, under other keys. */
  lemma {:induction false} WithoutKeeps<V>(items: Items<V>, key: string)
    ensures forall x :: x in Without(items, key) ==> x in items && x.0 != key
  {
    if |items| > 0 {
      WithoutKeeps(items[1..], key);
    }
  }

  /** `get` never adds an entry. */
  lemma {:induction false} AfterGetKeeps<V>(items: Items<V>, key: string, now: real)
    ensures forall x :: x in AfterGet(items, key, now) ==> x in items
  {
    WithoutKeeps(items, key);
  }

  /** `set` adds no entry but the one it stores. */
  lemma {:induction false} AfterSetKeeps<V>(items: Items<V>, key: string, e: Entry<V>, maxSize: int)
    ensures forall x :: x in AfterSet(items, key, e, maxSize) ==> x in items || x == (key, e)
  {
    WithoutKeeps(items, key);
    if Position(items, key).None? && |items| >= maxSize && items != [] {
      assert forall x :: x in items[1..] ==> x in items;
    }
  }

  /**
    What was just stored is what `get` finds until it expires, unless the
    store raised.
   */
  lemma {:induction false} SetThenGet<V>(items: Items<V>, key: string, e: Entry<V>, maxSize: int, now: real)
    requires !(Position(items, key).None? && |items| >= maxSize && items == [])
    ensures Lookup(AfterSet(items, key, e, maxSize), key, now) == if now > e.expiresAt then None else Some(e.value)
  {
    WithoutKeeps(items, key);
    match Position(items, key)
    case Some(_) =>
      LookupLatest(Without(items, key), key, e, now);
    case None =>
      if |items| >= maxSize {
        assert forall x :: x in items[1..] ==> x in items;
        LookupLatest(items[1..], key, e, now);
      } else {
        LookupLatest(items, key, e, now);
      }
  }

  /**
    In a cache within its capacity, `set` raises exactly when the capacity is
    zero or negative: then the cache is always empty and the insertion must
    evict from it.
   */
  lemma {:induction false} SetRaisesIff<V>(items: Items<V>, key: string, maxSize: int)
    requires |items| <= maxSize || items == []
    ensures (Position(items, key).None? && |items| >= maxSize && items == []) <==> maxSize <= 0
  {
  }

  /** After a `get` that found nothing live, the key is not stored. */
  lemma {:induction false} MissLeavesNoEntry<V>(items: Items<V>, key: string, now: real)
    requires Lookup(items, key, now).None?
    ensures Position(AfterGet(items, key, now), key).None?
  {
    WithoutKeeps(items, key);
    var after := AfterGet(items, key, now);
    forall i | 0 <= i < |after| ensures after[i].0 != key {
      assert after[i] in Without(items, key) || after == items;
    }
  }

  /** The survivors of a clean-up are exactly the live entries, in their original order. */
  lemma {:induction false} SurvivorsLive<V>(items: Items<V>, now: real)
    ensures forall e :: e in Survivors(items, now) <==> e in items && now <= e.1.expiresAt
    ensures |Survivors(items, now)| + |ExpiredKeys(items, now)| == |items|
  {
    if |items| > 0 {
      SurvivorsLive(items[1..], now);
      assert items == [items[0]] + items[1..];
    }
  }

  /** Deleting the expired keys one at a time leaves exactly the survivors. */
  lemma {:induction false} ExcludingExpired<V>(items: Items<V>, now: real)
    requires DistinctKeys(items)
    ensures Excluding(items, Elems(ExpiredKeys(items, now))) == Survivors(items, now)
  {
    var gone := Elems(ExpiredKeys(items, now));
    if |items| > 0 {
      var rest := items[1..];
      var goneRest := Elems(ExpiredKeys(rest, now));
      ExcludingExpired(rest, now);
      ExpiredKeysFrom(rest, now);
      if now > items[0].1.expiresAt {
        assert gone == {items[0].0} + goneRest;
        ExcludingIgnores(rest, goneRest, items[0].0);
      } else {
        assert gone == goneRest;
      }
    }
  }

  /** Every expired key is the key of an entry. */
  lemma {:induction false} ExpiredKeysFrom<V>(items: Items<V>, now: real)
    ensures forall k :: k in ExpiredKeys(items, now) ==> exists i :: 0 <= i < |items| && items[i].0 == k
  {
    if |items| > 0 {
      ExpiredKeysFrom(items[1..], now);
      forall k | k in ExpiredKeys(items[1..], now) ensures exists i :: 0 <= i < |items| && items[i].0 == k {
        var i :| 0 <= i < |items[1..]| && items[1..][i].0 == k;
        assert items[i + 1].0 == k;
      }
    }
  }

  /** A key no entry has does not matter to `Excluding`. */
  lemma {:induction false} ExcludingIgnores<V>(items: Items<V>, gone: set<string>, key: string)
    requires forall i :: 0 <= i < |items| ==> items[i].0 != key
    ensures Excluding(items, {key} + gone) == Excluding(items, gone)
  {
    if |items| > 0 {
      ExcludingIgnores(items[1..], gone, key);
    }
  }

  /** Excluding no key keeps every entry. */
  lemma {:induction false} ExcludingNothing<V>(items: Items<V>)
    ensures Excluding(items, {}) == items
  {
    if |items| > 0 {
      ExcludingNothing(items[1..]);
      assert items == [items[0]] + items[1..];
    }
  }

  /** One more deletion in the clean-up loop. */
  lemma {:induction false} ExcludingStep<V>(items: Items<V>, gone: set<string>, key: string)
    ensures Without(Excluding(items, gone), key) == Excluding(items, gone + {key})
  {
    if |items| > 0 {
      ExcludingStep(items[1..], gone, key);
    }
  }

  // ---------------------------------------------------------------- the cache object

  class SimpleCache<V> {
    const maxSize: int
    const defaultTtl: int
    /** `self.cache`, least recently used first. */
    var items: Items<V>
    var hits: nat
    var misses: nat
    var sets: nat
    var evictions: nat

    /** Keys are distinct, and the size never exceeds `max_size`. */
    ghost predicate Valid()
      reads this
    {
      DistinctKeys(items) && (|items| <= maxSize || items == [])
    }

    constructor (maxSize: int, defaultTtl: int)
      ensures Valid()
      ensures this.maxSize == maxSize && this.defaultTtl == defaultTtl
      ensures items == [] && hits == 0 && misses == 0 && sets == 0 && evictions == 0
    {
      this.maxSize := maxSize;
      this.defaultTtl := defaultTtl;
      items := [];
      hits, misses, sets, evictions := 0, 0, 0, 0;
    }

    /**
      `get(key)`: a missing key is a miss; an entry whose expiry time is strictly
      before `now` is deleted and is a miss; a live entry is a hit and becomes the
      most recently used.
     */
    method Get(key: string, now: real) returns (r: Option<V>)
      requires Valid()
      modifies this
      ensures Valid()
      ensures sets == old(sets) && evictions == old(evictions)
      ensures r == Lookup(old(items), key, now)
      ensures items == AfterGet(old(items), key, now)
      ensures old(Position(items, key)).None? ==>
        r.None? && items == old(items) && misses == old(misses) + 1 && hits == old(hits)
      ensures old(Position(items, key)).Some? ==>
        var i := old(Position(items, key)).value;
        var e := old(items[i].1);
        if now > e.expiresAt then
          r.None? && items == old(items[..i] + items[i + 1..])
          && misses == old(misses) + 1 && hits == old(hits)
        else
          r == Some(e.value) && items == old(items[..i] + items[i + 1..]) + [old(items[i])]
          && hits == old(hits) + 1 && misses == old(misses)
    {
      var pos := Position(items, key);
      if pos.None? {
        misses := misses + 1;
        return None;
      }
      var i := pos.value;
      var entry := items[i].1;
      WithoutAt(items, i);
      RemoveAtDistinct(items, i);
      if now > entry.expiresAt {
        items := Without(items, key);
        misses := misses + 1;
        return None;
      }
      items := Without(items, key) + [(key, entry)];
      hits := hits + 1;
      return Some(entry.value);
    }

    /** How long a new entry lives: `ttl`, or the default when it is None. */
    function TtlOf(ttl: Option<int>): int
      reads this
    {
      if ttl.Some? then ttl.value else defaultTtl
    }

    /**
      `set(key, value, ttl)`: the entry becomes the most recently used, expiring at
      `now + ttl`.  Inserting a new key when the cache is full first evicts the
      least recently used entry.  `raised` is the KeyError the source raises when
      it must evict from an empty cache (only possible when `max_size <= 0`); then
      nothing changes.
     */
    method Set(key: string, value: V, ttl: Option<int>, now: real) returns (raised: bool)
      requires Valid()
      modifies this
      ensures Valid()
      ensures hits == old(hits) && misses == old(misses)
      ensures raised <==> old(Position(items, key)).None? && old(|items|) >= maxSize && old(items) == []
      ensures raised ==> items == old(items) && sets == old(sets) && evictions == old(evictions)
      ensures !raised ==> sets == old(sets) + 1
      ensures items == AfterSet(old(items), key, Entry(value, now + TtlOf(ttl) as real), maxSize)
      ensures !raised ==> var added := (key, Entry(value, now + TtlOf(ttl) as real));
        match old(Position(items, key))
        case Some(i) =>
          items == old(items[..i] + items[i + 1..]) + [added] && evictions == old(evictions)
        case None =>
          if old(|items|) >= maxSize then
            items == old(items[1..]) + [added] && evictions == old(evictions) + 1
          else
            items == old(items) + [added] && evictions == old(evictions)
    {
      var added := (key, Entry(value, now + TtlOf(ttl) as real));
      var pos := Position(items, key);
      match pos {
        case Some(i) =>
          WithoutAt(items, i);
          RemoveAtDistinct(items, i);
          AppendDistinct(items[..i] + items[i + 1..], added);
          items := Without(items, key) + [added];
        case None =>
          if |items| >= maxSize {
            if items == [] {
              return true;
            }
            AppendDistinct(items[1..], added);
            items := items[1..] + [added];
            evictions := evictions + 1;
          } else {
            AppendDistinct(items, added);
            items := items + [added];
          }
      }
      sets := sets + 1;
      return false;
    }

    /** `delete(key)`: true iff the key was stored; only that entry goes. */
    method Delete(key: string) returns (found: bool)
      requires Valid()
      modifies this
      ensures Valid()
      ensures hits == old(hits) && misses == old(misses) && sets == old(sets) && evictions == old(evictions)
      ensures found <==> old(Position(items, key)).Some?
      ensures found ==> var i := old(Position(items, key)).value; items == old(items[..i] + items[i + 1..])
      ensures !found ==> items == old(items)
    {
      var pos := Position(items, key);
      if pos.None? {
        return false;
      }
      WithoutAt(items, pos.value);
      RemoveAtDistinct(items, pos.value);
      items := Without(items, key);
      return true;
    }

    /** `clear()`: every entry goes; the counters stay. */
    method Clear()
      requires Valid()
      modifies this
      ensures Valid()
      ensures items == []
      ensures hits == old(hits) && misses == old(misses) && sets == old(sets) && evictions == old(evictions)
    {
      items := [];
    }

    /** `get_stats()`. */
    method GetStats() returns (st: CacheStats)
      requires Valid()
      ensures st.backend == "simple" && st.size == |items| && st.maxSize == maxSize
      ensures st.hits == hits && st.misses == misses && st.sets == sets && st.evictions == evictions
      ensures st.totalRequests == hits + misses
      ensures st.hitRate == HitRate(hits, misses) && 0.0 <= st.hitRate <= 100.0
    {
      st := CacheStats("simple", |items|, maxSize, hits, misses, sets, evictions,
                       HitRate(hits, misses), hits + misses);
    }

    /**
      `cleanup_expired()`: collects the keys of the entries expired at `now`, then
      deletes them one by one; returns how many there were.
     */
    method CleanupExpired(now: real) returns (removed: nat)
      requires Valid()
      modifies this
      ensures Valid()
      ensures items == Survivors(old(items), now)
      ensures removed == |ExpiredKeys(old(items), now)| == |old(items)| - |items|
      ensures hits == old(hits) && misses == old(misses) && sets == old(sets) && evictions == old(evictions)
    {
      var start := items;
      var expired: seq<string> := [];
      var i := 0;
      while i < |start|
        invariant 0 <= i <= |start| && items == start
        invariant hits == old(hits) && misses == old(misses) && sets == old(sets) && evictions == old(evictions)
        invariant expired == ExpiredKeys(start[..i], now)
      {
        ExpiredKeysAppend(start[..i], start[i], now);
        assert start[..i + 1] == start[..i] + [start[i]];
        if now > start[i].1.expiresAt {
          expired := expired + [start[i].0];
        }
        i := i + 1;
      }
      assert start[..i] == start;
      ExcludingNothing(start);
      assert Elems(expired[..0]) == {};
      var j := 0;
      while j < |expired|
        invariant 0 <= j <= |expired|
        invariant items == Excluding(start, Elems(expired[..j]))
        invariant hits == old(hits) && misses == old(misses) && sets == old(sets) && evictions == old(evictions)
      {
        ExcludingStep(start, Elems(expired[..j]), expired[j]);
        assert Elems(expired[..j + 1]) == Elems(expired[..j]) + {expired[j]} by {
          assert expired[..j + 1] == expired[..j] + [expired[j]];
        }
        items := Without(items, expired[j]);
        j := j + 1;
      }
      assert expired[..j] == expired;
      ExcludingExpired(start, now);
      SurvivorsLive(start, now);
      SurvivorsDistinct(start, now);
      removed := |expired|;
    }
  }

  /** The expired keys of a list extended by one entry. */
  lemma {:induction false} ExpiredKeysAppend<V>(items: Items<V>, x: (string, Entry<V>), now: real)
    ensures ExpiredKeys(items + [x], now) ==
      ExpiredKeys(items, now) + (if now > x.1.expiresAt then [x.0] else [])
  {
    if |items| > 0 {
      ExpiredKeysAppend(items[1..], x, now);
      assert (items + [x])[1..] == items[1..] + [x];
    } else {
      assert items + [x] == [x];
    }
  }

  /** The survivors of a list of distinct keys have distinct keys, and are no more. */
  lemma {:induction false} SurvivorsDistinct<V>(items: Items<V>, now: real)
    requires DistinctKeys(items)
    ensures DistinctKeys(Survivors(items, now)) && |Survivors(items, now)| <= |items|
    ensures forall e :: e in Survivors(items, now) ==> e in items
  {
    if |items| > 0 {
      SurvivorsDistinct(items[1..], now);
      SurvivorsLive(items[1..], now);
      var rest := Survivors(items[1..], now);
      if now <= items[0].1.expiresAt {
        forall j | 0 <= j < |rest| ensures rest[j].0 != items[0].0 {
          assert rest[j] in items[1..];
        }
      }
    }
  }
}
