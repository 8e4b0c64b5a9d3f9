/** The bounded time-to-live cache of `scrapers/cache.js`: a JavaScript `Map`
    from keys to timestamped entries, expired lazily on `get` and trimmed
    oldest-first on `set`.  `Date.now()` is the explicit argument `now`. */
module Cache {
  import opened Wrappers
  import opened Seqs

  /** A JavaScript `Map`: its keys in insertion order and what each maps to.
      Writing an existing key keeps its place; deleting a key and writing it
      again puts it last. */
  datatype OrderedMap<K, V> = OrderedMap(keys: seq<K>, values: map<K, V>)

  /** The keys listed are exactly the keys mapped, each listed once. */
  ghost predicate WellFormed<K(!new), V>(m: OrderedMap<K, V>)
  {
    Distinct(m.keys) && forall k :: k in m.values <==> k in m.keys
  }

  function EmptyMap<K(!new), V>(): (m: OrderedMap<K, V>)
    ensures WellFormed(m) && Size(m) == 0
  {
    OrderedMap([], map[])
  }

  /** `m.size`. */
  function Size<K(!new), V>(m: OrderedMap<K, V>): nat
  {
    |m.keys|
  }

  /** `m.get(k)`, `None` for a missing key. */
  function MapGet<K(!new), V>(m: OrderedMap<K, V>, k: K): Option<V>
  {
    if k in m.values then Some(m.values[k]) else None
  }

  /** `keys` without `k`, the others in their order. */
  function RemoveKey<K(==,!new)>(keys: seq<K>, k: K): (r: seq<K>)
    ensures forall x :: x in r <==> x in keys && x != k
    ensures Distinct(keys) ==> Distinct(r)
    ensures Distinct(keys) && k in keys ==> |r| == |keys| - 1
    ensures k !in keys ==> r == keys
    decreases |keys|
  {
    if keys == [] then []
    else if keys[0] == k then RemoveKey(keys[1..], k)
    else
      var rest := RemoveKey(keys[1..], k);
      assert Distinct(keys) ==> Distinct([keys[0]] + rest) by {
        if Distinct(keys) {
          forall i, j | 0 <= i < j < |[keys[0]] + rest| ensures ([keys[0]] + rest)[i] != ([keys[0]] + rest)[j] {
            if i == 0 {
              assert ([keys[0]] + rest)[j] in keys[1..];
              DistinctHeadNotInTail(keys);
            } else {
              assert ([keys[0]] + rest)[i] == rest[i - 1] && ([keys[0]] + rest)[j] == rest[j - 1];
            }
          }
        }
      }
      [keys[0]] + rest
  }

  lemma DistinctHeadNotInTail<K>(keys: seq<K>)
    requires Distinct(keys) && keys != []
    ensures keys[0] !in keys[1..]
  {
    forall i | 0 <= i < |keys| - 1 ensures keys[1..][i] != keys[0] {
      assert keys[1..][i] == keys[i + 1];
    }
  }

  /** Removing the first key of a list without repetitions drops its head. */
  lemma RemoveHead<K(!new)>(keys: seq<K>)
    requires Distinct(keys) && keys != []
    ensures RemoveKey(keys, keys[0]) == keys[1..]
  {
    DistinctHeadNotInTail(keys);
  }

  /** `m.delete(k)`: the key and its value go, the others keep their order. */
  function MapDelete<K(!new), V>(m: OrderedMap<K, V>, k: K): (r: OrderedMap<K, V>)
    requires WellFormed(m)
    ensures WellFormed(r)
    ensures MapGet(r, k).None?
    ensures forall x :: x != k ==> MapGet(r, x) == MapGet(m, x)
    ensures Size(r) == if k in m.values then Size(m) - 1 else Size(m)
  {
    OrderedMap(RemoveKey(m.keys, k), m.values - {k})
  }

  /** `m.set(k, v)`: an existing key keeps its place, a new one goes last. */
  function MapSet<K(!new), V>(m: OrderedMap<K, V>, k: K, v: V): (r: OrderedMap<K, V>)
    requires WellFormed(m)
    ensures WellFormed(r)
    ensures MapGet(r, k) == Some(v)
    ensures forall x :: x != k ==> MapGet(r, x) == MapGet(m, x)
    ensures k in m.values ==> r.keys == m.keys
    ensures k !in m.values ==> r.keys == m.keys + [k]
  {
    if k in m.values then OrderedMap(m.keys, m.values[k := v])
    else
      var keys := m.keys + [k];
      forall i, j | 0 <= i < j < |keys| ensures keys[i] != keys[j] {
        if j == |m.keys| { assert keys[i] == m.keys[i]; } else { assert keys[i] == m.keys[i] && keys[j] == m.keys[j]; }
      }
      OrderedMap(keys, m.values[k := v])
  }

  /** A stored value and the time it was written. */
  datatype Entry<V> = Entry(value: V, timestamp: int)

  /** `now - entry.timestamp > ttlMs`: an entry exactly `ttlMs` old is still
      fresh. */
  predicate Expired<V>(e: Entry<V>, now: int, ttlMs: int)
  {
    now - e.timestamp > ttlMs
  }

  /** The store before the write in `set`: when it holds `max` entries or
      more, its first-inserted key is deleted. */
  function Evict<K(!new), V>(store: OrderedMap<K, V>, max: int): (r: OrderedMap<K, V>)
    requires WellFormed(store)
    ensures WellFormed(r)
  {
    if Size(store) >= max && store.keys != [] then MapDelete(store, store.keys[0]) else store
  }

  /** The store after `set(key, value)` at time `now`. */
  function AfterSet<K(!new), V>(store: OrderedMap<K, Entry<V>>, max: int, key: K, value: V, now: int): (r: OrderedMap<K, Entry<V>>)
    requires WellFormed(store)
    ensures WellFormed(r)
  {
    MapSet(Evict(store, max), key, Entry(value, now))
  }

  class TTLCache<K(==,!new), V> {
    var ttlMs: int
    var max: int
    var store: OrderedMap<K, Entry<V>>

    ghost predicate Valid()
      reads this
    {
      WellFormed(store)
    }

    /** `new TTLCache({ ttlMs, max })`; an absent option takes its default,
        five minutes and 200 entries. */
    constructor(ttlMs: Option<int>, max: Option<int>)
      ensures Valid()
      ensures this.ttlMs == ttlMs.GetOr(5 * 60 * 1000) && this.max == max.GetOr(200)
      ensures store == EmptyMap()
    {
      this.ttlMs := ttlMs.GetOr(5 * 60 * 1000);
      this.max := max.GetOr(200);
      store := EmptyMap();
    }

    /** `get(key)` at time `now`. */
    method Get(key: K, now: int) returns (r: Option<V>)
      requires Valid()
      modifies this`store
      ensures Valid()
      ensures MapGet(old(store), key).None? ==> r.None? && store == old(store)
      ensures MapGet(old(store), key).Some? && Expired(MapGet(old(store), key).value, now, ttlMs) ==>
        r.None? && store == MapDelete(old(store), key)
      ensures MapGet(old(store), key).Some? && !Expired(MapGet(old(store), key).value, now, ttlMs) ==>
        r == Some(MapGet(old(store), key).value.value) && store == old(store)
    {
      var entry := MapGet(store, key);
      if entry.None? {
        return None;
      }
      if now - entry.value.timestamp > ttlMs {
        store := MapDelete(store, key);
        return None;
      }
      return Some(entry.value.value);
    }

    /** `set(key, value)` at time `now`. */
    method Set(key: K, value: V, now: int)
      requires Valid()
      modifies this`store
      ensures Valid()
      ensures store == AfterSet(old(store), max, key, value, now)
    {
      if Size(store) >= max {
        var oldest := if store.keys != [] then Some(store.keys[0]) else None;
        if oldest.Some? {
          store := MapDelete(store, oldest.value);
        }
      }
      store := MapSet(store, key, Entry(value, now));
    }

    /** `clear()`. */
    method Clear()
      modifies this`store
      ensures Valid()
      ensures store == EmptyMap()
    {
      store := EmptyMap();
    }
  }

  /** With `max >= 1` the store never grows past `max`. */
  lemma SetKeepsBound<K(!new), V>(store: OrderedMap<K, Entry<V>>, max: int, key: K, value: V, now: int)
    requires WellFormed(store) && 1 <= max && Size(store) <= max
    ensures Size(AfterSet(store, max, key, value, now)) <= max
  {
    var evicted := Evict(store, max);
    assert Size(evicted) < max || key in evicted.values;
  }

  /** With `max <= 0` every `set` first empties a one-entry store, so the
      store still ends with exactly one entry. */
  lemma SetWithZeroMax<K(!new), V>(store: OrderedMap<K, Entry<V>>, max: int, key: K, value: V, now: int)
    requires WellFormed(store) && max <= 0 && Size(store) <= 1
    ensures Size(AfterSet(store, max, key, value, now)) == 1
  {
    assert Size(Evict(store, max)) == 0;
    assert Evict(store, max).keys == [];
    assert key !in Evict(store, max).values;
  }

  /** A full store loses exactly its first-inserted key, even when that is
      the key being written: that key then comes back last. */
  lemma SetEvictsOldest<K(!new), V>(store: OrderedMap<K, Entry<V>>, max: int, key: K, value: V, now: int)
    requires WellFormed(store) && Size(store) >= max && store.keys != []
    ensures key != store.keys[0] ==> MapGet(AfterSet(store, max, key, value, now), store.keys[0]).None?
    ensures key == store.keys[0] ==> AfterSet(store, max, key, value, now).keys == store.keys[1..] + [key]
    ensures forall x :: x != key && x != store.keys[0] ==> MapGet(AfterSet(store, max, key, value, now), x) == MapGet(store, x)
  {
    RemoveHead(store.keys);
  }

  /** Below capacity nothing is evicted; every other key keeps its entry. */
  lemma SetBelowCapacity<K(!new), V>(store: OrderedMap<K, Entry<V>>, max: int, key: K, value: V, now: int)
    requires WellFormed(store) && Size(store) < max
    ensures forall x :: x != key ==> MapGet(AfterSet(store, max, key, value, now), x) == MapGet(store, x)
  {
  }

  /** Re-setting a key below capacity refreshes its entry but keeps its
      place, so eviction order follows first insertion, not last write. */
  lemma ResetKeepsPosition<K(!new), V>(store: OrderedMap<K, Entry<V>>, max: int, key: K, value: V, now: int)
    requires WellFormed(store) && Size(store) < max && key in store.values
    ensures AfterSet(store, max, key, value, now).keys == store.keys
    ensures MapGet(AfterSet(store, max, key, value, now), key) == Some(Entry(value, now))
  {
  }

  /** Right after `set(key, value)` at `now`, `get(key)` at `now` finds a
      fresh entry holding `value` (for a non-negative TTL). */
  lemma SetThenGet<K(!new), V>(store: OrderedMap<K, Entry<V>>, max: int, ttlMs: int, key: K, value: V, now: int)
    requires WellFormed(store) && ttlMs >= 0
    ensures MapGet(AfterSet(store, max, key, value, now), key).Some?
    ensures MapGet(AfterSet(store, max, key, value, now), key).value.value == value
    ensures !Expired(MapGet(AfterSet(store, max, key, value, now), key).value, now, ttlMs)
  {
  }

  /** The size is the number of keys mapped. */
  lemma SizeIsCount<K(!new), V>(m: OrderedMap<K, V>)
    requires WellFormed(m)
    ensures Size(m) == |m.values.Keys|
  {
    DistinctCard(m.keys);
    assert Elems(m.keys) == m.values.Keys;
  }
}
