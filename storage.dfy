/**
 * A namespaced time-to-live cache over the browser's key/value store. Every
 * entry is kept under `namespace:key` together with its expiry instant (0 for
 * none); reading an expired entry deletes it and yields the fallback. The
 * clock is passed in as `now` (milliseconds).
 */
module Storage {
  /** What the cache stores: the value and its expiry instant, 0 meaning never. */
  datatype Entry<V> = Entry(value: V, expiresAt: int)

  /** `${namespace}:${key}`. */
  function MakeKey(namespace: string, key: string): (k: string)
    ensures |k| == |namespace| + 1 + |key|
    ensures k[..|namespace|] == namespace && k[|namespace|] == ':'
  {
    namespace + ":" + key
  }

  /** The expiry recorded by `set`: `now + ttl` for a positive ttl, otherwise 0. */
  function ExpiresAt(ttl: int, now: int): (e: int)
    ensures ttl <= 0 ==> e == 0
    ensures ttl > 0 ==> e == now + ttl
  {
    if ttl > 0 then now + ttl else 0
  }

  /** The expiry test of `get`: a positive expiry strictly in the past. */
  predicate Expired<V>(e: Entry<V>, now: int)
    ensures e.expiresAt <= 0 ==> !Expired(e, now)
    ensures e.expiresAt > 0 ==> (Expired(e, now) <==> e.expiresAt < now)
  {
    e.expiresAt > 0 && now > e.expiresAt
  }

  /** The store after `set` writes its entry. */
  function Write<V>(items: map<string, Entry<V>>, k: string, value: V, ttl: int, now: int): (r: map<string, Entry<V>>)
    ensures r.Keys == items.Keys + {k}
    ensures r[k].value == value && r[k].expiresAt == ExpiresAt(ttl, now)
    ensures forall j | j in items && j != k :: r[j] == items[j]
  {
    items[k := Entry(value, ExpiresAt(ttl, now))]
  }

  /** What `get` returns for the stored key `k`. */
  function Read<V>(items: map<string, Entry<V>>, k: string, fallback: V, now: int): (r: V)
    ensures k !in items ==> r == fallback
    ensures k in items && Expired(items[k], now) ==> r == fallback
    ensures k in items && !Expired(items[k], now) ==> r == items[k].value
  {
    if k !in items || Expired(items[k], now) then fallback else items[k].value
  }

  /** The store after `get`: an expired entry for `k` is removed. */
  function Evict<V>(items: map<string, Entry<V>>, k: string, now: int): (m: map<string, Entry<V>>)
    ensures k !in m || !Expired(m[k], now)
    ensures forall j | j != k :: (j in m <==> j in items) && (j in m ==> m[j] == items[j])
  {
    if k in items && Expired(items[k], now) then items - {k} else items
  }

  /** The browser's `localStorage`, as far as the cache uses it. */
  class LocalStorage<V> {
    var items: map<string, Entry<V>>

    constructor ()
      ensures items == map[]
    {
      items := map[];
    }
  }

  /** `createCache(namespace)`. */
  class Cache<V> {
    const namespace: string
    const storage: LocalStorage<V>

    constructor (namespace: string, storage: LocalStorage<V>)
      ensures this.namespace == namespace && this.storage == storage
    {
      this.namespace := namespace;
      this.storage := storage;
    }

    /** `set(key, value, ttlMs)`; a failed write (`writeOk` false) is ignored. */
    method Set(key: string, value: V, ttl: int, now: int, writeOk: bool)
      modifies storage
      ensures writeOk ==> storage.items == Write(old(storage.items), MakeKey(namespace, key), value, ttl, now)
      ensures !writeOk ==> storage.items == old(storage.items)
    {
      var data := Entry(value, if ttl > 0 then now + ttl else 0);
      if writeOk {
        storage.items := storage.items[MakeKey(namespace, key) := data];
      }
    }

    /**
     * `get(key, fallback)`. `readOk` is false when reading or parsing the
     * stored text, or removing an expired entry, throws: the exception is
     * swallowed, the fallback is returned and nothing is removed.
     */
    method Get(key: string, fallback: V, now: int, readOk: bool) returns (r: V)
      modifies storage
      ensures readOk ==> r == Read(old(storage.items), MakeKey(namespace, key), fallback, now)
      ensures readOk ==> storage.items == Evict(old(storage.items), MakeKey(namespace, key), now)
      ensures !readOk ==> r == fallback && storage.items == old(storage.items)
    {
      if !readOk {
        return fallback;
      }
      var k := MakeKey(namespace, key);
      if k !in storage.items {
        return fallback;
      }
      var data := storage.items[k];
      if data.expiresAt > 0 && now > data.expiresAt {
        storage.items := storage.items - {k};
        return fallback;
      }
      return data.value;
    }

    /** `clear(key)`; `removeOk` is false when `removeItem` throws, which is swallowed and removes nothing. */
    method Clear(key: string, removeOk: bool)
      modifies storage
      ensures removeOk ==> storage.items == old(storage.items) - {MakeKey(namespace, key)}
      ensures !removeOk ==> storage.items == old(storage.items)
    {
      if removeOk {
        storage.items := storage.items - {MakeKey(namespace, key)};
      }
    }
  }

  /** An entry written without a positive ttl never expires. */
  lemma NoTtlNeverExpires<V>(items: map<string, Entry<V>>, k: string, v: V, ttl: int, t: int, now: int, fallback: V)
    requires ttl <= 0
    ensures Read(Write(items, k, v, ttl, t), k, fallback, now) == v
    ensures Evict(Write(items, k, v, ttl, t), k, now) == Write(items, k, v, ttl, t)
  {
  }

  /** An entry written at `t` with a positive ttl is read back until `t + ttl` inclusive. */
  lemma SetThenGet<V>(items: map<string, Entry<V>>, k: string, v: V, ttl: int, t: int, now: int, fallback: V)
    requires ttl > 0 && now <= t + ttl
    ensures Read(Write(items, k, v, ttl, t), k, fallback, now) == v
  {
  }

  /**
   * Past its expiry an entry yields the fallback and is deleted, so every later
   * read of it yields the fallback too.
   */
  lemma ExpiredIsGone<V>(items: map<string, Entry<V>>, k: string, v: V, ttl: int, t: int, now: int, later: int, fallback: V)
    requires ttl > 0 && t + ttl > 0 && now > t + ttl
    ensures Read(Write(items, k, v, ttl, t), k, fallback, now) == fallback
    ensures k !in Evict(Write(items, k, v, ttl, t), k, now)
    ensures Read(Evict(Write(items, k, v, ttl, t), k, now), k, fallback, later) == fallback
  {
  }

  /** The last write to a key wins. */
  lemma LastWriteWins<V>(items: map<string, Entry<V>>, k: string, v1: V, v2: V, ttl1: int, ttl2: int, t1: int, t2: int)
    ensures Write(Write(items, k, v1, ttl1, t1), k, v2, ttl2, t2) == Write(items, k, v2, ttl2, t2)
  {
  }

  /** Writing, reading or clearing one key leaves every other key's reads alone. */
  lemma OtherKeysUntouched<V>(items: map<string, Entry<V>>, k: string, j: string, v: V, ttl: int, t: int, now: int, fallback: V)
    requires j != k
    ensures Read(Write(items, k, v, ttl, t), j, fallback, now) == Read(items, j, fallback, now)
    ensures Read(Evict(items, k, t), j, fallback, now) == Read(items, j, fallback, now)
    ensures Read(items - {k}, j, fallback, now) == Read(items, j, fallback, now)
  {
  }

  /** After `clear(key)` a read yields the fallback. */
  lemma ClearedIsGone<V>(items: map<string, Entry<V>>, k: string, now: int, fallback: V)
    ensures Read(items - {k}, k, fallback, now) == fallback
  {
  }

  /** Caches whose namespaces differ and contain no colon never share a stored key. */
  lemma NamespacesIsolated(ns1: string, ns2: string, k1: string, k2: string)
    requires ns1 != ns2
    requires ':' !in ns1 && ':' !in ns2
    ensures MakeKey(ns1, k1) != MakeKey(ns2, k2)
  {
  }

  /** With a colon inside a namespace, two caches can address the same entry. */
  lemma NamespacesWithColonCollide()
    ensures MakeKey("a", "b:c") == MakeKey("a:b", "c")
  {
  }
}
