/** The namespaced expiring cache laid over the browser's `localStorage`
    (app/services/cacheService.ts).

    `localStorage` is a string-to-string map. The model keeps it as a map
    from storage key to `Raw`: the result `JSON.parse` would give for the
    stored text, either a well-formed cache entry or text that does not parse.
    `Date.now()` is the `now` argument of each call that reads it once; the
    sweep, which reads it once per key, takes one reading per key. Whether the storage
    accepts writes at all (private browsing, disabled storage) is the
    `available` flag that the availability probe reads. */
module CacheStore {
  import opened Wrappers

  /** Every key the cache owns starts with this prefix. */
  const Prefix: string := "mallorca_cache_"

  /** The key the availability probe writes and immediately removes. */
  const ProbeKey: string := "__localStorage_test__"

  /** Five minutes, in milliseconds. */
  const DefaultTtl: int := 5 * 60 * 1000

  datatype Entry<T> = Entry(data: T, timestamp: int, expiresAt: int)

  /** What a stored string parses to. */
  datatype Raw<T> = Parsed(entry: Entry<T>) | Corrupt

  /** The diagnostic record `getCacheInfo` returns. */
  datatype Info = Info(timestamp: int, expiresAt: int, age: int)

  type Storage<T> = map<string, Raw<T>>

  /** `key.startsWith(storagePrefix)` */
  predicate HasPrefix(k: string)
  {
    |Prefix| <= |k| && k[..|Prefix|] == Prefix
  }

  /** `generateKey`: the storage key of a cache key lies in the cache's
      namespace, gives the cache key back when the prefix is stripped, and is
      never the probe's key. */
  function StorageKey(key: string): (k: string)
    ensures HasPrefix(k) && k[|Prefix|..] == key
    ensures k != ProbeKey
  {
    assert (Prefix + key)[0] == 'm';
    Prefix + key
  }

  /** `key.replace(storagePrefix, '')` on a key that starts with the prefix:
      the first occurrence of the prefix is the one at offset 0, so this
      strips it, and generating the key again gives back the same key. */
  function PlainKey(k: string): (key: string)
    requires HasPrefix(k)
    ensures StorageKey(key) == k && |key| == |k| - |Prefix|
  {
    assert k == k[..|Prefix|] + k[|Prefix|..];
    k[|Prefix|..]
  }

  lemma ProbeKeyOutsideNamespace()
    ensures !HasPrefix(ProbeKey)
  {
    assert ProbeKey[0] != Prefix[0];
  }

  /** `options.ttl || defaultTTL`: an absent or zero TTL (the falsy numbers)
      falls back to five minutes, any other TTL, negative ones included, is
      used as given. */
  function EffectiveTtl(ttl: Option<int>): (t: int)
    ensures ttl.None? || ttl == Some(0) ==> t == DefaultTtl
    ensures ttl.Some? && ttl.value != 0 ==> t == ttl.value
  {
    match ttl
    case Some(v) => if v != 0 then v else DefaultTtl
    case None => DefaultTtl
  }

  /** A stored value that `get` would discard: unparseable, or past its
      expiry time (the comparison is strict: at `expiresAt` it is still live). */
  predicate Stale<T>(r: Raw<T>, now: int)
  {
    r.Corrupt? || now > r.entry.expiresAt
  }

  /** The storage after a successful availability probe. */
  function Probed<T>(s: Storage<T>): Storage<T>
  {
    s - {ProbeKey}
  }

  /** The storage after `set(key, data, {ttl})` succeeds at time `now`. */
  function Stored<T>(s: Storage<T>, key: string, data: T, ttl: Option<int>, now: int): Storage<T>
  {
    Probed(s)[StorageKey(key) := Parsed(Entry(data, now, now + EffectiveTtl(ttl)))]
  }

  /** What `get(key)` returns on available storage. */
  function Lookup<T>(s: Storage<T>, key: string, now: int): Option<T>
  {
    var k := StorageKey(key);
    if k !in s || Stale(s[k], now) then None else Some(s[k].entry.data)
  }

  /** The storage after `get(key)` on available storage: a stale entry is gone. */
  function AfterLookup<T>(s: Storage<T>, key: string, now: int): Storage<T>
  {
    var k := StorageKey(key);
    if k in s && Stale(s[k], now) then Probed(s) - {k} else Probed(s)
  }

  /** The storage after `remove(key)` on available storage. */
  function Removed<T>(s: Storage<T>, key: string): Storage<T>
  {
    Probed(s) - {StorageKey(key)}
  }

  function PrefixedKeys<T>(s: Storage<T>): set<string>
  {
    set k | k in s && HasPrefix(k)
  }

  /** The storage after `clear()` on available storage. */
  function Cleared<T>(s: Storage<T>): Storage<T>
  {
    Probed(s) - PrefixedKeys(s)
  }

  /** What `isExpired(key)` returns on available storage. */
  predicate ExpiredOrAbsent<T>(s: Storage<T>, key: string, now: int)
  {
    var k := StorageKey(key);
    k !in s || Stale(s[k], now)
  }

  /** What `getCacheInfo(key)` returns on available storage: no expiry check. */
  function InfoOf<T>(s: Storage<T>, key: string, now: int): Option<Info>
  {
    var k := StorageKey(key);
    if k !in s || s[k].Corrupt? then None
    else Some(Info(s[k].entry.timestamp, s[k].entry.expiresAt, now - s[k].entry.timestamp))
  }

  /** The keys `cleanupExpired()` removes: the cache's own keys whose value
      is stale at the clock reading `at(k)` taken when key `k` is judged. */
  function StaleKeys<T>(s: Storage<T>, at: string -> int): set<string>
  {
    set k | k in s && HasPrefix(k) && Stale(s[k], at(k))
  }

  /** The storage after `cleanupExpired()` on available storage. */
  function Swept<T>(s: Storage<T>, at: string -> int): Storage<T>
  {
    Probed(s) - StaleKeys(s, at)
  }

  /** A value written with `set` is read back by `get` until its expiry time
      and not after it; in particular, read back at the same instant, it is
      returned exactly when the effective TTL is not negative. */
  lemma SetThenGet<T>(s: Storage<T>, key: string, data: T, ttl: Option<int>, now: int, later: int)
    ensures Lookup(Stored(s, key, data, ttl, now), key, later)
            == if later <= now + EffectiveTtl(ttl) then Some(data) else None
    ensures Lookup(Stored(s, key, data, ttl, now), key, now) == Some(data) <==> EffectiveTtl(ttl) >= 0
  {
  }

  /** `set` under one key leaves every other cache key as it was. */
  lemma SetIsolated<T>(s: Storage<T>, key: string, other: string, data: T, ttl: Option<int>, now: int, later: int)
    requires other != key
    ensures Lookup(Stored(s, key, data, ttl, now), other, later) == Lookup(s, other, later)
  {
    assert StorageKey(key)[|Prefix|..] != StorageKey(other)[|Prefix|..];
  }

  /** On a well-formed entry `get` returns the data up to and including the
      expiry instant, and past it returns nothing and deletes the entry. */
  lemma ExpiryBoundary<T>(s: Storage<T>, key: string, e: Entry<T>, now: int)
    requires StorageKey(key) in s && s[StorageKey(key)] == Parsed(e)
    ensures Lookup(s, key, now) == None <==> now > e.expiresAt
    ensures StorageKey(key) !in AfterLookup(s, key, now) <==> now > e.expiresAt
    ensures Lookup(s, key, e.expiresAt) == Some(e.data)
  {
  }

  /** An unparseable entry behaves as an absent one everywhere: `get` drops
      it and returns nothing, `isExpired` says expired, `getCacheInfo` says nothing. */
  lemma CorruptIsAbsent<T>(s: Storage<T>, key: string, now: int)
    requires StorageKey(key) in s && s[StorageKey(key)].Corrupt?
    ensures Lookup(s, key, now) == None && StorageKey(key) !in AfterLookup(s, key, now)
    ensures ExpiredOrAbsent(s, key, now)
    ensures InfoOf(s, key, now) == None
  {
  }

  /** A miss is final within one sequential run: once `get` has returned
      nothing, no later `get` of the same key, at any time, finds anything. */
  lemma MissIsFinal<T>(s: Storage<T>, key: string, now: int, later: int)
    requires Lookup(s, key, now) == None
    ensures StorageKey(key) !in AfterLookup(s, key, now)
    ensures Lookup(AfterLookup(s, key, now), key, later) == None
  {
  }

  /** `getCacheInfo` reports an entry whether or not it has expired, with its
      age measured from the write. */
  lemma InfoIgnoresExpiry<T>(s: Storage<T>, key: string, e: Entry<T>, now: int)
    requires StorageKey(key) in s && s[StorageKey(key)] == Parsed(e)
    ensures InfoOf(s, key, now) == Some(Info(e.timestamp, e.expiresAt, now - e.timestamp))
  {
  }

  /** `clear()` keeps exactly the keys outside the namespace (but for the
      probe's own key), each with its value. */
  lemma ClearedExactly<T>(s: Storage<T>)
    ensures forall k :: k in Cleared(s) <==> k in s && k != ProbeKey && !HasPrefix(k)
    ensures forall k :: k in Cleared(s) ==> Cleared(s)[k] == s[k]
  {
  }

  /** `cleanupExpired()` keeps every fresh cache entry and every key outside
      the namespace (but for the probe's own key), values untouched, leaves no
      stale cache entry behind, and the count it returns is the number of keys
      it removed. */
  lemma SweptExactly<T>(s: Storage<T>, at: string -> int)
    ensures forall k :: k in Swept(s, at) <==> k in s && k != ProbeKey && !(HasPrefix(k) && Stale(s[k], at(k)))
    ensures forall k :: k in Swept(s, at) ==> Swept(s, at)[k] == s[k]
    ensures StaleKeys(Swept(s, at), at) == {}
    ensures |Swept(s, at)| + |StaleKeys(s, at)| == |Probed(s)|
  {
    var p, x := Probed(s).Keys, StaleKeys(s, at);
    ProbeKeyOutsideNamespace();
    assert x <= p;
    assert Swept(s, at).Keys == p - x;
    assert p == (p - x) + x;
    assert |p| == |p - x| + |x|;
  }

  /** Whatever the order of the sweep, with every reading between `start`
      and `end`: a cache entry already stale at `start` is removed, and one
      still live at `end` is kept with its value. An entry that expires in
      between goes or stays with the reading taken for it. */
  lemma SweepBetween<T>(s: Storage<T>, at: string -> int, start: int, end: int)
    requires forall k :: start <= at(k) <= end
    ensures forall k :: k in s && HasPrefix(k) && Stale(s[k], start) ==> k !in Swept(s, at)
    ensures forall k :: k in s && HasPrefix(k) && !Stale(s[k], end) ==> k in Swept(s, at) && Swept(s, at)[k] == s[k]
  {
    ProbeKeyOutsideNamespace();
  }

  /** One step of the sweep: judging key `k` of the snapshot `s0` while the
      keys still `todo` are those not yet judged. */
  lemma JudgeKey<T>(s0: Storage<T>, at: string -> int, todo: set<string>, k: string)
    requires k in todo && todo <= s0.Keys && ProbeKey !in s0
    ensures var stale, cur := StaleKeys(s0, at), s0 - (StaleKeys(s0, at) - todo);
            && k in cur && cur[k] == s0[k] && Probed(cur) == cur
            && (k in stale <==> HasPrefix(k) && Stale(s0[k], at(k)))
            && (HasPrefix(k) ==> (ExpiredOrAbsent(cur, PlainKey(k), at(k)) <==> k in stale))
            && (k in stale ==> Removed(cur, PlainKey(k)) == s0 - (stale - (todo - {k}))
                               && |stale - (todo - {k})| == |stale - todo| + 1)
            && (k !in stale ==> stale - (todo - {k}) == stale - todo)
  {
    var stale := StaleKeys(s0, at);
    ProbedWithoutProbeKey(s0, stale - todo);
    if k in stale {
      SweepStep(stale, todo, k);
      RemoveOneMore(s0, stale - todo, k);
    } else {
      SweepSkip(stale, todo, k);
    }
  }

  /** The probe's key is outside the namespace, so the sweep of the probed
      storage removes the same keys. */
  lemma SweepFinish<T>(s: Storage<T>, at: string -> int)
    ensures StaleKeys(Probed(s), at) == StaleKeys(s, at)
    ensures |StaleKeys(Probed(s), at) - {}| == |StaleKeys(s, at)|
    ensures Probed(s) - (StaleKeys(Probed(s), at) - {}) == Swept(s, at)
  {
    ProbeKeyOutsideNamespace();
    assert StaleKeys(Probed(s), at) - {} == StaleKeys(s, at);
  }

  lemma SweepStep(stale: set<string>, todo: set<string>, k: string)
    requires k in todo && k in stale
    ensures stale - (todo - {k}) == (stale - todo) + {k}
    ensures |stale - (todo - {k})| == |stale - todo| + 1
  {
    assert k !in stale - todo;
  }

  lemma ProbedWithoutProbeKey<T>(s0: Storage<T>, gone: set<string>)
    requires ProbeKey !in s0
    ensures Probed(s0 - gone) == s0 - gone
  {
  }

  lemma RemoveOneMore<T>(s0: Storage<T>, gone: set<string>, k: string)
    requires ProbeKey !in s0
    ensures Probed(s0 - gone) - {k} == s0 - (gone + {k})
  {
  }

  lemma SweepSkip(stale: set<string>, todo: set<string>, k: string)
    requires k !in stale
    ensures stale - (todo - {k}) == stale - todo
  {
  }

  /** A class over the storage map: the fields are the storage itself and the
      availability the probe finds. */
  class CacheService<T> {
    var store: Storage<T>
    const available: bool

    constructor (available: bool, store: Storage<T>)
      ensures this.available == available && this.store == store
    {
      this.available := available;
      this.store := store;
    }

    /** `isLocalStorageAvailable()`: write the probe key, remove it again. */
    method Probe() returns (ok: bool)
      modifies this
      ensures ok == available
      ensures store == if available then Probed(old(store)) else old(store)
    {
      if !available {
        return false;
      }
      store := store[ProbeKey := Corrupt];
      store := store - {ProbeKey};
      ok := true;
    }

    /** `set(key, data, {ttl})`. A write the storage refuses (a full quota)
        is caught and reported as `false`, as is unavailable storage. */
    method Set(key: string, data: T, ttl: Option<int>, now: int, quotaExceeded: bool) returns (ok: bool)
      modifies this
      ensures ok <==> available && !quotaExceeded
      ensures !available ==> store == old(store)
      ensures available && quotaExceeded ==> store == Probed(old(store))
      ensures ok ==> store == Stored(old(store), key, data, ttl, now)
    {
      var up := Probe();
      if !up {
        return false;
      }
      if quotaExceeded {
        return false;
      }
      store := store[StorageKey(key) := Parsed(Entry(data, now, now + EffectiveTtl(ttl)))];
      ok := true;
    }

    /** `get(key)`: a stale or unparseable entry is removed and reported absent. */
    method Get(key: string, now: int) returns (r: Option<T>)
      modifies this
      ensures r == if available then Lookup(old(store), key, now) else None
      ensures store == if available then AfterLookup(old(store), key, now) else old(store)
    {
      var up := Probe();
      if !up {
        return None;
      }
      var k := StorageKey(key);
      if k !in store {
        return None;
      }
      match store[k]
      case Corrupt =>
        var _ := Remove(key);
        return None;
      case Parsed(e) =>
        if now > e.expiresAt {
          var _ := Remove(key);
          return None;
        }
        return Some(e.data);
    }

    /** `remove(key)`: idempotent. */
    method Remove(key: string) returns (ok: bool)
      modifies this
      ensures ok == available
      ensures store == if available then Removed(old(store), key) else old(store)
    {
      var up := Probe();
      if !up {
        return false;
      }
      store := store - {StorageKey(key)};
      ok := true;
    }

    /** `clear()`: walks a snapshot of all storage keys and removes those in
        the cache's namespace. */
    method Clear() returns (ok: bool)
      modifies this
      ensures ok == available
      ensures store == if available then Cleared(old(store)) else old(store)
    {
      var up := Probe();
      if !up {
        return false;
      }
      ghost var s0 := store;
      var todo := store.Keys;
      while todo != {}
        invariant todo <= s0.Keys
        invariant store == s0 - (PrefixedKeys(s0) - todo)
        decreases todo
      {
        var k :| k in todo;
        if HasPrefix(k) {
          store := store - {k};
        }
        todo := todo - {k};
      }
      ProbeKeyOutsideNamespace();
      assert PrefixedKeys(s0) == PrefixedKeys(old(store));
      ok := true;
    }

    /** `isExpired(key)`: absent, unparseable and past-expiry all count as expired. */
    method IsExpired(key: string, now: int) returns (expired: bool)
      modifies this
      ensures expired == (!available || ExpiredOrAbsent(old(store), key, now))
      ensures store == if available then Probed(old(store)) else old(store)
    {
      var up := Probe();
      if !up {
        return true;
      }
      var k := StorageKey(key);
      if k !in store {
        return true;
      }
      match store[k]
      case Corrupt =>
        return true;
      case Parsed(e) =>
        return now > e.expiresAt;
    }

    /** `getCacheInfo(key)`: reads without checking expiry and removes nothing. */
    method GetCacheInfo(key: string, now: int) returns (r: Option<Info>)
      modifies this
      ensures r == if available then InfoOf(old(store), key, now) else None
      ensures store == if available then Probed(old(store)) else old(store)
    {
      var up := Probe();
      if !up {
        return None;
      }
      var k := StorageKey(key);
      if k !in store {
        return None;
      }
      match store[k]
      case Corrupt =>
        return None;
      case Parsed(e) =>
        return Some(Info(e.timestamp, e.expiresAt, now - e.timestamp));
    }

    /** `cleanupExpired()`: walks a snapshot of all storage keys and, for each
        cache key that `isExpired` reports, removes it and counts it. Each
        `isExpired` reads the clock afresh: `at(k)` is its reading for key `k`. */
    method CleanupExpired(at: string -> int) returns (cleaned: nat)
      modifies this
      ensures !available ==> cleaned == 0 && store == old(store)
      ensures available ==> cleaned == |StaleKeys(old(store), at)| && store == Swept(old(store), at)
    {
      var up := Probe();
      if !up {
        return 0;
      }
      ghost var s0 := store;
      ghost var stale := StaleKeys(s0, at);
      cleaned := 0;
      var todo := store.Keys;
      while todo != {}
        invariant todo <= s0.Keys && ProbeKey !in s0
        invariant store == s0 - (stale - todo)
        invariant cleaned == |stale - todo|
        decreases todo
      {
        var k :| k in todo;
        JudgeKey(s0, at, todo, k);
        if HasPrefix(k) {
          var plain := PlainKey(k);
          var expired := IsExpired(plain, at(k));
          if expired {
            var _ := Remove(plain);
            cleaned := cleaned + 1;
          }
        }
        todo := todo - {k};
      }
      SweepFinish(old(store), at);
    }
  }
}
