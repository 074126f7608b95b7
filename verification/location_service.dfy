/** The client-side access path to locations (app/services/locationService.ts):
    read-through caching of the location list, invalidation after writes, and
    cache diagnostics, over the expiring cache of module CacheStore.

    The network is not modelled; each call that talks to the REST API takes
    as a parameter the reply the API would give (`Reply`), and reports whether
    it actually asked. Clock readings are parameters: `now` when the call
    starts, `later` when the network answer arrives, and one parameter per
    reading where a call reads the clock more often. */
module LocationAccess {
  import opened Wrappers
  import opened LocationModel
  import opened CacheStore
  import Text

  const LocationsKey: string := "locations"
  const TravelTimesKey: string := "travel_times"

  /** The list TTL `fetchLocations` uses when the caller gives none: five minutes. */
  const DefaultListTtl: int := 5 * 60 * 1000

  /** The TTL of the travel-time snapshot: thirty minutes. */
  const TravelTimesTtl: int := 30 * 60 * 1000

  /** `location_${id}`: never one of the two list keys. */
  function LocationKey(id: int): (k: string)
    ensures k != LocationsKey && k != TravelTimesKey
  {
    var k := "location_" + Text.IntToString(id);
    assert k[8] == '_' && k[0] == 'l';
    k
  }

  /** What one REST call yields: the envelope `{success: true, data}`, the
      envelope `{success: false, error?}`, or a rejection of `fetch` or of
      `response.json()` carrying its error message. */
  datatype Reply<T> =
    | Success(data: T)
    | Unsuccessful(error: Option<string>)
    | Thrown(message: string)

  /** The message a failed write call rethrows: the server's `error` when it
      is a non-empty string (`result.error || fallback`), otherwise the
      fallback; a rejected `fetch` rethrows its own error. */
  function WriteError<T>(reply: Reply<T>, fallback: string): (m: string)
    requires !reply.Success?
    ensures reply.Thrown? ==> m == reply.message
    ensures reply.Unsuccessful? && Truthy(reply.error) ==> m == reply.error.value
    ensures reply.Unsuccessful? && !Truthy(reply.error) ==> m == fallback
  {
    match reply
    case Thrown(msg) => msg
    case Unsuccessful(e) => if Truthy(e) then e.value else fallback
  }

  /** The error `fetchLocations` rethrows: an unsuccessful envelope becomes
      the fixed message, whatever `error` the server sent. */
  function FetchError<T>(reply: Reply<T>): (m: string)
    requires !reply.Success?
    ensures reply.Unsuccessful? ==> m == "Failed to fetch locations"
    ensures reply.Thrown? ==> m == reply.message
  {
    if reply.Thrown? then reply.message else "Failed to fetch locations"
  }

  /** `cacheTTL = 5 * 60 * 1000` as a destructuring default: only an absent TTL is replaced. */
  function ListTtl(cacheTtl: Option<int>): int
  {
    match cacheTtl
    case Some(v) => v
    case None => DefaultListTtl
  }

  /** The outcome of `fetchLocations`: the value or the error, whether the
      API was asked, and the storage afterwards. */
  datatype Fetched = Fetched(result: Result<seq<Location>, string>, requested: bool, store: Storage<seq<Location>>)

  /** `fetchLocations({useCache, cacheTTL})` as a function of the storage
      (`available` is what the cache's probe finds). */
  function FetchOutcome(available: bool, s: Storage<seq<Location>>, useCache: bool, cacheTtl: Option<int>,
                        now: int, later: int, reply: Reply<seq<Location>>, quotaExceeded: bool): Fetched
  {
    var cached := useCache && available;
    var hit := if cached then Lookup(s, LocationsKey, now) else None;
    var s1 := if cached then AfterLookup(s, LocationsKey, now) else s;
    if hit.Some? then Fetched(Ok(hit.value), false, s1)
    else
      match reply
      case Success(data) =>
        var s2 := if !cached then s1
                  else if quotaExceeded then Probed(s1)
                  else Stored(s1, LocationsKey, data, Some(ListTtl(cacheTtl)), later);
        Fetched(Ok(data), true, s2)
      case _ =>
        var stale := if cached then Lookup(s1, LocationsKey, later) else None;
        var s2 := if cached then AfterLookup(s1, LocationsKey, later) else s1;
        if stale.Some? then Fetched(Ok(stale.value), true, s2)
        else Fetched(Err(FetchError(reply)), true, s2)
  }

  /** A fresh cached list is served without asking the API, an empty list included. */
  lemma FreshHitSkipsNetwork(s: Storage<seq<Location>>, cacheTtl: Option<int>, now: int, later: int,
                             reply: Reply<seq<Location>>, quotaExceeded: bool, e: Entry<seq<Location>>)
    requires StorageKey(LocationsKey) in s && s[StorageKey(LocationsKey)] == Parsed(e) && now <= e.expiresAt
    ensures var f := FetchOutcome(true, s, true, cacheTtl, now, later, reply, quotaExceeded);
            !f.requested && f.result == Ok(e.data) && f.store == Probed(s)
  {
  }

  /** With caching off the storage is neither read nor written, and the API is always asked. */
  lemma CacheOffBypassesStore(available: bool, s: Storage<seq<Location>>, cacheTtl: Option<int>, now: int, later: int,
                              reply: Reply<seq<Location>>, quotaExceeded: bool)
    ensures var f := FetchOutcome(available, s, false, cacheTtl, now, later, reply, quotaExceeded);
            f.requested && f.store == s
            && f.result == if reply.Success? then Ok(reply.data) else Err(FetchError(reply))
  {
  }

  /** The stale fallback never serves anything: a fetch that reaches the API
      and fails always rethrows, because the first `get` has already removed
      whatever entry was there. */
  lemma FailedFetchRethrows(available: bool, s: Storage<seq<Location>>, useCache: bool, cacheTtl: Option<int>,
                            now: int, later: int, reply: Reply<seq<Location>>, quotaExceeded: bool)
    requires !reply.Success?
    ensures var f := FetchOutcome(available, s, useCache, cacheTtl, now, later, reply, quotaExceeded);
            f.requested ==> f.result == Err(FetchError(reply))
  {
    if useCache && available && Lookup(s, LocationsKey, now).None? {
      MissIsFinal(s, LocationsKey, now, later);
    }
  }

  /** A successful fetch on a cold cache stores the list, and a second fetch
      inside the TTL window is served from the cache: two calls, one request. */
  lemma SecondFetchWithinTtlIsCached(s: Storage<seq<Location>>, cacheTtl: Option<int>, now: int, later: int,
                                     data: seq<Location>, now2: int, later2: int, reply2: Reply<seq<Location>>,
                                     quota2: bool)
    requires Lookup(s, LocationsKey, now).None?
    requires later <= now2 <= later + EffectiveTtl(Some(ListTtl(cacheTtl)))
    ensures var f1 := FetchOutcome(true, s, true, cacheTtl, now, later, Success(data), false);
            var f2 := FetchOutcome(true, f1.store, true, cacheTtl, now2, later2, reply2, quota2);
            f1.requested && f1.result == Ok(data) && !f2.requested && f2.result == Ok(data)
  {
    var f1 := FetchOutcome(true, s, true, cacheTtl, now, later, Success(data), false);
    SetThenGet(AfterLookup(s, LocationsKey, now), LocationsKey, data, Some(ListTtl(cacheTtl)), later, now2);
  }

  /** `loc.travelTimeFromPrevious || loc.distanceFromPrevious` */
  predicate HasTravelInfo(x: Location)
  {
    Truthy(x.travelTimeFromPrevious) || Truthy(x.distanceFromPrevious)
  }

  /** The sublist `cacheTravelTimesData` keeps (`filter`): the locations
      with a truthy travel time or a truthy distance. */
  function WithTravelInfo(locs: seq<Location>): (r: seq<Location>)
    ensures |r| <= |locs|
    ensures forall i :: 0 <= i < |r| ==> HasTravelInfo(r[i])
  {
    if locs == [] then []
    else
      var rest := WithTravelInfo(locs[1..]);
      if HasTravelInfo(locs[0]) then [locs[0]] + rest
      else rest
  }

  /** Every annotated location is kept as often as the input has it, and no other. */
  lemma {:induction false} WithTravelInfoCounts(locs: seq<Location>)
    ensures forall x :: multiset(WithTravelInfo(locs))[x] == if HasTravelInfo(x) then multiset(locs)[x] else 0
    decreases |locs|
  {
    if locs != [] {
      WithTravelInfoCounts(locs[1..]);
      assert locs == [locs[0]] + locs[1..];
    }
  }

  /** The filter keeps order: filtering a concatenation is concatenating
      the filtered parts. With `WithTravelInfoSingle` this determines the
      result, a one-element list at a time. */
  lemma {:induction false} WithTravelInfoAppend(a: seq<Location>, b: seq<Location>)
    ensures WithTravelInfo(a + b) == WithTravelInfo(a) + WithTravelInfo(b)
    decreases |a|
  {
    if a != [] {
      var h := if HasTravelInfo(a[0]) then [a[0]] else [];
      assert (a + b)[0] == a[0] && (a + b)[1..] == a[1..] + b;
      assert WithTravelInfo(a) == h + WithTravelInfo(a[1..]);
      assert WithTravelInfo(a + b) == h + WithTravelInfo(a[1..] + b);
      WithTravelInfoAppend(a[1..], b);
    } else {
      assert a + b == b;
    }
  }

  /** A one-element list is kept exactly when its location is annotated. */
  lemma WithTravelInfoSingle(x: Location)
    ensures WithTravelInfo([x]) == if HasTravelInfo(x) then [x] else []
  {
    assert [x][1..] == [];
  }

  /** The storage after the two list keys are invalidated, and after a
      per-location key is invalidated too. */
  function ListsInvalidated(s: Storage<seq<Location>>): Storage<seq<Location>>
  {
    Removed(Removed(s, LocationsKey), TravelTimesKey)
  }

  function LocationInvalidated(s: Storage<seq<Location>>, id: int): Storage<seq<Location>>
  {
    ListsInvalidated(Removed(s, LocationKey(id)))
  }

  /** Invalidation after a write removes exactly the list entry and the
      travel-time entry (and, for update and delete, the location's own
      entry); every other key keeps its value, the probe's key aside. */
  lemma InvalidationRemovesExactly(s: Storage<seq<Location>>, id: int)
    ensures forall k :: k in ListsInvalidated(s) <==>
              k in s && k != ProbeKey && k != StorageKey(LocationsKey) && k != StorageKey(TravelTimesKey)
    ensures forall k :: k in LocationInvalidated(s, id) <==>
              k in ListsInvalidated(s) && k != StorageKey(LocationKey(id))
    ensures forall k :: k in ListsInvalidated(s) ==> ListsInvalidated(s)[k] == s[k]
    ensures forall k :: k in LocationInvalidated(s, id) ==> LocationInvalidated(s, id)[k] == s[k]
  {
  }

  /** One line of `getCacheStatus()`. */
  datatype EntryStatus = NotCached | Cached(ageSeconds: int, expiresInSeconds: int)

  datatype CacheStatus = CacheStatus(locations: EntryStatus, travelTimes: EntryStatus)

  /** An entry's diagnostic line: whole seconds rounded down (`Math.floor`)
      of its age and of the time left until it expires. */
  function StatusOf(info: Option<Info>, now: int): (st: EntryStatus)
    ensures st.Cached? <==> info.Some?
    ensures info.Some? ==> 1000 * st.ageSeconds <= info.value.age < 1000 * st.ageSeconds + 1000
    ensures info.Some? ==> 1000 * st.expiresInSeconds <= info.value.expiresAt - now < 1000 * st.expiresInSeconds + 1000
  {
    match info
    case None => NotCached
    case Some(i) => Cached(i.age / 1000, (i.expiresAt - now) / 1000)
  }

  /** An entry that has expired but has not been read since is still
      reported as cached, with a negative time left, whenever the clock
      reading for the time left is not earlier than the one for the info. */
  lemma ExpiredEntryReportedCached(s: Storage<seq<Location>>, key: string, e: Entry<seq<Location>>, t1: int, t3: int)
    requires StorageKey(key) in s && s[StorageKey(key)] == Parsed(e) && t1 > e.expiresAt && t3 >= t1
    ensures StatusOf(InfoOf(s, key, t1), t3).Cached?
    ensures StatusOf(InfoOf(s, key, t1), t3).expiresInSeconds < 0
  {
    InfoIgnoresExpiry(s, key, e, t1);
  }

  /** Age and time left, read at two instants `t1 <= t3`, add up to at most
      the entry's lifetime in whole seconds; read at one instant they fall
      short of it by less than two seconds. */
  lemma StatusWithinLifetime(s: Storage<seq<Location>>, key: string, e: Entry<seq<Location>>, t1: int, t3: int)
    requires StorageKey(key) in s && s[StorageKey(key)] == Parsed(e) && t1 <= t3
    ensures var st := StatusOf(InfoOf(s, key, t1), t3);
            && st.Cached?
            && 1000 * (st.ageSeconds + st.expiresInSeconds) <= e.expiresAt - e.timestamp
            && (t1 == t3 ==> e.expiresAt - e.timestamp < 1000 * (st.ageSeconds + st.expiresInSeconds) + 2000)
  {
    InfoIgnoresExpiry(s, key, e, t1);
  }

  /** The service object; its one piece of state is the cache it shares with the page. */
  class LocationService {
    const cache: CacheService<seq<Location>>

    constructor (cache: CacheService<seq<Location>>)
      ensures this.cache == cache
    {
      this.cache := cache;
    }

    /** `fetchLocations({useCache, cacheTTL})`. */
    method FetchLocations(useCache: bool, cacheTtl: Option<int>, now: int, later: int,
                          reply: Reply<seq<Location>>, quotaExceeded: bool)
      returns (r: Result<seq<Location>, string>, requested: bool)
      modifies cache
      ensures Fetched(r, requested, cache.store)
              == FetchOutcome(cache.available, old(cache.store), useCache, cacheTtl, now, later, reply, quotaExceeded)
      ensures requested && !reply.Success? ==> r == Err(FetchError(reply))
    {
      if useCache {
        var cached := cache.Get(LocationsKey, now);
        if cached.Some? {
          return Ok(cached.value), false;
        }
      }
      requested := true;
      match reply
      case Success(data) =>
        if useCache {
          var _ := cache.Set(LocationsKey, data, Some(ListTtl(cacheTtl)), later, quotaExceeded);
        }
        r := Ok(data);
      case _ =>
        if useCache {
          if cache.available {
            MissIsFinal(old(cache.store), LocationsKey, now, later);
          }
          var stale := cache.Get(LocationsKey, later);
          if stale.Some? {
            // The source returns the stale list here; the branch is dead
            // because the first `get` already removed any expired entry.
            assert false;
          }
        }
        r := Err(FetchError(reply));
    }

    /** `createLocation(data)`: the request body is the server's business
        (module LocationsRoute); here `reply` is the answer it gives. */
    method CreateLocation(reply: Reply<Location>) returns (r: Result<Location, string>)
      modifies cache
      ensures reply.Success? ==> r == Ok(reply.data)
      ensures reply.Success? && cache.available ==> cache.store == ListsInvalidated(old(cache.store))
      ensures !reply.Success? ==> r == Err(WriteError(reply, "Failed to create location"))
      ensures !(reply.Success? && cache.available) ==> cache.store == old(cache.store)
    {
      if !reply.Success? {
        return Err(WriteError(reply, "Failed to create location"));
      }
      InvalidateLocationsCache();
      r := Ok(reply.data);
    }

    /** `updateLocation(id, partial)`. */
    method UpdateLocation(id: int, reply: Reply<Location>) returns (r: Result<Location, string>)
      modifies cache
      ensures reply.Success? ==> r == Ok(reply.data)
      ensures reply.Success? && cache.available ==> cache.store == LocationInvalidated(old(cache.store), id)
      ensures !reply.Success? ==> r == Err(WriteError(reply, "Failed to update location"))
      ensures !(reply.Success? && cache.available) ==> cache.store == old(cache.store)
    {
      if !reply.Success? {
        return Err(WriteError(reply, "Failed to update location"));
      }
      InvalidateLocationCache(id);
      InvalidateLocationsCache();
      r := Ok(reply.data);
    }

    /** `deleteLocation(id)`: `true` on success. */
    method DeleteLocation<T>(id: int, reply: Reply<T>) returns (r: Result<bool, string>)
      modifies cache
      ensures reply.Success? ==> r == Ok(true)
      ensures reply.Success? && cache.available ==> cache.store == LocationInvalidated(old(cache.store), id)
      ensures !reply.Success? ==> r == Err(WriteError(reply, "Failed to delete location"))
      ensures !(reply.Success? && cache.available) ==> cache.store == old(cache.store)
    {
      if !reply.Success? {
        return Err(WriteError(reply, "Failed to delete location"));
      }
      InvalidateLocationCache(id);
      InvalidateLocationsCache();
      r := Ok(true);
    }

    /** `cacheTravelTimesData(locations)`: stores the annotated sublist for
        thirty minutes, and nothing when no location is annotated. */
    method CacheTravelTimesData(locs: seq<Location>, now: int, quotaExceeded: bool)
      modifies cache
      ensures WithTravelInfo(locs) == [] || !cache.available ==> cache.store == old(cache.store)
      ensures WithTravelInfo(locs) != [] && cache.available && quotaExceeded ==> cache.store == Probed(old(cache.store))
      ensures WithTravelInfo(locs) != [] && cache.available && !quotaExceeded ==>
                cache.store == Stored(old(cache.store), TravelTimesKey, WithTravelInfo(locs), Some(TravelTimesTtl), now)
    {
      var withTimes := WithTravelInfo(locs);
      if |withTimes| > 0 {
        var _ := cache.Set(TravelTimesKey, withTimes, Some(TravelTimesTtl), now, quotaExceeded);
      }
    }

    /** `getCachedTravelTimes()` */
    method GetCachedTravelTimes(now: int) returns (r: Option<seq<Location>>)
      modifies cache
      ensures r == if cache.available then Lookup(old(cache.store), TravelTimesKey, now) else None
      ensures cache.store == if cache.available then AfterLookup(old(cache.store), TravelTimesKey, now) else old(cache.store)
    {
      r := cache.Get(TravelTimesKey, now);
    }

    /** `invalidateLocationsCache()` */
    method InvalidateLocationsCache()
      modifies cache
      ensures cache.store == if cache.available then ListsInvalidated(old(cache.store)) else old(cache.store)
    {
      var _ := cache.Remove(LocationsKey);
      var _ := cache.Remove(TravelTimesKey);
    }

    /** `invalidateLocationCache(id)` */
    method InvalidateLocationCache(id: int)
      modifies cache
      ensures cache.store == if cache.available then Removed(old(cache.store), LocationKey(id)) else old(cache.store)
    {
      var _ := cache.Remove(LocationKey(id));
    }

    /** `clearAllCache()` */
    method ClearAllCache()
      modifies cache
      ensures cache.store == if cache.available then Cleared(old(cache.store)) else old(cache.store)
    {
      var _ := cache.Clear();
    }

    /** `getCacheStatus()`: reads both entries' info, expired or not. Each
        `getCacheInfo` reads the clock (`t1` for the list entry, `t2` for
        the travel-time entry), and each time-left figure reads it again
        (`t3` and `t4`). */
    method GetCacheStatus(t1: int, t2: int, t3: int, t4: int) returns (st: CacheStatus)
      modifies cache
      ensures cache.available ==> st == CacheStatus(StatusOf(InfoOf(old(cache.store), LocationsKey, t1), t3),
                                                    StatusOf(InfoOf(old(cache.store), TravelTimesKey, t2), t4))
      ensures !cache.available ==> st == CacheStatus(NotCached, NotCached)
      ensures cache.store == if cache.available then Probed(old(cache.store)) else old(cache.store)
    {
      var locations := cache.GetCacheInfo(LocationsKey, t1);
      var travelTimes := cache.GetCacheInfo(TravelTimesKey, t2);
      st := CacheStatus(StatusOf(locations, t3), StatusOf(travelTimes, t4));
    }

    /** `preloadData()`: a cached fetch whose failure is swallowed. */
    method PreloadData(now: int, later: int, reply: Reply<seq<Location>>, quotaExceeded: bool)
      modifies cache
      ensures cache.store == FetchOutcome(cache.available, old(cache.store), true, None, now, later, reply, quotaExceeded).store
    {
      var _, _ := FetchLocations(true, None, now, later, reply, quotaExceeded);
    }
  }
}
